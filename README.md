# Vermouth blend calculator — Dafny model

This project models the calculation core of a vermouth blend calculator. The
calculator mixes a base wine, an herbal maceration and a hydro-alcoholic
reinforcing solution, each given as a volume and an ABV (alcohol by volume,
% v/v), with a mass of sugar that is counted as syrup. From these it derives:

- the final volume,
- the final ABV,
- the sugar concentration in g/L, its Brix and its sweetness label,
- the share of wine in the blend,
- whether that share is under the 75 % many regulations require of a vermouth.

Two modules, one per part of the core:

- `SugarClassification` (`sugar_classification.dfy`): the table of six
  half-open ranges `[low, high)` with their labels, and the first-match lookup
  that falls back to `"sin clasificar"`. The lookup is written over any table
  (`FirstMatchLabel`). "No gaps, no overlaps" is proved for every contiguous
  table and then applied to the sugar table.
- `VermouthBlend` (`vermouth_blend.dfy`): the unit choice (mL or L), the syrup
  constant, and the blend computation `Compute`. In the source this
  computation runs inline when the button is pressed; here it is one pure
  function from the inputs to a `BlendResult`. Every ratio goes through
  `SafeDiv`, the source's `x / y if y else 0` guard.

All arithmetic is over `real`. The syrup constant is kept exactly as coded:
`(1.5 / 1.47) / 1000` litres per gram, which is 50/49 mL per gram
(`SyrupML`). The top range's upper bound is the literal `1e9` as coded, not
infinity. The sugar concentration of any blend with non-negative amounts is
at most 980 g/L, because the syrup itself adds 50/49 mL per gram. So the
fallback label can only appear for inputs the widgets reject (`SugarBounds`).

The model follows the code as written:

- the last range ends at `1e9`, not at infinity;
- the syrup factor is 1.5 / 1.47 (per 1000), not the 1:1 syrup at 1.33 g/mL
  that the on-screen captions describe.

## Model

| member | source | states |
|---|---|---|
| SugarClassification.FirstMatchLabel | calculadora_vermut.py:17-21 | the scan returns the name of the first row whose `[low, high)` contains the value; if no row contains it, it returns "sin clasificar"; the result is always some row's name or the fallback |
| SugarClassification.SugarLabel | calculadora_vermut.py:9-21 | the label of a concentration is one of the six table names or "sin clasificar" |
| SugarClassification.ContiguousOrdered | calculadora_vermut.py:9-16 | in a contiguous table, every earlier range ends no later than any later range starts |
| SugarClassification.ContiguousUnique | calculadora_vermut.py:9-19 | no overlaps: at most one range of a contiguous table contains a value |
| SugarClassification.ContiguousCovers | calculadora_vermut.py:9-19 | no gaps: every value from the first low up to the last high lies in some range |
| SugarClassification.ContiguousOutside | calculadora_vermut.py:9-19 | below the first low or at/above the last high, no range matches |
| SugarClassification.SugarClassesContiguous | calculadora_vermut.py:9-16 | the six ranges are non-empty, each high equals the next low, and together they span [0, 1e9) |
| SugarClassification.SugarLabelExactlyOne | calculadora_vermut.py:9-21 | every g with 0 <= g < 1e9 lies in exactly one range, and the lookup returns that range's name |
| SugarClassification.SugarLabelUnclassifiedIff | calculadora_vermut.py:15-21 | "sin clasificar" is returned exactly when g < 0 or g >= 1e9 |
| SugarClassification.SugarLabelBoundaries | calculadora_vermut.py:9-21 | lower bounds are inclusive and upper bounds exclusive: each low gets its own label, each high the next range's label |
| SugarClassification.SugarLabelExamples | calculadora_vermut.py:10-21 | 30 g/L is "seco", 29.9 g/L is "extra seco", and 1e9 g/L falls through to "sin clasificar" |
| SugarClassification.InClass | calculadora_vermut.py:19 | membership test of one row, lower bound inclusive and upper exclusive; pinned down with the table by `SugarClassesContiguous` and the `Contiguous*` lemmas |
| VermouthBlend.FactorIn | calculadora_vermut.py:48 | the factor to mL is positive, is 1 exactly for millilitres, and is 1000 for litres |
| VermouthBlend.FactorOut | calculadora_vermut.py:49 | the display factor is the inverse of the factor to mL (see also `UnitRoundTrip`) |
| VermouthBlend.UnitRoundTrip | calculadora_vermut.py:47-49 | for either unit, factor_in * factor_out == 1, so a volume converted in and back out is unchanged |
| VermouthBlend.WithinWidgetBounds | calculadora_vermut.py:54-66 | the widget bounds as a predicate: volumes and sugar >= 0, wine ABV in [0, 20], the other ABVs in [0, 96]; see `WidgetBoundsSensible` and `WidgetBoundsAbv` |
| VermouthBlend.WidgetBoundsSensible | calculadora_vermut.py:54-66 | the widget bounds (volumes and sugar >= 0, wine ABV in [0, 20], the other ABVs in [0, 96]) give non-negative amounts and ABVs in [0, 100] |
| VermouthBlend.SyrupFactorValue | calculadora_vermut.py:6-7 | the coded factor (1.5 / 1.47) / 1000 is exactly 1/980 L per gram, i.e. 50/49 mL per gram |
| VermouthBlend.ComponentML | calculadora_vermut.py:71-73 | a volume converted to mL and multiplied by the display factor gives the entered volume back; a non-negative volume stays non-negative; `WineML` is this conversion applied to the wine (line 71) |
| VermouthBlend.TotalML | calculadora_vermut.py:80 | with non-negative sugar the total is at least the three liquids, and with non-negative amounts it is non-negative; see `TotalVolume` |
| VermouthBlend.ComponentEthanolML | calculadora_vermut.py:84-86 | ethanol of one component; bounded by `ComponentEthanolBounds` and ordered by `ComponentEthanolMonotone` |
| VermouthBlend.EthanolML | calculadora_vermut.py:83-87 | ethanol of the blend; bounded by `EthanolBounds` |
| VermouthBlend.SyrupML | calculadora_vermut.py:76-77 | the syrup counted for g grams of sugar is 50/49 mL per gram, exactly the coded (1.5 / 1.47) / 1000 L/g |
| VermouthBlend.SafeDiv | calculadora_vermut.py:88 | the guarded quotient times a non-zero denominator gives back the numerator; a zero denominator gives 0 |
| VermouthBlend.Compute | calculadora_vermut.py:70-106 | with a non-zero total, final ABV times total is 100 times the ethanol, g/L times total (mL) is 1000 times the sugar mass, and wine % times total is 100 times the wine volume; with a zero total all three ratios are 0; Brix is one tenth of g/L; the label is the lookup of the g/L; the warning holds exactly when the wine share is under 75 |
| VermouthBlend.DisplayedTotal | calculadora_vermut.py:101 | the displayed total is the sum of the three volumes as entered plus the syrup volume in the chosen unit |
| VermouthBlend.DisplayedTotalRoundTrip | calculadora_vermut.py:48-49 | the displayed total converted back to mL is the computed total |
| VermouthBlend.TotalVolume | calculadora_vermut.py:71-80 | the total in mL is the three volumes times factor_in plus sugar times the syrup factor times 1000; with non-negative amounts it is at least each part and non-negative |
| VermouthBlend.ZeroGuard | calculadora_vermut.py:88-106 | an empty blend has ABV, g/L, wine % and Brix all 0, the label "extra seco", and the warning on |
| VermouthBlend.WineWarningIff | calculadora_vermut.py:97-106 | with non-negative amounts, the warning fires exactly when the blend is empty or the wine is under three quarters of the total volume |
| VermouthBlend.EthanolBounds | calculadora_vermut.py:83-87 | for any bound m with every ABV in [0, m], the ethanol is non-negative and at most the liquids' volume times m / 100 |
| VermouthBlend.EthanolShareBounds | calculadora_vermut.py:83-88 | with a non-zero total and every ABV in [0, m], the ethanol share in % lies in [0, m] |
| VermouthBlend.AbvBounds | calculadora_vermut.py:83-88 | the final ABV lies between 0 and the largest component ABV, hence within [0, 100] |
| VermouthBlend.WinePercentBounds | calculadora_vermut.py:97 | with non-negative amounts the wine share lies in [0, 100] |
| VermouthBlend.SugarBounds | calculadora_vermut.py:76-94 | with non-negative amounts the sugar concentration lies in [0, 980] g/L, Brix in [0, 98], and the label is never "sin clasificar" |
| VermouthBlend.WidgetBoundsAbv | calculadora_vermut.py:54-88 | within the widget bounds the final ABV lies in [0, 96] |
| VermouthBlend.AbvMonotone | calculadora_vermut.py:83-88 | with volumes and sugar fixed, raising any component's ABV (one or several) never lowers the final ABV |
| VermouthBlend.ScenarioDefaultRecipe | calculadora_vermut.py:54-106 | the default inputs (750 mL at 12 %, 120 mL at 60 %, 10 mL at 96 %, 100 g) give 48120/49 mL, about 17.47 % ABV, about 101.8 g/L "semi-dulce", about 76.4 % wine and no warning |
| VermouthBlend.ScenarioEmpty | calculadora_vermut.py:70-106 | all volumes and sugar 0 give all ratios 0, "extra seco" and the warning |
| VermouthBlend.WineOnly | calculadora_vermut.py:70-106 | any blend of a positive volume of wine alone, with no sugar, totals the wine's volume, keeps the wine's ABV, is 100 % wine, has 0 g/L, is "extra seco" and gives no warning |
| VermouthBlend.ScenarioWineOnly | calculadora_vermut.py:48-106 | 0.5 L of wine at 12 % alone gives 500 mL, 12 % ABV, 100 % wine, "extra seco" and no warning |

## Left out

- The Streamlit user interface: page setup, banner, titles, headers, the unit radio button, the number inputs, the button, and the result and warning output. These are I/O. The unit choice and the widget values become the inputs of `Compute`. The widget bounds become the predicate `WithinWidgetBounds`.
- The text formatting of the results (two, one or zero decimals). This is presentation only.
- IEEE-754 floating point: the model computes over exact reals, so rounding error and the int/float mix of Python are not modelled.
- The captions' description of the syrup (1:1 at 1.33 g/mL). This is text and disagrees with the coded constant, which the model keeps.

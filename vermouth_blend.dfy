/**
 * The vermouth blend calculation: a base wine, an herbal maceration and a
 * hydro-alcoholic reinforcing solution, each given as a volume and an alcohol
 * by volume (ABV, % v/v), plus a mass of sugar added as syrup, give the final
 * volume, the final ABV, the sugar concentration with its Brix and label, the
 * share of wine in the blend, and whether that share is under 75 %.
 *
 * All arithmetic is over `real`; internally every volume is in millilitres.
 */
module VermouthBlend {
  import opened SugarClassification

  // ---------------------------------------------------------------------------
  // Units

  /** The unit the user enters volumes in and reads the final volume back in. */
  datatype VolumeUnit = Milliliters | Liters

  /** Multiplier from the chosen unit to millilitres. */
  function FactorIn(u: VolumeUnit): (f: real)
    ensures f > 0.0
    ensures f == 1.0 <==> u == Milliliters
    ensures u == Liters ==> f == 1000.0
  {
    if u == Milliliters then 1.0 else 1000.0
  }

  /** Multiplier from millilitres back to the chosen unit, for display. */
  function FactorOut(u: VolumeUnit): (f: real)
    ensures f * FactorIn(u) == 1.0
  {
    if u == Milliliters then 1.0 else 1.0 / 1000.0
  }

  /** A volume entered in the chosen unit and displayed again comes back unchanged. */
  lemma UnitRoundTrip(u: VolumeUnit, v: real)
    ensures FactorIn(u) * FactorOut(u) == 1.0
    ensures v * FactorIn(u) * FactorOut(u) == v
  {
  }

  // ---------------------------------------------------------------------------
  // Constants

  /** Density of a 2:1 sugar syrup at 20 degrees C, in g/mL. */
  const DENS_SYRUP_2TO1: real := 1.47

  /** Litres of syrup counted per gram of sugar: (1.5 / 1.47) / 1000. */
  const SYRUP_VOL_PER_G_SUGAR: real := (1.5 / DENS_SYRUP_2TO1) / 1000.0

  /** The syrup factor is exactly 1/980 L per gram. */
  lemma SyrupFactorValue()
    ensures SYRUP_VOL_PER_G_SUGAR == 1.0 / 980.0
    ensures SYRUP_VOL_PER_G_SUGAR * 1000.0 * 49.0 == 50.0
  {
  }

  /** Below this share of wine (in %) the blend triggers the legal warning. */
  const MIN_WINE_PERCENT: real := 75.0

  // ---------------------------------------------------------------------------
  // Inputs and results

  /** A liquid component: volume in the chosen unit and ABV in %. */
  datatype Component = Component(volume: real, abv: real)

  datatype BlendInput = BlendInput(
    unit: VolumeUnit,
    wine: Component,
    maceration: Component,
    solution: Component,
    sugarG: real)

  datatype BlendResult = BlendResult(
    totalML: real,
    abvFinal: real,
    sugarGL: real,
    brix: real,
    sugarLabel: string,
    winePercent: real,
    belowWineMinimum: bool)

  /** The bounds the input widgets enforce. */
  predicate WithinWidgetBounds(inp: BlendInput) {
    inp.wine.volume >= 0.0 && 0.0 <= inp.wine.abv <= 20.0 &&
    inp.maceration.volume >= 0.0 && 0.0 <= inp.maceration.abv <= 96.0 &&
    inp.solution.volume >= 0.0 && 0.0 <= inp.solution.abv <= 96.0 &&
    inp.sugarG >= 0.0
  }

  /** No negative volume and no negative sugar mass. */
  predicate NonNegativeAmounts(inp: BlendInput) {
    inp.wine.volume >= 0.0 && inp.maceration.volume >= 0.0 && inp.solution.volume >= 0.0 &&
    inp.sugarG >= 0.0
  }

  /** Non-negative volumes and sugar, ABVs in [0, 100]. */
  predicate PhysicallySensible(inp: BlendInput) {
    NonNegativeAmounts(inp) &&
    0.0 <= inp.wine.abv <= 100.0 && 0.0 <= inp.maceration.abv <= 100.0 &&
    0.0 <= inp.solution.abv <= 100.0
  }

  /** The largest ABV among the three liquids. */
  function MaxAbv(inp: BlendInput): (m: real)
    ensures m >= inp.wine.abv && m >= inp.maceration.abv && m >= inp.solution.abv
    ensures m == inp.wine.abv || m == inp.maceration.abv || m == inp.solution.abv
  {
    var a := if inp.wine.abv < inp.maceration.abv then inp.maceration.abv else inp.wine.abv;
    if a < inp.solution.abv then inp.solution.abv else a
  }

  /** The widget bounds are physically sensible. */
  lemma WidgetBoundsSensible(inp: BlendInput)
    requires WithinWidgetBounds(inp)
    ensures PhysicallySensible(inp)
  {
  }

  // ---------------------------------------------------------------------------
  // The calculation

  /** A component's volume in millilitres. */
  function ComponentML(u: VolumeUnit, c: Component): (ml: real)
    ensures ml * FactorOut(u) == c.volume
    ensures c.volume >= 0.0 ==> ml >= 0.0
  {
    c.volume * FactorIn(u)
  }

  /** The volume of syrup, in mL, counted for `sugarG` grams of sugar: 50/49 mL per gram. */
  function SyrupML(sugarG: real): (ml: real)
    ensures ml * 49.0 == sugarG * 50.0
  {
    sugarG * SYRUP_VOL_PER_G_SUGAR * 1000.0
  }

  /** The wine's volume in millilitres. */
  function WineML(inp: BlendInput): (ml: real) {
    ComponentML(inp.unit, inp.wine)
  }

  /** Volume of the three liquids in mL. */
  function LiquidsML(inp: BlendInput): (ml: real) {
    ComponentML(inp.unit, inp.wine) + ComponentML(inp.unit, inp.maceration) +
    ComponentML(inp.unit, inp.solution)
  }

  /** Total volume of the blend in mL: the three liquids plus the syrup. */
  function TotalML(inp: BlendInput): (t: real)
    ensures inp.sugarG >= 0.0 ==> t >= LiquidsML(inp)
    ensures NonNegativeAmounts(inp) ==> t >= 0.0
  {
    LiquidsML(inp) + SyrupML(inp.sugarG)
  }

  /** Ethanol contributed by one component, in mL. */
  function ComponentEthanolML(u: VolumeUnit, c: Component): (e: real) {
    ComponentML(u, c) * c.abv / 100.0
  }

  /** Total ethanol of the blend in mL; the syrup contributes none. */
  function EthanolML(inp: BlendInput): (e: real) {
    ComponentEthanolML(inp.unit, inp.wine) + ComponentEthanolML(inp.unit, inp.maceration) +
    ComponentEthanolML(inp.unit, inp.solution)
  }

  /** Division guarded against a zero denominator: `n / d if d else 0`. */
  function SafeDiv(n: real, d: real): (q: real)
    ensures d != 0.0 ==> q * d == n
    ensures d == 0.0 ==> q == 0.0
  {
    if d != 0.0 then n / d else 0.0
  }

  /** The blend computation run when the user presses the button. */
  function Compute(inp: BlendInput): (r: BlendResult)
    ensures r.totalML != 0.0 ==> r.abvFinal * r.totalML == 100.0 * EthanolML(inp)
    ensures r.totalML != 0.0 ==> r.sugarGL * r.totalML == 1000.0 * inp.sugarG
    ensures r.totalML != 0.0 ==> r.winePercent * r.totalML == 100.0 * WineML(inp)
    ensures r.totalML == 0.0 ==> r.abvFinal == 0.0 && r.sugarGL == 0.0 && r.winePercent == 0.0
    ensures r.brix * 10.0 == r.sugarGL
    ensures r.sugarLabel == SugarLabel(r.sugarGL)
    ensures r.belowWineMinimum <==> r.winePercent < MIN_WINE_PERCENT
  {
    var totalML := TotalML(inp);
    var abvFinal := SafeDiv(EthanolML(inp), totalML) * 100.0;
    var totalL := totalML / 1000.0;
    var sugarGL := SafeDiv(inp.sugarG, totalL);
    var brix := sugarGL / 10.0;
    var sugarLabel := SugarLabel(sugarGL);
    var winePercent := SafeDiv(WineML(inp), totalML) * 100.0;
    PercentTimesTotal(EthanolML(inp), totalML);
    PercentTimesTotal(WineML(inp), totalML);
    PerLitreTimesTotal(inp.sugarG, totalML);
    BlendResult(totalML, abvFinal, sugarGL, brix, sugarLabel, winePercent, winePercent < MIN_WINE_PERCENT)
  }

  /** A percentage `100 * n / d`, multiplied back by `d`, gives `100 * n`. */
  lemma PercentTimesTotal(n: real, d: real)
    ensures d != 0.0 ==> SafeDiv(n, d) * 100.0 * d == 100.0 * n
  {
    if d != 0.0 {
      var q := SafeDiv(n, d);
      assert q * 100.0 * d == 100.0 * (q * d);
    }
  }

  /** A concentration per litre of a total given in mL, multiplied back by the total, gives `1000 * g`. */
  lemma PerLitreTimesTotal(g: real, d: real)
    ensures d != 0.0 ==> SafeDiv(g, d / 1000.0) * d == 1000.0 * g
  {
    if d != 0.0 {
      var q := SafeDiv(g, d / 1000.0);
      assert q * (d / 1000.0) == g;
      assert q * d == 1000.0 * (q * (d / 1000.0));
    }
  }

  /** The final volume as displayed, in the unit the user chose. */
  function DisplayedTotal(inp: BlendInput): (d: real)
    ensures d == inp.wine.volume + inp.maceration.volume + inp.solution.volume +
      SyrupML(inp.sugarG) * FactorOut(inp.unit)
  {
    TotalML(inp) * FactorOut(inp.unit)
  }

  // ---------------------------------------------------------------------------
  // Properties of the calculation

  /**
   * The total volume is the three liquids converted to mL plus the syrup; with
   * non-negative amounts it is at least each of its parts.
   */
  lemma TotalVolume(inp: BlendInput)
    ensures TotalML(inp) ==
      inp.wine.volume * FactorIn(inp.unit) + inp.maceration.volume * FactorIn(inp.unit) +
      inp.solution.volume * FactorIn(inp.unit) + inp.sugarG * SYRUP_VOL_PER_G_SUGAR * 1000.0
    ensures NonNegativeAmounts(inp) ==>
      var t := TotalML(inp);
      t >= WineML(inp) && t >= ComponentML(inp.unit, inp.maceration) &&
      t >= ComponentML(inp.unit, inp.solution) && t >= SyrupML(inp.sugarG) && t >= 0.0
  {
  }

  /**
   * Zero guard: an empty blend has every ratio 0, hence Brix 0, the label
   * "extra seco", and the wine warning on.
   */
  lemma ZeroGuard(inp: BlendInput)
    requires Compute(inp).totalML == 0.0
    ensures var r := Compute(inp);
      r.abvFinal == 0.0 && r.sugarGL == 0.0 && r.winePercent == 0.0 && r.brix == 0.0 &&
      r.sugarLabel == "extra seco" && r.belowWineMinimum
  {
    SugarLabelBoundaries(0);
  }

  /** With non-negative amounts, the warning fires exactly when wine is under three quarters of the blend. */
  lemma WineWarningIff(inp: BlendInput)
    requires NonNegativeAmounts(inp)
    ensures var r := Compute(inp);
      r.belowWineMinimum <==> r.totalML == 0.0 || 4.0 * WineML(inp) < 3.0 * r.totalML
  {
    var r := Compute(inp);
    TotalVolume(inp);
    if r.totalML != 0.0 {
      QuotientBelow(WineML(inp), r.totalML, 0.75);
    }
  }

  /** `n / d < m` exactly when `n < m * d`, for a positive `d`. */
  lemma QuotientBelow(n: real, d: real, m: real)
    requires d > 0.0
    ensures SafeDiv(n, d) < m <==> n < m * d
  {
    var q := SafeDiv(n, d);
    if q < m {
      assert q * d < m * d;
    } else {
      assert q * d >= m * d;
    }
  }

  /** `n / d` lies in [0, m] when `0 <= n <= m * d` and `d` is positive. */
  lemma QuotientBounds(n: real, d: real, m: real)
    requires d > 0.0
    requires 0.0 <= n <= m * d
    ensures 0.0 <= SafeDiv(n, d) <= m
  {
  }

  /** A component's ethanol is between none and its volume times the largest ABV. */
  lemma ComponentEthanolBounds(u: VolumeUnit, c: Component, m: real)
    requires c.volume >= 0.0 && 0.0 <= c.abv <= m
    ensures 0.0 <= 100.0 * ComponentEthanolML(u, c) <= ComponentML(u, c) * m
  {
    var v := ComponentML(u, c);
    assert v >= 0.0;
    assert v * c.abv <= v * m;
  }

  /** Non-negative amounts, and every ABV in [0, m]. */
  predicate AbvsWithin(inp: BlendInput, m: real) {
    NonNegativeAmounts(inp) &&
    0.0 <= inp.wine.abv <= m && 0.0 <= inp.maceration.abv <= m && 0.0 <= inp.solution.abv <= m
  }

  /** The ethanol of the blend is at most the liquids' volume times any bound `m` on the ABVs. */
  lemma EthanolBounds(inp: BlendInput, m: real)
    requires AbvsWithin(inp, m)
    ensures 0.0 <= 100.0 * EthanolML(inp) <= LiquidsML(inp) * m
  {
    var u := inp.unit;
    var v1, v2, v3 := ComponentML(u, inp.wine), ComponentML(u, inp.maceration), ComponentML(u, inp.solution);
    ComponentEthanolBounds(u, inp.wine, m);
    ComponentEthanolBounds(u, inp.maceration, m);
    ComponentEthanolBounds(u, inp.solution, m);
    assert v1 * m + v2 * m + v3 * m == (v1 + v2 + v3) * m;
  }

  /** `100 * n / d` lies in [0, m] when `0 <= 100 * n <= d * m` and `d` is positive. */
  lemma PercentBounds(n: real, d: real, m: real)
    requires d > 0.0
    requires 0.0 <= 100.0 * n <= d * m
    ensures 0.0 <= SafeDiv(n, d) * 100.0 <= m
  {
    var q := SafeDiv(n, d);
    assert (q * 100.0) * d == 100.0 * n;
  }

  /** The final ABV lies between 0 and the largest component ABV. */
  lemma AbvBounds(inp: BlendInput)
    requires PhysicallySensible(inp)
    ensures 0.0 <= Compute(inp).abvFinal <= MaxAbv(inp) <= 100.0
  {
    var t, m := TotalML(inp), MaxAbv(inp);
    assert Compute(inp).abvFinal == SafeDiv(EthanolML(inp), t) * 100.0;
    if t != 0.0 {
      assert AbvsWithin(inp, m);
      EthanolShareBounds(inp, m);
    }
  }

  /** With a non-zero total, the ethanol share (in %) lies between 0 and any bound `m` on the ABVs. */
  lemma EthanolShareBounds(inp: BlendInput, m: real)
    requires AbvsWithin(inp, m) && TotalML(inp) != 0.0
    ensures 0.0 <= SafeDiv(EthanolML(inp), TotalML(inp)) * 100.0 <= m
  {
    LiquidsWithinTotal(inp);
    EthanolBounds(inp, m);
    ShareBounds(EthanolML(inp), LiquidsML(inp), TotalML(inp), m);
  }

  /** With non-negative amounts, the liquids are a non-negative part of the total. */
  lemma LiquidsWithinTotal(inp: BlendInput)
    requires NonNegativeAmounts(inp)
    ensures 0.0 <= LiquidsML(inp) <= TotalML(inp)
  {
  }

  /** If `0 <= 100 * e <= l * m` and `l <= t` with `t` non-zero, then `100 * e / t` lies in [0, m]. */
  lemma ShareBounds(e: real, l: real, t: real, m: real)
    requires 0.0 <= l <= t && t != 0.0 && m >= 0.0
    requires 0.0 <= 100.0 * e <= l * m
    ensures 0.0 <= SafeDiv(e, t) * 100.0 <= m
  {
    MulMonotone(l, t, m);
    PercentBounds(e, t, m);
  }

  /** Scaling both sides of `x <= y` by a non-negative factor keeps the order. */
  lemma MulMonotone(x: real, y: real, k: real)
    requires x <= y && k >= 0.0
    ensures x * k <= y * k
  {
  }

  /** The share of wine lies in [0, 100]. */
  lemma WinePercentBounds(inp: BlendInput)
    requires NonNegativeAmounts(inp)
    ensures 0.0 <= Compute(inp).winePercent <= 100.0
  {
    var t := TotalML(inp);
    TotalVolume(inp);
    if t != 0.0 {
      QuotientBounds(WineML(inp), t, 1.0);
    }
  }

  /**
   * The sugar concentration lies in [0, 980] g/L, because the syrup itself adds
   * 50/49 mL per gram; so the label is never "sin clasificar".
   */
  lemma SugarBounds(inp: BlendInput)
    requires NonNegativeAmounts(inp)
    ensures var r := Compute(inp);
      0.0 <= r.sugarGL <= 980.0 && 0.0 <= r.brix <= 98.0 && r.sugarLabel != UNCLASSIFIED
  {
    var r := Compute(inp);
    var t := TotalML(inp);
    TotalVolume(inp);
    if t != 0.0 {
      assert inp.sugarG * 50.0 <= t * 49.0;
      QuotientBounds(inp.sugarG, t / 1000.0, 980.0);
    }
    SugarLabelUnclassifiedIff(r.sugarGL);
  }

  /** Within the widget bounds the final ABV never exceeds 96 %. */
  lemma WidgetBoundsAbv(inp: BlendInput)
    requires WithinWidgetBounds(inp)
    ensures 0.0 <= Compute(inp).abvFinal <= 96.0
  {
    AbvBounds(inp);
  }

  /**
   * Monotonicity: with the volumes and the sugar held fixed, raising the ABV
   * of any component (or several) never lowers the final ABV.
   */
  lemma AbvMonotone(a: BlendInput, b: BlendInput)
    requires NonNegativeAmounts(a)
    requires a.unit == b.unit && a.sugarG == b.sugarG
    requires a.wine.volume == b.wine.volume && a.wine.abv <= b.wine.abv
    requires a.maceration.volume == b.maceration.volume && a.maceration.abv <= b.maceration.abv
    requires a.solution.volume == b.solution.volume && a.solution.abv <= b.solution.abv
    ensures Compute(a).abvFinal <= Compute(b).abvFinal
  {
    var t := TotalML(a);
    assert TotalML(b) == t;
    assert Compute(a).abvFinal == SafeDiv(EthanolML(a), t) * 100.0;
    assert Compute(b).abvFinal == SafeDiv(EthanolML(b), t) * 100.0;
    if t != 0.0 {
      ComponentEthanolMonotone(a.unit, a.wine, b.wine);
      ComponentEthanolMonotone(a.unit, a.maceration, b.maceration);
      ComponentEthanolMonotone(a.unit, a.solution, b.solution);
      QuotientMonotone(EthanolML(a), EthanolML(b), t);
    }
  }

  /** Dividing by the same positive number keeps the order. */
  lemma QuotientMonotone(x: real, y: real, d: real)
    requires x <= y && d > 0.0
    ensures SafeDiv(x, d) <= SafeDiv(y, d)
  {
  }

  /** More ABV in a component of the same volume means at least as much ethanol. */
  lemma ComponentEthanolMonotone(u: VolumeUnit, c: Component, d: Component)
    requires c.volume >= 0.0 && c.volume == d.volume && c.abv <= d.abv
    ensures ComponentEthanolML(u, c) <= ComponentEthanolML(u, d)
  {
    var v := ComponentML(u, c);
    assert v >= 0.0;
    assert v * c.abv <= v * d.abv;
  }

  /** The displayed total, read back in millilitres, is the computed total. */
  lemma DisplayedTotalRoundTrip(inp: BlendInput)
    ensures DisplayedTotal(inp) * FactorIn(inp.unit) == TotalML(inp)
  {
    var t := TotalML(inp);
    assert DisplayedTotal(inp) == t * FactorOut(inp.unit);
    UnitRoundTrip(inp.unit, t);
  }

  // ---------------------------------------------------------------------------
  // Worked examples

  /**
   * 750 mL of wine at 12 %, 120 mL of maceration at 60 %, 10 mL of solution at
   * 96 % and 100 g of sugar: 48120/49 mL (about 982.04 mL), about 17.47 % ABV,
   * about 101.8 g/L ("semi-dulce") and about 76.4 % wine, so no warning.
   */
  lemma ScenarioDefaultRecipe()
    ensures var r := Compute(BlendInput(Milliliters, Component(750.0, 12.0),
      Component(120.0, 60.0), Component(10.0, 96.0), 100.0));
      r.totalML == 48120.0 / 49.0 &&
      17.47 < r.abvFinal < 17.48 &&
      101.8 < r.sugarGL < 101.9 && 10.18 < r.brix < 10.19 &&
      r.sugarLabel == "semi-dulce" &&
      76.3 < r.winePercent < 76.4 && !r.belowWineMinimum
  {
    var inp := BlendInput(Milliliters, Component(750.0, 12.0),
      Component(120.0, 60.0), Component(10.0, 96.0), 100.0);
    assert TotalML(inp) == 48120.0 / 49.0;
    var r := Compute(inp);
    assert EthanolML(inp) == 171.6;
    assert r.abvFinal == 840840.0 / 48120.0;
    assert r.sugarGL == 4900000.0 / 48120.0;
    assert r.winePercent == 3675000.0 / 48120.0;
    SugarLabelExactlyOne(r.sugarGL);
  }

  /** An empty blend: everything 0, "extra seco", and the warning on. */
  lemma ScenarioEmpty()
    ensures var r := Compute(BlendInput(Milliliters, Component(0.0, 12.0),
      Component(0.0, 60.0), Component(0.0, 96.0), 0.0));
      r.totalML == 0.0 && r.abvFinal == 0.0 && r.sugarGL == 0.0 && r.brix == 0.0 &&
      r.sugarLabel == "extra seco" && r.winePercent == 0.0 && r.belowWineMinimum
  {
    var inp := BlendInput(Milliliters, Component(0.0, 12.0),
      Component(0.0, 60.0), Component(0.0, 96.0), 0.0);
    assert TotalML(inp) == 0.0;
    ZeroGuard(inp);
  }

  /**
   * A blend of wine alone keeps the wine's ABV, is 100 % wine, carries no sugar
   * and so is "extra seco", and does not trigger the warning.
   */
  lemma WineOnly(inp: BlendInput)
    requires inp.wine.volume > 0.0
    requires inp.maceration.volume == 0.0 && inp.solution.volume == 0.0 && inp.sugarG == 0.0
    ensures var r := Compute(inp);
      r.totalML == WineML(inp) && r.abvFinal == inp.wine.abv && r.winePercent == 100.0 &&
      r.sugarGL == 0.0 && r.sugarLabel == "extra seco" && !r.belowWineMinimum
  {
    var u, w, a := inp.unit, WineML(inp), inp.wine.abv;
    assert ComponentML(u, inp.maceration) == 0.0 && ComponentML(u, inp.solution) == 0.0;
    assert SyrupML(inp.sugarG) == 0.0;
    assert TotalML(inp) == w && w > 0.0;
    assert EthanolML(inp) == w * a / 100.0;
    var r := Compute(inp);
    assert r.abvFinal == SafeDiv(w * a / 100.0, w) * 100.0;
    assert r.winePercent == SafeDiv(w, w) * 100.0;
    assert r.sugarGL == 0.0;
    WholeShares(w, a);
    assert r.sugarLabel == "extra seco" by {
      SugarLabelBoundaries(0);
    }
  }

  /** Of a non-zero whole, the whole is 100 % and its `a` % part is `a` %. */
  lemma WholeShares(w: real, a: real)
    requires w != 0.0
    ensures SafeDiv(w, w) * 100.0 == 100.0
    ensures SafeDiv(w * a / 100.0, w) * 100.0 == a
  {
  }

  /** Half a litre of wine at 12 % and nothing else: 500 mL at 12 %, all wine, "extra seco". */
  lemma ScenarioWineOnly()
    ensures var r := Compute(BlendInput(Liters, Component(0.5, 12.0),
      Component(0.0, 60.0), Component(0.0, 96.0), 0.0));
      r.totalML == 500.0 && r.abvFinal == 12.0 && r.sugarGL == 0.0 &&
      r.sugarLabel == "extra seco" && r.winePercent == 100.0 && !r.belowWineMinimum
  {
    var inp := BlendInput(Liters, Component(0.5, 12.0),
      Component(0.0, 60.0), Component(0.0, 96.0), 0.0);
    assert WineML(inp) == 500.0;
    WineOnly(inp);
  }
}

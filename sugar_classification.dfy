/**
 * Sweetness classification of a vermouth blend by its residual sugar
 * concentration (grams of sugar per litre of blend).
 *
 * The table is an ordered list of half-open ranges [low, high), each with a
 * label; the lookup scans it front to back and returns the label of the first
 * range that contains the concentration, or "sin clasificar" when none does.
 */
module SugarClassification {

  /** One row of the classification table: concentrations in [low, high) get `name`. */
  datatype SugarClass = SugarClass(low: real, high: real, name: string)

  /** The label returned when no range contains the concentration. */
  const UNCLASSIFIED: string := "sin clasificar"

  /** Upper bound of the last range: the literal 1e9, not infinity. */
  const TOP_BOUND: real := 1_000_000_000.0

  /** The six ranges, in the order the lookup scans them. */
  const SUGAR_CLASSES: seq<SugarClass> := [
    SugarClass(0.0, 30.0, "extra seco"),
    SugarClass(30.0, 50.0, "seco"),
    SugarClass(50.0, 90.0, "semi-seco"),
    SugarClass(90.0, 130.0, "semi-dulce"),
    SugarClass(130.0, 180.0, "dulce"),
    SugarClass(180.0, TOP_BOUND, "extra dulce")
  ]

  /** Lower bound inclusive, upper bound exclusive. */
  predicate InClass(c: SugarClass, g: real) {
    c.low <= g < c.high
  }

  /** Row `i` contains `g` and no earlier row does. */
  predicate IsFirstMatch(t: seq<SugarClass>, g: real, i: int) {
    0 <= i < |t| && InClass(t[i], g) && forall j :: 0 <= j < i ==> !InClass(t[j], g)
  }

  /**
   * The scan over a table: the name of the first row containing `g`, or
   * UNCLASSIFIED when no row contains it.
   */
  function FirstMatchLabel(t: seq<SugarClass>, g: real): (r: string)
    ensures forall i :: IsFirstMatch(t, g, i) ==> r == t[i].name
    ensures (forall i :: 0 <= i < |t| ==> !InClass(t[i], g)) ==> r == UNCLASSIFIED
    ensures r == UNCLASSIFIED || exists i :: 0 <= i < |t| && r == t[i].name
  {
    if |t| == 0 then UNCLASSIFIED
    else if InClass(t[0], g) then t[0].name
    else
      var rest := FirstMatchLabel(t[1..], g);
      assert forall i :: IsFirstMatch(t, g, i) ==> IsFirstMatch(t[1..], g, i - 1);
      assert forall i :: 0 <= i < |t[1..]| ==> t[1..][i] == t[i + 1];
      rest
  }

  /** The label of a sugar concentration in g/L. */
  function SugarLabel(g: real): (r: string)
    ensures r == UNCLASSIFIED || exists i :: 0 <= i < |SUGAR_CLASSES| && r == SUGAR_CLASSES[i].name
  {
    FirstMatchLabel(SUGAR_CLASSES, g)
  }

  // ---------------------------------------------------------------------------
  // Contiguous tables: no gaps, no overlaps

  /** Every row is a non-empty range and each row starts where the previous one ends. */
  predicate Contiguous(t: seq<SugarClass>) {
    |t| > 0 &&
    (forall i :: 0 <= i < |t| ==> t[i].low < t[i].high) &&
    (forall i :: 0 < i < |t| ==> t[i - 1].high == t[i].low)
  }

  /** In a contiguous table, an earlier row ends no later than a later row starts. */
  lemma {:induction false} ContiguousOrdered(t: seq<SugarClass>, i: int, j: int)
    requires Contiguous(t)
    requires 0 <= i < j < |t|
    ensures t[i].high <= t[j].low
    decreases j - i
  {
    if i + 1 < j {
      ContiguousOrdered(t, i + 1, j);
      assert t[i].high == t[i + 1].low < t[i + 1].high;
    }
  }

  /** No overlaps: at most one row of a contiguous table contains a value. */
  lemma ContiguousUnique(t: seq<SugarClass>, g: real, i: int, j: int)
    requires Contiguous(t)
    requires 0 <= i < |t| && 0 <= j < |t|
    requires InClass(t[i], g) && InClass(t[j], g)
    ensures i == j
  {
    if i < j {
      ContiguousOrdered(t, i, j);
    } else if j < i {
      ContiguousOrdered(t, j, i);
    }
  }

  /** No gaps: every value from the first low up to the last high is in some row. */
  lemma {:induction false} ContiguousCovers(t: seq<SugarClass>, g: real)
    requires Contiguous(t)
    requires t[0].low <= g < t[|t| - 1].high
    ensures exists i :: 0 <= i < |t| && InClass(t[i], g)
  {
    if g < t[0].high {
      assert InClass(t[0], g);
    } else {
      var rest := t[1..];
      assert |t| > 1;
      assert Contiguous(rest) by {
        forall i | 0 < i < |rest| ensures rest[i - 1].high == rest[i].low {
          assert rest[i - 1] == t[i] && rest[i] == t[i + 1];
        }
      }
      ContiguousCovers(rest, g);
      var k :| 0 <= k < |rest| && InClass(rest[k], g);
      assert InClass(t[k + 1], g);
    }
  }

  /** Outside [first low, last high) no row of a contiguous table matches. */
  lemma ContiguousOutside(t: seq<SugarClass>, g: real, i: int)
    requires Contiguous(t)
    requires g < t[0].low || g >= t[|t| - 1].high
    requires 0 <= i < |t|
    ensures !InClass(t[i], g)
  {
    if 0 < i {
      ContiguousOrdered(t, 0, i);
    }
    if i < |t| - 1 {
      ContiguousOrdered(t, i, |t| - 1);
    }
  }

  // ---------------------------------------------------------------------------
  // The sugar table

  /** The sugar table is contiguous and spans [0, 1e9). */
  lemma SugarClassesContiguous()
    ensures Contiguous(SUGAR_CLASSES)
    ensures SUGAR_CLASSES[0].low == 0.0
    ensures SUGAR_CLASSES[|SUGAR_CLASSES| - 1].high == TOP_BOUND
  {
  }

  /**
   * Every concentration in [0, 1e9) lies in exactly one range, and the lookup
   * returns that range's label.
   */
  lemma SugarLabelExactlyOne(g: real)
    requires 0.0 <= g < TOP_BOUND
    ensures exists i :: (0 <= i < |SUGAR_CLASSES| && InClass(SUGAR_CLASSES[i], g) &&
      SugarLabel(g) == SUGAR_CLASSES[i].name &&
      forall j :: 0 <= j < |SUGAR_CLASSES| && InClass(SUGAR_CLASSES[j], g) ==> j == i)
  {
    var t := SUGAR_CLASSES;
    SugarClassesContiguous();
    ContiguousCovers(t, g);
    var i :| 0 <= i < |t| && InClass(t[i], g);
    forall j | 0 <= j < |t| && InClass(t[j], g) ensures j == i {
      ContiguousUnique(t, g, i, j);
    }
    assert IsFirstMatch(t, g, i);
  }

  /** The fallback label is returned exactly for negative concentrations and those of 1e9 or more. */
  lemma SugarLabelUnclassifiedIff(g: real)
    ensures SugarLabel(g) == UNCLASSIFIED <==> g < 0.0 || g >= TOP_BOUND
  {
    var t := SUGAR_CLASSES;
    SugarClassesContiguous();
    if g < 0.0 || g >= TOP_BOUND {
      forall i | 0 <= i < |t| ensures !InClass(t[i], g) {
        ContiguousOutside(t, g, i);
      }
    } else {
      SugarLabelExactlyOne(g);
    }
  }

  /**
   * Boundaries: each range's lower bound gets that range's label, and its
   * upper bound already gets the next range's label.
   */
  lemma SugarLabelBoundaries(i: int)
    requires 0 <= i < |SUGAR_CLASSES|
    ensures SugarLabel(SUGAR_CLASSES[i].low) == SUGAR_CLASSES[i].name
    ensures i + 1 < |SUGAR_CLASSES| ==> SugarLabel(SUGAR_CLASSES[i].high) == SUGAR_CLASSES[i + 1].name
  {
    var t := SUGAR_CLASSES;
    SugarClassesContiguous();
    SugarLabelExactlyOne(t[i].low);
    if i + 1 < |t| {
      SugarLabelExactlyOne(t[i + 1].low);
    }
  }

  /** 30 g/L is already "seco", 29.9 g/L still "extra seco", and 1e9 g/L is unclassified. */
  lemma SugarLabelExamples()
    ensures SugarLabel(30.0) == "seco"
    ensures SugarLabel(29.9) == "extra seco"
    ensures SugarLabel(TOP_BOUND) == UNCLASSIFIED
  {
    SugarLabelBoundaries(0);
    SugarLabelExactlyOne(29.9);
    SugarLabelUnclassifiedIff(TOP_BOUND);
  }
}

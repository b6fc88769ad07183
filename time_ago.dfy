// The integer core of `timeAgo`: the "just now" threshold, the choice of a
// unit from the DIVISORS table, the count of that unit and past or future.
// Parsing the ISO text, reading the clock, the rounding of milliseconds to
// seconds and the final wording are left to the caller (see `TimeAgo`).

module TimeAgo {
  import opened JsCore

  datatype Unit = Year | Month | Week | Day | Hour | Minute | Second

  /** `DIVISORS`: each unit with its length in seconds, largest first. */
  const Divisors: seq<(Unit, nat)> := [
    (Year, 365 * 24 * 60 * 60),
    (Month, 30 * 24 * 60 * 60),
    (Week, 7 * 24 * 60 * 60),
    (Day, 24 * 60 * 60),
    (Hour, 60 * 60),
    (Minute, 60),
    (Second, 1)
  ]

  /** Below this many seconds either way, the result is "just now". */
  const JustNowSeconds: nat := 5

  /** The outcome of the bucketing; `RelativeTimeFormat` and i18n only word it. */
  datatype Relative =
    | JustNow
    | Ago(unit: Unit, count: nat, past: bool)

  function Abs(x: int): nat {
    if x < 0 then -x else x
  }

  function Max(a: int, b: int): int {
    if a < b then b else a
  }

  /** `table.find(([, s]) => abs >= s)` as the index of the entry found; `|table|` when none is. */
  function FindFirstFit(table: seq<(Unit, nat)>, abs: nat): (i: nat)
    ensures i <= |table|
    ensures forall j :: 0 <= j < i ==> table[j].1 > abs
    ensures i < |table| ==> table[i].1 <= abs
  {
    if table == [] then 0
    else if abs >= table[0].1 then 0
    else FindFirstFit(table[1..], abs) + 1
  }

  /**
   * The bucketing of a signed difference in seconds (positive: in the past):
   * "just now" exactly under the threshold either way; otherwise at least one
   * unit, in the past exactly when the difference is not negative.
   */
  function Classify(diffSeconds: int): (r: Relative)
    ensures r == JustNow <==> Abs(diffSeconds) < JustNowSeconds
    ensures r.Ago? ==> r.count >= 1 && (r.past <==> diffSeconds >= 0)
  {
    var abs := Abs(diffSeconds);
    if abs < JustNowSeconds then JustNow
    else
      var i := FindFirstFit(Divisors, abs);
      var (unit, secPerUnit) := if i < |Divisors| then Divisors[i] else (Second, 1);
      assert secPerUnit > 0 by {
        if i < |Divisors| { assert i in {0, 1, 2, 3, 4, 5, 6}; }
      }
      Ago(unit, Max(1, abs / secPerUnit), diffSeconds >= 0)
  }

  /** The signed count handed to `RelativeTimeFormat.format`: negative for the past. */
  function FormatArgument(r: Relative): (n: int)
    requires r.Ago?
    ensures n != 0 || r.count == 0
    ensures n < 0 <==> r.past && r.count > 0
    ensures Abs(n) == r.count
  {
    if r.past then -(r.count as int) else r.count
  }

  /**
   * `timeAgo(iso)`: undefined for a missing, empty or unparsable `iso`.
   * `diffOf` stands for `Date` parsing and the clock: it gives the rounded
   * number of seconds since the instant `iso` names, or None when parsing
   * yields NaN.
   */
  function TimeAgo(iso: Option<string>, diffOf: string -> Option<int>): (r: Option<Relative>)
    ensures r.None? <==> !Truthy(iso) || diffOf(iso.value).None?
    ensures r.Some? ==> r.value == Classify(diffOf(iso.value).value)
  {
    if !Truthy(iso) then None
    else match diffOf(iso.value)
      case None => None
      case Some(d) => Some(Classify(d))
  }

  /** The formatter gets `-count` for the past and `count` for the future. */
  lemma ScopeIsSign(diffSeconds: int)
    requires Abs(diffSeconds) >= JustNowSeconds
    ensures Classify(diffSeconds).Ago?
    ensures FormatArgument(Classify(diffSeconds)) == if diffSeconds >= 0 then -(Classify(diffSeconds).count as int) else Classify(diffSeconds).count
  {
  }

  /** The search stops at the latest at any entry that fits. */
  lemma FirstFitAtMost(table: seq<(Unit, nat)>, abs: nat, k: nat)
    requires k < |table| && table[k].1 <= abs
    ensures FindFirstFit(table, abs) <= k
  {
  }

  /** Floor division by a unit no longer than the amount gives at least one whole unit, and the remainder is under a unit. */
  lemma WholeUnits(abs: nat, secPerUnit: nat)
    requires 0 < secPerUnit <= abs
    ensures 1 <= abs / secPerUnit
    ensures (abs / secPerUnit) * secPerUnit <= abs < (abs / secPerUnit + 1) * secPerUnit
  {
    var q, r := abs / secPerUnit, abs % secPerUnit;
    assert abs == q * secPerUnit + r && 0 <= r < secPerUnit;
    assert (q + 1) * secPerUnit == q * secPerUnit + secPerUnit;
  }

  /**
   * From the threshold up, the table always yields an entry (the `?? ['second', 1]`
   * fallback is never used): the first entry not longer than the difference.
   */
  lemma UnitIsFirstFit(diffSeconds: int)
    requires Abs(diffSeconds) >= JustNowSeconds
    ensures var i := FindFirstFit(Divisors, Abs(diffSeconds));
            && i < |Divisors|
            && Classify(diffSeconds) == Ago(Divisors[i].0, Abs(diffSeconds) / Divisors[i].1, diffSeconds >= 0)
            && Divisors[i].1 <= Abs(diffSeconds)
            && (forall j :: 0 <= j < i ==> Divisors[j].1 > Abs(diffSeconds))
  {
    var abs := Abs(diffSeconds);
    FirstFitAtMost(Divisors, abs, 6);
    var i := FindFirstFit(Divisors, abs);
    assert Divisors[i].1 > 0 by {
      assert i in {0, 1, 2, 3, 4, 5, 6};
    }
    WholeUnits(abs, Divisors[i].1);
  }

  /** The count is the whole number of units in the difference, at least one. */
  lemma CountIsWholeUnits(diffSeconds: int)
    requires Abs(diffSeconds) >= JustNowSeconds
    ensures var r := Classify(diffSeconds);
            var i := FindFirstFit(Divisors, Abs(diffSeconds));
            && r.Ago? && i < |Divisors|
            && r.count >= 1
            && r.count * Divisors[i].1 <= Abs(diffSeconds) < (r.count + 1) * Divisors[i].1
  {
    UnitIsFirstFit(diffSeconds);
    WholeUnits(Abs(diffSeconds), Divisors[FindFirstFit(Divisors, Abs(diffSeconds))].1);
  }

  /** The largest count each unit below a year can show; a year's count is unbounded. */
  function MaxCount(u: Unit): nat
    requires u != Year
  {
    match u
    case Month => 12
    case Week => 4
    case Day => 6
    case Hour => 23
    case Minute => 59
    case Second => 59
  }

  /** A unit below a year is chosen only while the difference is under the next larger unit. */
  lemma CountBelowNextUnit(diffSeconds: int)
    requires Abs(diffSeconds) >= JustNowSeconds
    ensures var r := Classify(diffSeconds);
            var i := FindFirstFit(Divisors, Abs(diffSeconds));
            && r.Ago? && i < |Divisors|
            && (i > 0 ==> Abs(diffSeconds) < Divisors[i - 1].1)
            && (r.unit != Year ==> 1 <= r.count <= MaxCount(r.unit))
  {
    UnitIsFirstFit(diffSeconds);
  }
}

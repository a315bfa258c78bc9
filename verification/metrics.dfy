/**
 The metrics engine: one company's per-year series read from its row, the
 parsing of the quantified score, and the summary figures (average, extremes,
 latest value, trend) with their fixed fallbacks, and the tier the average
 falls in.

 The average is kept exactly as the pair (sum, count); a threshold test
 `average >= k` is `sum >= k * count`.
 */
module Metrics {
  import opened Text
  import opened Dataset

  // ---------------------------------------------------------------------------
  // Score parsing
  // ---------------------------------------------------------------------------

  /** Python's `t.replace('.', '')`. */
  function RemoveDots(t: string): (r: string)
    ensures forall c :: c in r <==> c in t && c != '.'
  {
    if |t| == 0 then ""
    else
      assert t == [t[0]] + t[1..];
      (if t[0] == '.' then "" else [t[0]]) + RemoveDots(t[1..])
  }

  lemma {:induction false} RemoveDotsIsReplace(t: string)
    ensures Replace(t, ".", "") == RemoveDots(t)
    decreases |t|
  {
    if |t| > 0 {
      RemoveDotsIsReplace(t[1..]);
      assert t == [t[0]] + t[1..];
      assert t[..1] == [t[0]];
    }
  }

  /** Python's `s.isdigit()` on ASCII text: non-empty and only digits. */
  predicate IsDigitString(s: string) {
    |s| > 0 && AllDigits(s)
  }

  /** The text before the first dot. */
  function IntegerPart(t: string): (r: string)
    ensures '.' !in r
    ensures forall c :: c in r ==> c in t
    ensures StartsWith(t, r)
  {
    var parts := Split(t, '.');
    assert Join(parts, '.') == t;
    if |parts| == 1 then parts[0]
    else
      assert t == parts[0] + ['.'] + Join(parts[1..], '.');
      parts[0]
  }

  /** The score read from a cell's text:
      `int(float(q)) if str(q).replace('.','').isdigit() else 0`, where a
      `float()` that raises (more than one dot) also gives 0. */
  function ParseScore(t: string): (n: nat)
    ensures n > 0 ==> IsDigitString(RemoveDots(t)) && CountChar(t, '.') <= 1
    ensures n > 0 ==> exists k :: 0 <= k < |t| && IsDigit(t[k]) && t[k] != '0'
  {
    var digits := RemoveDots(t);
    if !IsDigitString(digits) then 0
    else if CountChar(t, '.') > 1 then 0
    else
      var a := IntegerPart(t);
      assert AllDigits(a) by {
        forall k | 0 <= k < |a| ensures IsDigit(a[k]) {
          assert a[k] in a;
          assert a[k] in digits;
        }
      }
      NonzeroHasNonzeroDigit(a);
      DigitsValue(a)
  }

  lemma {:induction false} NonzeroHasNonzeroDigit(a: string)
    requires AllDigits(a)
    ensures DigitsValue(a) > 0 ==> exists k :: 0 <= k < |a| && a[k] != '0'
    decreases |a|
  {
    if |a| > 0 {
      NonzeroHasNonzeroDigit(a[..|a| - 1]);
      if DigitsValue(a) > 0 && a[|a| - 1] == '0' {
        var k :| 0 <= k < |a| - 1 && a[..|a| - 1][k] != '0';
        assert a[k] != '0';
      }
    }
  }

  /** A plain decimal integer reads back as itself. */
  lemma ParseScoreOfInteger(n: nat)
    ensures ParseScore(NatText(n)) == n
  {
    var t := NatText(n);
    assert '.' !in t by {
      forall k | 0 <= k < |t| ensures t[k] != '.' {
        assert IsDigit(t[k]);
      }
    }
    RemoveDotsNoDot(t);
    SplitNoSeparator(t, '.');
    NatTextRoundTrip(n);
  }

  /** A text of digits without a point, leading zeros included, reads as its value. */
  lemma ParseScoreOfDigits(a: string)
    requires AllDigits(a) && |a| > 0
    ensures ParseScore(a) == DigitsValue(a)
  {
    DigitsHaveNoDot(a);
    RemoveDotsNoDot(a);
    SplitNoSeparator(a, '.');
  }

  lemma {:induction false} RemoveDotsNoDot(t: string)
    requires '.' !in t
    ensures RemoveDots(t) == t
    decreases |t|
  {
    if |t| > 0 {
      RemoveDotsNoDot(t[1..]);
      assert t == [t[0]] + t[1..];
    }
  }

  lemma DigitsHaveNoDot(a: string)
    requires AllDigits(a)
    ensures '.' !in a
  {
    forall k | 0 <= k < |a| ensures a[k] != '.' {
      assert IsDigit(a[k]);
    }
  }

  lemma IntegerPartAroundDot(a: string, b: string)
    requires '.' !in a
    ensures IntegerPart(a + ['.'] + b) == a
  {
    SplitCons(a, b, '.');
  }

  lemma CountAroundDot(a: string, b: string)
    requires '.' !in a && '.' !in b
    ensures CountChar(a + ['.'] + b, '.') == 1
  {
    assert multiset(a + ['.'] + b) == multiset(a) + multiset{'.'} + multiset(b);
  }

  lemma RemoveDotsAroundDot(a: string, b: string)
    requires '.' !in a && '.' !in b
    ensures RemoveDots(a + ['.'] + b) == a + b
  {
    var dot: string := ['.'];
    assert RemoveDots(dot) == [] by {
      assert dot[1..] == [];
    }
    RemoveDotsConcat(a + dot, b);
    RemoveDotsConcat(a, dot);
    RemoveDotsNoDot(a);
    RemoveDotsNoDot(b);
    assert RemoveDots(a + dot) == a;
  }

  lemma DigitsConcat(a: string, b: string)
    requires AllDigits(a) && AllDigits(b)
    ensures AllDigits(a + b)
  {
    forall k | 0 <= k < |a + b| ensures IsDigit((a + b)[k]) {
      if k < |a| { assert (a + b)[k] == a[k]; } else { assert (a + b)[k] == b[k - |a|]; }
    }
  }

  /** A decimal with one dot is truncated to its integer part, as `int(float(q))`
      does: "4.0", "4.9" and "4." all read as 4, ".5" as 0. */
  lemma ParseScoreTruncates(a: string, b: string)
    requires AllDigits(a) && AllDigits(b) && |a| + |b| > 0
    ensures ParseScore(a + "." + b) == DigitsValue(a)
  {
    var t := a + ['.'] + b;
    assert a + "." + b == t;
    DigitsHaveNoDot(a);
    DigitsHaveNoDot(b);
    IntegerPartAroundDot(a, b);
    CountAroundDot(a, b);
    RemoveDotsAroundDot(a, b);
    DigitsConcat(a, b);
  }

  lemma {:induction false} RemoveDotsConcat(x: string, y: string)
    ensures RemoveDots(x + y) == RemoveDots(x) + RemoveDots(y)
    decreases |x|
  {
    if |x| > 0 {
      RemoveDotsConcat(x[1..], y);
      assert (x + y)[0] == x[0];
      assert (x + y)[1..] == x[1..] + y;
    } else {
      assert x + y == y;
    }
  }

  /** Two dots make `float()` raise, so the score is 0 even though the text
      passes the digit test. */
  lemma ParseScoreTwoDots()
    ensures ParseScore("1.2.3") == 0
  {
    assert CountChar("1.2.3", '.') == 2 by {
      assert "1.2.3" == ['1'] + ['.'] + ['2'] + ['.'] + ['3'];
    }
  }

  // ---------------------------------------------------------------------------
  // The per-year series
  // ---------------------------------------------------------------------------

  /** One extracted year: the year, its rating text and its parsed score. */
  datatype YearEntry = YearEntry(year: nat, rating: string, score: nat)

  /** `next(col for col in cols if str(year) in col)`: the first column naming the year. */
  function ColumnFor(cols: seq<string>, year: nat): (r: Option<string>)
    ensures r.Some? ==> r.value in cols && Contains(r.value, NatText(year))
    ensures r.Some? ==> exists i :: 0 <= i < |cols| && cols[i] == r.value
                                    && forall k :: 0 <= k < i ==> !Contains(cols[k], NatText(year))
    ensures r.None? <==> forall c :: c in cols ==> !Contains(c, NatText(year))
  {
    match FirstWhere(cols, c => Contains(c, NatText(year)))
    case Some(i) => Some(cols[i])
    case None => None
  }

  /** Both a rating column and a quantity column name the year. A column that
      names a year is never the empty string, so the truthiness test of the
      source is the presence test. */
  predicate Covered(year: nat, ratingCols: seq<string>, quantCols: seq<string>) {
    ColumnFor(ratingCols, year).Some? && ColumnFor(quantCols, year).Some?
  }

  /** `row.get(col, default)` on the text of a cell. */
  function CellOr(rec: Record, col: string, default: string): string {
    if col in rec.cells then rec.cells[col] else default
  }

  /** The entry of a covered year: the rating text (default "无评级") and the
      parsed score (a missing cell reads as 0). */
  function EntryFor(rec: Record, year: nat, ratingCols: seq<string>, quantCols: seq<string>): (e: YearEntry)
    requires Covered(year, ratingCols, quantCols)
    ensures e.year == year
    ensures var rc := ColumnFor(ratingCols, year).value;
            (rc in rec.cells ==> e.rating == rec.cells[rc]) && (rc !in rec.cells ==> e.rating == "无评级")
    ensures var qc := ColumnFor(quantCols, year).value;
            (qc in rec.cells ==> e.score == ParseScore(rec.cells[qc])) && (qc !in rec.cells ==> e.score == 0)
  {
    var rc := ColumnFor(ratingCols, year).value;
    var qc := ColumnFor(quantCols, year).value;
    YearEntry(year, CellOr(rec, rc, "无评级"), ParseScore(CellOr(rec, qc, "0")))
  }

  predicate YearsAscending(years: seq<nat>) {
    forall i, j :: 0 <= i < j < |years| ==> years[i] < years[j]
  }

  predicate EntriesAscending(es: seq<YearEntry>) {
    forall i, j :: 0 <= i < j < |es| ==> es[i].year < es[j].year
  }

  /** The series of covered years, in the order of `years`. */
  function ExtractSeries(rec: Record, years: seq<nat>, ratingCols: seq<string>, quantCols: seq<string>): (r: seq<YearEntry>)
    ensures |r| <= |years|
    ensures forall k :: 0 <= k < |r| ==>
              r[k].year in years && Covered(r[k].year, ratingCols, quantCols)
              && r[k] == EntryFor(rec, r[k].year, ratingCols, quantCols)
  {
    if |years| == 0 then []
    else
      var rest := ExtractSeries(rec, years[1..], ratingCols, quantCols);
      var y := years[0];
      assert forall x :: x in years[1..] ==> x in years;
      if Covered(y, ratingCols, quantCols) then
        var r := [EntryFor(rec, y, ratingCols, quantCols)] + rest;
        assert forall k :: 0 < k < |r| ==> r[k] == rest[k - 1];
        r
      else rest
  }

  /** The series unfolds one year at a time. */
  lemma ExtractCons(rec: Record, years: seq<nat>, ratingCols: seq<string>, quantCols: seq<string>)
    requires |years| > 0
    ensures ExtractSeries(rec, years, ratingCols, quantCols)
            == (if Covered(years[0], ratingCols, quantCols) then [EntryFor(rec, years[0], ratingCols, quantCols)] else [])
               + ExtractSeries(rec, years[1..], ratingCols, quantCols)
  {
    var rest := ExtractSeries(rec, years[1..], ratingCols, quantCols);
    assert [] + rest == rest;
  }

  /** Some entry of the series is for year `y`. */
  predicate HasYear(es: seq<YearEntry>, y: nat) {
    exists k :: 0 <= k < |es| && es[k].year == y
  }

  lemma HasYearCons(head: seq<YearEntry>, rest: seq<YearEntry>, y: nat)
    requires HasYear(rest, y)
    ensures HasYear(head + rest, y)
  {
    var k :| 0 <= k < |rest| && rest[k].year == y;
    assert (head + rest)[|head| + k] == rest[k];
  }

  /** Every covered year is extracted. */
  lemma {:induction false} ExtractComplete(rec: Record, years: seq<nat>, ratingCols: seq<string>, quantCols: seq<string>, y: nat)
    requires y in years && Covered(y, ratingCols, quantCols)
    ensures HasYear(ExtractSeries(rec, years, ratingCols, quantCols), y)
    decreases |years|
  {
    var rest := ExtractSeries(rec, years[1..], ratingCols, quantCols);
    var head: seq<YearEntry> := if Covered(years[0], ratingCols, quantCols) then [EntryFor(rec, years[0], ratingCols, quantCols)] else [];
    ExtractCons(rec, years, ratingCols, quantCols);
    var i :| 0 <= i < |years| && years[i] == y;
    if i == 0 {
      assert (head + rest)[0] == head[0];
    } else {
      assert years[1..][i - 1] == y;
      ExtractComplete(rec, years[1..], ratingCols, quantCols, y);
      HasYearCons(head, rest, y);
    }
  }

  lemma HeadBelowTail(years: seq<nat>)
    requires |years| > 0 && YearsAscending(years)
    ensures forall y :: y in years[1..] ==> years[0] < y
  {
    forall y | y in years[1..] ensures years[0] < y {
      var j :| 0 <= j < |years[1..]| && years[1..][j] == y;
      assert years[j + 1] == y;
    }
  }

  lemma ConsAscending(e: YearEntry, rest: seq<YearEntry>)
    requires EntriesAscending(rest)
    requires forall k :: 0 <= k < |rest| ==> e.year < rest[k].year
    ensures EntriesAscending([e] + rest)
  {
    var r := [e] + rest;
    forall i, j | 0 <= i < j < |r| ensures r[i].year < r[j].year {
      assert r[j] == rest[j - 1];
      if i > 0 { assert r[i] == rest[i - 1]; }
    }
  }

  /** Ascending years give entries in ascending year order. */
  lemma {:induction false} ExtractAscending(rec: Record, years: seq<nat>, ratingCols: seq<string>, quantCols: seq<string>)
    requires YearsAscending(years)
    ensures EntriesAscending(ExtractSeries(rec, years, ratingCols, quantCols))
    decreases |years|
  {
    if |years| > 0 {
      var r := ExtractSeries(rec, years, ratingCols, quantCols);
      var rest := ExtractSeries(rec, years[1..], ratingCols, quantCols);
      assert YearsAscending(years[1..]);
      ExtractAscending(rec, years[1..], ratingCols, quantCols);
      HeadBelowTail(years);
      assert forall k :: 0 <= k < |rest| ==> rest[k].year in years[1..];
      if Covered(years[0], ratingCols, quantCols) {
        var e := EntryFor(rec, years[0], ratingCols, quantCols);
        assert r == [e] + rest;
        ConsAscending(e, rest);
      } else {
        assert r == rest;
      }
    }
  }

  lemma AscendingLastIsLatest(es: seq<YearEntry>, y: nat)
    requires EntriesAscending(es) && HasYear(es, y)
    ensures y <= es[|es| - 1].year
  {
    var k :| 0 <= k < |es| && es[k].year == y;
    if k < |es| - 1 {
      assert es[k].year < es[|es| - 1].year;
    }
  }

  /** With ascending years, the last entry is the latest covered year. */
  lemma LatestIsLastCovered(rec: Record, years: seq<nat>, ratingCols: seq<string>, quantCols: seq<string>)
    requires YearsAscending(years)
    requires |ExtractSeries(rec, years, ratingCols, quantCols)| > 0
    ensures var r := ExtractSeries(rec, years, ratingCols, quantCols);
            forall y :: y in years && Covered(y, ratingCols, quantCols) ==> y <= r[|r| - 1].year
  {
    var r := ExtractSeries(rec, years, ratingCols, quantCols);
    ExtractAscending(rec, years, ratingCols, quantCols);
    forall y | y in years && Covered(y, ratingCols, quantCols) ensures y <= r[|r| - 1].year {
      ExtractComplete(rec, years, ratingCols, quantCols, y);
      AscendingLastIsLatest(r, y);
    }
  }

  // ---------------------------------------------------------------------------
  // Aggregates
  // ---------------------------------------------------------------------------

  /** Some entry of the series has score `x`. */
  predicate ScoreOccurs(s: seq<YearEntry>, x: nat) {
    exists k :: 0 <= k < |s| && s[k].score == x
  }

  lemma ScoreOccursCons(s: seq<YearEntry>, x: nat)
    requires |s| > 0
    ensures ScoreOccurs(s, x) <==> s[0].score == x || ScoreOccurs(s[1..], x)
  {
    if ScoreOccurs(s, x) {
      var k :| 0 <= k < |s| && s[k].score == x;
      if k > 0 { assert s[1..][k - 1].score == x; }
    }
    if ScoreOccurs(s[1..], x) {
      var k :| 0 <= k < |s[1..]| && s[1..][k].score == x;
      assert s[k + 1].score == x;
    }
  }

  /** The positive scores of the series, in order: `[e.score for e in s if e.score > 0]`. */
  function ValidScores(s: seq<YearEntry>): (v: seq<nat>)
    ensures |v| <= |s|
    ensures forall k :: 0 <= k < |v| ==> v[k] > 0
    ensures forall x :: x in v <==> x > 0 && ScoreOccurs(s, x)
  {
    if |s| == 0 then []
    else
      var rest := ValidScores(s[1..]);
      forall x ensures ScoreOccurs(s, x) <==> s[0].score == x || ScoreOccurs(s[1..], x) {
        ScoreOccursCons(s, x);
      }
      if s[0].score > 0 then [s[0].score] + rest else rest
  }

  /** One entry contributes its score exactly when the score is positive. */
  lemma ValidScoresSingle(e: YearEntry)
    ensures ValidScores([e]) == (if e.score > 0 then [e.score] else [])
  {
    assert [e][1..] == [];
  }

  /** Together with `ValidScoresSingle`, the filter keeps the positive scores in
      their order and with their multiplicity. */
  lemma {:induction false} ValidScoresConcat(a: seq<YearEntry>, b: seq<YearEntry>)
    ensures ValidScores(a + b) == ValidScores(a) + ValidScores(b)
    decreases |a|
  {
    if |a| == 0 {
      assert a + b == b;
    } else {
      ValidScoresConcat(a[1..], b);
      assert (a + b)[1..] == a[1..] + b;
    }
  }

  function Sum(v: seq<nat>): nat {
    if |v| == 0 then 0 else v[0] + Sum(v[1..])
  }

  /** Python's `max(v)`. */
  function MaxOf(v: seq<nat>): (m: nat)
    requires |v| > 0
    ensures m in v
    ensures forall x :: x in v ==> x <= m
  {
    if |v| == 1 then v[0]
    else
      var m := MaxOf(v[1..]);
      assert v == [v[0]] + v[1..];
      if v[0] >= m then v[0] else m
  }

  /** Python's `min(v)`. */
  function MinOf(v: seq<nat>): (m: nat)
    requires |v| > 0
    ensures m in v
    ensures forall x :: x in v ==> m <= x
  {
    if |v| == 1 then v[0]
    else
      var m := MinOf(v[1..]);
      assert v == [v[0]] + v[1..];
      if v[0] <= m then v[0] else m
  }

  /** A sum of values between `lo` and `hi` lies between `lo` and `hi` times the count. */
  lemma {:induction false} SumBounds(v: seq<nat>, lo: nat, hi: nat)
    requires forall x :: x in v ==> lo <= x <= hi
    ensures lo * |v| <= Sum(v) <= hi * |v|
    decreases |v|
  {
    if |v| > 0 {
      var t := v[1..];
      assert v[0] in v;
      assert forall x :: x in t ==> x in v;
      SumBounds(t, lo, hi);
      assert Sum(v) == v[0] + Sum(t);
      MulSucc(lo, |t|);
      MulSucc(hi, |t|);
    }
  }

  lemma MulSucc(a: nat, n: nat)
    ensures a * (n + 1) == a * n + a
  {
  }

  datatype Trend = Rising | Falling | Stable

  /** The trend: only with three or more valid scores, and then comparing the
      last with the first only. */
  function TrendOf(v: seq<nat>): (t: Trend)
    ensures |v| < 3 ==> t == Stable
    ensures |v| >= 3 ==> (t == Rising <==> v[|v| - 1] > v[0]) && (t == Falling <==> v[|v| - 1] < v[0])
  {
    if |v| >= 3 then
      if v[|v| - 1] > v[0] then Rising
      else if v[|v| - 1] < v[0] then Falling
      else Stable
    else Stable
  }

  /** The summary figures; the average is `sum / count`. */
  datatype Metrics = Metrics(sum: nat, count: nat, max: nat, min: nat, latest: nat, latestYear: string, trend: Trend)

  /** The summary figures from the valid scores `v` and the last extracted
      entry, with the fixed fallbacks: average 3, maximum 4, minimum 2 when no
      score is valid; latest 3 in "2020" when no year was extracted. */
  function Summarise(v: seq<nat>, last: Option<YearEntry>): (m: Metrics)
    ensures m.count > 0
    ensures m.min * m.count <= m.sum <= m.max * m.count
    ensures |v| == 0 ==> m.sum == 3 && m.count == 1 && m.max == 4 && m.min == 2
    ensures |v| > 0 ==> m.count == |v| && m.sum == Sum(v) && m.max in v && m.min in v
                        && forall x :: x in v ==> m.min <= x <= m.max
    ensures last.None? ==> m.latest == 3 && m.latestYear == "2020"
    ensures last.Some? ==> m.latest == last.value.score && m.latestYear == NatText(last.value.year)
    ensures |v| < 3 ==> m.trend == Stable
    ensures |v| >= 3 ==> (m.trend == Rising <==> v[|v| - 1] > v[0])
                         && (m.trend == Falling <==> v[|v| - 1] < v[0])
  {
    var latest := if last.Some? then last.value.score else 3;
    var year := if last.Some? then NatText(last.value.year) else "2020";
    if |v| == 0 then Metrics(3, 1, 4, 2, latest, year, Stable)
    else
      var hi := MaxOf(v);
      var lo := MinOf(v);
      SumBounds(v, lo, hi);
      Metrics(Sum(v), |v|, hi, lo, latest, year, TrendOf(v))
  }

  function LastEntry(s: seq<YearEntry>): Option<YearEntry> {
    if |s| == 0 then None else Some(s[|s| - 1])
  }

  /** The summary figures of a company's series. */
  function ComputeMetrics(s: seq<YearEntry>): (m: Metrics)
    ensures m.count > 0
    ensures var v := ValidScores(s);
            (|v| == 0 ==> m.sum == 3 && m.count == 1 && m.max == 4 && m.min == 2)
            && (|v| > 0 ==> m.sum == Sum(v) && m.count == |v| && m.max == MaxOf(v) && m.min == MinOf(v))
    ensures |s| == 0 ==> m.latest == 3 && m.latestYear == "2020"
    ensures |s| > 0 ==> m.latest == s[|s| - 1].score && m.latestYear == NatText(s[|s| - 1].year)
    ensures m.trend == TrendOf(ValidScores(s))
  {
    Summarise(ValidScores(s), LastEntry(s))
  }

  /** An entry whose score is 0 takes no part in the figures unless it is the
      last entry, where it only supplies the latest value and year. */
  lemma ZeroScoreIgnored(a: seq<YearEntry>, e: YearEntry, b: seq<YearEntry>)
    requires e.score == 0 && |b| > 0
    ensures ComputeMetrics(a + [e] + b) == ComputeMetrics(a + b)
  {
    var v1 := ValidScores(a + [e] + b);
    var v2 := ValidScores(a + b);
    assert v1 == v2 by {
      ValidScoresConcat(a + [e], b);
      ValidScoresConcat(a, [e]);
      ValidScoresConcat(a, b);
      assert ValidScores([e]) == [] by {
        assert [e][1..] == [];
      }
      assert ValidScores(a + [e]) == ValidScores(a);
    }
    assert LastEntry(a + [e] + b) == LastEntry(a + b);
  }

  // ---------------------------------------------------------------------------
  // Tiers
  // ---------------------------------------------------------------------------

  datatype Tier = Excellent | Good | Moderate | NeedsImprovement

  /** The tier of the average `sum / count`, thresholds compared from the highest down. */
  function TierOf(sum: nat, count: nat): (t: Tier)
    requires count > 0
    ensures t == Excellent <==> sum >= 5 * count
    ensures t == Good <==> 4 * count <= sum < 5 * count
    ensures t == Moderate <==> 3 * count <= sum < 4 * count
    ensures t == NeedsImprovement <==> sum < 3 * count
  {
    if sum >= 5 * count then Excellent
    else if sum >= 4 * count then Good
    else if sum >= 3 * count then Moderate
    else NeedsImprovement
  }

  /** Position of a tier, from 0 (needs improvement) to 3 (excellent). */
  function Rank(t: Tier): nat {
    match t
    case NeedsImprovement => 0
    case Moderate => 1
    case Good => 2
    case Excellent => 3
  }

  lemma ThresholdTransfer(s1: nat, c1: nat, s2: nat, c2: nat, k: nat)
    requires c1 > 0 && c2 > 0 && s1 * c2 <= s2 * c1 && s1 >= k * c1
    ensures s2 >= k * c2
  {
    assert s1 * c2 >= k * c1 * c2;
    assert s2 * c1 >= k * c2 * c1;
    MulCancel(s2, k * c2, c1);
  }

  lemma MulCancel(a: nat, b: nat, c: nat)
    requires c > 0 && a * c >= b * c
    ensures a >= b
  {
  }

  /** A higher average never lands in a lower tier. */
  lemma TierMonotone(s1: nat, c1: nat, s2: nat, c2: nat)
    requires c1 > 0 && c2 > 0
    requires s1 * c2 <= s2 * c1
    ensures Rank(TierOf(s1, c1)) <= Rank(TierOf(s2, c2))
  {
    if s1 >= 3 * c1 { ThresholdTransfer(s1, c1, s2, c2, 3); }
    if s1 >= 4 * c1 { ThresholdTransfer(s1, c1, s2, c2, 4); }
    if s1 >= 5 * c1 { ThresholdTransfer(s1, c1, s2, c2, 5); }
  }

  /** The tier depends only on the average, not on how it is written as a fraction. */
  lemma TierOfAverageOnly(s: nat, c: nat, k: nat)
    requires c > 0 && k > 0
    ensures TierOf(k * s, k * c) == TierOf(s, c)
  {
    TierMonotone(s, c, k * s, k * c);
    TierMonotone(k * s, k * c, s, c);
  }
}

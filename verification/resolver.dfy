/**
 Resolution of a selection-list entry to one record of the table.

 The code is the text between the first full-width opening bracket that is
 followed by a full-width closing bracket on the same line, and the first such
 closing bracket (the regular expression `（(.*?)）`, whose `.` does not match a
 newline). When a bracket pair is present only the code is compared; only when
 there is none is the text before the first opening bracket compared with the
 names. Then the whole entry is compared with the display keys, and last of all
 the first record stands in, marked as a fallback.
 */
module Resolver {
  import opened Text
  import opened Dataset

  const Open: char := '（'
  const Close: char := '）'

  /** Positions `i` and `j` hold a bracket pair the pattern can match: nothing
      between them is a closing bracket or a newline. */
  predicate PairAt(s: string, i: int, j: int) {
    0 <= i < j < |s| && s[i] == Open && s[j] == Close
    && forall k :: i < k < j ==> s[k] != Close && s[k] != '\n'
  }

  /** Index of the first closing bracket or newline at or after `from`. */
  function GroupEnd(s: string, from: nat): (j: nat)
    requires from <= |s|
    ensures from <= j <= |s|
    ensures forall k :: from <= k < j ==> s[k] != Close && s[k] != '\n'
    ensures j < |s| ==> s[j] == Close || s[j] == '\n'
    decreases |s| - from
  {
    if from == |s| || s[from] == Close || s[from] == '\n' then from else GroupEnd(s, from + 1)
  }

  /** Position `i` holds an opening bracket whose group ends at a closing bracket. */
  predicate Opens(s: string, i: int) {
    0 <= i < |s| && s[i] == Open && GroupEnd(s, i + 1) < |s| && s[GroupEnd(s, i + 1)] == Close
  }

  /** A bracket pair starts at `i` exactly when `i` opens, and then it ends where the group ends. */
  lemma PairAtIff(s: string, i: int, j: int)
    ensures PairAt(s, i, j) <==> Opens(s, i) && j == GroupEnd(s, i + 1)
  {
    if PairAt(s, i, j) {
      var e := GroupEnd(s, i + 1);
      assert e <= j;
      assert e == j;
    }
  }

  /** The first opening position at or after `from`. */
  function FirstOpen(s: string, from: nat): (r: Option<nat>)
    requires from <= |s|
    ensures r.Some? ==> from <= r.value < |s| && Opens(s, r.value)
                        && forall k :: from <= k < r.value ==> !Opens(s, k)
    ensures r.None? ==> forall k :: from <= k < |s| ==> !Opens(s, k)
    decreases |s| - from
  {
    if from == |s| then None
    else if Opens(s, from) then Some(from)
    else FirstOpen(s, from + 1)
  }

  /** Python's `re.search(r'（(.*?)）', s)` and its first group: the text of the
      leftmost bracket pair. */
  function BracketCode(s: string): (r: Option<string>)
    ensures r.Some? <==> exists i, j :: PairAt(s, i, j)
    ensures r.Some? ==> exists i, j :: PairAt(s, i, j) && r.value == s[i + 1..j]
                                       && forall i', j' :: 0 <= i' < i ==> !PairAt(s, i', j')
  {
    match FirstOpen(s, 0)
    case None =>
      forall i, j ensures !PairAt(s, i, j) {
        PairAtIff(s, i, j);
      }
      None
    case Some(i) =>
      var j := GroupEnd(s, i + 1);
      PairAtIff(s, i, j);
      forall i', j' | 0 <= i' < i ensures !PairAt(s, i', j') {
        PairAtIff(s, i', j');
      }
      Some(s[i + 1..j])
  }

  /** Python's `s.split("（")[0]`: the text before the first opening bracket. */
  function NamePart(s: string): (r: string)
    ensures Open !in r
    ensures StartsWith(s, r)
    ensures |r| < |s| ==> s[|r|] == Open
  {
    var parts := Split(s, Open);
    assert Join(parts, Open) == s;
    if |parts| == 1 then parts[0]
    else
      assert s == parts[0] + [Open] + Join(parts[1..], Open);
      parts[0]
  }

  // ---------------------------------------------------------------------------
  // The lookup stages
  // ---------------------------------------------------------------------------

  /** Stage one with a bracket: the record's code equals the bracketed text. */
  predicate CodeHit(sel: string, r: Record) {
    var b := BracketCode(sel); b.Some? && r.code == b.value
  }

  /** Stage one without a bracket: the record's name equals the text before the bracket. */
  predicate NameHit(sel: string, r: Record) {
    BracketCode(sel).None? && r.name == NamePart(sel)
  }

  /** Stage two: the record's display key equals the whole entry. */
  predicate KeyHit(sel: string, r: Record) {
    DisplayKey(r) == sel
  }

  /** Stage one: the code test when the entry has a bracket pair, the name test otherwise. */
  predicate StageOneHit(sel: string, r: Record) {
    CodeHit(sel, r) || NameHit(sel, r)
  }

  /** `i` is the first record stage one accepts. */
  predicate FirstStageOne(ds: seq<Record>, sel: string, i: int) {
    0 <= i < |ds| && StageOneHit(sel, ds[i]) && forall k :: 0 <= k < i ==> !StageOneHit(sel, ds[k])
  }

  /** `i` is the first record whose display key is the entry. */
  predicate FirstKey(ds: seq<Record>, sel: string, i: int) {
    0 <= i < |ds| && KeyHit(sel, ds[i]) && forall k :: 0 <= k < i ==> !KeyHit(sel, ds[k])
  }

  /** Pandas' `df[df[column] == value].iloc[0]` for the stage-one column: the first
      record whose code (bracket present) or name (bracket absent) matches. */
  function StageOne(ds: seq<Record>, sel: string): (r: Option<nat>)
    ensures r.Some? ==> FirstStageOne(ds, sel, r.value)
    ensures r.None? ==> forall i :: 0 <= i < |ds| ==> !StageOneHit(sel, ds[i])
  {
    match BracketCode(sel)
    case Some(code) => FirstWhere(ds, (r: Record) => r.code == code)
    case None => FirstWhere(ds, (r: Record) => r.name == NamePart(sel))
  }

  /** The first record whose display key is the entry. */
  function KeyStage(ds: seq<Record>, sel: string): (r: Option<nat>)
    ensures r.Some? ==> FirstKey(ds, sel, r.value)
    ensures r.None? ==> forall i :: 0 <= i < |ds| ==> !KeyHit(sel, ds[i])
  {
    FirstWhere(ds, (r: Record) => DisplayKey(r) == sel)
  }

  datatype Quality = Exact | Fallback

  /** No record for an empty or placeholder entry; a record, exact or standing
      in; or an exception, when a real entry meets an empty table (taking the
      first row fails, and so does the same step in the exception handler). */
  datatype Resolution = NoRecord | Found(row: Record, quality: Quality) | Raises

  /** The record a selection-list entry stands for. */
  function Resolve(ds: seq<Record>, sel: string): (res: Resolution)
    ensures res.NoRecord? <==> sel == "" || sel == NoSelection
    ensures res.Raises? <==> |ds| == 0 && sel != "" && sel != NoSelection
    ensures res.Found? ==> res.row in ds
    ensures res.Found? && (exists i :: 0 <= i < |ds| && StageOneHit(sel, ds[i])) ==>
              res.quality == Exact && exists i :: FirstStageOne(ds, sel, i) && res.row == ds[i]
    ensures res.Found? && (forall i :: 0 <= i < |ds| ==> !StageOneHit(sel, ds[i]))
                       && (exists i :: 0 <= i < |ds| && KeyHit(sel, ds[i])) ==>
              res.quality == Exact && exists i :: FirstKey(ds, sel, i) && res.row == ds[i]
    ensures res.Found? ==>
              (res.quality == Fallback <==>
                 forall i :: 0 <= i < |ds| ==> !StageOneHit(sel, ds[i]) && !KeyHit(sel, ds[i]))
    ensures res.Found? && res.quality == Fallback ==> res.row == ds[0]
  {
    if sel == "" || sel == NoSelection then NoRecord
    else if |ds| == 0 then Raises
    else
      match StageOne(ds, sel)
      case Some(i) => Found(ds[i], Exact)
      case None =>
        match KeyStage(ds, sel)
        case Some(i) => Found(ds[i], Exact)
        case None => Found(ds[0], Fallback)
  }

  /** An entry with a bracket pair is never compared with the names, and one
      without is never compared with the codes. */
  lemma StagesExclusive(sel: string, r: Record)
    ensures !(CodeHit(sel, r) && NameHit(sel, r))
    ensures BracketCode(sel).Some? ==> (StageOneHit(sel, r) <==> r.code == BracketCode(sel).value)
    ensures BracketCode(sel).None? ==> (StageOneHit(sel, r) <==> r.name == NamePart(sel))
  {
  }

  // ---------------------------------------------------------------------------
  // Round trip through the display key
  // ---------------------------------------------------------------------------

  /** Only one closing position pairs with a given opening bracket. */
  lemma PairAtUnique(s: string, i: int, j: int, j': int)
    requires PairAt(s, i, j) && PairAt(s, i, j')
    ensures j == j'
  {
  }

  /** The bracket pattern finds the code inside a display key, provided the name
      has no opening bracket and the code no closing bracket or newline. */
  lemma BracketOfDisplayKey(r: Record)
    requires Open !in r.name && Close !in r.code && '\n' !in r.code
    ensures BracketCode(DisplayKey(r)) == Some(r.code)
  {
    var s := DisplayKey(r);
    var n := |r.name|;
    var e := n + 1 + |r.code|;
    assert s[n] == Open && s[e] == Close;
    forall k | n < k < e ensures s[k] != Close && s[k] != '\n' {
      assert s[k] == r.code[k - n - 1];
    }
    assert PairAt(s, n, e);
    var b := BracketCode(s);
    var i, j :| PairAt(s, i, j) && b.value == s[i + 1..j]
                && forall i', j' :: 0 <= i' < i ==> !PairAt(s, i', j');
    assert i == n by {
      assert s[i] == Open;
      assert forall k :: 0 <= k < n ==> s[k] == r.name[k];
    }
    PairAtUnique(s, n, j, e);
    assert s[n + 1..e] == r.code;
  }

  /** Selecting a record's own display key finds the first record with the same
      code, as an exact match. */
  lemma ResolveDisplayKey(ds: seq<Record>, i: nat)
    requires i < |ds|
    requires Open !in ds[i].name && Close !in ds[i].code && '\n' !in ds[i].code
    ensures exists j :: 0 <= j <= i && ds[j].code == ds[i].code
                        && (forall k :: 0 <= k < j ==> ds[k].code != ds[i].code)
                        && Resolve(ds, DisplayKey(ds[i])) == Found(ds[j], Exact)
  {
    var key := DisplayKey(ds[i]);
    BracketOfDisplayKey(ds[i]);
    assert key[|ds[i].name|] == Open;
    assert key != "" && key != NoSelection by {
      assert Open !in NoSelection;
    }
    assert StageOneHit(key, ds[i]);
    var res := Resolve(ds, key);
    var j :| FirstStageOne(ds, key, j) && res.row == ds[j];
    assert ds[j].code == ds[i].code;
  }

  /** With unique codes, selecting a record's display key gives that record back. */
  lemma ResolveDisplayKeyUnique(ds: seq<Record>, i: nat)
    requires i < |ds|
    requires forall a, b :: 0 <= a < b < |ds| ==> ds[a].code != ds[b].code
    requires Open !in ds[i].name && Close !in ds[i].code && '\n' !in ds[i].code
    ensures Resolve(ds, DisplayKey(ds[i])) == Found(ds[i], Exact)
  {
    ResolveDisplayKey(ds, i);
  }
}

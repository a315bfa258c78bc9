/**
 The loaded company table: one record per row, the display key shown in the
 selection list, the selection list itself, and the choice of the per-year
 rating and quantity columns from the table's header.

 A cell is modelled as the text Python's `str()` gives for it (a missing value
 is the text "nan"), keyed by its column name.
 */
module Dataset {
  import opened Text

  /** One row of the table: a listed company. */
  datatype Record = Record(code: string, name: string, listingDate: string, cells: map<string, string>)

  /** The selection list's placeholder entry, meaning "nothing chosen". */
  const NoSelection: string := "请选择企业"

  /** The selection-list text of a record: name, then the code in full-width brackets. */
  function DisplayKey(r: Record): string {
    r.name + "（" + r.code + "）"
  }

  function DisplayKeys(ds: seq<Record>): (keys: seq<string>)
    ensures |keys| == |ds|
    ensures forall i :: 0 <= i < |ds| ==> keys[i] == DisplayKey(ds[i])
  {
    if |ds| == 0 then [] else [DisplayKey(ds[0])] + DisplayKeys(ds[1..])
  }

  /** The choices offered for selection: every record's display key, sorted. */
  function SelectionList(ds: seq<Record>): (r: seq<string>)
    ensures Sorted(r)
    ensures |r| == |ds|
    ensures forall i :: 0 <= i < |ds| ==> DisplayKey(ds[i]) in r
    ensures forall k :: k in r ==> exists i :: 0 <= i < |ds| && k == DisplayKey(ds[i])
    ensures multiset(r) == multiset(DisplayKeys(ds))
  {
    var keys := DisplayKeys(ds);
    var r := SortStrings(keys);
    assert |r| == |multiset(r)| == |multiset(keys)| == |keys|;
    forall i | 0 <= i < |ds| ensures DisplayKey(ds[i]) in r {
      assert keys[i] in multiset(keys);
    }
    forall k | k in r ensures exists i :: 0 <= i < |ds| && k == DisplayKey(ds[i]) {
      assert k in multiset(r);
      assert k in keys;
    }
    r
  }

  // ---------------------------------------------------------------------------
  // Rating and quantity columns
  // ---------------------------------------------------------------------------

  /** The column name mentions one of the supported years. */
  predicate MentionsYear(col: string, years: seq<nat>) {
    exists k :: 0 <= k < |years| && Contains(col, NatText(years[k]))
  }

  /** A column of the preferred form: it carries `marker` and names a supported year. */
  predicate PrimaryHit(col: string, years: seq<nat>, marker: string) {
    Contains(col, marker) && MentionsYear(col, years)
  }

  /** Some column has the preferred form. */
  predicate AnyPrimary(cols: seq<string>, years: seq<nat>, marker: string) {
    exists c :: c in cols && PrimaryHit(c, years, marker)
  }

  /** The column kept before sorting: one of the preferred form when there is
      any, otherwise any column carrying `fallbackMarker`. */
  predicate Picked(col: string, cols: seq<string>, years: seq<nat>, marker: string, fallbackMarker: string) {
    if AnyPrimary(cols, years, marker) then PrimaryHit(col, years, marker) else Contains(col, fallbackMarker)
  }

  /** The chosen columns, in table order. */
  function ChosenColumns(cols: seq<string>, years: seq<nat>, marker: string, fallbackMarker: string): (r: seq<string>)
    ensures forall c :: c in r <==> c in cols && Picked(c, cols, years, marker, fallbackMarker)
    ensures multiset(r) <= multiset(cols)
    ensures forall c :: c in r ==> multiset(r)[c] == multiset(cols)[c]
  {
    var primary := Keep(cols, (c: string) => PrimaryHit(c, years, marker));
    KeepSubMultiset(cols, (c: string) => PrimaryHit(c, years, marker));
    KeepSubMultiset(cols, (c: string) => Contains(c, fallbackMarker));
    if |primary| > 0 then
      assert primary[0] in primary;
      primary
    else Keep(cols, (c: string) => Contains(c, fallbackMarker))
  }

  /** The columns of one kind: those carrying `marker` and a supported year; when
      there are none, every column carrying `fallbackMarker`; in either case
      sorted as Python sorts strings. */
  function PickColumns(cols: seq<string>, years: seq<nat>, marker: string, fallbackMarker: string): (r: seq<string>)
    ensures Sorted(r)
    ensures forall c :: c in r <==> c in cols && Picked(c, cols, years, marker, fallbackMarker)
    ensures multiset(r) <= multiset(cols)
    ensures forall c :: c in r ==> multiset(r)[c] == multiset(cols)[c]
  {
    var chosen := ChosenColumns(cols, years, marker, fallbackMarker);
    var r := SortStrings(chosen);
    assert forall c :: c in r <==> c in multiset(r);
    r
  }

  lemma {:induction false} KeepSubMultiset(s: seq<string>, p: string -> bool)
    ensures multiset(Keep(s, p)) <= multiset(s)
    decreases |s|
  {
    if |s| > 0 {
      KeepSubMultiset(s[1..], p);
      assert s == [s[0]] + s[1..];
    }
  }

  /** The columns holding a year's rating. */
  function RatingColumns(cols: seq<string>, years: seq<nat>): seq<string> {
    PickColumns(cols, years, "华证ESG评级", "评级")
  }

  /** The columns holding a year's quantified score. */
  function QuantColumns(cols: seq<string>, years: seq<nat>): seq<string> {
    PickColumns(cols, years, "_量化值", "量化值")
  }

  /** The supported years, 2009 to 2020 in ascending order. */
  function SupportedYears(): (ys: seq<nat>)
    ensures |ys| == 12 && forall i :: 0 <= i < |ys| ==> ys[i] == 2009 + i
  {
    seq(12, i requires 0 <= i < 12 => 2009 + i)
  }
}

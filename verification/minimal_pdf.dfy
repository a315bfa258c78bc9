/**
 The last-resort PDF: a one-page document with no text, written out byte by
 byte when neither the styled nor the basic layout could be built.

 A PDF file ends in a cross-reference table that records, for every object,
 the byte offset at which the object starts, and a `startxref` line giving the
 offset of the table itself. The document is assembled here from its parts, so
 the offsets can be compared with where the objects really are. The bytes the
 application writes (`AsWritten`, the document the renderer returns) declare
 offsets one to seventy-six bytes past the real ones; `Fallback` is the same
 document with the offsets computed from the lengths of the parts, the
 corrected form of those bytes.
 */
module MinimalPdf {
  import opened Text

  // ---------------------------------------------------------------------------
  // Document structure
  // ---------------------------------------------------------------------------

  /** An indirect object: its number and its dictionary. */
  datatype PdfObject = PdfObject(num: nat, dict: string)

  const Header: string := "%PDF-1.4\n"

  /** The text that opens object `n`. */
  function Tag(n: nat): string {
    NatText(n) + " 0 obj"
  }

  function ObjectText(o: PdfObject): string {
    Tag(o.num) + "\n" + o.dict + "\nendobj\n"
  }

  function Body(objs: seq<PdfObject>): string {
    if |objs| == 0 then "" else ObjectText(objs[0]) + Body(objs[1..])
  }

  /** A number in the ten-digit field of a cross-reference entry. */
  function Pad10(t: string): (r: string)
    ensures |t| <= 10 ==> |r| == 10
    ensures |t| > 10 ==> r == t
    decreases 10 - |t|
  {
    if |t| >= 10 then t else Pad10("0" + t)
  }

  /** Padding keeps the number's digits at the end of the field. */
  lemma {:induction false} PadEndsWithText(t: string)
    requires |t| <= 10
    ensures Pad10(t)[10 - |t|..] == t
    decreases 10 - |t|
  {
    if |t| < 10 {
      PadEndsWithText("0" + t);
      assert Pad10(t)[10 - |t|..] == Pad10("0" + t)[10 - |"0" + t|..][1..];
    }
  }

  function Entry(offset: nat): string {
    Pad10(NatText(offset)) + " 00000 n \n"
  }

  function Entries(offsets: seq<nat>): string {
    if |offsets| == 0 then "" else Entry(offsets[0]) + Entries(offsets[1..])
  }

  /** The cross-reference table: the free head entry, then one entry per object. */
  function XrefSection(offsets: seq<nat>): string {
    "xref\n0 " + NatText(|offsets| + 1) + "\n0000000000 65535 f \n" + Entries(offsets)
  }

  function Trailer(size: nat, start: nat): string {
    "trailer\n<< /Size " + NatText(size) + " /Root 1 0 R >>\nstartxref\n" + NatText(start) + "\n%%EOF"
  }

  /** A document declaring the object offsets `offsets` and the table offset `start`. */
  function Document(objs: seq<PdfObject>, offsets: seq<nat>, start: nat): string {
    Header + Body(objs) + XrefSection(offsets) + Trailer(|objs| + 1, start)
  }

  /** Where each object starts when the body starts at `from`. */
  function Offsets(objs: seq<PdfObject>, from: nat): (r: seq<nat>)
    ensures |r| == |objs|
  {
    if |objs| == 0 then [] else [from] + Offsets(objs[1..], from + |ObjectText(objs[0])|)
  }

  /** The document with every offset computed from the lengths of the parts. */
  function Build(objs: seq<PdfObject>): string {
    Document(objs, Offsets(objs, |Header|), |Header| + |Body(objs)|)
  }

  /** Every declared object offset points at that object's opening text, and the
      table offset points at the table. */
  predicate XrefConsistent(doc: string, objs: seq<PdfObject>, offsets: seq<nat>, start: nat) {
    |offsets| == |objs|
    && (forall k :: 0 <= k < |objs| ==> OccursAt(doc, Tag(objs[k].num), offsets[k]))
    && OccursAt(doc, "xref", start)
  }

  lemma OccursInMiddle(p: string, b: string, q: string, t: string)
    requires StartsWith(b, t)
    ensures OccursAt(p + b + q, t, |p|)
  {
    assert (p + b + q)[|p|..|p| + |t|] == b[..|t|];
  }

  /** In any text with the body after a prefix `p`, each object's opening text
      sits at the offset computed for it. */
  lemma {:induction false} BodyLocates(objs: seq<PdfObject>, p: string, q: string)
    ensures forall k :: 0 <= k < |objs| ==>
              OccursAt(p + Body(objs) + q, Tag(objs[k].num), Offsets(objs, |p|)[k])
    decreases |objs|
  {
    if |objs| > 0 {
      var first := ObjectText(objs[0]);
      var p' := p + first;
      var rest := objs[1..];
      var text := p + Body(objs) + q;
      assert text == p + first + (Body(rest) + q);
      OccursInMiddle(p, first, Body(rest) + q, Tag(objs[0].num));
      BodyLocates(rest, p', q);
      assert text == p' + Body(rest) + q;
      var offs := Offsets(objs, |p|);
      assert offs[1..] == Offsets(rest, |p'|);
      forall k | 1 <= k < |objs|
        ensures OccursAt(text, Tag(objs[k].num), offs[k])
      {
        assert objs[k] == rest[k - 1];
        assert offs[k] == offs[1..][k - 1];
      }
    }
  }

  lemma XrefOpens(offsets: seq<nat>)
    ensures StartsWith(XrefSection(offsets), "xref")
  {
    var x := XrefSection(offsets);
    var rest := NatText(|offsets| + 1) + "\n0000000000 65535 f \n" + Entries(offsets);
    assert x == "xref\n0 " + rest;
    assert x[..4] == "xref";
  }

  /** A built document's cross-reference table is right, whatever the objects. */
  lemma BuildConsistent(objs: seq<PdfObject>)
    ensures XrefConsistent(Build(objs), objs, Offsets(objs, |Header|), |Header| + |Body(objs)|)
  {
    var offsets := Offsets(objs, |Header|);
    var b := Body(objs);
    var x := XrefSection(offsets);
    var t := Trailer(|objs| + 1, |Header| + |b|);
    var doc := Header + b + (x + t);
    Regroup(Header + b, x, t);
    assert Build(objs) == doc;
    XrefOpens(offsets);
    OccursInMiddle(Header + b, x, t, "xref");
    BodyLocates(objs, Header, x + t);
  }

  lemma Regroup(a: string, b: string, c: string)
    ensures a + b + c == a + (b + c)
  {
  }

  // ---------------------------------------------------------------------------
  // The application's last-resort document
  // ---------------------------------------------------------------------------

  /** Catalog, page tree with one kid, and an empty Letter-sized page. */
  const Objects: seq<PdfObject> := [
    PdfObject(1, "<< /Type /Catalog /Pages 2 0 R >>"),
    PdfObject(2, "<< /Type /Pages /Kids [3 0 R] /Count 1 >>"),
    PdfObject(3, "<< /Type /Page /Parent 2 0 R /MediaBox [0 0 612 792] >>")
  ]

  /** The document with the offsets the application declares. */
  function AsWritten(): string {
    Document(Objects, [10, 79, 173], 262)
  }

  /** Padding puts zeros in front of a short number. */
  lemma {:induction false} PadZeros(t: string)
    requires |t| <= 10
    ensures Pad10(t) == seq(10 - |t|, _ => '0') + t
    decreases 10 - |t|
  {
    if |t| < 10 {
      PadZeros("0" + t);
      assert seq(10 - |t|, _ => '0') + t == seq(10 - |"0" + t|, _ => '0') + ("0" + t);
    }
  }

  lemma EntryLiteral(n: nat, t: string)
    requires 10 <= n < 100 && NatText(n) == t
    ensures Entry(n) == "00000000" + t + " 00000 n \n"
  {
    PadZeros(t);
    assert seq(8, _ => '0') == "00000000";
  }

  lemma EntryLiteral3(n: nat, t: string)
    requires 100 <= n < 1000 && NatText(n) == t
    ensures Entry(n) == "0000000" + t + " 00000 n \n"
  {
    ShortNatText(n);
    PadZeros(t);
    assert seq(7, _ => '0') == "0000000";
  }

  lemma EntriesLiteral()
    ensures Entries([10, 79, 173]) == Entry(10) + Entry(79) + Entry(173)
  {
    assert [10, 79, 173][1..] == [79, 173] && [79, 173][1..] == [173];
    assert Entries([173]) == Entry(173) + Entries([]);
  }

  lemma BodyLiteral()
    ensures Body(Objects) == ObjectText(Objects[0]) + ObjectText(Objects[1]) + ObjectText(Objects[2])
  {
    assert Objects[1..] == [Objects[1], Objects[2]] && Objects[1..][1..] == [Objects[2]];
    assert Body([Objects[2]]) == ObjectText(Objects[2]) + Body([]);
  }

  lemma EntryTen()
    ensures Entry(10) == "0000000010 00000 n \n"
  {
    EntryLiteral(10, "10");
  }

  lemma EntrySeventyNine()
    ensures Entry(79) == "0000000079 00000 n \n"
  {
    EntryLiteral(79, "79");
  }

  lemma EntryOneSeventyThree()
    ensures Entry(173) == "0000000173 00000 n \n"
  {
    EntryLiteral3(173, "173");
  }

  /** The declared document is, piece for piece, the byte string the application
      writes: header, three objects (number, dictionary, end), table head, three
      entries, trailer. */
  lemma AsWrittenIsLiteral()
    ensures AsWritten() ==
      "%PDF-1.4\n"
      + ("1 0 obj" + "\n" + "<< /Type /Catalog /Pages 2 0 R >>" + "\nendobj\n"
         + ("2 0 obj" + "\n" + "<< /Type /Pages /Kids [3 0 R] /Count 1 >>" + "\nendobj\n")
         + ("3 0 obj" + "\n" + "<< /Type /Page /Parent 2 0 R /MediaBox [0 0 612 792] >>" + "\nendobj\n"))
      + ("xref\n0 " + "4" + "\n0000000000 65535 f \n"
         + ("0000000010 00000 n \n" + "0000000079 00000 n \n" + "0000000173 00000 n \n"))
      + ("trailer\n<< /Size " + "4" + " /Root 1 0 R >>\nstartxref\n" + "262" + "\n%%EOF")
  {
    BodyLiteral();
    EntriesLiteral();
    EntryTen();
    EntrySeventyNine();
    EntryOneSeventyThree();
    assert NatText(1) + " 0 obj" == "1 0 obj";
    assert NatText(2) + " 0 obj" == "2 0 obj";
    assert NatText(3) + " 0 obj" == "3 0 obj";
    assert NatText(4) == "4" && NatText(262) == "262";
  }

  /** The document with the offsets computed from its parts. */
  function Fallback(): string {
    Build(Objects)
  }

  lemma ObjectLengths()
    ensures |ObjectText(Objects[0])| == 49
    ensures |ObjectText(Objects[1])| == 57
    ensures |ObjectText(Objects[2])| == 71
    ensures |Body(Objects)| == 177
  {
    assert Objects[1..][1..] == [Objects[2]];
  }

  /** The objects start at bytes 9, 58 and 115, and the table at byte 186. */
  lemma TrueOffsets()
    ensures Offsets(Objects, |Header|) == [9, 58, 115]
    ensures |Header| + |Body(Objects)| == 186
  {
    ObjectLengths();
    assert Objects[1..][1..] == [Objects[2]];
    assert Offsets(Objects[1..][1..], 115) == [115];
    assert Offsets(Objects[1..], 58) == [58, 115];
  }

  lemma ShortNatText(n: nat)
    requires n < 1000
    ensures |NatText(n)| <= 3
    ensures n >= 100 ==> |NatText(n)| == 3
  {
    if n >= 10 {
      assert NatText(n) == NatText(n / 10) + [DigitChar(n % 10)];
      if n / 10 >= 10 {
        assert NatText(n / 10) == NatText(n / 10 / 10) + [DigitChar(n / 10 % 10)];
      }
    }
  }

  lemma EntryLength(offset: nat)
    requires offset < 1000
    ensures |Entry(offset)| == 20
  {
    ShortNatText(offset);
  }

  /** Both documents are 328 bytes long: the declared offsets have as many
      digits as the true ones. */
  lemma DocumentLength(offsets: seq<nat>, start: nat)
    requires |offsets| == 3 && offsets[0] < 1000 && offsets[1] < 1000 && offsets[2] < 1000
    requires 100 <= start < 1000
    ensures |Document(Objects, offsets, start)| == 328
  {
    ObjectLengths();
    EntryLength(offsets[0]);
    EntryLength(offsets[1]);
    EntryLength(offsets[2]);
    var rest := offsets[1..];
    assert rest[1..] == [offsets[2]];
    assert Entries(rest[1..]) == Entry(offsets[2]) + Entries([]);
    assert Entries(rest) == Entry(offsets[1]) + Entries(rest[1..]);
    assert Entries(offsets) == Entry(offsets[0]) + Entries(rest);
    ShortNatText(start);
  }

  /** The first declared offset, byte 10, is the space after the object number. */
  lemma AsWrittenFirstMisplaced()
    ensures !OccursAt(AsWritten(), Tag(1), 10)
  {
    var doc := AsWritten();
    var x := XrefSection([10, 79, 173]);
    var t := Trailer(4, 262);
    assert doc == Header + (ObjectText(Objects[0]) + Body(Objects[1..])) + x + t;
    assert doc[10] == ObjectText(Objects[0])[1] == ' ';
    assert Tag(1)[0] == '1';
  }

  lemma EntriesLength()
    ensures |Entries([10, 79, 173])| == 60
  {
    EntryLength(10);
    EntryLength(79);
    EntryLength(173);
    assert [10, 79, 173][1..][1..] == [173];
  }

  /** Byte 262 of the declared document is byte 47 of its entry list. */
  lemma AsWrittenByte262()
    ensures |AsWritten()| > 266 && |Entries([10, 79, 173])| > 47
    ensures AsWritten()[262] == Entries([10, 79, 173])[47]
  {
    ObjectLengths();
    EntriesLength();
    var e := Entries([10, 79, 173]);
    var pre := "xref\n0 " + NatText(4) + "\n0000000000 65535 f \n";
    assert |NatText(4)| == 1;
    var x := pre + e;
    assert XrefSection([10, 79, 173]) == x;
    var hb := Header + Body(Objects);
    assert |hb| == 186;
    var doc := hb + x + Trailer(4, 262);
    assert AsWritten() == doc;
    assert doc[262] == (hb + x)[262] == x[76];
    assert x[76] == e[47];
  }

  /** Byte 47 of the entry list is the first digit of "173". */
  lemma EntriesByte47()
    ensures |Entries([10, 79, 173])| > 47 && Entries([10, 79, 173])[47] == '1'
  {
    EntryLength(10);
    EntryLength(79);
    EntryLength(173);
    assert [10, 79, 173][1..][1..] == [173];
    var e := Entries([10, 79, 173]);
    assert e == Entry(10) + Entry(79) + Entry(173);
    assert e[47] == Entry(173)[7];
    assert NatText(173) == "173";
    PadEndsWithText("173");
  }

  /** The declared table offset, byte 262, is a digit of the third entry. */
  lemma AsWrittenStartMisplaced()
    ensures !OccursAt(AsWritten(), "xref", 262)
  {
    AsWrittenByte262();
    EntriesByte47();
    var doc := AsWritten();
    assert doc[262..266][0] == '1';
    assert "xref"[0] == 'x';
  }

  /** The declared offsets are not where the objects and the table start: the
      first object begins at byte 9, not 10, and byte 262 lies inside the
      table's third entry; the table itself begins at byte 186. */
  lemma AsWrittenMisplaced()
    ensures |AsWritten()| == 328
    ensures Offsets(Objects, |Header|) == [9, 58, 115]
    ensures |Header| + |Body(Objects)| == 186
    ensures !XrefConsistent(AsWritten(), Objects, [10, 79, 173], 262)
  {
    DocumentLength([10, 79, 173], 262);
    TrueOffsets();
    AsWrittenFirstMisplaced();
    AsWrittenStartMisplaced();
  }

  /** The corrected document declares the offsets where its parts really are. */
  lemma FallbackConsistent()
    ensures |Fallback()| == 328
    ensures Fallback() == Document(Objects, [9, 58, 115], 186)
    ensures XrefConsistent(Fallback(), Objects, [9, 58, 115], 186)
  {
    TrueOffsets();
    DocumentLength([9, 58, 115], 186);
    BuildConsistent(Objects);
  }
}

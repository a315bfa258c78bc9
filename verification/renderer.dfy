/**
 The PDF export: how an analysis text becomes the list of layout elements of
 the styled document, and which of the three documents is produced when a
 layout step fails.

 A blank analysis is replaced by a short template. The text is then cleaned:
 every character outside CJK ideographs, ASCII letters and digits, whitespace
 and the punctuation `.,;:!?()（）【】-` is deleted, and then the heading markers
 "# ", "## " and "### " are deleted (none remains after the first step). Each
 line, stripped, becomes a spacer when empty and otherwise a paragraph whose
 style its first characters decide. A title, a spacer, a page break and a
 footer carrying the generation time frame the lines.

 Whether the typesetting library builds a document is outside the model: it
 is given as two flags, one for the styled layout and one for the basic one.
 */
module Renderer {
  import opened Text
  import MinimalPdf

  // ---------------------------------------------------------------------------
  // Cleaning
  // ---------------------------------------------------------------------------

  /** The characters the cleaning pattern keeps. */
  predicate Allowed(c: char) {
    (0x4E00 <= c as int <= 0x9FFF) || IsDigit(c) || ('a' <= c <= 'z') || ('A' <= c <= 'Z')
    || IsSpace(c) || c in ".,;:!?()（）【】-"
  }

  /** Every character of the text is kept by the cleaning pattern. */
  predicate Clean(s: string) {
    forall k :: 0 <= k < |s| ==> Allowed(s[k])
  }

  /** The text with every character the pattern rejects deleted. */
  function Sanitize(s: string): (r: string)
    ensures Clean(r)
  {
    if |s| == 0 then "" else (if Allowed(s[0]) then [s[0]] else "") + Sanitize(s[1..])
  }

  /** Cleaning keeps every occurrence of every allowed character. */
  lemma {:induction false} SanitizeCounts(s: string)
    ensures forall c :: Allowed(c) ==> multiset(Sanitize(s))[c] == multiset(s)[c]
    decreases |s|
  {
    if |s| > 0 {
      SanitizeCounts(s[1..]);
      assert s == [s[0]] + s[1..];
    }
  }

  /** Cleaning keeps the order of the kept characters: it distributes over concatenation. */
  lemma {:induction false} SanitizeConcat(a: string, b: string)
    ensures Sanitize(a + b) == Sanitize(a) + Sanitize(b)
    decreases |a|
  {
    if |a| > 0 {
      SanitizeConcat(a[1..], b);
      assert (a + b)[1..] == a[1..] + b;
      assert (a + b)[0] == a[0];
      var h: string := if Allowed(a[0]) then [a[0]] else "";
      assert Sanitize(a + b) == h + Sanitize(a[1..] + b);
      assert Sanitize(a) == h + Sanitize(a[1..]);
    } else {
      assert a + b == b;
    }
  }

  /** `a` can be obtained from `b` by deleting characters. */
  predicate Subsequence(a: string, b: string)
    decreases |b|
  {
    |a| == 0 || (|b| > 0 && (if a[0] == b[0] then Subsequence(a[1..], b[1..]) else Subsequence(a, b[1..])))
  }

  /** A subsequence of the tail is a subsequence of the whole. */
  lemma {:induction false} SubsequenceOfTail(a: string, b: string)
    requires |b| > 0 && Subsequence(a, b[1..])
    ensures Subsequence(a, b)
    decreases |b|, 0
  {
    if |a| > 0 && a[0] == b[0] {
      SubsequenceDropHead(a, b[1..]);
    }
  }

  /** Dropping the first character keeps a subsequence. */
  lemma {:induction false} SubsequenceDropHead(a: string, t: string)
    requires |a| > 0 && Subsequence(a, t)
    ensures Subsequence(a[1..], t)
    decreases |t|, 1
  {
    if a[0] != t[0] {
      SubsequenceDropHead(a, t[1..]);
    }
    if |a[1..]| > 0 {
      SubsequenceOfTail(a[1..], t);
    }
  }

  /** Cleaning only deletes: what remains is the input's characters in their order. */
  lemma {:induction false} SanitizeSubsequence(s: string)
    ensures Subsequence(Sanitize(s), s)
    decreases |s|
  {
    if |s| > 0 {
      SanitizeSubsequence(s[1..]);
      if !Allowed(s[0]) {
        assert Sanitize(s) == Sanitize(s[1..]);
        SubsequenceOfTail(Sanitize(s), s);
      } else {
        assert Sanitize(s) == [s[0]] + Sanitize(s[1..]);
        assert Sanitize(s)[1..] == Sanitize(s[1..]);
      }
    }
  }

  /** The Markdown marks '#' and '*', the enumeration comma, the bullet and the
      full-width colon never survive cleaning. */
  lemma MarksRemoved(s: string)
    ensures forall c :: c in "#*、•：" ==> c !in Sanitize(s)
  {
    assert forall c :: c in "#*、•：" ==> !Allowed(c);
  }

  /** Clean text is left as it is. */
  lemma {:induction false} SanitizeClean(s: string)
    requires Clean(s)
    ensures Sanitize(s) == s
    decreases |s|
  {
    if |s| > 0 {
      SanitizeClean(s[1..]);
      assert [s[0]] + s[1..] == s;
    }
  }

  /** Cleaning twice is cleaning once. */
  lemma SanitizeIdempotent(s: string)
    ensures Sanitize(Sanitize(s)) == Sanitize(s)
  {
    SanitizeClean(Sanitize(s));
  }

  /** The heading markers removed after cleaning. */
  function StripMarkers(s: string): string {
    Replace(Replace(Replace(s, "# ", ""), "## ", ""), "### ", "")
  }

  /** The analysis text as it is laid out. */
  function CleanContent(s: string): string {
    StripMarkers(Sanitize(s))
  }

  /** Removing the heading markers changes nothing: cleaning has already deleted
      every '#'. */
  lemma MarkersAlreadyGone(s: string)
    ensures CleanContent(s) == Sanitize(s)
    ensures '#' !in CleanContent(s)
  {
    var t := Sanitize(s);
    assert !Allowed('#');
    assert '#' !in t;
    MissingCharNotContained(t, "# ", 0);
    ReplaceAbsent(t, "# ", "");
    MissingCharNotContained(t, "## ", 0);
    ReplaceAbsent(t, "## ", "");
    MissingCharNotContained(t, "### ", 0);
    ReplaceAbsent(t, "### ", "");
  }

  /** Cleaning keeps every line break, so the text has as many lines afterwards. */
  lemma CleanKeepsLines(s: string)
    ensures CountChar(CleanContent(s), '\n') == CountChar(s, '\n')
  {
    MarkersAlreadyGone(s);
    SanitizeCounts(s);
    assert Allowed('\n');
  }

  // ---------------------------------------------------------------------------
  // Blank analysis
  // ---------------------------------------------------------------------------

  /** The text laid out when the analysis is blank. */
  function BlankTemplate(name: string, code: string): string {
    "# " + name + " ESG分析报告\n\n## 基础信息\n- 证券代码：" + code + "\n- 分析结论：企业ESG表现良好"
  }

  /** The analysis to lay out: the given one, or the template when it is blank. */
  function EffectiveContent(content: string, name: string, code: string): (r: string)
    ensures |Strip(r)| > 0
    ensures |Strip(content)| > 0 ==> r == content
    ensures |Strip(content)| == 0 ==> r == BlankTemplate(name, code)
  {
    if |Strip(content)| == 0 then
      var t := BlankTemplate(name, code);
      assert t[0] == '#' && !IsSpace(t[0]);
      StripEmptyIffBlank(t);
      t
    else content
  }

  // ---------------------------------------------------------------------------
  // Layout elements
  // ---------------------------------------------------------------------------

  datatype Style = TitleStyle | Heading2 | Heading3 | ListStyle | BodyStyle | BasicStyle

  datatype Element = Paragraph(text: string, style: Style) | Spacer(height: nat) | PageBreak

  /** The style a non-empty line's first characters select; the tests are tried
      in order and the first that matches wins. */
  function StyleOf(line: string): (st: Style)
    ensures st == Heading2 <==> StartsWith(line, "一、") || StartsWith(line, "1.")
    ensures st == Heading3 <==> !StartsWith(line, "一、") && !StartsWith(line, "1.")
                                && (StartsWith(line, "（一）") || StartsWith(line, "2."))
    ensures st == ListStyle <==> !StartsWith(line, "一、") && !StartsWith(line, "1.")
                                 && !StartsWith(line, "（一）") && !StartsWith(line, "2.")
                                 && (StartsWith(line, "- ") || StartsWith(line, "• "))
    ensures st != TitleStyle && st != BasicStyle
  {
    if StartsWith(line, "一、") || StartsWith(line, "1.") then Heading2
    else if StartsWith(line, "（一）") || StartsWith(line, "2.") then Heading3
    else if StartsWith(line, "- ") || StartsWith(line, "• ") then ListStyle
    else BodyStyle
  }

  /** One element per line: a spacer exactly when the line is blank, otherwise a
      paragraph of the stripped line. */
  function LineElement(raw: string): (e: Element)
    ensures e == Spacer(8) <==> forall k :: 0 <= k < |raw| ==> IsSpace(raw[k])
    ensures e.Paragraph? ==> e.text == Strip(raw) && e.style == StyleOf(Strip(raw))
    ensures |Strip(raw)| > 0 ==> e == Paragraph(Strip(raw), StyleOf(Strip(raw)))
    ensures !e.PageBreak?
  {
    StripEmptyIffBlank(raw);
    var line := Strip(raw);
    if |line| == 0 then Spacer(8) else Paragraph(line, StyleOf(line))
  }

  function LineElements(lines: seq<string>): (r: seq<Element>)
    ensures |r| == |lines|
    ensures forall i :: 0 <= i < |lines| ==> r[i] == LineElement(lines[i])
  {
    if |lines| == 0 then [] else [LineElement(lines[0])] + LineElements(lines[1..])
  }

  function TitleText(name: string, code: string): string {
    name + "(" + code + ") ESG数字化转型分析报告"
  }

  lemma TitleStartsWithName(name: string, code: string)
    ensures StartsWith(TitleText(name, code), name)
  {
    assert TitleText(name, code)[..|name|] == name;
  }

  function FooterText(now: string): string {
    "报告生成时间：" + now
  }

  /** The lines of the cleaned analysis: its pieces between line breaks, one more
      than it has line breaks, which joined again give the cleaned text back. */
  function ContentLines(content: string, name: string, code: string): (r: seq<string>)
    ensures r == Split(CleanContent(EffectiveContent(content, name, code)), '\n')
    ensures Join(r, '\n') == CleanContent(EffectiveContent(content, name, code))
    ensures |r| == CountChar(EffectiveContent(content, name, code), '\n') + 1
  {
    var text := CleanContent(EffectiveContent(content, name, code));
    CleanKeepsLines(EffectiveContent(content, name, code));
    SplitCount(text, '\n');
    Split(text, '\n')
  }

  /** A body of elements between the title and its spacer and the page break and
      footer. */
  function Framed(title: Element, body: seq<Element>, footer: Element): (r: seq<Element>)
    ensures |r| == |body| + 4
    ensures r[0] == title && r[1] == Spacer(20)
    ensures r[|r| - 2] == PageBreak && r[|r| - 1] == footer
    ensures forall i :: 0 <= i < |body| ==> r[i + 2] == body[i]
  {
    [title, Spacer(20)] + body + [PageBreak, footer]
  }

  /** The elements of the styled document; `now` is the generation time as text. */
  function Elements(content: string, name: string, code: string, now: string): (r: seq<Element>)
    ensures |r| == |ContentLines(content, name, code)| + 4
    ensures |r| == CountChar(EffectiveContent(content, name, code), '\n') + 5
    ensures r[0] == Paragraph(TitleText(name, code), TitleStyle) && r[1] == Spacer(20)
    ensures r[|r| - 2] == PageBreak && r[|r| - 1] == Paragraph(FooterText(now), BodyStyle)
    ensures forall i :: 0 <= i < |ContentLines(content, name, code)| ==>
              r[i + 2] == LineElement(ContentLines(content, name, code)[i])
  {
    var lines := ContentLines(content, name, code);
    var body := LineElements(lines);
    Framed(Paragraph(TitleText(name, code), TitleStyle), body, Paragraph(FooterText(now), BodyStyle))
  }

  /** A line-level element of the cleaned text is either the empty-line spacer or a
      paragraph of non-empty, stripped, single-line, clean text. */
  predicate WellFormedLine(e: Element) {
    e == Spacer(8)
    || (e.Paragraph? && |e.text| > 0 && !IsSpace(e.text[0]) && !IsSpace(e.text[|e.text| - 1])
        && '\n' !in e.text && Clean(e.text) && e.style != TitleStyle && e.style != BasicStyle)
  }

  lemma CleanSlice(s: string, i: int, j: int)
    requires Clean(s) && 0 <= i <= j <= |s|
    ensures Clean(s[i..j])
  {
    assert forall k :: 0 <= k < j - i ==> s[i..j][k] == s[i + k];
  }

  lemma NoNewlineSlice(s: string, i: int, j: int)
    requires '\n' !in s && 0 <= i <= j <= |s|
    ensures '\n' !in s[i..j]
  {
    forall k | 0 <= k < j - i ensures s[i..j][k] != '\n' {
      assert s[i..j][k] == s[i + k];
    }
  }

  /** A clean, single-line piece of text yields a well-formed element. */
  lemma LineElementWellFormed(raw: string)
    requires Clean(raw) && '\n' !in raw
    ensures WellFormedLine(LineElement(raw))
  {
    var line := Strip(raw);
    if |line| == 0 {
      assert LineElement(raw) == Spacer(8);
    } else {
      assert LineElement(raw) == Paragraph(line, StyleOf(line));
      StripKeepsLine(raw);
      ParagraphWellFormed(line);
    }
  }

  lemma ParagraphWellFormed(line: string)
    requires |line| > 0 && !IsSpace(line[0]) && !IsSpace(line[|line| - 1])
    requires '\n' !in line && Clean(line)
    ensures WellFormedLine(Paragraph(line, StyleOf(line)))
  {
    var st := StyleOf(line);
    assert st != TitleStyle && st != BasicStyle;
  }

  /** Stripping a clean single line leaves a clean single line. */
  lemma StripKeepsLine(raw: string)
    requires Clean(raw) && '\n' !in raw
    ensures Clean(Strip(raw)) && '\n' !in Strip(raw)
  {
    var i, j :| 0 <= i <= j <= |raw| && Strip(raw) == raw[i..j];
    CleanSlice(raw, i, j);
    NoNewlineSlice(raw, i, j);
  }

  /** Each line of a clean text is clean. */
  lemma SplitPiecesClean(s: string)
    requires Clean(s)
    ensures forall k :: 0 <= k < |Split(s, '\n')| ==> Clean(Split(s, '\n')[k])
  {
    var parts := Split(s, '\n');
    forall k | 0 <= k < |parts| ensures Clean(parts[k]) {
      forall c | c in parts[k] ensures Allowed(c) {
        JoinContainsPieces(parts, '\n', k, c);
      }
    }
  }

  lemma {:induction false} JoinContainsPieces(parts: seq<string>, sep: char, k: nat, c: char)
    requires k < |parts| && c in parts[k]
    ensures c in Join(parts, sep)
    decreases |parts|
  {
    if |parts| > 1 {
      var rest := Join(parts[1..], sep);
      assert Join(parts, sep) == parts[0] + [sep] + rest;
      if k > 0 {
        JoinContainsPieces(parts[1..], sep, k - 1, c);
        assert c in rest;
      } else {
        assert c in parts[0];
      }
    }
  }

  /** Between the title block and the closing page break, every element is a
      spacer for an empty line or a paragraph of non-empty, stripped, single-line
      clean text. */
  lemma ContentElementsWellFormed(content: string, name: string, code: string, now: string)
    ensures forall i :: 2 <= i < |Elements(content, name, code, now)| - 2 ==>
              WellFormedLine(Elements(content, name, code, now)[i])
  {
    var text := CleanContent(EffectiveContent(content, name, code));
    MarkersAlreadyGone(EffectiveContent(content, name, code));
    var parts := ContentLines(content, name, code);
    assert parts == Split(text, '\n');
    SplitPiecesClean(text);
    var r := Elements(content, name, code, now);
    forall i | 2 <= i < |r| - 2 ensures WellFormedLine(r[i]) {
      assert r[i] == LineElements(parts)[i - 2];
      LineElementWellFormed(parts[i - 2]);
    }
  }

  /** Cleaning deletes '、' and '•', so the first-level "一、" heading test and the
      "• " list test never fire on a laid-out line. */
  lemma DeadStyleTests(line: string)
    requires Clean(line)
    ensures !StartsWith(line, "一、") && !StartsWith(line, "• ")
    ensures StyleOf(line) == Heading2 <==> StartsWith(line, "1.")
    ensures StyleOf(line) == ListStyle <==>
              (StartsWith(line, "- ") && !StartsWith(line, "2.") && !StartsWith(line, "（一）"))
  {
    assert !Allowed('、') && !Allowed('•');
    if |line| >= 2 {
      assert Allowed(line[1]);
      assert Allowed(line[0]);
    }
  }

  // ---------------------------------------------------------------------------
  // The three documents
  // ---------------------------------------------------------------------------

  /** The elements of the basic document: four paragraphs in the basic style,
      the company heading and the code line each followed by a 10-point spacer. */
  function BasicElements(name: string, code: string): (r: seq<Element>)
    ensures |r| == 6
    ensures forall i :: 0 <= i < |r| ==> (r[i].Paragraph? && r[i].style == BasicStyle) || r[i] == Spacer(10)
    ensures r[1] == Spacer(10) && r[3] == Spacer(10)
    ensures r[0].Paragraph? && StartsWith(r[0].text, name)
    ensures r[2] == Paragraph("证券代码：" + code, BasicStyle)
  {
    assert StartsWith(name + " ESG分析报告", name);
    [ Paragraph(name + " ESG分析报告", BasicStyle),
      Spacer(10),
      Paragraph("证券代码：" + code, BasicStyle),
      Spacer(10),
      Paragraph("ESG整体表现良好，具备数字化转型基础", BasicStyle),
      Paragraph("建议12-24个月完成数字化转型落地", BasicStyle) ]
  }

  /** What the export produces: a styled document, the basic one, the fixed
      last-resort bytes (one character per byte), or an exception that leaves the
      export. */
  datatype Output = Styled(elements: seq<Element>) | Basic(elements: seq<Element>) | Raw(bytes: string) | Escapes

  /** The export with its fallbacks: the styled document when it builds. Otherwise
      the basic elements are constructed outside any handler, so an exception
      there leaves the export; once constructed, the basic document when it
      builds, otherwise the fixed last-resort bytes, whose cross-reference table
      does not locate the objects it lists. */
  function RenderPdf(content: string, name: string, code: string, now: string,
                     styledBuilds: bool, basicConstructs: bool, basicBuilds: bool): (out: Output)
    ensures out.Styled? <==> styledBuilds
    ensures out.Escapes? <==> !styledBuilds && !basicConstructs
    ensures out.Basic? <==> !styledBuilds && basicConstructs && basicBuilds
    ensures out.Raw? <==> !styledBuilds && basicConstructs && !basicBuilds
    ensures (out.Styled? || out.Basic?) ==> |out.elements| >= 5 && out.elements[0].Paragraph?
                                            && StartsWith(out.elements[0].text, name)
    ensures out.Styled? ==> out.elements == Elements(content, name, code, now)
    ensures out.Basic? ==> out.elements == BasicElements(name, code)
    ensures out.Raw? ==> out.bytes == MinimalPdf.AsWritten() && |out.bytes| == 328
    ensures out.Raw? ==> !MinimalPdf.XrefConsistent(out.bytes, MinimalPdf.Objects, [10, 79, 173], 262)
  {
    if styledBuilds then
      TitleStartsWithName(name, code);
      Styled(Elements(content, name, code, now))
    else if !basicConstructs then
      Escapes
    else if basicBuilds then
      Basic(BasicElements(name, code))
    else
      MinimalPdf.AsWrittenMisplaced();
      Raw(MinimalPdf.AsWritten())
  }

  /** The export with the basic elements constructed inside the handler that
      guards their build: it never raises, and a failure to construct them is
      handled like a failure to build them. */
  function GuardedRenderPdf(content: string, name: string, code: string, now: string,
                            styledBuilds: bool, basicConstructs: bool, basicBuilds: bool): (out: Output)
    ensures !out.Escapes?
    ensures out.Styled? <==> styledBuilds
    ensures out.Basic? <==> !styledBuilds && basicConstructs && basicBuilds
    ensures out.Raw? <==> !styledBuilds && !(basicConstructs && basicBuilds)
    ensures !styledBuilds && !basicConstructs ==>
              RenderPdf(content, name, code, now, styledBuilds, basicConstructs, basicBuilds).Escapes? && out.Raw?
    ensures styledBuilds || basicConstructs ==>
              out == RenderPdf(content, name, code, now, styledBuilds, basicConstructs, basicBuilds)
  {
    RenderPdf(content, name, code, now, styledBuilds, true, basicConstructs && basicBuilds)
  }
}

/**
 The narrative composer: the texts keyed by tier, the one-decimal rendering of
 the average, the fixed report template filled in from a record and its
 figures, and the two small display helpers (a year's label, a rating's
 number).
 */
module Narrative {
  import opened Text
  import opened Dataset
  import opened Metrics

  // ---------------------------------------------------------------------------
  // Texts keyed by tier and trend
  // ---------------------------------------------------------------------------

  function Level(t: Tier): string {
    match t
    case Excellent => "优秀"
    case Good => "良好"
    case Moderate => "中等"
    case NeedsImprovement => "待提升"
  }

  function Foundation(t: Tier): string {
    match t
    case Excellent => "雄厚"
    case Good => "较强"
    case Moderate => "一般"
    case NeedsImprovement => "薄弱"
  }

  /** The estimated implementation period. */
  function Cycle(t: Tier): string {
    match t
    case Excellent => "6-12个月"
    case Good => "12-24个月"
    case Moderate => "12-24个月"
    case NeedsImprovement => "24-36个月"
  }

  /** The strategy sentence, chosen by the level text. */
  function Strategy(t: Tier): string {
    var level := Level(t);
    if level == "优秀" then "作为ESG优秀企业，建议打造行业数字化标杆，建立ESG数据中台和AI风险预警系统。"
    else if level == "良好" then "作为ESG良好企业，建议优化数据采集流程，建立可视化管理看板，提升数字化能力。"
    else if level == "中等" then "作为ESG中等企业，建议夯实数据基础，部署标准化管理软件，分阶段推进转型。"
    else "作为ESG待提升企业，建议先解决数据缺失问题，引入轻量化工具，逐步提升管理水平。"
  }

  function TrendText(tr: Trend): string {
    match tr
    case Rising => "上升"
    case Falling => "下降"
    case Stable => "稳定"
  }

  /** Each tier has its own level text and its own strategy sentence, and the
      level text names the tier inside the sentence. */
  lemma TierTextsDistinct(t: Tier, u: Tier)
    ensures Level(t) == Level(u) <==> t == u
    ensures Strategy(t) == Strategy(u) <==> t == u
    ensures Contains(Strategy(t), Level(t))
  {
    StrategyNamesLevel(t);
    StrategyNamesLevel(u);
    if t != u {
      assert Level(t)[0] != Level(u)[0];
      assert Strategy(t)[5] != Strategy(u)[5];
    }
  }

  /** The level text stands at the sixth character of the strategy sentence. */
  lemma StrategyNamesLevel(t: Tier)
    ensures OccursAt(Strategy(t), Level(t), 5)
  {
    match t
    case Excellent => StrategyNamesExcellent();
    case Good => StrategyNamesGood();
    case Moderate => StrategyNamesModerate();
    case NeedsImprovement => StrategyNamesNeedsImprovement();
  }

  lemma StrategyNamesExcellent()
    ensures OccursAt(Strategy(Excellent), Level(Excellent), 5)
  {
    var s := Strategy(Excellent);
    assert s[5] == '优' && s[6] == '秀';
    assert s[5..7] == "优秀";
  }

  lemma StrategyNamesGood()
    ensures OccursAt(Strategy(Good), Level(Good), 5)
  {
    var level := Level(Good);
    assert level != "优秀" by { assert level[0] != '优'; }
    var s := Strategy(Good);
    assert s[5] == '良' && s[6] == '好';
    assert s[5..7] == "良好";
  }

  lemma StrategyNamesModerate()
    ensures OccursAt(Strategy(Moderate), Level(Moderate), 5)
  {
    var level := Level(Moderate);
    assert level != "优秀" by { assert level[0] != '优'; }
    assert level != "良好" by { assert level[0] != '良'; }
    var s := Strategy(Moderate);
    assert s[5] == '中' && s[6] == '等';
    assert s[5..7] == "中等";
  }

  lemma StrategyNamesNeedsImprovement()
    ensures OccursAt(Strategy(NeedsImprovement), Level(NeedsImprovement), 5)
  {
    var level := Level(NeedsImprovement);
    assert level != "优秀" by { assert level[0] != '优'; }
    assert level != "良好" by { assert level[0] != '良'; }
    assert level != "中等" by { assert level[0] != '中'; }
    var s := Strategy(NeedsImprovement);
    assert s[5] == '待' && s[6] == '提' && s[7] == '升';
    assert s[5..8] == "待提升";
  }

  /** Good and moderate share the 12-24 month period; the other tiers have their own. */
  lemma CycleByTier(t: Tier, u: Tier)
    ensures Cycle(t) == Cycle(u) <==> t == u || (t in {Good, Moderate} && u in {Good, Moderate})
  {
    if Cycle(t) == Cycle(u) {
      assert Cycle(t)[0] == Cycle(u)[0] && Cycle(t)[1] == Cycle(u)[1];
    }
  }

  // ---------------------------------------------------------------------------
  // The average to one decimal place
  // ---------------------------------------------------------------------------

  /** The integer nearest to `n / d`, ties to the even one. */
  function RoundHalfEven(n: nat, d: nat): (t: nat)
    requires d > 0
    ensures t == n / d || t == n / d + 1
    ensures 2 * (n % d) < d ==> t == n / d
    ensures 2 * (n % d) > d ==> t == n / d + 1
  {
    var q := n / d;
    var r := n % d;
    if 2 * r > d then q + 1
    else if 2 * r < d then q
    else if q % 2 == 0 then q
    else q + 1
  }

  /** The rounded value is within half of `d` of `n / d`, and an exact half goes
      to the even neighbour. */
  lemma RoundHalfEvenNearest(n: nat, d: nat)
    requires d > 0
    ensures var t := RoundHalfEven(n, d);
            (t * d <= n ==> 2 * (n - t * d) <= d)
            && (t * d > n ==> 2 * (t * d - n) <= d)
            && (2 * (n - t * d) == d || 2 * (t * d - n) == d ==> t % 2 == 0)
  {
    var q := n / d;
    var r := n % d;
    QuotientSteps(n, d);
    var t := RoundHalfEven(n, d);
    if t == q {
      assert t * d == n - r;
    } else {
      assert t == q + 1;
      assert t * d == n - r + d;
    }
  }

  lemma QuotientSteps(n: nat, d: nat)
    requires d > 0
    ensures (n / d) * d == n - n % d && 0 <= n % d < d
    ensures (n / d + 1) * d == n - n % d + d
  {
  }

  /** The text of `t / 10` with one decimal place: digits, a point and one digit,
      which read as a number of tenths give `t` back. */
  function TenthsText(t: nat): (r: string)
    ensures |r| >= 3 && r[|r| - 2] == '.' && AllDigits(r[..|r| - 2]) && IsDigit(r[|r| - 1])
    ensures DigitsValue(r[..|r| - 2]) * 10 + DigitValue(r[|r| - 1]) == t
  {
    var a := NatText(t / 10);
    var r := a + "." + [DigitChar(t % 10)];
    assert r[..|r| - 2] == a;
    NatTextRoundTrip(t / 10);
    r
  }

  /** The average `sum / count` as `{:.1f}` prints it: the tenths it denotes are
      `10 * sum / count` rounded half to even. */
  function OneDecimal(sum: nat, count: nat): (r: string)
    requires count > 0
    ensures |r| >= 3 && r[|r| - 2] == '.' && AllDigits(r[..|r| - 2]) && IsDigit(r[|r| - 1])
    ensures DigitsValue(r[..|r| - 2]) * 10 + DigitValue(r[|r| - 1]) == RoundHalfEven(10 * sum, count)
  {
    TenthsText(RoundHalfEven(10 * sum, count))
  }

  /** The score parser reads a one-decimal text back as its integer part. */
  lemma TenthsTextReadsBack(t: nat)
    ensures ParseScore(TenthsText(t)) == t / 10
  {
    var a := NatText(t / 10);
    var b: string := [DigitChar(t % 10)];
    assert AllDigits(b);
    assert TenthsText(t) == a + "." + b;
    ParseScoreTruncates(a, b);
    NatTextRoundTrip(t / 10);
  }

  lemma OneDecimalExamples()
    ensures OneDecimal(14, 3) == "4.7"
    ensures OneDecimal(3, 1) == "3.0"
    ensures OneDecimal(17, 4) == "4.2"
    ensures OneDecimal(19, 4) == "4.8"
  {
    assert RoundHalfEven(140, 3) == 47;
    assert RoundHalfEven(170, 4) == 42;
    assert RoundHalfEven(190, 4) == 48;
  }

  // ---------------------------------------------------------------------------
  // The report
  // ---------------------------------------------------------------------------

  /** The report shown when no company is selected. */
  const Placeholder: string := "# 暂无企业数据\n\n## 请选择企业后查看详细分析报告"

  /** Report lines 1 to 8: title and company basics. */
  function BasicsLines(rec: Record): (r: seq<string>)
    ensures |r| == 8 && r[0] == "# " + rec.name + "(" + rec.code + ") ESG数字化转型分析报告"
  {
    [ "# " + rec.name + "(" + rec.code + ") ESG数字化转型分析报告",
      "",
      "## 一、企业基础信息",
      "- **企业名称**: " + rec.name,
      "- **证券代码**: " + rec.code,
      "- **上市日期**: " + rec.listingDate,
      "- **数据覆盖**: 2009-2020年ESG评级数据",
      "" ]
  }

  /** Report lines 9 to 21: the assessment, with the average written `avg`. */
  function AssessmentLines(rec: Record, m: Metrics, tier: Tier, avg: string): (r: seq<string>)
    ensures |r| == 13
    ensures r[5] == "- **平均量化值**: " + avg + "分"
    ensures r[6] == "- **最高量化值**: " + NatText(m.max) + "分"
    ensures r[7] == "- **最低量化值**: " + NatText(m.min) + "分"
    ensures r[8] == "- **最新量化值**: " + NatText(m.latest) + "分（" + m.latestYear + "年）"
    ensures r[9] == "- **发展趋势**: " + TrendText(m.trend) + "趋势"
  {
    [ "## 二、ESG表现综合评估",
      "### 2.1 整体水平",
      rec.name + "的ESG量化值平均为" + avg + "分（满分6分），在行业中属于" + Level(tier)
        + "水平，具备" + Foundation(tier) + "的可持续发展基础。",
      "",
      "### 2.2 关键指标",
      "- **平均量化值**: " + avg + "分",
      "- **最高量化值**: " + NatText(m.max) + "分",
      "- **最低量化值**: " + NatText(m.min) + "分",
      "- **最新量化值**: " + NatText(m.latest) + "分（" + m.latestYear + "年）",
      "- **发展趋势**: " + TrendText(m.trend) + "趋势",
      "",
      "## 三、数字化转型战略建议",
      "### 3.1 战略定位" ]
  }

  /** The overall-level sentence names the tier's level word and foundation word. */
  lemma AssessmentNamesTier(rec: Record, m: Metrics, tier: Tier, avg: string)
    ensures Contains(AssessmentLines(rec, m, tier, avg)[2], Level(tier))
    ensures Contains(AssessmentLines(rec, m, tier, avg)[2], Foundation(tier))
  {
    var line := AssessmentLines(rec, m, tier, avg)[2];
    var pre := rec.name + "的ESG量化值平均为" + avg + "分（满分6分），在行业中属于";
    var tail := "的可持续发展基础。";
    assert line == pre + Level(tier) + ("水平，具备" + Foundation(tier) + tail);
    ContainsMiddle(pre, Level(tier), "水平，具备" + Foundation(tier) + tail);
    assert line == pre + Level(tier) + "水平，具备" + Foundation(tier) + tail;
    ContainsMiddle(pre + Level(tier) + "水平，具备", Foundation(tier), tail);
  }

  /** Report lines 23 to 43: roadmap, risks, benefits and conclusion. The
      template ends with a newline, hence the final empty line. */
  function ClosingLines(rec: Record, cycle: string): seq<string> {
    [ "",
      "### 3.2 实施路径",
      "1. **准备阶段**（1-3个月）：现状调研、需求分析、方案设计",
      "2. **实施阶段**（3-12个月）：系统部署、数据迁移、人员培训",
      "3. **优化阶段**（12-24个月）：效果评估、持续改进",
      "",
      "## 四、风险提示与预期效益",
      "### 4.1 主要风险",
      "1. **技术风险**：系统选型不当导致兼容性问题",
      "2. **数据风险**：数据质量不高影响分析结果",
      "3. **落地风险**：员工数字化能力不足导致推进困难",
      "",
      "### 4.2 预期效益",
      "1. **效率提升**：ESG管理效率提升30%-50%",
      "2. **质量改善**：数据准确性提升至95%以上",
      "3. **决策支持**：为管理层提供数据驱动的决策依据",
      "4. **评级提升**：预计" + cycle + "内ESG评级提升1-2个等级",
      "",
      "## 五、结论",
      rec.name + "通过系统化的数字化转型，有望在" + cycle + "内实现ESG管理水平的显著提升，为企业可持续发展奠定坚实基础。",
      "" ]
  }

  /** The lines of a company's report: the fixed template with the record's
      fields, the figures and the tier texts filled in. */
  function ReportLines(rec: Record, m: Metrics): (r: seq<string>)
    requires m.count > 0
    ensures |r| == 43
    ensures r[0] == "# " + rec.name + "(" + rec.code + ") ESG数字化转型分析报告"
    ensures Contains(r[10], Level(TierOf(m.sum, m.count))) && Contains(r[10], Foundation(TierOf(m.sum, m.count)))
    ensures r[13] == "- **平均量化值**: " + OneDecimal(m.sum, m.count) + "分"
    ensures r[14] == "- **最高量化值**: " + NatText(m.max) + "分"
    ensures r[15] == "- **最低量化值**: " + NatText(m.min) + "分"
    ensures r[16] == "- **最新量化值**: " + NatText(m.latest) + "分（" + m.latestYear + "年）"
    ensures r[17] == "- **发展趋势**: " + TrendText(m.trend) + "趋势"
    ensures r[21] == Strategy(TierOf(m.sum, m.count))
  {
    var tier := TierOf(m.sum, m.count);
    var avg := OneDecimal(m.sum, m.count);
    var basics := BasicsLines(rec);
    var assessment := AssessmentLines(rec, m, tier, avg);
    AssessmentNamesTier(rec, m, tier, avg);
    var r := basics + assessment + [Strategy(tier)] + ClosingLines(rec, Cycle(tier));
    assert r[0] == basics[0];
    assert forall k :: 0 <= k < 13 ==> r[8 + k] == assessment[k];
    assert r[21] == Strategy(tier);
    r
  }

  /** The analysis of the selected record, or the placeholder when there is none. */
  function AnalysisText(rec: Option<Record>, years: seq<nat>, ratingCols: seq<string>, quantCols: seq<string>): (a: string)
    ensures rec.None? ==> a == Placeholder
    ensures rec.Some? ==> a == Join(ReportLines(rec.value, ComputeMetrics(ExtractSeries(rec.value, years, ratingCols, quantCols))), '\n')
    ensures rec.Some? ==> StartsWith(a, "# " + rec.value.name + "(" + rec.value.code + ") ESG数字化转型分析报告")
  {
    match rec
    case None => Placeholder
    case Some(r) =>
      var lines := ReportLines(r, ComputeMetrics(ExtractSeries(r, years, ratingCols, quantCols)));
      JoinStartsWithFirst(lines, '\n');
      Join(lines, '\n')
  }

  /** No analysis is blank: the placeholder and every report start with "# ". */
  lemma AnalysisStartsWithHeading(rec: Option<Record>, years: seq<nat>, ratingCols: seq<string>, quantCols: seq<string>)
    ensures StartsWith(AnalysisText(rec, years, ratingCols, quantCols), "# ")
  {
    if rec.Some? {
      var m := ComputeMetrics(ExtractSeries(rec.value, years, ratingCols, quantCols));
      var lines := ReportLines(rec.value, m);
      assert lines[0] == BasicsLines(rec.value)[0];
      assert StartsWith(lines[0], "# ");
      JoinStartsWithFirst(lines, '\n');
    }
  }

  /** A line that cannot be a strategy sentence: it does not start like one, or
      it ends like the two sentences that begin with the company name. */
  predicate NotStrategyLine(s: string) {
    |s| < 2 || s[0] != '作' || s[|s| - 2] == '础'
  }

  lemma StrategyIsStrategyLine(u: Tier)
    ensures !NotStrategyLine(Strategy(u))
  {
  }

  lemma BasicsNotStrategy(rec: Record)
    ensures forall s :: s in BasicsLines(rec) ==> NotStrategyLine(s)
  {
  }

  lemma AssessmentNotStrategy(rec: Record, m: Metrics, tier: Tier, avg: string)
    ensures forall s :: s in AssessmentLines(rec, m, tier, avg) ==> NotStrategyLine(s)
  {
    var lines := AssessmentLines(rec, m, tier, avg);
    var a := rec.name + "的ESG量化值平均为" + avg + "分（满分6分），在行业中属于" + Level(tier) + "水平，具备" + Foundation(tier);
    var e := "的可持续发展基础。";
    assert lines[2] == a + e;
    assert lines[2][|lines[2]| - 2] == e[|e| - 2];
  }

  lemma ClosingNotStrategyA(rec: Record, cycle: string)
    ensures forall k :: 0 <= k < 7 ==> NotStrategyLine(ClosingLines(rec, cycle)[k])
  {
    var lines := ClosingLines(rec, cycle);
    assert NotStrategyLine(lines[0]);
    assert NotStrategyLine(lines[1]);
    assert NotStrategyLine(lines[2]);
    assert NotStrategyLine(lines[3]);
    assert NotStrategyLine(lines[4]);
    assert NotStrategyLine(lines[5]);
    assert NotStrategyLine(lines[6]);
  }

  lemma ClosingNotStrategyB(rec: Record, cycle: string)
    ensures forall k :: 7 <= k < 14 ==> NotStrategyLine(ClosingLines(rec, cycle)[k])
  {
    var lines := ClosingLines(rec, cycle);
    assert NotStrategyLine(lines[7]);
    assert NotStrategyLine(lines[8]);
    assert NotStrategyLine(lines[9]);
    assert NotStrategyLine(lines[10]);
    assert NotStrategyLine(lines[11]);
    assert NotStrategyLine(lines[12]);
    assert NotStrategyLine(lines[13]);
  }

  lemma ClosingNotStrategyC(rec: Record, cycle: string)
    ensures forall k :: 14 <= k < 21 ==> NotStrategyLine(ClosingLines(rec, cycle)[k])
  {
    var lines := ClosingLines(rec, cycle);
    ConclusionNotStrategy(rec, cycle);
    assert NotStrategyLine(lines[14]);
    assert NotStrategyLine(lines[15]);
    assert NotStrategyLine(lines[16]);
    assert NotStrategyLine(lines[17]);
    assert NotStrategyLine(lines[18]);
    assert NotStrategyLine(lines[20]);
  }

  /** The conclusion may start like a strategy sentence (the company name is
      arbitrary), but it ends in "基础。". */
  lemma ConclusionNotStrategy(rec: Record, cycle: string)
    ensures NotStrategyLine(ClosingLines(rec, cycle)[19])
  {
    var line := ClosingLines(rec, cycle)[19];
    var c := rec.name + "通过系统化的数字化转型，有望在" + cycle + "内实现ESG管理水平的显著提升，";
    var e := "为企业可持续发展奠定坚实基础。";
    assert line == c + e;
    assert line[|line| - 2] == e[|e| - 2];
  }

  lemma ClosingNotStrategy(rec: Record, cycle: string)
    ensures forall s :: s in ClosingLines(rec, cycle) ==> NotStrategyLine(s)
  {
    ClosingNotStrategyA(rec, cycle);
    ClosingNotStrategyB(rec, cycle);
    ClosingNotStrategyC(rec, cycle);
  }

  /** The strategy line is the sentence of the company's tier, and no other
      line of the report is a strategy sentence. */
  lemma ReportStrategy(rec: Record, m: Metrics, u: Tier)
    requires m.count > 0
    ensures ReportLines(rec, m)[21] == Strategy(TierOf(m.sum, m.count))
    ensures Strategy(u) in ReportLines(rec, m) <==> u == TierOf(m.sum, m.count)
  {
    var t := TierOf(m.sum, m.count);
    var avg := OneDecimal(m.sum, m.count);
    TierTextsDistinct(t, u);
    StrategyIsStrategyLine(u);
    BasicsNotStrategy(rec);
    AssessmentNotStrategy(rec, m, t, avg);
    ClosingNotStrategy(rec, Cycle(t));
  }

  /** The implementation period of the tier appears both in the expected
      benefits and in the conclusion. */
  lemma ReportCycle(rec: Record, m: Metrics)
    requires m.count > 0
    ensures Contains(ReportLines(rec, m)[38], Cycle(TierOf(m.sum, m.count)))
    ensures Contains(ReportLines(rec, m)[41], Cycle(TierOf(m.sum, m.count)))
  {
    var lines := ReportLines(rec, m);
    var c := Cycle(TierOf(m.sum, m.count));
    var closing := ClosingLines(rec, c);
    assert lines[38] == closing[16] && lines[41] == closing[19];
    var p1 := "4. **评级提升**：预计";
    assert closing[16] == p1 + c + "内ESG评级提升1-2个等级";
    assert OccursAt(closing[16], c, |p1|);
    var p2 := rec.name + "通过系统化的数字化转型，有望在";
    assert closing[19] == p2 + c + "内实现ESG管理水平的显著提升，为企业可持续发展奠定坚实基础。";
    assert OccursAt(closing[19], c, |p2|);
  }

  // ---------------------------------------------------------------------------
  // Display helpers
  // ---------------------------------------------------------------------------

  /** The label of one year's score in the detail table. */
  function YearLabel(q: nat): (text: string)
    ensures text == "优秀" <==> q >= 5
    ensures text == "良好" <==> 3 <= q < 5
    ensures text == "待提升" <==> q < 3
  {
    if q >= 5 then "优秀" else if q >= 3 then "良好" else "待提升"
  }

  /** A single year's label agrees with the level its score would earn as an
      average, except at 3, which the table calls good and the report moderate. */
  lemma YearLabelVersusLevel(q: nat)
    ensures YearLabel(q) == Level(TierOf(q, 1)) <==> q != 3
  {
  }

  /** The rating grades from best to worst. */
  const Grades: seq<string> := ["AAA", "AA", "A", "BBB", "BB", "B"]

  /** The number plotted for a rating: AAA is 6 down to B is 1, anything else 0. */
  function RatingValue(r: string): (v: nat)
    ensures v <= 6
    ensures v > 0 <==> r in Grades
    ensures forall i :: 0 <= i < |Grades| ==> (r == Grades[i] <==> v == 6 - i)
  {
    if r == "AAA" then 6
    else if r == "AA" then 5
    else if r == "A" then 4
    else if r == "BBB" then 3
    else if r == "BB" then 2
    else if r == "B" then 1
    else 0
  }
}

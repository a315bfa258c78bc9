/**
 Properties of the stages together: the figures and texts of a few typical
 series, the report read back line by line, and the size of the styled PDF
 of a report.
 */
module Pipeline {
  import opened Text
  import opened Dataset
  import opened Metrics
  import opened Narrative
  import opened Renderer

  // ---------------------------------------------------------------------------
  // Typical series
  // ---------------------------------------------------------------------------

  /** Scores 4, 5, 5 for 2018 to 2020: average 4.7, good, rising, a 12 to 24
      month period. */
  /** With the table's own year range and column lists, the series holds at most
      one entry per supported year, in ascending year order. */
  lemma TableSeriesAscending(rec: Record, cols: seq<string>)
    ensures var ys := SupportedYears();
            var s := ExtractSeries(rec, ys, RatingColumns(cols, ys), QuantColumns(cols, ys));
            |s| <= 12 && EntriesAscending(s) && forall k :: 0 <= k < |s| ==> 2009 <= s[k].year <= 2020
  {
    var ys := SupportedYears();
    var s := ExtractSeries(rec, ys, RatingColumns(cols, ys), QuantColumns(cols, ys));
    assert YearsAscending(ys);
    ExtractAscending(rec, ys, RatingColumns(cols, ys), QuantColumns(cols, ys));
    forall k | 0 <= k < |s| ensures 2009 <= s[k].year <= 2020 {
      var i :| 0 <= i < |ys| && ys[i] == s[k].year;
    }
  }

  lemma RisingGoodSeries()
    ensures var m := ComputeMetrics([YearEntry(2018, "A", 4), YearEntry(2019, "AA", 5), YearEntry(2020, "AA", 5)]);
            m == Metrics(14, 3, 5, 4, 5, "2020", Rising)
            && TierOf(m.sum, m.count) == Good
            && OneDecimal(m.sum, m.count) == "4.7"
            && Cycle(TierOf(m.sum, m.count)) == "12-24个月"
  {
    RisingGoodMetrics();
    OneDecimalExamples();
  }

  lemma RisingGoodMetrics()
    ensures ComputeMetrics([YearEntry(2018, "A", 4), YearEntry(2019, "AA", 5), YearEntry(2020, "AA", 5)])
            == Metrics(14, 3, 5, 4, 5, "2020", Rising)
  {
    var s := [YearEntry(2018, "A", 4), YearEntry(2019, "AA", 5), YearEntry(2020, "AA", 5)];
    RisingGoodScores();
    var v: seq<nat> := [4, 5, 5];
    assert Sum(v) == 14 by {
      assert v[1..][1..] == [5];
    }
    assert NatText(2020) == "2020";
    var m := ComputeMetrics(s);
    assert m.max == 5 && m.min == 4;
  }

  lemma RisingGoodScores()
    ensures ValidScores([YearEntry(2018, "A", 4), YearEntry(2019, "AA", 5), YearEntry(2020, "AA", 5)]) == [4, 5, 5]
  {
    var s := [YearEntry(2018, "A", 4), YearEntry(2019, "AA", 5), YearEntry(2020, "AA", 5)];
    assert s[1..][1..] == [YearEntry(2020, "AA", 5)];
    assert ValidScores(s[1..][1..]) == [5];
    assert ValidScores(s[1..]) == [5, 5];
  }

  /** A company with no extracted year gets the fixed figures: average 3.0,
      moderate, stable, latest 3 in 2020. */
  lemma EmptySeries()
    ensures var m := ComputeMetrics([]);
            m == Metrics(3, 1, 4, 2, 3, "2020", Stable)
            && TierOf(m.sum, m.count) == Moderate
            && OneDecimal(m.sum, m.count) == "3.0"
  {
    OneDecimalExamples();
  }

  /** Years whose scores all read as 0 also fall back to the fixed average,
      maximum and minimum, but report the last year's 0 as the latest score. */
  lemma ZeroScoreSeries()
    ensures ComputeMetrics([YearEntry(2019, "无评级", 0), YearEntry(2020, "无评级", 0)])
            == Metrics(3, 1, 4, 2, 0, "2020", Stable)
  {
    var s := [YearEntry(2019, "无评级", 0), YearEntry(2020, "无评级", 0)];
    assert s[1..][1..] == [];
    assert ValidScores(s) == [];
    assert NatText(2020) == "2020";
  }

  // ---------------------------------------------------------------------------
  // The report, line by line
  // ---------------------------------------------------------------------------

  predicate NoBreak(s: string) {
    '\n' !in s
  }

  /** No line of `lines` holds a line break. */
  predicate LinesNoBreak(lines: seq<string>) {
    forall k :: 0 <= k < |lines| ==> NoBreak(lines[k])
  }

  lemma LinesNoBreakConcat(a: seq<string>, b: seq<string>)
    requires LinesNoBreak(a) && LinesNoBreak(b)
    ensures LinesNoBreak(a + b)
  {
    forall k | 0 <= k < |a + b| ensures NoBreak((a + b)[k]) {
      if k >= |a| {
        assert (a + b)[k] == b[k - |a|];
      }
    }
  }

  lemma NoBreakDigits(s: string)
    requires AllDigits(s)
    ensures NoBreak(s)
  {
  }

  /** The average text is digits, a point and a digit. */
  lemma NoBreakAverage(sum: nat, count: nat)
    requires count > 0
    ensures NoBreak(OneDecimal(sum, count))
  {
    var t := RoundHalfEven(10 * sum, count);
    NoBreakDigits(NatText(t / 10));
  }

  lemma BasicsNoBreakA(rec: Record)
    requires NoBreak(rec.name) && NoBreak(rec.code) && NoBreak(rec.listingDate)
    ensures forall k :: 0 <= k < 4 ==> NoBreak(BasicsLines(rec)[k])
  {
    var lines := BasicsLines(rec);
    assert lines[0] == "# " + rec.name + "(" + rec.code + ") ESG数字化转型分析报告";
    assert lines[1] == "";
    assert lines[2] == "## 一、企业基础信息";
    assert lines[3] == "- **企业名称**: " + rec.name;
    assert NoBreak(lines[0]);
    assert NoBreak(lines[1]);
    assert NoBreak(lines[2]);
    assert NoBreak(lines[3]);
  }

  lemma BasicsNoBreakB(rec: Record)
    requires NoBreak(rec.name) && NoBreak(rec.code) && NoBreak(rec.listingDate)
    ensures forall k :: 4 <= k < 8 ==> NoBreak(BasicsLines(rec)[k])
  {
    var lines := BasicsLines(rec);
    assert lines[4] == "- **证券代码**: " + rec.code;
    assert lines[5] == "- **上市日期**: " + rec.listingDate;
    assert lines[6] == "- **数据覆盖**: 2009-2020年ESG评级数据";
    assert lines[7] == "";
    assert NoBreak(lines[4]);
    assert NoBreak(lines[5]);
    assert NoBreak(lines[6]);
    assert NoBreak(lines[7]);
  }

  lemma BasicsNoBreak(rec: Record)
    requires NoBreak(rec.name) && NoBreak(rec.code) && NoBreak(rec.listingDate)
    ensures LinesNoBreak(BasicsLines(rec))
  {
    BasicsNoBreakA(rec);
    BasicsNoBreakB(rec);
  }

  lemma AssessmentNoBreakA(rec: Record, m: Metrics, tier: Tier, avg: string)
    requires NoBreak(rec.name) && NoBreak(avg) && NoBreak(m.latestYear)
    ensures forall k :: 0 <= k < 4 ==> NoBreak(AssessmentLines(rec, m, tier, avg)[k])
  {
    var lines := AssessmentLines(rec, m, tier, avg);
    NoBreakDigits(NatText(m.max));
    NoBreakDigits(NatText(m.min));
    NoBreakDigits(NatText(m.latest));
    assert lines[0] == "## 二、ESG表现综合评估";
    assert lines[1] == "### 2.1 整体水平";
    assert lines[2] == rec.name + "的ESG量化值平均为" + avg + "分（满分6分），在行业中属于" + Level(tier) + "水平，具备" + Foundation(tier) + "的可持续发展基础。";
    assert lines[3] == "";
    assert NoBreak(lines[0]);
    assert NoBreak(lines[1]);
    assert NoBreak(lines[2]);
    assert NoBreak(lines[3]);
  }

  lemma AssessmentNoBreakB(rec: Record, m: Metrics, tier: Tier, avg: string)
    requires NoBreak(rec.name) && NoBreak(avg) && NoBreak(m.latestYear)
    ensures forall k :: 4 <= k < 8 ==> NoBreak(AssessmentLines(rec, m, tier, avg)[k])
  {
    var lines := AssessmentLines(rec, m, tier, avg);
    NoBreakDigits(NatText(m.max));
    NoBreakDigits(NatText(m.min));
    NoBreakDigits(NatText(m.latest));
    assert lines[4] == "### 2.2 关键指标";
    assert lines[5] == "- **平均量化值**: " + avg + "分";
    assert lines[6] == "- **最高量化值**: " + NatText(m.max) + "分";
    assert lines[7] == "- **最低量化值**: " + NatText(m.min) + "分";
    assert NoBreak(lines[4]);
    assert NoBreak(lines[5]);
    assert NoBreak(lines[6]);
    assert NoBreak(lines[7]);
  }

  lemma AssessmentNoBreakC(rec: Record, m: Metrics, tier: Tier, avg: string)
    requires NoBreak(rec.name) && NoBreak(avg) && NoBreak(m.latestYear)
    ensures forall k :: 8 <= k < 12 ==> NoBreak(AssessmentLines(rec, m, tier, avg)[k])
  {
    var lines := AssessmentLines(rec, m, tier, avg);
    NoBreakDigits(NatText(m.max));
    NoBreakDigits(NatText(m.min));
    NoBreakDigits(NatText(m.latest));
    assert lines[8] == "- **最新量化值**: " + NatText(m.latest) + "分（" + m.latestYear + "年）";
    assert lines[9] == "- **发展趋势**: " + TrendText(m.trend) + "趋势";
    assert lines[10] == "";
    assert lines[11] == "## 三、数字化转型战略建议";
    assert NoBreak(lines[8]);
    assert NoBreak(lines[9]);
    assert NoBreak(lines[10]);
    assert NoBreak(lines[11]);
  }

  lemma AssessmentNoBreakD(rec: Record, m: Metrics, tier: Tier, avg: string)
    requires NoBreak(rec.name) && NoBreak(avg) && NoBreak(m.latestYear)
    ensures forall k :: 12 <= k < 13 ==> NoBreak(AssessmentLines(rec, m, tier, avg)[k])
  {
    var lines := AssessmentLines(rec, m, tier, avg);
    NoBreakDigits(NatText(m.max));
    NoBreakDigits(NatText(m.min));
    NoBreakDigits(NatText(m.latest));
    assert lines[12] == "### 3.1 战略定位";
    assert NoBreak(lines[12]);
  }

  lemma AssessmentNoBreak(rec: Record, m: Metrics, tier: Tier, avg: string)
    requires NoBreak(rec.name) && NoBreak(avg) && NoBreak(m.latestYear)
    ensures LinesNoBreak(AssessmentLines(rec, m, tier, avg))
  {
    AssessmentNoBreakA(rec, m, tier, avg);
    AssessmentNoBreakB(rec, m, tier, avg);
    AssessmentNoBreakC(rec, m, tier, avg);
    AssessmentNoBreakD(rec, m, tier, avg);
  }

  lemma ClosingNoBreakA(rec: Record, cycle: string)
    requires NoBreak(rec.name) && NoBreak(cycle)
    ensures forall k :: 0 <= k < 4 ==> NoBreak(ClosingLines(rec, cycle)[k])
  {
    var lines := ClosingLines(rec, cycle);
    assert lines[0] == "";
    assert lines[1] == "### 3.2 实施路径";
    assert lines[2] == "1. **准备阶段**（1-3个月）：现状调研、需求分析、方案设计";
    assert lines[3] == "2. **实施阶段**（3-12个月）：系统部署、数据迁移、人员培训";
    assert NoBreak(lines[0]);
    assert NoBreak(lines[1]);
    assert NoBreak(lines[2]);
    assert NoBreak(lines[3]);
  }

  lemma ClosingNoBreakB(rec: Record, cycle: string)
    requires NoBreak(rec.name) && NoBreak(cycle)
    ensures forall k :: 4 <= k < 8 ==> NoBreak(ClosingLines(rec, cycle)[k])
  {
    var lines := ClosingLines(rec, cycle);
    assert lines[4] == "3. **优化阶段**（12-24个月）：效果评估、持续改进";
    assert lines[5] == "";
    assert lines[6] == "## 四、风险提示与预期效益";
    assert lines[7] == "### 4.1 主要风险";
    assert NoBreak(lines[4]);
    assert NoBreak(lines[5]);
    assert NoBreak(lines[6]);
    assert NoBreak(lines[7]);
  }

  lemma ClosingNoBreakC(rec: Record, cycle: string)
    requires NoBreak(rec.name) && NoBreak(cycle)
    ensures forall k :: 8 <= k < 12 ==> NoBreak(ClosingLines(rec, cycle)[k])
  {
    var lines := ClosingLines(rec, cycle);
    assert lines[8] == "1. **技术风险**：系统选型不当导致兼容性问题";
    assert lines[9] == "2. **数据风险**：数据质量不高影响分析结果";
    assert lines[10] == "3. **落地风险**：员工数字化能力不足导致推进困难";
    assert lines[11] == "";
    assert NoBreak(lines[8]);
    assert NoBreak(lines[9]);
    assert NoBreak(lines[10]);
    assert NoBreak(lines[11]);
  }

  lemma ClosingNoBreakD(rec: Record, cycle: string)
    requires NoBreak(rec.name) && NoBreak(cycle)
    ensures forall k :: 12 <= k < 16 ==> NoBreak(ClosingLines(rec, cycle)[k])
  {
    var lines := ClosingLines(rec, cycle);
    assert lines[12] == "### 4.2 预期效益";
    assert lines[13] == "1. **效率提升**：ESG管理效率提升30%-50%";
    assert lines[14] == "2. **质量改善**：数据准确性提升至95%以上";
    assert lines[15] == "3. **决策支持**：为管理层提供数据驱动的决策依据";
    assert NoBreak(lines[12]);
    assert NoBreak(lines[13]);
    assert NoBreak(lines[14]);
    assert NoBreak(lines[15]);
  }

  lemma ClosingNoBreakE(rec: Record, cycle: string)
    requires NoBreak(rec.name) && NoBreak(cycle)
    ensures forall k :: 16 <= k < 20 ==> NoBreak(ClosingLines(rec, cycle)[k])
  {
    var lines := ClosingLines(rec, cycle);
    assert lines[16] == "4. **评级提升**：预计" + cycle + "内ESG评级提升1-2个等级";
    assert lines[17] == "";
    assert lines[18] == "## 五、结论";
    assert lines[19] == rec.name + "通过系统化的数字化转型，有望在" + cycle + "内实现ESG管理水平的显著提升，为企业可持续发展奠定坚实基础。";
    assert NoBreak(lines[16]);
    assert NoBreak(lines[17]);
    assert NoBreak(lines[18]);
    assert NoBreak(lines[19]);
  }

  lemma ClosingNoBreakF(rec: Record, cycle: string)
    requires NoBreak(rec.name) && NoBreak(cycle)
    ensures forall k :: 20 <= k < 21 ==> NoBreak(ClosingLines(rec, cycle)[k])
  {
    var lines := ClosingLines(rec, cycle);
    assert lines[20] == "";
    assert NoBreak(lines[20]);
  }

  lemma ClosingNoBreak(rec: Record, cycle: string)
    requires NoBreak(rec.name) && NoBreak(cycle)
    ensures LinesNoBreak(ClosingLines(rec, cycle))
  {
    ClosingNoBreakA(rec, cycle);
    ClosingNoBreakB(rec, cycle);
    ClosingNoBreakC(rec, cycle);
    ClosingNoBreakD(rec, cycle);
    ClosingNoBreakE(rec, cycle);
    ClosingNoBreakF(rec, cycle);
  }

  lemma StrategyNoBreak(t: Tier)
    ensures NoBreak(Strategy(t))
  {
    match t
    case Excellent => StrategyNoBreakExcellent();
    case Good => StrategyNoBreakGood();
    case Moderate => StrategyNoBreakModerate();
    case NeedsImprovement => StrategyNoBreakNeedsImprovement();
  }

  lemma StrategyNoBreakExcellent()
    ensures NoBreak(Strategy(Excellent))
  {
    var level := Level(Excellent);
    assert level[0] == '优';
    assert Strategy(Excellent) == "作为ESG优秀企业，建议打造行业数字化标杆，建立ESG数据中台和AI风险预警系统。";
  }

  lemma StrategyNoBreakGood()
    ensures NoBreak(Strategy(Good))
  {
    var level := Level(Good);
    assert level[0] == '良';
    assert Strategy(Good) == "作为ESG良好企业，建议优化数据采集流程，建立可视化管理看板，提升数字化能力。";
  }

  lemma StrategyNoBreakModerate()
    ensures NoBreak(Strategy(Moderate))
  {
    var level := Level(Moderate);
    assert level[0] == '中';
    assert Strategy(Moderate) == "作为ESG中等企业，建议夯实数据基础，部署标准化管理软件，分阶段推进转型。";
  }

  lemma StrategyNoBreakNeedsImprovement()
    ensures NoBreak(Strategy(NeedsImprovement))
  {
    var level := Level(NeedsImprovement);
    assert level[0] == '待';
    assert Strategy(NeedsImprovement) == "作为ESG待提升企业，建议先解决数据缺失问题，引入轻量化工具，逐步提升管理水平。";
  }

  /** No line of a report breaks, so long as the record's fields do not. */
  lemma ReportLinesNoBreak(rec: Record, m: Metrics)
    requires m.count > 0
    requires NoBreak(rec.name) && NoBreak(rec.code) && NoBreak(rec.listingDate) && NoBreak(m.latestYear)
    ensures LinesNoBreak(ReportLines(rec, m))
  {
    var t := TierOf(m.sum, m.count);
    var avg := OneDecimal(m.sum, m.count);
    NoBreakAverage(m.sum, m.count);
    BasicsNoBreak(rec);
    AssessmentNoBreak(rec, m, t, avg);
    ClosingNoBreak(rec, Cycle(t));
    var basics := BasicsLines(rec);
    var assessment := AssessmentLines(rec, m, t, avg);
    var closing := ClosingLines(rec, Cycle(t));
    assert LinesNoBreak([Strategy(t)]) by {
      StrategyNoBreak(t);
    }
    LinesNoBreakConcat(basics, assessment);
    LinesNoBreakConcat(basics + assessment, [Strategy(t)]);
    LinesNoBreakConcat(basics + assessment + [Strategy(t)], closing);
  }

  /** Splitting a report at its line breaks gives back its 43 lines. */
  lemma ReportReadsBack(rec: Record, m: Metrics)
    requires m.count > 0
    requires NoBreak(rec.name) && NoBreak(rec.code) && NoBreak(rec.listingDate) && NoBreak(m.latestYear)
    ensures Split(Join(ReportLines(rec, m), '\n'), '\n') == ReportLines(rec, m)
    ensures |ReportLines(rec, m)| == 43
  {
    ReportLinesNoBreak(rec, m);
    SplitJoin(ReportLines(rec, m), '\n');
  }

  /** The latest year of any company's figures is written in digits. */
  lemma LatestYearDigits(s: seq<YearEntry>)
    ensures AllDigits(ComputeMetrics(s).latestYear)
  {
  }

  /** A company's analysis text has 42 line breaks. */
  lemma AnalysisLineBreaks(rec: Record, years: seq<nat>, ratingCols: seq<string>, quantCols: seq<string>)
    requires NoBreak(rec.name) && NoBreak(rec.code) && NoBreak(rec.listingDate)
    ensures CountChar(AnalysisText(Some(rec), years, ratingCols, quantCols), '\n') == 42
  {
    var series := ExtractSeries(rec, years, ratingCols, quantCols);
    var m := ComputeMetrics(series);
    LatestYearDigits(series);
    NoBreakDigits(m.latestYear);
    ReportReadsBack(rec, m);
    SplitCount(AnalysisText(Some(rec), years, ratingCols, quantCols), '\n');
  }

  /** The styled PDF of a company's report holds 47 elements: the title and its
      spacer, one element per report line, the page break and the footer. */
  lemma ReportElementCount(rec: Record, years: seq<nat>, ratingCols: seq<string>, quantCols: seq<string>, now: string)
    requires NoBreak(rec.name) && NoBreak(rec.code) && NoBreak(rec.listingDate)
    ensures |Elements(AnalysisText(Some(rec), years, ratingCols, quantCols), rec.name, rec.code, now)| == 47
  {
    AnalysisLineBreaks(rec, years, ratingCols, quantCols);
    AnalysisNotBlank(Some(rec), years, ratingCols, quantCols);
  }

  /** No analysis text is blank, so the export never substitutes its template. */
  lemma AnalysisNotBlank(rec: Option<Record>, years: seq<nat>, ratingCols: seq<string>, quantCols: seq<string>)
    ensures |Strip(AnalysisText(rec, years, ratingCols, quantCols))| > 0
  {
    var text := AnalysisText(rec, years, ratingCols, quantCols);
    AnalysisStartsWithHeading(rec, years, ratingCols, quantCols);
    assert text[0] == '#';
    StripEmptyIffBlank(text);
  }
}

/**
 * `TrendAnalyzer.generate_trend_summary`: the Markdown-flavoured digest of a
 * trend dictionary, built as a list of lines and joined with newlines.
 *
 * Each section of the digest is a function of the part of the dictionary it
 * shows; `SummaryParts` puts the sections in order, and the method
 * `GenerateTrendSummary` is the append loop that produces the same lines.
 */
module TrendSummary {
  import opened Strings
  import opened Ranking
  import opened Counters
  import opened Papers
  import opened TrendAnalyzer

  /** `category_names`, in its declaration order (trend_analyzer.py:137-144). */
  const CategoryNames: seq<(string, string)> := [
    ("ai_ml", "🤖 AI/ML技術"),
    ("development", "⚙️ 開発技術"),
    ("web_tech", "🌐 Web技術"),
    ("data_infra", "💾 データ・インフラ"),
    ("security", "🔒 セキュリティ"),
    ("performance", "⚡ パフォーマンス")
  ]

  /** `area_names` (trend_analyzer.py:172-177). */
  const AreaNames: map<string, string> := map[
    "cs.AI" := "人工知能", "cs.LG" := "機械学習", "cs.CL" := "自然言語処理",
    "cs.SE" := "ソフトウェア工学", "cs.HC" := "HCI", "cs.IR" := "情報検索",
    "cs.DB" := "データベース", "cs.DC" := "分散システム", "cs.PL" := "プログラミング言語",
    "cs.CR" := "暗号・セキュリティ", "cs.CV" := "コンピュータビジョン"
  ]

  const TopHeading: string := "🔥 **注目キーワード TOP5:**"
  const CategoriesHeading: string := "📈 **分野別トレンド:**"
  const EmergingHeading: string := "🚀 **新興技術動向:**"
  const InstitutionsHeading: string := "🏛️ **活発な研究機関:**"
  const AreasHeading: string := "📚 **活発な研究分野:**"

  // ----- the lines -----

  function HeaderLine(total: nat): string
  {
    "📊 **今日の研究動向** (対象: " + NatToString(total) + "件の論文)"
  }

  /** Line 132: the `rank`-th keyword of the top list. */
  function TopLine(rank: nat, e: Entry): string
  {
    "  " + NatToString(rank) + ". **" + Title(e.key) + "** (" + NatToString(e.count) + "件)"
  }

  /** Lines 159, 166 and 180: one bullet with a caption and a count. */
  function BulletLine(caption: string, count: nat): string
  {
    "  • **" + caption + "** (" + NatToString(count) + "件)"
  }

  /** `most_common(1)[0][0]` of a non-empty counter. */
  function Leader(c: Counter): string
    requires c != []
  {
    MostCommon(c, 1)[0].key
  }

  /** Line 151: a category's display name, its leading keyword and its total count. */
  function CategoryLine(name: string, c: Counter): string
    requires c != []
  {
    "  " + name + ": **" + Title(Leader(c)) + "** (" + NatToString(Total(c)) + "件)"
  }

  /** `area_names.get(area, area)`. */
  function AreaDisplay(areaNames: map<string, string>, tag: string): string
  {
    if tag in areaNames then areaNames[tag] else tag
  }

  // ----- the sections -----

  /** The loop at line 131 over the first entries of the top list, ranked from 1. */
  function TopLines(items: seq<Entry>): seq<string>
  {
    if items == [] then [] else TopLines(items[..|items| - 1]) + [TopLine(|items|, items[|items| - 1])]
  }

  /** The loop at line 147 over the first display names: a line for each category that has a non-empty counter. */
  function CategoryLines(m: map<string, Counter>, names: seq<(string, string)>): seq<string>
  {
    if names == [] then []
    else
      var prev := CategoryLines(m, names[..|names| - 1]);
      var (category, name) := names[|names| - 1];
      if category in m && m[category] != [] then prev + [CategoryLine(name, m[category])] else prev
  }

  /** The loops at lines 158 and 165: one title-cased bullet per entry. */
  function TitledBullets(items: seq<Entry>): seq<string>
  {
    if items == [] then []
    else TitledBullets(items[..|items| - 1]) + [BulletLine(Title(items[|items| - 1].key), items[|items| - 1].count)]
  }

  /** The loop at line 178: one bullet per research area, under its display name. */
  function AreaLines(areaNames: map<string, string>, items: seq<Entry>): seq<string>
  {
    if items == [] then []
    else AreaLines(areaNames, items[..|items| - 1]) + [BulletLine(AreaDisplay(areaNames, items[|items| - 1].key), items[|items| - 1].count)]
  }

  /** Lines 129-132. */
  function TopSection(top: seq<Entry>): seq<string>
  {
    if top == [] then [] else [TopHeading] + TopLines(Take(top, 5))
  }

  /** Lines 156-160 and 163-167: a heading, the bullets and a blank line, or nothing for an empty list. */
  function BulletSection(heading: string, items: seq<Entry>): seq<string>
  {
    if items == [] then [] else [heading] + TitledBullets(items) + [""]
  }

  /** Lines 170-180; this section ends without a blank line. */
  function AreaSection(areas: seq<Entry>): seq<string>
  {
    if areas == [] then [] else [AreasHeading] + AreaLines(AreaNames, Take(areas, 5))
  }

  /** `summary_parts` at line 182. */
  function SummaryParts(trends: Trends): seq<string>
  {
    [HeaderLine(trends.totalPapers), ""]
    + TopSection(trends.topKeywords)
    + ["", CategoriesHeading]
    + CategoryLines(trends.categoryTrends, CategoryNames)
    + [""]
    + BulletSection(EmergingHeading, trends.emergingTech)
    + BulletSection(InstitutionsHeading, trends.activeInstitutions)
    + AreaSection(trends.researchAreas)
  }

  /** `generate_trend_summary(trends)` (lines 118-182). */
  method GenerateTrendSummary(trends: Trends) returns (text: string)
    ensures text == Join(SummaryParts(trends), "\n")
  {
    var summaryParts: seq<string> := [HeaderLine(trends.totalPapers), ""];
    summaryParts := AppendTop(summaryParts, trends.topKeywords);
    summaryParts := summaryParts + [""];
    summaryParts := summaryParts + [CategoriesHeading];
    summaryParts := AppendCategories(summaryParts, trends.categoryTrends);
    summaryParts := summaryParts + [""];
    summaryParts := AppendBullets(summaryParts, EmergingHeading, trends.emergingTech);
    summaryParts := AppendBullets(summaryParts, InstitutionsHeading, trends.activeInstitutions);
    summaryParts := AppendAreas(summaryParts, trends.researchAreas);
    assert summaryParts == SummaryParts(trends);
    text := Join(summaryParts, "\n");
  }

  /** Lines 129-132: the heading and the first five keywords, ranked, when there are any. */
  method AppendTop(parts: seq<string>, topKeywords: seq<Entry>) returns (summaryParts: seq<string>)
    ensures summaryParts == parts + TopSection(topKeywords)
  {
    summaryParts := parts;
    if topKeywords != [] {
      summaryParts := AppendTopLines(summaryParts + [TopHeading], Take(topKeywords, 5));
    }
  }

  /** Lines 131-132: the loop over the top list, ranked from 1. */
  method AppendTopLines(parts: seq<string>, top: seq<Entry>) returns (summaryParts: seq<string>)
    ensures summaryParts == parts + TopLines(top)
  {
    summaryParts := parts;
    var i := 0;
    while i < |top|
      invariant 0 <= i <= |top|
      invariant summaryParts == parts + TopLines(top[..i])
    {
      var line := TopLine(i + 1, top[i]);
      ghost var done := top[..i + 1];
      assert |done| == i + 1 && done[i] == top[i] && done[..i] == top[..i];
      assert TopLines(done) == TopLines(top[..i]) + [line];
      summaryParts := summaryParts + [line];
      i := i + 1;
    }
    assert top[..i] == top;
  }

  /** Lines 146-151 after the heading: one line per displayed category that has a non-empty counter. */
  method AppendCategories(parts: seq<string>, categoryTrends: map<string, Counter>) returns (summaryParts: seq<string>)
    ensures summaryParts == parts + CategoryLines(categoryTrends, CategoryNames)
  {
    summaryParts := parts;
    var c := 0;
    while c < |CategoryNames|
      invariant 0 <= c <= |CategoryNames|
      invariant summaryParts == parts + CategoryLines(categoryTrends, CategoryNames[..c])
    {
      var (category, name) := CategoryNames[c];
      if category in categoryTrends && categoryTrends[category] != [] {
        summaryParts := summaryParts + [CategoryLine(name, categoryTrends[category])];
      }
      assert CategoryNames[..c + 1][..c] == CategoryNames[..c];
      c := c + 1;
    }
    assert CategoryNames[..c] == CategoryNames;
  }

  /** Lines 156-160 (and 163-167): the heading, one bullet per entry and a blank line, when there are entries. */
  method AppendBullets(parts: seq<string>, heading: string, items: seq<Entry>) returns (summaryParts: seq<string>)
    ensures summaryParts == parts + BulletSection(heading, items)
  {
    summaryParts := parts;
    if items != [] {
      summaryParts := AppendTitledBullets(summaryParts + [heading], items);
      summaryParts := summaryParts + [""];
    }
  }

  /** Lines 158-159 (and 165-166): one title-cased bullet per entry. */
  method AppendTitledBullets(parts: seq<string>, items: seq<Entry>) returns (summaryParts: seq<string>)
    ensures summaryParts == parts + TitledBullets(items)
  {
    summaryParts := parts;
    var i := 0;
    while i < |items|
      invariant 0 <= i <= |items|
      invariant summaryParts == parts + TitledBullets(items[..i])
    {
      var line := BulletLine(Title(items[i].key), items[i].count);
      ghost var done := items[..i + 1];
      assert |done| == i + 1 && done[i] == items[i] && done[..i] == items[..i];
      assert TitledBullets(done) == TitledBullets(items[..i]) + [line];
      summaryParts := summaryParts + [line];
      i := i + 1;
    }
    assert items[..i] == items;
  }

  /** Lines 170-180: the heading and the first five areas under their display names, when there are any. */
  method AppendAreas(parts: seq<string>, researchAreas: seq<Entry>) returns (summaryParts: seq<string>)
    ensures summaryParts == parts + AreaSection(researchAreas)
  {
    summaryParts := parts;
    if researchAreas != [] {
      ghost var lines := AreaLines(AreaNames, Take(researchAreas, 5));
      assert AreaSection(researchAreas) == [AreasHeading] + lines;
      summaryParts := AppendAreaLines(summaryParts + [AreasHeading], Take(researchAreas, 5));
      assert summaryParts == parts + ([AreasHeading] + lines);
    }
  }

  /** Lines 178-180: one bullet per area, under its display name. */
  method AppendAreaLines(parts: seq<string>, areas: seq<Entry>) returns (summaryParts: seq<string>)
    ensures summaryParts == parts + AreaLines(AreaNames, areas)
  {
    summaryParts := parts;
    var a := 0;
    while a < |areas|
      invariant 0 <= a <= |areas|
      invariant summaryParts == parts + AreaLines(AreaNames, areas[..a])
    {
      var line := BulletLine(AreaDisplay(AreaNames, areas[a].key), areas[a].count);
      ghost var done := areas[..a + 1];
      assert |done| == a + 1 && done[a] == areas[a] && done[..a] == areas[..a];
      assert AreaLines(AreaNames, done) == AreaLines(AreaNames, areas[..a]) + [line];
      summaryParts := summaryParts + [line];
      a := a + 1;
    }
    assert areas[..a] == areas;
  }

  // ----- what the digest shows -----

  /** The digest opens with the header line and its paper count. */
  lemma SummaryOpensWithHeader(trends: Trends)
    ensures IsPrefix(HeaderLine(trends.totalPapers), Join(SummaryParts(trends), "\n"))
  {
    JoinHead(SummaryParts(trends), "\n");
  }

  /** The digest of an empty batch: the header, the category heading and blank lines only. */
  lemma SummaryOfEmptyBatch()
    ensures SummaryParts(TrendsOf([])) == [HeaderLine(0), "", "", CategoriesHeading, ""]
  {
    var t := TrendsOf([]);
    CategoryLinesOfEmpty(CategoryNames);
  }

  lemma {:induction false} CategoryLinesOfEmpty(names: seq<(string, string)>)
    ensures CategoryLines(map[], names) == []
  {
    if names != [] {
      CategoryLinesOfEmpty(names[..|names| - 1]);
    }
  }

  lemma {:induction false} TopLinesShape(items: seq<Entry>)
    ensures |TopLines(items)| == |items|
    ensures forall i :: 0 <= i < |items| ==> TopLines(items)[i] == TopLine(i + 1, items[i])
  {
    if items != [] {
      TopLinesShape(items[..|items| - 1]);
    }
  }

  /** The keyword section is left out for an empty list; otherwise it is the heading and the first five keywords, ranked 1 to 5. */
  lemma TopSectionShape(top: seq<Entry>)
    ensures TopSection(top) == [] <==> top == []
    ensures top != [] ==>
              && |TopSection(top)| == 1 + (if |top| < 5 then |top| else 5)
              && TopSection(top)[0] == TopHeading
              && forall i :: 0 <= i < |TopSection(top)| - 1 ==> TopSection(top)[i + 1] == TopLine(i + 1, top[i])
  {
    if top != [] {
      TopLinesShape(Take(top, 5));
    }
  }

  lemma {:induction false} TitledBulletsShape(items: seq<Entry>)
    ensures |TitledBullets(items)| == |items|
    ensures forall i :: 0 <= i < |items| ==> TitledBullets(items)[i] == BulletLine(Title(items[i].key), items[i].count)
  {
    if items != [] {
      TitledBulletsShape(items[..|items| - 1]);
    }
  }

  /** The emerging and institution sections: nothing for an empty list, else the heading, every entry and a blank line. */
  lemma BulletSectionShape(heading: string, items: seq<Entry>)
    ensures BulletSection(heading, items) == [] <==> items == []
    ensures items != [] ==>
              && |BulletSection(heading, items)| == |items| + 2
              && BulletSection(heading, items)[0] == heading
              && BulletSection(heading, items)[|items| + 1] == ""
              && forall i :: 0 <= i < |items| ==>
                   BulletSection(heading, items)[i + 1] == BulletLine(Title(items[i].key), items[i].count)
  {
    if items != [] {
      TitledBulletsShape(items);
    }
  }

  lemma {:induction false} AreaLinesShape(areaNames: map<string, string>, items: seq<Entry>)
    ensures |AreaLines(areaNames, items)| == |items|
    ensures forall i :: 0 <= i < |items| ==>
              AreaLines(areaNames, items)[i] == BulletLine(AreaDisplay(areaNames, items[i].key), items[i].count)
  {
    if items != [] {
      AreaLinesShape(areaNames, items[..|items| - 1]);
    }
  }

  /**
   * The research-area section: nothing for an empty list, else the heading
   * and the first five areas, each under its display name when it has one and
   * under its raw tag otherwise.
   */
  lemma AreaSectionShape(areas: seq<Entry>)
    ensures AreaSection(areas) == [] <==> areas == []
    ensures areas != [] ==>
              && |AreaSection(areas)| == 1 + (if |areas| < 5 then |areas| else 5)
              && AreaSection(areas)[0] == AreasHeading
              && forall i :: 0 <= i < |AreaSection(areas)| - 1 ==>
                   AreaSection(areas)[i + 1]
                   == BulletLine(if areas[i].key in AreaNames then AreaNames[areas[i].key] else areas[i].key, areas[i].count)
  {
    if areas != [] {
      AreaLinesShape(AreaNames, Take(areas, 5));
    }
  }

  /**
   * A line is in the category section exactly when it is the line of some
   * displayed category whose counter is present and not empty; there is at
   * most one line per display name.
   */
  lemma {:induction false} CategoryLinesMeaning(m: map<string, Counter>, names: seq<(string, string)>)
    ensures |CategoryLines(m, names)| <= |names|
    ensures forall line :: line in CategoryLines(m, names) <==>
              exists j :: 0 <= j < |names| && names[j].0 in m && m[names[j].0] != []
                          && line == CategoryLine(names[j].1, m[names[j].0])
  {
    if names != [] {
      var init := names[..|names| - 1];
      CategoryLinesMeaning(m, init);
      assert forall j :: 0 <= j < |init| ==> init[j] == names[j];
      forall line | line in CategoryLines(m, names)
        ensures exists j :: 0 <= j < |names| && names[j].0 in m && m[names[j].0] != []
                            && line == CategoryLine(names[j].1, m[names[j].0])
      {
        if line !in CategoryLines(m, init) {
          var j := |names| - 1;
          assert names[j].0 in m && m[names[j].0] != [] && line == CategoryLine(names[j].1, m[names[j].0]);
        }
      }
    }
  }

  /** A category's leading keyword is its leftmost keyword with the largest count. */
  lemma LeaderIsFirstMax(c: Counter)
    requires c != []
    ensures var i := FirstMaxIndex(c, EntryCount);
            && Leader(c) == c[i].key
            && (forall j :: 0 <= j < |c| ==> c[j].count <= c[i].count)
            && (forall j :: 0 <= j < i ==> c[j].count < c[i].count)
  {
    MostCommonOne(c);
  }

  /** The display-name table lists the six trend categories in the table's order. */
  lemma CategoryNamesCoverTable()
    ensures |CategoryNames| == |TrendKeywords|
    ensures forall j :: 0 <= j < |CategoryNames| ==> CategoryNames[j].0 == TrendKeywords[j].0
  {
  }

  /** Over the trends of a batch, every category in `category_trends` has a display name. */
  lemma CategoriesNamed(papers: seq<Paper>)
    ensures var m := TrendsOf(papers).categoryTrends;
            forall c :: c in m ==> exists j :: 0 <= j < |CategoryNames| && CategoryNames[j].0 == c
  {
    var m := TrendsOf(papers).categoryTrends;
    assert m == TallyOf(papers).categories;
    TallyCategoryNames(papers);
    NamesOfPrefix(TrendKeywords);
    CategoryNamesCoverTable();
    forall c | c in m ensures exists j :: 0 <= j < |CategoryNames| && CategoryNames[j].0 == c {
      var j :| 0 <= j < |Names(TrendKeywords)| && Names(TrendKeywords)[j] == c;
      assert CategoryNames[j].0 == TrendKeywords[j].0;
    }
  }

  /** Over the trends of a batch, a displayed category gets a line exactly when some of its keywords was found. */
  lemma CategoriesShown(papers: seq<Paper>)
    ensures var m := TrendsOf(papers).categoryTrends;
            forall j :: 0 <= j < |CategoryNames| ==>
              ((CategoryNames[j].0 in m && m[CategoryNames[j].0] != []) <==> Total(Get(m, CategoryNames[j].0)) > 0)
  {
    forall j | 0 <= j < |CategoryNames|
      ensures var m := TrendsOf(papers).categoryTrends;
              (CategoryNames[j].0 in m && m[CategoryNames[j].0] != []) <==> Total(Get(m, CategoryNames[j].0)) > 0
    {
      TallyCategoryPresent(papers, CategoryNames[j].0);
    }
  }
}

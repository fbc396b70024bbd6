# AI paper daily digest: a verified model of its core

The system collects new AI papers from arXiv. It keeps the important ones,
has each summarised by a language model and posts a daily digest to Slack.
It also builds a trend report from the keyword, institution and category
counts of a batch. This project models the logic between those services and
proves what it promises:

- **Trend aggregation** (`TrendAnalyzer`):
  - `extract_trends` counts keyword presence per paper, per trend category and overall.
  - It also counts emerging keywords, the first institution each author byline names, and arXiv category tags.
  - It then ranks every counter with `Counter.most_common`.
  - `generate_trend_summary` assembles the report lines.
  - `detect_trend_changes` compares the current top five with a historical top ten.
- **Importance filter** (`ArxivClient.filter_important_papers`):
  - It scores each paper by the number of distinct importance keywords in its title and abstract.
  - It writes the score into the papers that meet the threshold.
  - It sorts those papers stably, highest score first.
- **Message chunking** (`SlackClient`):
  - `send_message` guards on a configured webhook and builds the payload.
  - `send_paper_summaries` packs summaries into chunks under a 3500-character budget and numbers them when there are several.
  - It posts every chunk and reports success only if every post succeeded.
- **Summary assembly** (`OpenAIClient`):
  - `summarize_paper` passes on the stripped reply, or the fallback summary when the call fails.
  - `_create_fallback_summary` shows three authors and a 500-character excerpt.
  - `summarize_multiple_papers` summarises the first `max_papers` papers in order.
  - `create_daily_summary` wraps the summaries in a dated header and a footer.

## Files and modules

- **`wrappers.dfy`** (`Wrappers`): `Option`.
- **`strings.dfy`** (`Strings`): the parts of Python's `str` the core uses:
  - `lower`, `title`, `in`, `join`, `strip`;
  - `str(n)` for naturals.
- **`ranking.dfy`** (`Ranking`):
  - slicing `s[:n]`;
  - a stable descending sort, as `sorted(..., reverse=True)` is;
  - threshold filtering;
  - the lemmas relating these.
- **`counters.dfy`** (`Counters`): `collections.Counter`. It is an insertion-ordered sequence of (key, count) entries, with `c[k] += 1`, `most_common(n)` and the order in which increments add keys.
- **`papers.dfy`** (`Papers`): the paper record. It is a class because the filter writes `importance_score` into it in place.
- **`trend_analyzer.dfy`** (`TrendAnalyzer`):
  - the keyword tables;
  - `extract_trends` as loops over counters;
  - the functions that specify those loops;
  - what the counters mean over a batch.
- **`trend_summary.dfy`** (`TrendSummary`): `generate_trend_summary`.
- **`trend_changes.dfy`** (`TrendChanges`): `detect_trend_changes`.
- **`arxiv_client.dfy`** (`ArxivClient`): `filter_important_papers`.
- **`slack_client.dfy`** (`SlackClient`): the `SlackClient` class.
  - The network becomes an oracle `deliver(n, payload)`, which answers whether the `n`-th post was accepted with status 200.
  - The class records every payload it hands to the network in `sent`.
- **`openai_client.dfy`** (`OpenAIClient`): the `OpenAIClient` class and its pure string assembly.
  - The language-model call becomes an oracle `api(i, paper)`.
  - It returns `Some(reply)`, or `None` when the call raises.

## Model

| member | source | states |
|---|---|---|
| TrendAnalyzer.TrendKeywordsWellFormed | trend_analyzer.py:10-48 | The conjunction of `TrendCategoriesDisjoint` and `TrendListsDistinct` with distinct category names, in the single form the batch lemmas take: the six trend categories have distinct names, and none of the 96 trend keywords is listed twice, within a category or across categories. |
| TrendAnalyzer.TrendCategoriesDisjoint | trend_analyzer.py:10-48 | No keyword belongs to two trend categories. |
| TrendAnalyzer.TrendListsDistinct | trend_analyzer.py:10-48 | No trend category lists a keyword twice. |
| TrendAnalyzer.AiMlKeywordsDistinct | trend_analyzer.py:12-17 | The AI/ML list has no repeated keyword. |
| TrendAnalyzer.DevelopmentKeywordsDistinct | trend_analyzer.py:19-23 | The development list has no repeated keyword. |
| TrendAnalyzer.WebTechKeywordsDistinct | trend_analyzer.py:25-29 | The web list has no repeated keyword. |
| TrendAnalyzer.DataInfraKeywordsDistinct | trend_analyzer.py:31-35 | The data and infrastructure list has no repeated keyword. |
| TrendAnalyzer.SecurityKeywordsDistinct | trend_analyzer.py:37-41 | The security list has no repeated keyword. |
| TrendAnalyzer.PerformanceKeywordsDistinct | trend_analyzer.py:43-47 | The performance list has no repeated keyword. |
| TrendAnalyzer.EmergingAndInstitutionsDistinct | trend_analyzer.py:51-99 | The conjunction of `EmergingDistinct` and `InstitutionsDistinct`, in the single form `TallyOf` and the ranking lemmas take: neither the emerging keywords (lines 51-55) nor the institution fragments (lines 98-99) repeat an entry. |
| TrendAnalyzer.EmergingDistinct | trend_analyzer.py:51-55 | The fifteen emerging keywords are pairwise distinct. |
| TrendAnalyzer.InstitutionsDistinct | trend_analyzer.py:98-99 | The eleven institution fragments are pairwise distinct. |
| TrendAnalyzer.FlattenMembers | trend_analyzer.py:83-84 | A keyword is among all the table's keywords exactly when some category lists it. |
| TrendAnalyzer.TrendsOf | trend_analyzer.py:109-116 | `total_papers` is the batch size. The four rankings hold at most 10, 5, 5 and 8 entries. An empty batch gives an empty `category_trends` and empty rankings. |
| TrendAnalyzer.ExtractTrends | trend_analyzer.py:57-116 | The loop over the papers returns the trends of the batch, `TrendsOf(papers)`. |
| TrendAnalyzer.CountTrendKeywords | trend_analyzer.py:83-87 | The nested loop over categories and their keywords produces the category counters and the overall counter that the category pass specifies. |
| TrendAnalyzer.CountCategory | trend_analyzer.py:84-87 | The inner loop over one category's keywords adds exactly that category's keyword hits. |
| TrendAnalyzer.CountEmerging | trend_analyzer.py:90-92 | The emerging loop produces the counter that the emerging pass specifies. |
| TrendAnalyzer.CountInstitutions | trend_analyzer.py:95-103 | The author loop produces the counter that the author pass specifies. |
| TrendAnalyzer.CountAuthor | trend_analyzer.py:96-103 | The search with `break` adds one for the first institution fragment in list order that the lowered byline contains, and nothing when none does. |
| TrendAnalyzer.CountTags | trend_analyzer.py:106-107 | The tag loop produces the counter that the tag pass specifies. |
| TrendAnalyzer.FirstMatch | trend_analyzer.py:100-103 | The index returned is that of a fragment the byline contains, no earlier fragment occurs, and the list's length means no fragment occurs. |
| TrendAnalyzer.FirstMatchIsFirst | trend_analyzer.py:100-103 | When fragment `n` occurs and no earlier one does, the search stops at `n`. |
| TrendAnalyzer.FirstMatchNone | trend_analyzer.py:100-103 | When no fragment occurs, the search runs to the end. |
| TrendAnalyzer.KeywordPass | trend_analyzer.py:84-87 | Definition of one category's inner loop: each keyword the text contains adds one to the category counter and one to the overall counter. Its effect is stated by `KeywordPassEffect` and `KeywordPassKeys`. |
| TrendAnalyzer.CategoryPass | trend_analyzer.py:83-87 | Definition of the loop over the table, category by category in table order. Its effect is stated by `CategoryPassGlobal`, `CategoryPassCategories`, `CategoryPassTotals` and `CategoryPassKeys`. |
| TrendAnalyzer.EmergingPass | trend_analyzer.py:90-92 | Definition of the emerging loop, in list order. Its effect is stated by `EmergingPassEffect` and `EmergingPassKeys`. |
| TrendAnalyzer.AuthorInstitution | trend_analyzer.py:97-103 | Definition: the first listed fragment that the lowered byline contains, or none. `FirstMatch` states the search. |
| TrendAnalyzer.AuthorPass | trend_analyzer.py:95-103 | Definition of the author loop: one more for the institution each byline is counted for, byline by byline. Its effect is stated by `AuthorPassEffect` and `AuthorPassKeys`. |
| TrendAnalyzer.TagPass | trend_analyzer.py:106-107 | Definition of the tag loop: one more for each tag, in tag order. Its effect is stated by `TagPassEffect` and `TagPassKeys`. |
| TrendAnalyzer.PaperStep | trend_analyzer.py:80-107 | Definition of one iteration over a paper: the lowered text, then the category, emerging, author and tag loops on the five counters. |
| TrendAnalyzer.TallyOf | trend_analyzer.py:79-107 | Definition of the counters after the loop over the papers, from five empty counters. What they hold is stated by the `Tally...` lemmas, and their key order by `TallyArrivals`. |
| TrendAnalyzer.KeywordPassEffect | trend_analyzer.py:84-87 | One category's pass adds one to both the category counter and the overall counter for each keyword found, and changes no other category. The two totals grow alike, and validity is kept. |
| TrendAnalyzer.CategoryPassGlobal | trend_analyzer.py:83-87 | Over the whole table, the overall counter gains one for each table keyword the text contains, and keeps its validity. |
| TrendAnalyzer.CategoryPassCategories | trend_analyzer.py:83-87 | Each category counter gains its own keywords' hits. Categories outside the table are untouched, and no other key enters the map. |
| TrendAnalyzer.CategoryPassTotals | trend_analyzer.py:85-87 | The overall total grows exactly as much as the category totals together. |
| TrendAnalyzer.EmergingPassEffect | trend_analyzer.py:90-92 | Each emerging keyword the text contains gains exactly one, and everything else is unchanged. |
| TrendAnalyzer.AuthorPassEffect | trend_analyzer.py:95-103 | Each institution gains the number of bylines counted for it. The total grows by at most the number of authors, and validity is kept. |
| TrendAnalyzer.AuthorHitsListed | trend_analyzer.py:98-103 | Only the listed institutions are ever counted. |
| TrendAnalyzer.TagPassEffect | trend_analyzer.py:106-107 | Every tag gains its number of occurrences among the paper's tags, and the total grows by the number of tags. |
| TrendAnalyzer.TallyKeywords | trend_analyzer.py:79-87 | Over a batch, the overall count of a trend keyword is the number of papers whose text contains it, and every other string counts zero. |
| TrendAnalyzer.TallyCategoryCount | trend_analyzer.py:79-87 | Over a batch, a category's counter holds, for each of its keywords, the number of papers mentioning it, and zero for any other string. |
| TrendAnalyzer.TallyCategoryNames | trend_analyzer.py:83-87 | Only the six table categories enter `category_counts`, each with a valid and non-empty counter. |
| TrendAnalyzer.TallyMirror | trend_analyzer.py:85-87 | The overall total equals the sum of the category totals: every category increment is mirrored overall. |
| TrendAnalyzer.TallyKeywordInCategory | trend_analyzer.py:85-87 | A category keyword has the same count overall as in its category's counter. |
| TrendAnalyzer.TallyCategoryPresent | trend_analyzer.py:83-110 | A category appears in `category_trends` exactly when its total is positive. |
| TrendAnalyzer.Found | trend_analyzer.py:84-85 | The keywords a keyword loop increments are exactly the listed keywords that the text contains. |
| TrendAnalyzer.FoundAppend | trend_analyzer.py:83-85 | Scanning two lists one after the other finds what the first finds, then what the second finds. |
| TrendAnalyzer.FoundOrder | trend_analyzer.py:84-85 | Two keywords found in one text are found in the order of the keyword list. |
| TrendAnalyzer.KeywordPassKeys | trend_analyzer.py:84-87 | One category's loop adds to the overall counter's keys the new ones among the keywords found, in list order. |
| TrendAnalyzer.CategoryPassKeys | trend_analyzer.py:83-87 | The loop over the table adds to the overall counter's keys the new ones among the table keywords found, in table order. |
| TrendAnalyzer.EmergingPassKeys | trend_analyzer.py:90-92 | The emerging loop adds the new keywords found, in list order. |
| TrendAnalyzer.AuthorPassKeys | trend_analyzer.py:95-103 | The author loop adds the new institutions counted, in byline order. |
| TrendAnalyzer.TagPassKeys | trend_analyzer.py:106-107 | The tag loop adds the new tags, in tag order. |
| TrendAnalyzer.FirstMention | trend_analyzer.py:79-85 | The index is that of a paper whose lowered text contains the keyword, and no earlier paper's does. The batch size means no paper mentions it. |
| TrendAnalyzer.MentionsMembers | trend_analyzer.py:79-85 | A keyword is mentioned in the batch exactly when it is listed and some paper's text contains it. |
| TrendAnalyzer.MentionsOrder | trend_analyzer.py:79-85 | The batch's keyword hits first occur in the order of the paper first mentioning them, then of the keyword list. |
| TrendAnalyzer.PicksAppend | trend_analyzer.py:95-103 | The institutions counted over two runs of bylines are those of the first run, then those of the second. |
| TrendAnalyzer.FirstPick | trend_analyzer.py:95-103 | The index is that of a byline counted for the institution, and no earlier byline is. The number of bylines means none is. |
| TrendAnalyzer.PicksOrder | trend_analyzer.py:95-103 | An institution is counted exactly when some byline is counted for it. Counted institutions first occur in the order of the bylines first counted for them. |
| TrendAnalyzer.TallyArrivals | trend_analyzer.py:79-107 | Over a batch, the keys of the keyword, emerging, institution and tag counters are what the increments add, each key at its first increment. |
| TrendAnalyzer.KeywordOrder | trend_analyzer.py:79-87 | In the overall counter, one keyword precedes another exactly when an earlier paper mentions it, or the same paper first mentions both and it comes first in the table. `most_common` breaks ties in this order. |
| TrendAnalyzer.EmergingOrder | trend_analyzer.py:79-92 | In the emerging counter, one keyword precedes another exactly when an earlier paper mentions it, or the same paper first mentions both and it comes first in the emerging list. |
| TrendAnalyzer.InstitutionOrder | trend_analyzer.py:79-103 | In the institution counter, one institution precedes another exactly when an earlier byline of the batch is counted for it. |
| TrendAnalyzer.AreaOrder | trend_analyzer.py:79-107 | In the tag counter, one tag precedes another exactly when it occurs earlier among the batch's tags. |
| TrendAnalyzer.TallyEmerging | trend_analyzer.py:79-92 | Over a batch, an emerging keyword's count is the number of papers mentioning it, and every other string counts zero. |
| TrendAnalyzer.TallyInstitutions | trend_analyzer.py:79-103 | Over a batch, an institution's count is the number of bylines counted for it, and only listed institutions count. The total is at most the number of author bylines. |
| TrendAnalyzer.TallyAreas | trend_analyzer.py:79-107 | Over a batch, each tag's count is its number of occurrences among all tags, and the total equals the number of tags. |
| TrendAnalyzer.PresenceBounded | trend_analyzer.py:79-85 | A keyword's presence count is at most the number of papers: a test of presence, not of occurrence. |
| TrendAnalyzer.CountsBounded | trend_analyzer.py:79-92 | The overall, per-category and emerging counts of any keyword are each at most the number of papers. |
| TrendAnalyzer.TopKeywordsRanked | trend_analyzer.py:111 | `top_keywords` is a top-10 ranking of the overall counter: sorted by count with stable ties, nothing left out that outranks a kept entry. Each entry is a trend keyword with its paper count, at least 1. |
| TrendAnalyzer.EmergingTechRanked | trend_analyzer.py:112 | `emerging_tech` is a top-5 ranking of emerging keywords with their paper counts. |
| TrendAnalyzer.ActiveInstitutionsRanked | trend_analyzer.py:113 | `active_institutions` is a top-5 ranking of listed institutions with their byline counts. |
| TrendAnalyzer.ResearchAreasRanked | trend_analyzer.py:114 | `research_areas` is a top-8 ranking of tags with their occurrence counts. |
| Counters.Inc | trend_analyzer.py:86-87 | `c[k] += 1` adds one to `k` only. The total grows by one. A new key goes last, and validity is kept. |
| Counters.Count | trend_analyzer.py:86-87 | Definition of `c[k]`: the count of the entry with key `k`, or 0 for a missing key. `ValidCount` states it for the counters the core builds. |
| Counters.Total | trend_analyzer.py:150 | Definition of `sum(c.values())`. `TotalOfEmpty` and the `Tally...` lemmas state its values. |
| Counters.MostCommon | trend_analyzer.py:111-114 | `most_common(n)` returns `min(n, len(c))` entries. |
| Counters.KeysLength | trend_analyzer.py:86 | The keys are the entries' keys, in insertion order. |
| Counters.ValidCount | trend_analyzer.py:86 | In a counter the core builds, a key is present exactly when its count is positive, and each entry's count is `c[key]`. |
| Counters.TotalOfEmpty | trend_analyzer.py:150 | A total is zero exactly when every count is. |
| Counters.MostCommonSorted | trend_analyzer.py:111-114 | `most_common` is in descending order of count. |
| Counters.MostCommonTop | trend_analyzer.py:111-114 | `most_common` returns entries of the counter, none twice, and leaves out none that outranks a kept entry. |
| Counters.MostCommonStable | trend_analyzer.py:111-114 | Among entries with equal counts, the kept ones are the first inserted, in insertion order. |
| Counters.MostCommonOne | trend_analyzer.py:149 | `most_common(1)` of a non-empty counter is its leftmost entry with the largest count. |
| Counters.MostCommonRanks | trend_analyzer.py:111-114 | `most_common(n)` meets every condition of a top-n ranking together. |
| Counters.MostCommonItems | trend_analyzer.py:111-114 | Ranked entries of a valid counter carry their counter's count, at least 1. |
| Counters.FirstAt | trend_analyzer.py:86-87 | The position returned holds the key, and no earlier position does. The length means the key is absent. |
| Counters.FirstAtInside | trend_analyzer.py:86-87 | A key occurs exactly when its first position is inside the sequence. |
| Counters.FirstAtAppend | trend_analyzer.py:86-87 | In a concatenation, a key's first position is in the first part when it occurs there, otherwise past the first part. |
| Counters.ArrivalsSnoc | trend_analyzer.py:86-87 | One more increment appends its key exactly when the key is new. |
| Counters.ArrivalsAppend | trend_analyzer.py:86-87 | Two runs of increments add the keys that the combined run adds. |
| Counters.ArrivalsOrder | trend_analyzer.py:86-87 | After a run of increments, the keys are those known or incremented. They stand in the order of their first occurrence among the known keys followed by the increments. |
| Ranking.Take | openai_client.py:102 | `s[:n]` has `min(n, len(s))` elements and is a prefix of `s`. |
| Ranking.Insert | arxiv_client.py:109 | One step of the sort, one element longer. `InsertMultiset`, `InsertSorted` and `InsertWithKey` state what it keeps. |
| Ranking.SortDesc | arxiv_client.py:109 | `sort(key=..., reverse=True)`, which keeps the length. `SortDescPermutation`, `SortDescSorted` and `SortDescStable` state that it is a stable descending permutation. |
| Ranking.AtLeast | arxiv_client.py:104-106 | The threshold test, never longer than its input. `AtLeastMembers` states exactly what it keeps. |
| Ranking.SortDescPermutation | arxiv_client.py:109 | The sort rearranges its input: same multiset. |
| Ranking.SortDescSorted | arxiv_client.py:109 | The sort's result is in descending order of the key. |
| Ranking.SortDescStable | arxiv_client.py:109 | Elements with equal keys keep their input order. |
| Ranking.SortDescHead | trend_analyzer.py:149 | The first element of the sort is the leftmost element with the largest key. |
| Ranking.FirstMaxIndexIsLeftmostMax | trend_analyzer.py:149 | The linear-scan reference index names an element with the largest key, and every earlier element is smaller. |
| Ranking.InsertMultiset | arxiv_client.py:109 | Insertion adds exactly the inserted element. |
| Ranking.InsertSorted | arxiv_client.py:109 | Insertion keeps a descending sequence descending. |
| Ranking.InsertWithKey | arxiv_client.py:109 | Insertion puts the element in front of all others with its key. |
| Ranking.AtLeastSortDesc | arxiv_client.py:104-109 | Filtering a ranking by a threshold equals ranking the filtered input. |
| Ranking.AtLeastOfSortedIsPrefix | arxiv_client.py:104-109 | In a descending sequence, the elements meeting a threshold form a prefix. |
| Ranking.AtLeastNone | arxiv_client.py:104 | When nothing meets the threshold, the filter is empty. |
| Ranking.AtLeastTwice | arxiv_client.py:104 | Filtering at a lower and then a higher threshold equals filtering at the higher one. |
| Ranking.ThresholdMonotone | arxiv_client.py:104-109 | Raising the threshold keeps a prefix of the ranked result. |
| Ranking.AtLeastMembers | arxiv_client.py:104-106 | The filter keeps every element meeting the threshold as often as it occurs, and nothing else. |
| Ranking.AtLeastSnoc | arxiv_client.py:100-106 | Filtering one more element appends it exactly when it meets the threshold. |
| Ranking.WithKeyAtLeast | arxiv_client.py:104-109 | Filtering keeps all elements of a key that passes, and none of a key that fails. |
| Ranking.WithKeyTake | trend_analyzer.py:111-114 | Taking a prefix keeps, for every key, a prefix of the elements with that key. |
| Ranking.SortedPrefixDominates | trend_analyzer.py:111-114 | Cutting a descending sequence keeps elements no smaller than any element cut. |
| TrendSummary.GenerateTrendSummary | trend_analyzer.py:118-182 | The appended parts, joined by newlines, are the summary the sections specify. |
| TrendSummary.SummaryParts | trend_analyzer.py:122-182 | Definition of `summary_parts`: the header, the keyword section, the category heading and lines, then the emerging, institution and area sections. The `...Shape` lemmas state each section. |
| TrendSummary.HeaderLine | trend_analyzer.py:125 | Definition of the header line with the paper count. `SummaryOpensWithHeader` states where it goes. |
| TrendSummary.TopSection | trend_analyzer.py:129-132 | Definition of the keyword section. `TopSectionShape` states it. |
| TrendSummary.Leader | trend_analyzer.py:149 | Definition of `most_common(1)[0][0]`. `LeaderIsFirstMax` states which keyword it is. |
| TrendSummary.CategoryLine | trend_analyzer.py:151 | Definition of one category line: display name, title-cased leader and total. `CategoryLinesMeaning` states when it is shown. |
| TrendSummary.BulletSection | trend_analyzer.py:156-167 | Definition of the emerging and institution sections. `BulletSectionShape` states them. |
| TrendSummary.AreaSection | trend_analyzer.py:170-180 | Definition of the area section. `AreaSectionShape` states it. |
| TrendSummary.AppendTop | trend_analyzer.py:129-132 | Appends the keyword section. |
| TrendSummary.AppendTopLines | trend_analyzer.py:131-132 | Appends one ranked line per listed keyword. |
| TrendSummary.AppendCategories | trend_analyzer.py:146-151 | Appends the line of each displayed category with a non-empty counter, in display order. |
| TrendSummary.AppendBullets | trend_analyzer.py:156-167 | Appends the heading, one bullet per entry and a blank line, when there are entries. |
| TrendSummary.AppendTitledBullets | trend_analyzer.py:158-166 | Appends one title-cased bullet per entry. |
| TrendSummary.AppendAreas | trend_analyzer.py:170-180 | Appends the research-area section. |
| TrendSummary.AppendAreaLines | trend_analyzer.py:178-180 | Appends one bullet per area under its display name. |
| TrendSummary.SummaryOpensWithHeader | trend_analyzer.py:125 | The report opens with the header line and its paper count. |
| TrendSummary.SummaryOfEmptyBatch | trend_analyzer.py:122-182 | The parts for an empty batch are the header, blank lines and the category heading only. |
| TrendSummary.TopLinesShape | trend_analyzer.py:131-132 | Line `i` shows rank `i + 1` with the `i`-th keyword and its count. |
| TrendSummary.TopSectionShape | trend_analyzer.py:129-132 | The keyword section is absent exactly for an empty list. Otherwise it is the heading and the first five keywords, ranked 1 to 5. |
| TrendSummary.TitledBulletsShape | trend_analyzer.py:158-159 | Bullet `i` shows the title-cased `i`-th key and its count. |
| TrendSummary.BulletSectionShape | trend_analyzer.py:156-167 | The emerging and institution sections are absent exactly for an empty list. Otherwise each is the heading, every entry in order and a blank line. |
| TrendSummary.AreaLinesShape | trend_analyzer.py:178-180 | Each area bullet shows the display name, or the raw tag when it has none, and the count. |
| TrendSummary.AreaSectionShape | trend_analyzer.py:170-180 | The area section is absent exactly for an empty list. Otherwise it is the heading and the first five areas. |
| TrendSummary.CategoryLinesMeaning | trend_analyzer.py:147-151 | A line is shown exactly for a displayed category with a non-empty counter. It names that category, its `most_common(1)` keyword and its total. |
| TrendSummary.LeaderIsFirstMax | trend_analyzer.py:149 | A category's leading keyword is its leftmost keyword with the largest count. |
| TrendSummary.CategoryNamesCoverTable | trend_analyzer.py:137-144 | The display-name table lists the six trend categories in table order. |
| TrendSummary.CategoriesNamed | trend_analyzer.py:137-151 | Every category of `category_trends` has a display name, so none goes unreported. |
| TrendSummary.CategoriesShown | trend_analyzer.py:146-151 | Over a batch's trends, a displayed category gets a line exactly when its total is positive. |
| TrendChanges.HistoricalCount | trend_analyzer.py:199-203 | A positive result is the count of an entry with the keyword. With no such entry the result is 0. |
| TrendChanges.HistoricalIndex | trend_analyzer.py:200-203 | The index is the first entry with the keyword, or the end. |
| TrendChanges.HistoricalCountAt | trend_analyzer.py:199-203 | The search stops at the first entry with the keyword. |
| TrendChanges.ChangeFor | trend_analyzer.py:205-210 | Definition of the three-way comparison. `ChangeForMeaning` states each case. |
| TrendChanges.ChangeLines | trend_analyzer.py:196-210 | Definition of the change list over the current leaders. `ChangeLinesShape` states it. |
| TrendChanges.ChangesOf | trend_analyzer.py:189-215 | Definition of the report: too little history, no changes, or the change list. `InsufficientExactly`, `NoChangesExactly` and `ChangesBounded` state the cases. |
| TrendChanges.ChangeText | trend_analyzer.py:205-210 | Definition of one change line with its emoji, the title-cased keyword and the difference. |
| TrendChanges.ReportText | trend_analyzer.py:189-215 | Definition of the returned message for each report. `ReportTextsDistinct` states that the three kinds are told apart. |
| TrendChanges.DetectTrendChanges | trend_analyzer.py:184-215 | Returns the message of the change report. The history defaults to `None`, as in the source. |
| TrendChanges.CompareTop | trend_analyzer.py:196-210 | The loop with its inner search and `break` collects the change lines of the current leaders. |
| TrendChanges.ChangeTexts | trend_analyzer.py:205-213 | One text per change line, in order. |
| TrendChanges.InsufficientExactly | trend_analyzer.py:189-190 | The report is "insufficient data" exactly when the history is `None` or empty. |
| TrendChanges.ChangeForMeaning | trend_analyzer.py:205-210 | A keyword is new exactly when its historical count is 0. There is no line exactly when the counts are equal. Otherwise the line is up by `count - historical` or down by `historical - count`. |
| TrendChanges.ChangeLinesShape | trend_analyzer.py:196-210 | At most one line per leader, each naming a leader. There are no lines exactly when every leader's comparison gives none. |
| TrendChanges.HistoricalCountRanked | trend_analyzer.py:193-203 | In a ranking of a valid counter, a keyword is found exactly when it is ranked, and then with its count. |
| TrendChanges.CurrentCount | trend_analyzer.py:192-197 | A current leader's count is the number of current papers mentioning it, at least 1. |
| TrendChanges.HistoryLookup | trend_analyzer.py:193-203 | The looked-up count is positive exactly when the keyword is in the historical top ten, and then it is its historical paper count. |
| TrendChanges.ChangeAgainstHistory | trend_analyzer.py:192-210 | A current leader is reported new exactly when the historical top ten does not list it. Otherwise it is compared with its historical paper count. |
| TrendChanges.ChangesBounded | trend_analyzer.py:197-213 | A change list has from one to five lines, each about a keyword of the current top five. |
| TrendChanges.NoChangesExactly | trend_analyzer.py:205-215 | "No major changes" is reported exactly when every current leader kept its count. |
| TrendChanges.ReportTextsDistinct | trend_analyzer.py:189-215 | Only a change list opens with the change heading, and the two fixed messages differ. |
| Papers.Paper.constructor | arxiv_client.py:100-105 | A new paper holds its given fields and no importance score yet. |
| Papers.SearchText | arxiv_client.py:101 | The searched text is as long as the title, a space and the abstract together. |
| Papers.SearchTextParts | arxiv_client.py:101 | The searched text is the lowered title, a space and the lowered abstract. |
| ArxivClient.KeywordHits | arxiv_client.py:102 | The hit count is at most the number of keywords. |
| ArxivClient.ImportanceScore | arxiv_client.py:101-102 | A score is at most the number of importance keywords. |
| ArxivClient.ScoreKey | arxiv_client.py:105-109 | Definition of the sort key `x["importance_score"]`: the score written at line 105. |
| ArxivClient.ImportantPapers | arxiv_client.py:100-109 | Definition of the result: the papers meeting the threshold, sorted by score. `ImportantPapersMembers`, `ImportantPapersOrder` and `ImportantPapersMonotone` state its properties. |
| ArxivClient.FilterImportantPapers | arxiv_client.py:78-111 | Returns the qualifying papers ranked, and writes the score into each qualifying paper. A rejected paper's score is left as it was. The threshold defaults to 2, as in the source. |
| ArxivClient.ImportanceKeywordsDistinct | arxiv_client.py:89-96 | The importance list has no repeated keyword. |
| ArxivClient.KeywordHitsIsDistinctCount | arxiv_client.py:102 | For a list without repeats, the hit count is the number of distinct keywords present. |
| ArxivClient.ImportanceScoreMeaning | arxiv_client.py:89-102 | The score is the number of distinct importance keywords in the text, at most 23. A phrase repeated in the text counts once. |
| ArxivClient.ImportantPapersMembers | arxiv_client.py:100-106 | Every returned paper meets the threshold. Every paper meeting it is returned as often as it occurs in the input: none dropped, none duplicated. |
| ArxivClient.ImportantPapersOrder | arxiv_client.py:109 | The result is sorted by score, highest first. Papers with equal scores keep their input order. |
| ArxivClient.ImportantPapersMonotone | arxiv_client.py:104-109 | A higher threshold yields a prefix, hence a subset, of the result at a lower one. |
| SlackClient.MakePayload | slack_client.py:26-32 | The payload carries the text with Markdown on. It holds a channel exactly when a non-empty one is given, and then that channel. |
| SlackClient.PackStep | slack_client.py:74-83 | Definition of one iteration. When the open chunk, the summary and 2 stay under 3500, the summary joins the open chunk after a blank line. Otherwise a non-empty open chunk is closed and the summary opens the next. |
| SlackClient.PackState | slack_client.py:70-83 | Definition of the open chunk and the closed chunks after the loop. |
| SlackClient.Chunks | slack_client.py:70-87 | Definition of `chunks` after the last chunk is closed. `ChunksAreRuns`, `ChunksWithinBudget`, `ChunksNonEmpty` and `ChunksKeepText` state its properties. |
| SlackClient.ChunkHeader | slack_client.py:94 | Definition of the heading "(i+1/n)". `ChunkHeadersDistinct` states that different chunk numbers give different headings. |
| SlackClient.ChunkText | slack_client.py:91-96 | Definition of the posted text of one chunk. `ChunkTextsNumbered` states it. |
| SlackClient.PackChunks | slack_client.py:70-87 | The packing loop produces the chunks the packing steps specify. |
| SlackClient.ChunkTexts | slack_client.py:91-96 | One posted text per chunk, in order. |
| SlackClient.Payloads | slack_client.py:98 | One channel-less payload per text, in order. |
| SlackClient.SlackClient.constructor | slack_client.py:8-9 | The webhook is the given URL when it is non-empty, otherwise the environment value. Nothing has been sent yet. |
| SlackClient.SlackClient.SendMessage | slack_client.py:11-51 | Without a webhook it returns False and sends nothing. Otherwise it sends exactly one payload, and the result is whether status 200 came back. The channel defaults to `None`, as in the source. |
| SlackClient.SlackClient.SendPaperSummaries | slack_client.py:53-102 | Empty input returns False and sends nothing. Otherwise every chunk text is posted in order, and the result is True exactly when every post succeeded. |
| SlackClient.SlackClient.PostChunks | slack_client.py:90-102 | Posts every chunk, even after a failure, and ANDs the post results. |
| SlackClient.SlackClient.OutcomeMeaning | slack_client.py:90-102 | The accumulated flag is True exactly when every post was accepted. |
| SlackClient.PackKeepsText | slack_client.py:73-87 | When no summary is empty, the closed chunks and the open one, joined by blank lines, give back the summaries joined by blank lines. |
| SlackClient.ChunksKeepText | slack_client.py:73-87 | When no summary is empty, the chunks joined by blank lines equal the summaries joined by blank lines. |
| SlackClient.PackNoEmpty | slack_client.py:76-83 | The packing loop never closes an empty chunk. |
| SlackClient.ChunksNonEmpty | slack_client.py:81-87 | No chunk is empty, and there are no more chunks than summaries. |
| SlackClient.PackWithinBudget | slack_client.py:75-83 | Every chunk of the loop, open or closed, is under 3500 characters unless it equals a summary. When no summary is empty, a chunk of 3500 or more characters holds exactly one summary: its run is that chunk alone. |
| SlackClient.ChunksWithinBudget | slack_client.py:68-87 | A chunk of 3500 characters or more equals a summary. When no summary is empty, that chunk's run is exactly that one summary, at its place in the sequence. |
| SlackClient.PackRuns | slack_client.py:73-83 | Definition of the summaries behind the open chunk and behind each closed chunk, step by step with the loop. |
| SlackClient.Runs | slack_client.py:70-87 | Definition of the run of summaries behind each chunk. |
| SlackClient.ConcatSnoc | slack_client.py:81-82 | Closing one more run appends its summaries. |
| SlackClient.PackRunsShape | slack_client.py:73-83 | When no summary is empty: each closed chunk is its run joined by blank lines, and is under 3500 characters when the run has two or more summaries. The open chunk is the same for its run. The runs laid end to end, then the open run, are the summaries. |
| SlackClient.ChunksAreRuns | slack_client.py:70-87 | When no summary is empty, the chunks come from consecutive runs. Laid end to end, the runs give back the summaries. Each chunk is its run, non-empty, joined by blank lines, and a chunk of two or more summaries is under 3500 characters. |
| SlackClient.ChunkTextsNumbered | slack_client.py:91-96 | A single chunk is posted verbatim. With several chunks, each opens with its heading "(i+1/n)" and ends with its chunk. |
| SlackClient.ChunkHeadersDistinct | slack_client.py:92-94 | Two different chunk numbers give different headings, so the posted chunks of one message are told apart by their number. |
| OpenAIClient.AuthorsText | openai_client.py:72-74 | The first three authors joined by ", ", with "他" appended exactly when there are more than three. |
| OpenAIClient.Excerpt | openai_client.py:82 | The abstract itself when it has at most 500 characters. Otherwise its first 500 characters followed by "...". At most 503 characters either way. |
| OpenAIClient.FallbackSummary | openai_client.py:68-87 | Definition of `_create_fallback_summary`. `FallbackIsInterleaved`, `FallbackReadsBack`, `FallbackOpensWithTitle` and `FallbackEndsWithNote` state its shape. |
| OpenAIClient.FallbackIsInterleaved | openai_client.py:76-87 | The fallback is its captions interleaved with the paper's five fields. |
| OpenAIClient.InterleaveReadsBack | openai_client.py:76-87 | Each field reads back from its own position in the interleaved text. |
| OpenAIClient.FallbackReadsBack | openai_client.py:76-87 | The title, author text, categories, excerpt and link each read back from their place in the fallback. |
| OpenAIClient.FallbackOpensWithTitle | openai_client.py:76 | The fallback opens with the paper's title in bold. |
| OpenAIClient.FallbackEndsWithNote | openai_client.py:86-87 | The fallback ends with the note that the abstract is shown instead. |
| OpenAIClient.AuthorsTextOpensWithFirst | openai_client.py:72 | The author text opens with the first author. |
| OpenAIClient.ExcerptIsPrefix | openai_client.py:82 | The excerpt opens with the start of the abstract, unchanged. |
| OpenAIClient.FailureStillSummarizes | openai_client.py:64-66 | A failed call is not passed on. The caller gets the fallback, opening with the title and ending with the note. |
| OpenAIClient.SummarizePaper | openai_client.py:12-66 | Definition of one summary from the call's outcome: the stripped reply, or the fallback when the call raises. `ReplyIsStripped` and `FailureStillSummarizes` state the two cases. |
| OpenAIClient.ReplyIsStripped | openai_client.py:62 | A reply is passed on minus its leading and trailing white space only. The result is the reply's middle, bounded on both sides by white space only, and it neither starts nor ends with white space. |
| OpenAIClient.BatchSize | openai_client.py:102-103 | `len(papers[:max_papers])`: `min(n, max_papers)` for a non-negative bound, and Python's negative-slice count otherwise. |
| OpenAIClient.OpenAIClient.constructor | openai_client.py:7-10 | The key is the given key when it is non-empty, otherwise the environment value. |
| OpenAIClient.OpenAIClient.SummarizeMultiplePapers | openai_client.py:89-107 | Returns exactly as many summaries as `papers[:max_papers]` has, the summaries of that slice in order. `max_papers` defaults to 5, as in the source. |
| OpenAIClient.Summaries | openai_client.py:102-105 | One summary per paper of the batch. |
| OpenAIClient.SummaryOfPaper | openai_client.py:102-105 | The `i`-th summary is `summarize_paper` of the `i`-th paper with the `i`-th call's outcome. |
| OpenAIClient.CreateDailySummary | openai_client.py:109-131 | The message length is the header, the joined summaries, a newline and the footer. |
| OpenAIClient.Header | openai_client.py:117-123 | Definition of the dated title line, greeting and rule. `DailySummaryDated` states where the date goes. |
| OpenAIClient.DailySummaryReadsBack | openai_client.py:117-131 | The message splits back into the dated header, the summaries joined by blank lines, and a newline with the footer. |
| OpenAIClient.DailySummaryOfOne | openai_client.py:131 | A single summary is exactly the message body. |
| OpenAIClient.DailySummaryDated | openai_client.py:115-117 | The date stands right after the fixed opening of the title line. |
| Strings.Lower | trend_analyzer.py:80 | Lowering keeps the length and lowers each character on its own. |
| Strings.Title | trend_analyzer.py:132 | `title()` keeps the length and raises the first letter of each run of letters, lowering the rest. |
| Strings.TitleThenLower | trend_analyzer.py:132 | Title-casing only changes case: lowered again, it gives the lowered original. |
| Strings.ContainsIffOccurs | trend_analyzer.py:85 | The substring test holds exactly when the needle occurs at some offset. |
| Strings.Contains | trend_analyzer.py:85 | Definition of `needle in hay`. `ContainsIffOccurs` states its meaning. |
| Strings.Join | trend_analyzer.py:182 | Definition of `sep.join(parts)`. `JoinSnoc` and `JoinHead` state how it grows and how it opens. |
| Strings.JoinSnoc | trend_analyzer.py:182 | Joining one more part appends the separator and that part. |
| Strings.NoDuplicatesConcat | trend_analyzer.py:10-48 | Two repeat-free, disjoint lists concatenate to a repeat-free list. |
| Strings.JoinHead | trend_analyzer.py:182 | The first part opens the joined text. |
| Strings.StripRemovesOnlySpace | openai_client.py:62 | `strip()` removes leading and trailing white space only. |
| Strings.Strip | openai_client.py:62 | Definition of `strip()`. `StripRemovesOnlySpace` states its meaning. |
| Strings.NatToString | slack_client.py:94 | `str(n)` is a non-empty run of decimal digits without a leading zero. |
| Strings.NatToStringValue | slack_client.py:94 | The digits read back as the number. |

## Left out

- **HTTP and JSON.** The HTTP post, JSON encoding, timeouts and exception handling in `send_message` are replaced by the `deliver` oracle.
- **Logging.** Every `print` in the core, including the progress line of `summarize_multiple_papers`, is left out; none affects a result.
- **The language-model call.** The prompt text and the chat call in `summarize_paper` are replaced by the `api` oracle. Any exception is its `None`; `SummarizePaper` is the function both outcomes go through.
- **`fetch_recent_ai_papers`.** It is network access and Atom parsing, so it is not part of this model.
- **`send_error_notification` and `send_test_message`.** They only call `send_message` with fixed text and the current time.
- **`main.py`.** Its orchestration, environment loading and exit codes are not part of this model.
- **Environment and clock.** The environment variables and `datetime.now()` become parameters: the `environment` values of the constructors and the `today` text of `CreateDailySummary`.
- **The API client object.** `OpenAIClient.OpenAIClient.constructor` records the chosen key. It does not construct the client.
- **Unused parameter.** The `days_back` parameter of `extract_trends` has no effect.
- **`dict(category_counts)` key order.** `category_trends` is a map. Its key order is unobserved, because the report walks the fixed display-name table.
- **Unused paper fields.** `id`, `published`, `updated` and `pdf_link` are not modelled; the core does not read them.
- **Missing keys.** `paper.get("authors", [])` and `paper.get("categories", [])` are modelled as present. Each paper always has these fields.
- **Strings.Lower:** lowers ASCII capitals only. Python's `str.lower` also folds non-ASCII letters.
- **Strings.Title:** treats ASCII letters only as letters. Python's `str.title` is Unicode-aware.

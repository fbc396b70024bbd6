/**
 * `TrendAnalyzer.detect_trend_changes`: compares the five leading keywords of
 * the current batch with the ten leading keywords of a historical batch and
 * reports, per keyword, whether it is new, rose or fell.
 *
 * The report is modelled first by its content (which case was hit and, for
 * the change list, one `Change` per reported keyword), then by its text:
 * `ChangeText` renders each line with its emoji and the `str.title()` of the
 * keyword, and `ReportText` joins the lines.
 */
module TrendChanges {
  import opened Strings
  import opened Wrappers
  import opened Ranking
  import opened Counters
  import opened Papers
  import opened TrendAnalyzer

  /** One line of the change list (trend_analyzer.py:205-210). */
  datatype Change =
    | New(keyword: string)
    | Up(keyword: string, delta: nat)
    | Down(keyword: string, delta: nat)

  /** The three messages `detect_trend_changes` can return. */
  datatype ChangeReport =
    | InsufficientData
    | NoChanges
    | Changes(lines: seq<Change>)

  /** The search at lines 199-203: the count of the first entry with key `k`, or 0. */
  function HistoricalCount(hist: seq<Entry>, k: string): (r: nat)
    ensures r > 0 ==> exists i :: 0 <= i < |hist| && hist[i].key == k && hist[i].count == r
    ensures (forall i :: 0 <= i < |hist| ==> hist[i].key != k) ==> r == 0
  {
    if hist == [] then 0
    else if hist[0].key == k then hist[0].count
    else
      var r := HistoricalCount(hist[1..], k);
      assert r > 0 ==> hist[1..][HistoricalIndex(hist[1..], k)] == hist[HistoricalIndex(hist[1..], k) + 1];
      r
  }

  /** The position of the first entry with key `k`, or `|hist|`. */
  function HistoricalIndex(hist: seq<Entry>, k: string): (i: nat)
    ensures i <= |hist|
    ensures i < |hist| ==> hist[i].key == k
    ensures forall j :: 0 <= j < i ==> hist[j].key != k
  {
    if hist == [] || hist[0].key == k then 0 else 1 + HistoricalIndex(hist[1..], k)
  }

  /** Lines 205-210: the line for a keyword seen `count` times now and `historical` times before, if any. */
  function ChangeFor(keyword: string, count: nat, historical: nat): Option<Change>
  {
    if historical == 0 then Some(New(keyword))
    else if count > historical then Some(Up(keyword, count - historical))
    else if count < historical then Some(Down(keyword, historical - count))
    else None
  }

  /** The lines the loop at line 197 collects for the first entries of `top`. */
  function ChangeLines(top: seq<Entry>, hist: seq<Entry>): seq<Change>
  {
    if top == [] then []
    else
      var prev := ChangeLines(top[..|top| - 1], hist);
      var e := top[|top| - 1];
      match ChangeFor(e.key, e.count, HistoricalCount(hist, e.key))
      case Some(line) => prev + [line]
      case None => prev
  }

  /** What `detect_trend_changes(current, historical)` returns. */
  function ChangesOf(current: seq<Paper>, historical: Option<seq<Paper>>): ChangeReport
  {
    if historical.None? || historical.value == [] then InsufficientData
    else
      var lines := ChangeLines(Take(TrendsOf(current).topKeywords, 5), TrendsOf(historical.value).topKeywords);
      if lines == [] then NoChanges else Changes(lines)
  }

  const ChangesHeading: string := "📅 **トレンド変化:**\n"

  /** The text of one change line (lines 206, 208 and 210). */
  function ChangeText(c: Change): string
  {
    match c
    case New(k) => "  🆕 **" + Title(k) + "** (新登場)"
    case Up(k, d) => "  📈 **" + Title(k) + "** (+" + NatToString(d) + "件)"
    case Down(k, d) => "  📉 **" + Title(k) + "** (-" + NatToString(d) + "件)"
  }

  function ChangeTexts(lines: seq<Change>): (r: seq<string>)
    ensures |r| == |lines|
    ensures forall i :: 0 <= i < |lines| ==> r[i] == ChangeText(lines[i])
  {
    seq(|lines|, i requires 0 <= i < |lines| => ChangeText(lines[i]))
  }

  /** The message returned for a report (lines 190, 213 and 215). */
  function ReportText(r: ChangeReport): string
  {
    match r
    case InsufficientData => "📅 **トレンド変化**: データ不足のため比較分析は次回から利用可能です"
    case NoChanges => "📅 **トレンド変化**: 大きな変動は見られません"
    case Changes(lines) => ChangesHeading + Join(ChangeTexts(lines), "\n")
  }

  /** `detect_trend_changes(current, historical)` (lines 184-215). */
  method DetectTrendChanges(current: seq<Paper>, historical: Option<seq<Paper>> := None) returns (text: string)
    ensures text == ReportText(ChangesOf(current, historical))
  {
    if historical.None? || historical.value == [] {
      return ReportText(InsufficientData);
    }
    var currentTrends := ExtractTrends(current);
    var historicalTrends := ExtractTrends(historical.value);
    var changes := CompareTop(Take(currentTrends.topKeywords, 5), historicalTrends.topKeywords);
    if changes != [] {
      text := ReportText(Changes(changes));
    } else {
      text := ReportText(NoChanges);
    }
  }

  /** The loop at lines 196-210 over the current leaders `top`, looking each up in `hist`. */
  method CompareTop(top: seq<Entry>, hist: seq<Entry>) returns (changes: seq<Change>)
    ensures changes == ChangeLines(top, hist)
  {
    changes := [];
    var i := 0;
    while i < |top|
      invariant 0 <= i <= |top|
      invariant changes == ChangeLines(top[..i], hist)
    {
      var keyword, count := top[i].key, top[i].count;
      var historicalCount := 0;
      var j := 0;
      while j < |hist|
        invariant 0 <= j <= |hist|
        invariant historicalCount == 0
        invariant forall m :: 0 <= m < j ==> hist[m].key != keyword
      {
        if hist[j].key == keyword {
          historicalCount := hist[j].count;
          break;
        }
        j := j + 1;
      }
      HistoricalCountAt(hist, keyword, j);
      if historicalCount == 0 {
        changes := changes + [New(keyword)];
      } else if count > historicalCount {
        changes := changes + [Up(keyword, count - historicalCount)];
      } else if count < historicalCount {
        changes := changes + [Down(keyword, historicalCount - count)];
      }
      assert top[..i + 1][..i] == top[..i];
      i := i + 1;
    }
    assert top[..i] == top;
  }

  /** The search stops at the first entry with the key; past the end, the count is 0. */
  lemma {:induction false} HistoricalCountAt(hist: seq<Entry>, k: string, j: nat)
    requires j <= |hist|
    requires forall m :: 0 <= m < j ==> hist[m].key != k
    requires j < |hist| ==> hist[j].key == k
    ensures HistoricalCount(hist, k) == if j < |hist| then hist[j].count else 0
  {
    if j > 0 {
      HistoricalCountAt(hist[1..], k, j - 1);
    }
  }

  // ----- what the report means -----

  /** The report is "insufficient data" exactly when there are no historical papers. */
  lemma InsufficientExactly(current: seq<Paper>, historical: Option<seq<Paper>>)
    ensures ChangesOf(current, historical) == InsufficientData <==> historical.None? || historical.value == []
  {
  }

  /** The line for one keyword: new when the historical count is 0, otherwise the signed difference, and none when equal. */
  lemma ChangeForMeaning(keyword: string, count: nat, historical: nat)
    requires count >= 1
    ensures ChangeFor(keyword, count, historical) == Some(New(keyword)) <==> historical == 0
    ensures ChangeFor(keyword, count, historical).None? <==> historical == count
    ensures ChangeFor(keyword, count, historical).Some? && ChangeFor(keyword, count, historical).value.Up?
            <==> 0 < historical < count
    ensures ChangeFor(keyword, count, historical).Some? && ChangeFor(keyword, count, historical).value.Down?
            <==> historical > count
    ensures ChangeFor(keyword, count, historical).Some? ==> ChangeFor(keyword, count, historical).value.keyword == keyword
    ensures 0 < historical < count ==> ChangeFor(keyword, count, historical) == Some(Up(keyword, count - historical))
    ensures historical > count ==> ChangeFor(keyword, count, historical) == Some(Down(keyword, historical - count))
  {
  }

  /**
   * The lines follow the entries of `top` in order: at most one line per
   * entry, naming that entry's keyword, and no line exactly for the entries
   * whose counts are unchanged.
   */
  lemma {:induction false} ChangeLinesShape(top: seq<Entry>, hist: seq<Entry>)
    ensures |ChangeLines(top, hist)| <= |top|
    ensures forall c :: c in ChangeLines(top, hist) ==> exists e :: e in top && e.key == c.keyword
    ensures ChangeLines(top, hist) == [] <==>
            forall i :: 0 <= i < |top| ==> ChangeFor(top[i].key, top[i].count, HistoricalCount(hist, top[i].key)).None?
  {
    if top != [] {
      var init := top[..|top| - 1];
      ChangeLinesShape(init, hist);
      assert forall i :: 0 <= i < |init| ==> init[i] == top[i];
      forall c | c in ChangeLines(top, hist) ensures exists e :: e in top && e.key == c.keyword {
        if c !in ChangeLines(init, hist) {
          assert top[|top| - 1] in top;
        } else {
          var e :| e in init && e.key == c.keyword;
          assert e in top;
        }
      }
    }
  }

  /** In a valid counter's ranking, an entry's keyword is found exactly when it is ranked, with its count. */
  lemma HistoricalCountRanked(c: Counter, n: nat, k: string)
    requires Valid(c)
    ensures var hist := MostCommon(c, n);
            && (HistoricalCount(hist, k) > 0 <==> exists e :: e in hist && e.key == k)
            && (HistoricalCount(hist, k) > 0 ==> HistoricalCount(hist, k) == Count(c, k))
  {
    var hist := MostCommon(c, n);
    MostCommonItems(c, n);
    if exists e :: e in hist && e.key == k {
      var e :| e in hist && e.key == k;
      var m :| 0 <= m < |hist| && hist[m] == e;
      var i := HistoricalIndex(hist, k);
      assert i <= m;
      HistoricalCountAt(hist, k, i);
      assert hist[i] in hist;
    }
  }

  /** A keyword of the current top five is counted once per current paper that mentions it. */
  lemma CurrentCount(current: seq<Paper>, e: Entry)
    requires e in Take(TrendsOf(current).topKeywords, 5)
    ensures e.count == Presence(current, e.key) && e.count >= 1
  {
    assert e in TrendsOf(current).topKeywords;
    TopKeywordsRanked(current);
  }

  /**
   * The historical count looked up for keyword `k` is the number of
   * historical papers mentioning it when it is among the historical top ten,
   * and 0 exactly when it is not among them.
   */
  lemma HistoryLookup(historical: seq<Paper>, k: string)
    ensures var hist := TrendsOf(historical).topKeywords;
            var h := HistoricalCount(hist, k);
            && (h > 0 <==> exists d :: d in hist && d.key == k)
            && (h > 0 ==> h == Presence(historical, k))
  {
    TallyKeywords(historical);
    HistoricalCountRanked(TallyOf(historical).keywords, 10, k);
  }

  /**
   * For every keyword of the current top five with count `n`, the historical
   * count the report compares against is the number of historical papers
   * mentioning it when it is among the historical top ten, and 0 otherwise;
   * the keyword is reported as new exactly when it is not among them.
   */
  lemma ChangeAgainstHistory(current: seq<Paper>, historical: seq<Paper>, e: Entry)
    requires e in Take(TrendsOf(current).topKeywords, 5)
    ensures var hist := TrendsOf(historical).topKeywords;
            var h := HistoricalCount(hist, e.key);
            && e.count == Presence(current, e.key) && e.count >= 1
            && (h > 0 <==> exists d :: d in hist && d.key == e.key)
            && (h > 0 ==> h == Presence(historical, e.key))
            && (ChangeFor(e.key, e.count, h) == Some(New(e.key)) <==> forall d :: d in hist ==> d.key != e.key)
  {
    CurrentCount(current, e);
    HistoryLookup(historical, e.key);
  }

  /** At most five lines are reported, each about a keyword of the current top five. */
  lemma ChangesBounded(current: seq<Paper>, historical: Option<seq<Paper>>)
    ensures var r := ChangesOf(current, historical);
            r.Changes? ==> 1 <= |r.lines| <= 5
                           && forall c :: c in r.lines ==> exists e :: e in Take(TrendsOf(current).topKeywords, 5) && e.key == c.keyword
  {
    if historical.Some? && historical.value != [] {
      ChangeLinesShape(Take(TrendsOf(current).topKeywords, 5), TrendsOf(historical.value).topKeywords);
    }
  }

  /** "No changes" is reported exactly when every keyword of the current top five kept its count. */
  lemma NoChangesExactly(current: seq<Paper>, historical: seq<Paper>)
    requires historical != []
    ensures var top := Take(TrendsOf(current).topKeywords, 5);
            var hist := TrendsOf(historical).topKeywords;
            ChangesOf(current, Some(historical)) == NoChanges <==>
            forall i :: 0 <= i < |top| ==> HistoricalCount(hist, top[i].key) == top[i].count
  {
    var top := Take(TrendsOf(current).topKeywords, 5);
    var hist := TrendsOf(historical).topKeywords;
    ChangeLinesShape(top, hist);
    forall i | 0 <= i < |top|
      ensures ChangeFor(top[i].key, top[i].count, HistoricalCount(hist, top[i].key)).None?
              <==> HistoricalCount(hist, top[i].key) == top[i].count
    {
      assert top[i] in top;
      ChangeAgainstHistory(current, historical, top[i]);
      ChangeForMeaning(top[i].key, top[i].count, HistoricalCount(hist, top[i].key));
    }
  }

  /** The three kinds of message can be told apart: only a change list opens with the change heading, and the other two differ. */
  lemma ReportTextsDistinct(r: ChangeReport)
    ensures IsPrefix(ChangesHeading, ReportText(r)) <==> r.Changes?
    ensures ReportText(InsufficientData) != ReportText(NoChanges)
  {
    var h := ChangesHeading;
    match r
    case Changes(lines) =>
      assert ReportText(r)[..|h|] == h;
    case InsufficientData =>
      assert ReportText(r)[|h| - 2] != h[|h| - 2];
    case NoChanges =>
      assert ReportText(r)[|h| - 2] != h[|h| - 2];
  }
}

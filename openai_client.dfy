/**
 * `OpenAIClient`: turns papers into Japanese summaries and assembles the daily
 * message.
 *
 * The chat-completion call is not modelled: `api(i, paper)` stands for what the
 * call for the `i`-th paper of a batch gives back, `Some(content)` when a
 * response arrives and `None` when the call raises (or the content is missing,
 * which makes `.strip()` raise inside the same `try`).
 */
module OpenAIClient {
  import opened Strings
  import opened Wrappers
  import opened Papers
  import Ranking

  // ----- the fallback summary (openai_client.py:68-87) -----

  /** Lines 72-74: the first three authors, with "他" ("and others") when there are more. */
  function AuthorsText(authors: seq<string>): (r: string)
    ensures |authors| <= 3 ==> r == Join(authors, ", ")
    ensures |authors| > 3 ==> r == Join(authors[..3], ", ") + "他"
  {
    var shown := Join(Ranking.Take(authors, 3), ", ");
    if |authors| > 3 then shown + "他"
    else assert authors[..|authors|] == authors; shown
  }

  /** The abstract length shown by the fallback (line 82). */
  const ExcerptLength: nat := 500

  /** Line 82: the first 500 characters of the abstract, with "..." when something was cut. */
  function Excerpt(s: string): (r: string)
    ensures |s| <= ExcerptLength ==> r == s
    ensures |s| > ExcerptLength ==> r == s[..ExcerptLength] + "..."
    ensures |r| <= ExcerptLength + 3
  {
    var shown := Ranking.Take(s, ExcerptLength);
    if |s| > ExcerptLength then shown + "..." else shown
  }

  const TitleOpen: string := "**📄 "
  const AuthorsCaption: string := "**\n\n**👥 著者:** "
  const CategoriesCaption: string := "\n**🏷 カテゴリ:** "
  const AbstractCaption: string := "\n\n**📝 概要:**\n"
  const LinkCaption: string := "\n\n**📎 論文リンク:** "
  /** The closing note: "the summary could not be generated, so the original abstract is shown". */
  const FallbackNote: string := "\n\n*（要約生成に失敗したため、元のアブストラクトを表示しています）*\n"

  /** The fields of a paper as the fallback shows them, in order. */
  function FallbackFields(p: Paper): (fields: seq<string>)
    ensures |fields| == 5
  {
    [p.title, AuthorsText(p.authors), Join(p.categories, ", "), Excerpt(p.summary), p.link]
  }

  /** The captions that surround the fields, in order: one before each field and the note after the last. */
  const FallbackCaptions: seq<string> :=
    [TitleOpen, AuthorsCaption, CategoriesCaption, AbstractCaption, LinkCaption, FallbackNote]

  /** Captions and fields interleaved: `captions[0] + fields[0] + captions[1] + ... + captions[n]`. */
  function Interleave(captions: seq<string>, fields: seq<string>): string
    requires |captions| == |fields| + 1
  {
    if fields == [] then captions[0]
    else Interleave(captions[..|fields|], fields[..|fields| - 1]) + fields[|fields| - 1] + captions[|fields|]
  }

  /** `_create_fallback_summary(paper)` (lines 68-87). */
  function FallbackSummary(p: Paper): string
  {
    TitleOpen + p.title + AuthorsCaption + AuthorsText(p.authors)
    + CategoriesCaption + Join(p.categories, ", ")
    + AbstractCaption + Excerpt(p.summary)
    + LinkCaption + p.link
    + FallbackNote
  }

  /** Where field `k` starts in the interleaved text. */
  function FieldStart(captions: seq<string>, fields: seq<string>, k: nat): nat
    requires |captions| == |fields| + 1 && k < |fields|
  {
    |Interleave(captions[..k + 1], fields[..k])|
  }

  /** Interleaving one more field extends the text at its end. */
  lemma InterleaveStep(captions: seq<string>, fields: seq<string>, k: nat)
    requires |captions| == |fields| + 1 && k < |fields|
    ensures Interleave(captions[..k + 2], fields[..k + 1])
            == Interleave(captions[..k + 1], fields[..k]) + fields[k] + captions[k + 1]
  {
    assert captions[..k + 2][..k + 1] == captions[..k + 1];
    assert fields[..k + 1][..k] == fields[..k];
  }

  lemma {:induction false} InterleavePrefix(captions: seq<string>, fields: seq<string>, k: nat)
    requires |captions| == |fields| + 1 && k <= |fields|
    ensures IsPrefix(Interleave(captions[..k + 1], fields[..k]), Interleave(captions, fields))
    decreases |fields| - k
  {
    if k < |fields| {
      InterleavePrefix(captions, fields, k + 1);
      InterleaveStep(captions, fields, k);
      var head := Interleave(captions[..k + 1], fields[..k]);
      var longer := Interleave(captions[..k + 2], fields[..k + 1]);
      var full := Interleave(captions, fields);
      assert longer[..|head|] == head;
      assert full[..|head|] == longer[..|longer|][..|head|];
    } else {
      assert captions[..k + 1] == captions;
      assert fields[..k] == fields;
    }
  }

  /** Every field can be read back from the interleaved text at its start position. */
  lemma InterleaveReadsBack(captions: seq<string>, fields: seq<string>, k: nat)
    requires |captions| == |fields| + 1 && k < |fields|
    ensures var i := FieldStart(captions, fields, k);
            i + |fields[k]| <= |Interleave(captions, fields)|
            && Interleave(captions, fields)[i..i + |fields[k]|] == fields[k]
  {
    InterleavePrefix(captions, fields, k + 1);
    InterleaveStep(captions, fields, k);
    var head := Interleave(captions[..k + 1], fields[..k]);
    var longer := Interleave(captions[..k + 2], fields[..k + 1]);
    var full := Interleave(captions, fields);
    var i := |head|;
    var j := i + |fields[k]|;
    assert longer[i..j] == fields[k];
    assert full[i..j] == full[..|longer|][i..j];
  }

  /** The fallback interleaves the captions with the paper's fields. */
  lemma FallbackIsInterleaved(p: Paper)
    ensures FallbackSummary(p) == Interleave(FallbackCaptions, FallbackFields(p))
  {
    var c := FallbackCaptions;
    var f := FallbackFields(p);
    assert f[..0] == [];
    assert Interleave(c[..1], f[..0]) == TitleOpen;
    InterleaveStep(c, f, 0);
    InterleaveStep(c, f, 1);
    InterleaveStep(c, f, 2);
    InterleaveStep(c, f, 3);
    InterleaveStep(c, f, 4);
    assert c[..6] == c;
    assert f[..5] == f;
  }

  /**
   * Lines 76-87: the fallback opens with the title line and closes with the
   * note, and each of the title, the author text, the joined categories, the
   * excerpt and the link reads back from its own place.
   */
  lemma FallbackReadsBack(p: Paper, k: nat)
    requires k < 5
    ensures var r := FallbackSummary(p);
            var fields := FallbackFields(p);
            var i := FieldStart(FallbackCaptions, fields, k);
            i + |fields[k]| <= |r| && r[i..i + |fields[k]|] == fields[k]
  {
    FallbackIsInterleaved(p);
    InterleaveReadsBack(FallbackCaptions, FallbackFields(p), k);
  }

  /** The fallback starts with the paper's title in bold. */
  lemma FallbackOpensWithTitle(p: Paper)
    ensures IsPrefix(TitleOpen + p.title, FallbackSummary(p))
  {
    var s := TitleOpen + p.title;
    assert s[..|s|] == s;
    var s1 := s + AuthorsCaption;
    PrefixOfAppend(s, s, AuthorsCaption);
    var s2 := s1 + AuthorsText(p.authors);
    PrefixOfAppend(s, s1, AuthorsText(p.authors));
    var s3 := s2 + CategoriesCaption;
    PrefixOfAppend(s, s2, CategoriesCaption);
    var s4 := s3 + Join(p.categories, ", ");
    PrefixOfAppend(s, s3, Join(p.categories, ", "));
    var s5 := s4 + AbstractCaption;
    PrefixOfAppend(s, s4, AbstractCaption);
    var s6 := s5 + Excerpt(p.summary);
    PrefixOfAppend(s, s5, Excerpt(p.summary));
    var s7 := s6 + LinkCaption;
    PrefixOfAppend(s, s6, LinkCaption);
    var s8 := s7 + p.link;
    PrefixOfAppend(s, s7, p.link);
    PrefixOfAppend(s, s8, FallbackNote);
  }

  /** The fallback always ends with the note that the abstract is shown instead of a summary. */
  lemma FallbackEndsWithNote(p: Paper)
    ensures var r := FallbackSummary(p);
            |FallbackNote| <= |r| && r[|r| - |FallbackNote|..] == FallbackNote
  {
    var r := FallbackSummary(p);
    var body := TitleOpen + p.title + AuthorsCaption + AuthorsText(p.authors)
      + CategoriesCaption + Join(p.categories, ", ") + AbstractCaption + Excerpt(p.summary)
      + LinkCaption + p.link;
    assert r == body + FallbackNote;
  }

  /** The author text opens with the first author. */
  lemma AuthorsTextOpensWithFirst(authors: seq<string>)
    requires authors != []
    ensures IsPrefix(authors[0], AuthorsText(authors))
  {
    var shown := Ranking.Take(authors, 3);
    JoinHead(shown, ", ");
    if |authors| > 3 {
      assert Join(shown, ", ") + "他" == AuthorsText(authors);
    }
  }

  /** The excerpt always opens with the start of the abstract: nothing is rewritten, only cut. */
  lemma ExcerptIsPrefix(s: string)
    ensures var n := if |s| < ExcerptLength then |s| else ExcerptLength;
            IsPrefix(s[..n], Excerpt(s))
  {
  }

  // ----- one paper (lines 12-66) -----

  /**
   * `summarize_paper(paper)` given what the API call gave back: the stripped
   * reply when there is one, and the fallback instead of an error when the
   * call fails.
   */
  function SummarizePaper(p: Paper, reply: Option<string>): string
  {
    match reply
    case Some(content) => Strip(content)
    case None => FallbackSummary(p)
  }

  /**
   * Lines 64-66: a failed call is not passed on to the caller, who gets the
   * fallback instead: the paper's title in bold first and the note that the
   * abstract is shown last.
   */
  lemma FailureStillSummarizes(p: Paper)
    ensures var r := SummarizePaper(p, None);
            && IsPrefix(TitleOpen + p.title, r)
            && |FallbackNote| <= |r| && r[|r| - |FallbackNote|..] == FallbackNote
  {
    FallbackOpensWithTitle(p);
    FallbackEndsWithNote(p);
  }

  /**
   * Line 62: a reply is passed on with only its surrounding white space
   * removed: what is left is the piece of the reply between its leading and
   * its trailing white space, and it neither starts nor ends with white space.
   */
  lemma ReplyIsStripped(p: Paper, content: string)
    ensures var r := SummarizePaper(p, Some(content));
            var i := SpaceEnd(content, 0);
            && i + |r| <= |content|
            && (forall k :: 0 <= k < i ==> IsSpace(content[k]))
            && (forall k :: 0 <= k < |r| ==> r[k] == content[i + k])
            && (forall k :: i + |r| <= k < |content| ==> IsSpace(content[k]))
            && (r == [] || (!IsSpace(r[0]) && !IsSpace(r[|r| - 1])))
  {
    StripRemovesOnlySpace(content);
  }

  // ----- a batch (lines 89-107) -----

  /** How many papers `papers[:maxPapers]` keeps out of `n`, with Python's reading of a negative bound. */
  function BatchSize(n: nat, maxPapers: int): (k: nat)
    ensures k <= n
    ensures maxPapers >= 0 ==> k == if n < maxPapers then n else maxPapers
    ensures maxPapers < 0 ==> k == if n + maxPapers < 0 then 0 else n + maxPapers
  {
    if maxPapers >= 0 then (if n < maxPapers then n else maxPapers)
    else if n + maxPapers < 0 then 0
    else n + maxPapers
  }

  class OpenAIClient {
    /** The key the client is built with. */
    const apiKey: Option<string>

    /** Lines 7-10: the given key when it is truthy, otherwise the `OPENAI_API_KEY` environment value. */
    constructor (apiKey: Option<string>, environment: Option<string>)
      ensures this.apiKey == if apiKey.Some? && apiKey.value != "" then apiKey else environment
    {
      this.apiKey := if apiKey.Some? && apiKey.value != "" then apiKey else environment;
    }

    /**
     * `summarize_multiple_papers(papers, max_papers)`: one summary per paper of
     * `papers[:max_papers]`, in order, the `i`-th made from `papers[i]`.
     */
    method SummarizeMultiplePapers(papers: seq<Paper>, api: (nat, Paper) -> Option<string>, maxPapers: int := 5)
      returns (summaries: seq<string>)
      ensures |summaries| == BatchSize(|papers|, maxPapers)
      ensures summaries == Summaries(papers[..BatchSize(|papers|, maxPapers)], api)
    {
      var batch := papers[..BatchSize(|papers|, maxPapers)];
      summaries := [];
      var i := 0;
      while i < |batch|
        invariant 0 <= i <= |batch|
        invariant summaries == Summaries(batch[..i], api)
      {
        var paper := batch[i];
        var summary := SummarizePaper(paper, api(i, paper));
        assert batch[..i + 1][..i] == batch[..i];
        assert Summaries(batch[..i + 1], api) == Summaries(batch[..i], api) + [summary];
        summaries := summaries + [summary];
        i := i + 1;
      }
      assert batch[..i] == batch;
    }
  }

  /** The summaries of a batch, one per paper, in order. */
  function Summaries(batch: seq<Paper>, api: (nat, Paper) -> Option<string>): (r: seq<string>)
    ensures |r| == |batch|
  {
    if batch == [] then []
    else Summaries(batch[..|batch| - 1], api) + [SummarizePaper(batch[|batch| - 1], api(|batch| - 1, batch[|batch| - 1]))]
  }

  /**
   * Lines 102-105: the `i`-th summary is made from the `i`-th paper and what
   * the `i`-th call gave back, so no paper is skipped, repeated or reordered.
   */
  lemma {:induction false} SummaryOfPaper(batch: seq<Paper>, api: (nat, Paper) -> Option<string>, i: nat)
    requires i < |batch|
    ensures Summaries(batch, api)[i] == SummarizePaper(batch[i], api(i, batch[i]))
  {
    if i < |batch| - 1 {
      var init := batch[..|batch| - 1];
      SummaryOfPaper(init, api, i);
      assert init[i] == batch[i];
    }
  }

  // ----- the daily message (lines 109-131) -----

  /** Lines 117-123: the title line with the date, the greeting and a rule. */
  function Header(today: string): string
  {
    "🤖 **AI論文日報 - " + today + "**\n\n今日の注目AI論文をお届けします！\n\n---\n\n"
  }

  /** Lines 125-129. */
  const Footer: string :=
    "\n---\n🔬 *このレポートは最新のAI研究動向をお届けする自動配信です*\n📧 *ご質問・ご要望がございましたらお気軽にお声かけください*\n"

  /** `create_daily_summary(summaries)` with the formatted date as `today` (line 131). */
  function CreateDailySummary(summaries: seq<string>, today: string): (r: string)
    ensures |r| == |Header(today)| + |Join(summaries, "\n\n")| + 1 + |Footer|
  {
    Header(today) + Join(summaries, "\n\n") + "\n" + Footer
  }

  /**
   * The message splits back into its parts: the header with the date, the
   * summaries joined by blank lines, and the footer.
   */
  lemma DailySummaryReadsBack(summaries: seq<string>, today: string)
    ensures var r := CreateDailySummary(summaries, today);
            var h := |Header(today)|;
            var e := |r| - |Footer| - 1;
            && r[..h] == Header(today)
            && r[h..e] == Join(summaries, "\n\n")
            && r[e..] == "\n" + Footer
  {
    var r := CreateDailySummary(summaries, today);
    var h := Header(today);
    var body := Join(summaries, "\n\n");
    assert r == h + body + ("\n" + Footer);
  }

  /** A single summary is the message body itself, between header and footer. */
  lemma DailySummaryOfOne(summary: string, today: string)
    ensures var r := CreateDailySummary([summary], today);
            r[|Header(today)|..|r| - |Footer| - 1] == summary
  {
    DailySummaryReadsBack([summary], today);
  }

  /** The date appears right after the fixed opening of the title line. */
  lemma DailySummaryDated(summaries: seq<string>, today: string)
    ensures var r := CreateDailySummary(summaries, today);
            var o := |"🤖 **AI論文日報 - "|;
            o + |today| <= |r| && r[o..o + |today|] == today
  {
    DailySummaryReadsBack(summaries, today);
    var h := Header(today);
    var o := |"🤖 **AI論文日報 - "|;
    assert h == "🤖 **AI論文日報 - " + today + "**\n\n今日の注目AI論文をお届けします！\n\n---\n\n";
    assert h[o..o + |today|] == today;
  }
}

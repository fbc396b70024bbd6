/**
 * `ArxivClient.filter_important_papers`: keep the papers whose title and
 * abstract mention at least `min_importance_keywords` distinct importance
 * keywords, record that number in each kept paper, and rank the kept papers
 * by it, highest first, ties in input order.
 */
module ArxivClient {
  import opened Strings
  import opened Wrappers
  import opened Ranking
  import opened Papers

  const ImportanceKeywords: seq<string> := [
    "transformer", "attention", "llm", "large language model",
    "gpt", "bert", "diffusion", "generative", "multimodal",
    "reinforcement learning", "deep learning", "neural network",
    "computer vision", "natural language processing", "nlp",
    "few-shot", "zero-shot", "in-context learning", "fine-tuning",
    "benchmark", "sota", "state-of-the-art", "breakthrough"
  ]

  /** `sum(1 for keyword in keywords if keyword in text)`. */
  function KeywordHits(keywords: seq<string>, text: string): (r: nat)
    ensures r <= |keywords|
  {
    if keywords == [] then 0
    else KeywordHits(keywords[..|keywords| - 1], text) + (if Contains(text, keywords[|keywords| - 1]) then 1 else 0)
  }

  /** The score the filter computes for a paper (arxiv_client.py:101-102). */
  function ImportanceScore(p: Paper): (r: nat)
    ensures r <= |ImportanceKeywords|
  {
    KeywordHits(ImportanceKeywords, SearchText(p))
  }

  /** The sort key of the filter, `x["importance_score"]`, once the score has been written. */
  function ScoreKey(p: Paper): int
  {
    ImportanceScore(p)
  }

  /** What the filter returns: the qualifying papers, ranked by score, stably. */
  function ImportantPapers(papers: seq<Paper>, minImportanceKeywords: int): seq<Paper>
  {
    SortDesc(AtLeast(papers, ScoreKey, minImportanceKeywords), ScoreKey)
  }

  method FilterImportantPapers(papers: seq<Paper>, minImportanceKeywords: int := 2) returns (filtered: seq<Paper>)
    modifies set p | p in papers
    ensures filtered == ImportantPapers(papers, minImportanceKeywords)
    ensures forall p :: p in papers && ImportanceScore(p) >= minImportanceKeywords ==>
              p.importanceScore == Some(ImportanceScore(p))
    ensures forall p :: p in papers && ImportanceScore(p) < minImportanceKeywords ==>
              p.importanceScore == old(p.importanceScore)
  {
    filtered := [];
    var i := 0;
    while i < |papers|
      invariant 0 <= i <= |papers|
      invariant filtered == AtLeast(papers[..i], ScoreKey, minImportanceKeywords)
      invariant forall p :: p in papers[..i] && ImportanceScore(p) >= minImportanceKeywords ==>
                  p.importanceScore == Some(ImportanceScore(p))
      invariant forall p :: p in papers && !(p in papers[..i] && ImportanceScore(p) >= minImportanceKeywords) ==>
                  p.importanceScore == old(p.importanceScore)
    {
      var paper := papers[i];
      var keywordCount := KeywordHits(ImportanceKeywords, SearchText(paper));
      assert keywordCount == ImportanceScore(paper);
      AtLeastSnoc(papers[..i], paper, ScoreKey, minImportanceKeywords);
      assert papers[..i + 1] == papers[..i] + [paper];
      if keywordCount >= minImportanceKeywords {
        paper.importanceScore := Some(keywordCount);
        filtered := filtered + [paper];
      }
      i := i + 1;
    }
    assert papers[..i] == papers;
    filtered := SortDesc(filtered, ScoreKey);
  }

  // ----- the score -----

  /** No importance keyword is listed twice, so the score counts distinct keywords. */
  lemma ImportanceKeywordsDistinct()
    ensures NoDuplicates(ImportanceKeywords)
  {
    var k := ImportanceKeywords;
    ImportanceHeadDistinct();
    ImportanceTailDistinct();
    ImportanceHalvesDisjoint();
    NoDuplicatesConcat(k[..12], k[12..]);
    assert k[..12] + k[12..] == k;
  }

  lemma ImportanceHeadDistinct()
    ensures NoDuplicates(ImportanceKeywords[..12])
  {
  }

  lemma ImportanceTailDistinct()
    ensures NoDuplicates(ImportanceKeywords[12..])
  {
  }

  lemma ImportanceHalvesDisjoint()
    ensures Disjoint(ImportanceKeywords[..12], ImportanceKeywords[12..])
  {
  }

  /** The keywords of `keywords` that occur in `text`. */
  ghost function HitSet(keywords: seq<string>, text: string): set<string>
  {
    set k | k in keywords && Contains(text, k)
  }

  lemma HitSetSnoc(init: seq<string>, x: string, text: string)
    ensures HitSet(init + [x], text) == HitSet(init, text) + (if Contains(text, x) then {x} else {})
  {
    assert forall k :: k in init + [x] <==> k in init || k == x;
  }

  lemma {:induction false} KeywordHitsIsDistinctCount(keywords: seq<string>, text: string)
    requires NoDuplicates(keywords)
    ensures KeywordHits(keywords, text) == |HitSet(keywords, text)|
  {
    if keywords != [] {
      var init := keywords[..|keywords| - 1];
      var x := keywords[|keywords| - 1];
      assert NoDuplicates(init);
      KeywordHitsIsDistinctCount(init, text);
      assert keywords == init + [x];
      HitSetSnoc(init, x, text);
      assert x !in HitSet(init, text);
    }
  }

  /**
   * A paper's score is the number of distinct importance keywords occurring in
   * its lowered title and abstract: a keyword occurring many times counts once,
   * and the score is at most the number of keywords.
   */
  lemma ImportanceScoreMeaning(p: Paper)
    ensures ImportanceScore(p) == |HitSet(ImportanceKeywords, SearchText(p))|
    ensures ImportanceScore(p) <= |ImportanceKeywords|
  {
    ImportanceKeywordsDistinct();
    KeywordHitsIsDistinctCount(ImportanceKeywords, SearchText(p));
  }

  // ----- the filter -----

  /**
   * The result holds exactly the papers meeting the threshold, each as often as
   * it occurs in the input: none dropped, none duplicated, none below threshold.
   */
  lemma ImportantPapersMembers(papers: seq<Paper>, minImportanceKeywords: int)
    ensures forall p :: multiset(ImportantPapers(papers, minImportanceKeywords))[p]
                        == if ImportanceScore(p) >= minImportanceKeywords then multiset(papers)[p] else 0
    ensures forall p :: p in ImportantPapers(papers, minImportanceKeywords) ==> ImportanceScore(p) >= minImportanceKeywords
  {
    var kept := AtLeast(papers, ScoreKey, minImportanceKeywords);
    var result := ImportantPapers(papers, minImportanceKeywords);
    SortDescPermutation(kept, ScoreKey);
    assert multiset(result) == multiset(kept);
    AtLeastMembers(papers, ScoreKey, minImportanceKeywords);
    forall p ensures multiset(result)[p] == if ImportanceScore(p) >= minImportanceKeywords then multiset(papers)[p] else 0 {
      assert multiset(kept)[p] == if ImportanceScore(p) >= minImportanceKeywords then multiset(papers)[p] else 0;
    }
    forall p | p in result ensures ImportanceScore(p) >= minImportanceKeywords {
      assert multiset(result)[p] > 0;
      assert multiset(kept)[p] > 0;
      assert ScoreKey(p) == ImportanceScore(p);
    }
  }

  /**
   * The result is ranked by score, highest first, and papers with equal scores
   * keep their input order.
   */
  lemma ImportantPapersOrder(papers: seq<Paper>, minImportanceKeywords: int, v: int)
    ensures SortedDesc(ImportantPapers(papers, minImportanceKeywords), ScoreKey)
    ensures WithKey(ImportantPapers(papers, minImportanceKeywords), ScoreKey, v)
            == if v >= minImportanceKeywords then WithKey(papers, ScoreKey, v) else []
  {
    var kept := AtLeast(papers, ScoreKey, minImportanceKeywords);
    SortDescSorted(kept, ScoreKey);
    SortDescStable(kept, ScoreKey, v);
    WithKeyAtLeast(papers, ScoreKey, minImportanceKeywords, v);
  }

  /** Raising the threshold keeps a prefix of the result at the lower threshold (so a subset of it). */
  lemma ImportantPapersMonotone(papers: seq<Paper>, low: int, high: int)
    requires low <= high
    ensures IsPrefixOf(ImportantPapers(papers, high), ImportantPapers(papers, low))
  {
    ThresholdMonotone(papers, ScoreKey, low, high);
  }
}

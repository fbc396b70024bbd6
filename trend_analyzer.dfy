/**
 * `TrendAnalyzer.extract_trends`: one pass over a batch of papers that counts,
 * per paper, which trend keywords (per category and overall), which emerging
 * keywords, which institutions (first match per author) and which arXiv
 * category tags occur, and then ranks each counter with `most_common`.
 *
 * The counting of one paper is described, loop by loop, by the `...Pass`
 * functions; `TallyOf` folds them over the batch. `ExtractTrends` is the loop
 * program, proved to compute `TrendsOf`, and the lemmas say what the counts
 * mean in terms of the papers alone.
 */
module TrendAnalyzer {
  import opened Strings
  import opened Wrappers
  import opened Ranking
  import opened Counters
  import opened Papers

  /** An ordered table of trend categories: each a name and its keyword list. */
  type Table = seq<(string, seq<string>)>

  const AiMlKeywords: seq<string> := [
    "llm", "large language model", "gpt", "transformer", "attention", "diffusion",
    "generative ai", "foundation model", "multimodal", "retrieval augmented generation",
    "rag", "fine-tuning", "rlhf", "chain of thought", "in-context learning", "few-shot",
    "zero-shot"
  ]

  const DevelopmentKeywords: seq<string> := [
    "code generation", "copilot", "coding assistant", "automated testing", "ci/cd", "devops",
    "microservices", "serverless", "containerization", "kubernetes", "api", "rest",
    "graphql", "websocket", "real-time"
  ]

  const WebTechKeywords: seq<string> := [
    "react", "vue", "angular", "svelte", "nextjs", "nuxt", "remix", "typescript",
    "javascript", "node.js", "deno", "bun", "tailwind", "css", "html", "pwa", "spa", "ssr",
    "ssg"
  ]

  const DataInfraKeywords: seq<string> := [
    "database", "nosql", "sql", "postgresql", "mongodb", "redis", "elasticsearch",
    "vector database", "embedding", "search", "caching", "cdn", "cloud", "aws", "azure",
    "gcp", "edge computing"
  ]

  const SecurityKeywords: seq<string> := [
    "security", "authentication", "authorization", "oauth", "jwt", "encryption",
    "vulnerability", "privacy", "gdpr", "compliance", "zero trust", "devsecops",
    "penetration testing", "threat detection"
  ]

  const PerformanceKeywords: seq<string> := [
    "performance", "optimization", "monitoring", "observability", "metrics", "logging",
    "tracing", "alerting", "sli", "slo", "load balancing", "scalability",
    "high availability", "latency"
  ]

  /** `self.trend_keywords`, in its declaration order. */
  const TrendKeywords: Table := [
    ("ai_ml", AiMlKeywords),
    ("development", DevelopmentKeywords),
    ("web_tech", WebTechKeywords),
    ("data_infra", DataInfraKeywords),
    ("security", SecurityKeywords),
    ("performance", PerformanceKeywords)
  ]

  const EmergingKeywords: seq<string> := [
    "webassembly", "wasm", "web3", "blockchain", "metaverse", "ar", "vr",
    "quantum computing", "edge ai", "federated learning", "mlops",
    "chatops", "gitops", "platform engineering", "developer experience"
  ]

  const Institutions: seq<string> := [
    "google", "meta", "microsoft", "amazon", "openai", "anthropic",
    "stanford", "mit", "berkeley", "harvard", "carnegie mellon"
  ]

  // ----- the tables -----

  /** Every keyword of the table, category by category. */
  function Flatten(table: Table): seq<string>
  {
    if table == [] then [] else Flatten(table[..|table| - 1]) + table[|table| - 1].1
  }

  /** Distinct category names, and no keyword listed twice, within or across categories. */
  ghost predicate WellFormedTable(table: Table)
  {
    && (forall j, l :: 0 <= j < l < |table| ==> table[j].0 != table[l].0)
    && (forall j :: 0 <= j < |table| ==> NoDuplicates(table[j].1))
    && (forall j, l :: 0 <= j < l < |table| ==> Disjoint(table[j].1, table[l].1))
  }

  lemma CategoriesDisjoint01()
    ensures Disjoint(AiMlKeywords, DevelopmentKeywords)
  {
  }

  lemma CategoriesDisjoint02()
    ensures Disjoint(AiMlKeywords, WebTechKeywords)
  {
  }

  lemma CategoriesDisjoint03()
    ensures Disjoint(AiMlKeywords, DataInfraKeywords)
  {
  }

  lemma CategoriesDisjoint04()
    ensures Disjoint(AiMlKeywords, SecurityKeywords)
  {
  }

  lemma CategoriesDisjoint05()
    ensures Disjoint(AiMlKeywords, PerformanceKeywords)
  {
  }

  lemma CategoriesDisjoint12()
    ensures Disjoint(DevelopmentKeywords, WebTechKeywords)
  {
  }

  lemma CategoriesDisjoint13()
    ensures Disjoint(DevelopmentKeywords, DataInfraKeywords)
  {
  }

  lemma CategoriesDisjoint14()
    ensures Disjoint(DevelopmentKeywords, SecurityKeywords)
  {
  }

  lemma CategoriesDisjoint15()
    ensures Disjoint(DevelopmentKeywords, PerformanceKeywords)
  {
  }

  lemma CategoriesDisjoint23()
    ensures Disjoint(WebTechKeywords, DataInfraKeywords)
  {
  }

  lemma CategoriesDisjoint24()
    ensures Disjoint(WebTechKeywords, SecurityKeywords)
  {
  }

  lemma CategoriesDisjoint25()
    ensures Disjoint(WebTechKeywords, PerformanceKeywords)
  {
  }

  lemma CategoriesDisjoint34()
    ensures Disjoint(DataInfraKeywords, SecurityKeywords)
  {
  }

  lemma CategoriesDisjoint35()
    ensures Disjoint(DataInfraKeywords, PerformanceKeywords)
  {
  }

  lemma CategoriesDisjoint45()
    ensures Disjoint(SecurityKeywords, PerformanceKeywords)
  {
  }

  lemma TrendCategoriesDisjoint()
    ensures forall j, l :: 0 <= j < l < |TrendKeywords| ==> Disjoint(TrendKeywords[j].1, TrendKeywords[l].1)
  {
    forall j, l | 0 <= j < l < |TrendKeywords| ensures Disjoint(TrendKeywords[j].1, TrendKeywords[l].1) {
      if j == 0 && l == 1 {
        CategoriesDisjoint01();
      } else if j == 0 && l == 2 {
        CategoriesDisjoint02();
      } else if j == 0 && l == 3 {
        CategoriesDisjoint03();
      } else if j == 0 && l == 4 {
        CategoriesDisjoint04();
      } else if j == 0 && l == 5 {
        CategoriesDisjoint05();
      } else if j == 1 && l == 2 {
        CategoriesDisjoint12();
      } else if j == 1 && l == 3 {
        CategoriesDisjoint13();
      } else if j == 1 && l == 4 {
        CategoriesDisjoint14();
      } else if j == 1 && l == 5 {
        CategoriesDisjoint15();
      } else if j == 2 && l == 3 {
        CategoriesDisjoint23();
      } else if j == 2 && l == 4 {
        CategoriesDisjoint24();
      } else if j == 2 && l == 5 {
        CategoriesDisjoint25();
      } else if j == 3 && l == 4 {
        CategoriesDisjoint34();
      } else if j == 3 && l == 5 {
        CategoriesDisjoint35();
      } else {
        CategoriesDisjoint45();
      }
    }
  }

  lemma TrendListsDistinct()
    ensures forall j :: 0 <= j < |TrendKeywords| ==> NoDuplicates(TrendKeywords[j].1)
  {
    AiMlKeywordsDistinct();
    DevelopmentKeywordsDistinct();
    WebTechKeywordsDistinct();
    DataInfraKeywordsDistinct();
    SecurityKeywordsDistinct();
    PerformanceKeywordsDistinct();
  }

  lemma AiMlKeywordsDistinct()
    ensures NoDuplicates(AiMlKeywords)
  {
  }

  lemma DevelopmentKeywordsDistinct()
    ensures NoDuplicates(DevelopmentKeywords)
  {
  }

  lemma WebTechKeywordsDistinct()
    ensures NoDuplicates(WebTechKeywords)
  {
    var k := WebTechKeywords;
    WebTechHeadDistinct();
    WebTechTailDistinct();
    WebTechHalvesDisjoint();
    NoDuplicatesConcat(k[..10], k[10..]);
    assert k[..10] + k[10..] == k;
  }

  lemma WebTechHeadDistinct()
    ensures NoDuplicates(WebTechKeywords[..10])
  {
  }

  lemma WebTechTailDistinct()
    ensures NoDuplicates(WebTechKeywords[10..])
  {
  }

  lemma WebTechHalvesDisjoint()
    ensures Disjoint(WebTechKeywords[..10], WebTechKeywords[10..])
  {
  }

  lemma DataInfraKeywordsDistinct()
    ensures NoDuplicates(DataInfraKeywords)
  {
  }

  lemma SecurityKeywordsDistinct()
    ensures NoDuplicates(SecurityKeywords)
  {
  }

  lemma PerformanceKeywordsDistinct()
    ensures NoDuplicates(PerformanceKeywords)
  {
  }

  /** The trend table names six categories and lists each of its 96 keywords once. */
  lemma TrendKeywordsWellFormed()
    ensures WellFormedTable(TrendKeywords)
  {
    TrendCategoriesDisjoint();
    TrendListsDistinct();
  }

  lemma EmergingAndInstitutionsDistinct()
    ensures NoDuplicates(EmergingKeywords) && NoDuplicates(Institutions)
  {
    EmergingDistinct();
    InstitutionsDistinct();
  }

  lemma EmergingDistinct()
    ensures NoDuplicates(EmergingKeywords)
  {
  }

  lemma InstitutionsDistinct()
    ensures NoDuplicates(Institutions)
  {
  }

  lemma WellFormedPrefix(table: Table, m: nat)
    requires WellFormedTable(table) && m <= |table|
    ensures WellFormedTable(table[..m])
  {
    assert forall j :: 0 <= j < m ==> table[..m][j] == table[j];
  }

  lemma {:induction false} FlattenMembers(table: Table, k: string)
    ensures k in Flatten(table) <==> exists j :: 0 <= j < |table| && k in table[j].1
  {
    if table != [] {
      var init := table[..|table| - 1];
      FlattenMembers(init, k);
      if exists j :: 0 <= j < |table| && k in table[j].1 {
        var j :| 0 <= j < |table| && k in table[j].1;
        if j < |init| {
          assert init[j] == table[j];
        }
      }
      if exists j :: 0 <= j < |init| && k in init[j].1 {
        var j :| 0 <= j < |init| && k in init[j].1;
        assert table[j] == init[j];
      }
    }
  }

  // ----- counting one paper (trend_analyzer.py:80-107) -----

  /** `category_counts[category]`: a `defaultdict(Counter)` gives an empty counter for a missing category. */
  function Get(m: map<string, Counter>, category: string): Counter
  {
    if category in m then m[category] else []
  }

  /** The inner loop at lines 84-87, over the first keywords of one category. */
  function KeywordPass(cats: map<string, Counter>, global: Counter, category: string,
                       keywords: seq<string>, text: string): (map<string, Counter>, Counter)
  {
    if keywords == [] then (cats, global)
    else
      var prev := KeywordPass(cats, global, category, keywords[..|keywords| - 1], text);
      var k := keywords[|keywords| - 1];
      if Contains(text, k) then (prev.0[category := Inc(Get(prev.0, category), k)], Inc(prev.1, k))
      else prev
  }

  /** The loop at lines 83-87, over the first categories of the table. */
  function CategoryPass(cats: map<string, Counter>, global: Counter, table: Table, text: string)
    : (map<string, Counter>, Counter)
  {
    if table == [] then (cats, global)
    else
      var prev := CategoryPass(cats, global, table[..|table| - 1], text);
      KeywordPass(prev.0, prev.1, table[|table| - 1].0, table[|table| - 1].1, text)
  }

  /** The loop at lines 90-92, over the first emerging keywords. */
  function EmergingPass(c: Counter, keywords: seq<string>, text: string): Counter
  {
    if keywords == [] then c
    else
      var prev := EmergingPass(c, keywords[..|keywords| - 1], text);
      if Contains(text, keywords[|keywords| - 1]) then Inc(prev, keywords[|keywords| - 1]) else prev
  }

  /** The index the loop at lines 100-103 stops at: the first institution fragment that occurs in the author, or `|insts|`. */
  function FirstMatch(author: string, insts: seq<string>): (i: nat)
    ensures i <= |insts|
    ensures i < |insts| ==> Contains(author, insts[i])
    ensures forall j :: 0 <= j < i ==> !Contains(author, insts[j])
  {
    if insts == [] || Contains(author, insts[0]) then 0 else 1 + FirstMatch(author, insts[1..])
  }

  /** `FirstMatch` is the first index whose fragment occurs, and `|insts|` when none does. */
  lemma {:induction false} FirstMatchIsFirst(author: string, insts: seq<string>, n: nat)
    requires n < |insts| && Contains(author, insts[n])
    requires forall m :: 0 <= m < n ==> !Contains(author, insts[m])
    ensures FirstMatch(author, insts) == n
  {
    if n > 0 {
      FirstMatchIsFirst(author, insts[1..], n - 1);
    }
  }

  lemma {:induction false} FirstMatchNone(author: string, insts: seq<string>)
    requires forall m :: 0 <= m < |insts| ==> !Contains(author, insts[m])
    ensures FirstMatch(author, insts) == |insts|
  {
    if insts != [] {
      FirstMatchNone(author, insts[1..]);
    }
  }

  /** The institution an author's byline is counted for, if any (lines 97-103). */
  function AuthorInstitution(author: string): Option<string>
  {
    var i := FirstMatch(Lower(author), Institutions);
    if i < |Institutions| then Some(Institutions[i]) else None
  }

  /** Lines 97-103 for one author: one more for the institution the byline names, if any. */
  function AuthorStep(c: Counter, author: string): Counter
  {
    match AuthorInstitution(author)
    case Some(inst) => Inc(c, inst)
    case None => c
  }

  /** The loop at lines 95-103, over the first authors of a paper. */
  function AuthorPass(c: Counter, authors: seq<string>): Counter
  {
    if authors == [] then c
    else AuthorStep(AuthorPass(c, authors[..|authors| - 1]), authors[|authors| - 1])
  }

  /** The loop at lines 106-107, over the first category tags of a paper. */
  function TagPass(c: Counter, tags: seq<string>): Counter
  {
    if tags == [] then c else Inc(TagPass(c, tags[..|tags| - 1]), tags[|tags| - 1])
  }

  /** The five counters of lines 69-77. */
  datatype Tally = Tally(categories: map<string, Counter>, keywords: Counter, emerging: Counter,
                         institutions: Counter, areas: Counter)

  /** One iteration of the loop at line 79. */
  function PaperStep(t: Tally, p: Paper): Tally
  {
    var text := SearchText(p);
    var cats := CategoryPass(t.categories, t.keywords, TrendKeywords, text);
    Tally(cats.0, cats.1, EmergingPass(t.emerging, EmergingKeywords, text),
          AuthorPass(t.institutions, p.authors), TagPass(t.areas, p.categories))
  }

  /** The counters after the loop at line 79 has run over `papers`. */
  function TallyOf(papers: seq<Paper>): Tally
  {
    if papers == [] then Tally(map[], [], [], [], [])
    else PaperStep(TallyOf(papers[..|papers| - 1]), papers[|papers| - 1])
  }

  /** The dictionary returned at lines 109-116. */
  datatype Trends = Trends(categoryTrends: map<string, Counter>, topKeywords: seq<Entry>,
                           emergingTech: seq<Entry>, activeInstitutions: seq<Entry>,
                           researchAreas: seq<Entry>, totalPapers: nat)

  /** What `extract_trends(papers)` returns. */
  function TrendsOf(papers: seq<Paper>): (r: Trends)
    ensures r.totalPapers == |papers|
    ensures |r.topKeywords| <= 10 && |r.emergingTech| <= 5
    ensures |r.activeInstitutions| <= 5 && |r.researchAreas| <= 8
    ensures papers == [] ==> r.categoryTrends == map[] && r.topKeywords == [] && r.emergingTech == []
                             && r.activeInstitutions == [] && r.researchAreas == []
  {
    var t := TallyOf(papers);
    Trends(t.categories, MostCommon(t.keywords, 10), MostCommon(t.emerging, 5),
           MostCommon(t.institutions, 5), MostCommon(t.areas, 8), |papers|)
  }

  /** Lines 83-87 for one paper's text. */
  method CountTrendKeywords(cats0: map<string, Counter>, global0: Counter, text: string)
    returns (categoryCounts: map<string, Counter>, keywordCounts: Counter)
    ensures (categoryCounts, keywordCounts) == CategoryPass(cats0, global0, TrendKeywords, text)
  {
    categoryCounts, keywordCounts := cats0, global0;
    var c := 0;
    while c < |TrendKeywords|
      invariant 0 <= c <= |TrendKeywords|
      invariant (categoryCounts, keywordCounts) == CategoryPass(cats0, global0, TrendKeywords[..c], text)
    {
      categoryCounts, keywordCounts := CountCategory(categoryCounts, keywordCounts, TrendKeywords[c].0, TrendKeywords[c].1, text);
      assert TrendKeywords[..c + 1][..c] == TrendKeywords[..c];
      c := c + 1;
    }
    assert TrendKeywords[..c] == TrendKeywords;
  }

  /** Lines 84-87: the keywords of one category found in one paper's text. */
  method CountCategory(cats0: map<string, Counter>, global0: Counter, category: string,
                       keywords: seq<string>, text: string)
    returns (categoryCounts: map<string, Counter>, keywordCounts: Counter)
    ensures (categoryCounts, keywordCounts) == KeywordPass(cats0, global0, category, keywords, text)
  {
    categoryCounts, keywordCounts := cats0, global0;
    var j := 0;
    while j < |keywords|
      invariant 0 <= j <= |keywords|
      invariant (categoryCounts, keywordCounts) == KeywordPass(cats0, global0, category, keywords[..j], text)
    {
      var keyword := keywords[j];
      if Contains(text, keyword) {
        categoryCounts := categoryCounts[category := Inc(Get(categoryCounts, category), keyword)];
        keywordCounts := Inc(keywordCounts, keyword);
      }
      assert keywords[..j + 1][..j] == keywords[..j];
      j := j + 1;
    }
    assert keywords[..j] == keywords;
  }

  /** Lines 90-92 for one paper's text. */
  method CountEmerging(c0: Counter, text: string) returns (emergingCounts: Counter)
    ensures emergingCounts == EmergingPass(c0, EmergingKeywords, text)
  {
    emergingCounts := c0;
    var e := 0;
    while e < |EmergingKeywords|
      invariant 0 <= e <= |EmergingKeywords|
      invariant emergingCounts == EmergingPass(c0, EmergingKeywords[..e], text)
    {
      if Contains(text, EmergingKeywords[e]) {
        emergingCounts := Inc(emergingCounts, EmergingKeywords[e]);
      }
      assert EmergingKeywords[..e + 1][..e] == EmergingKeywords[..e];
      e := e + 1;
    }
    assert EmergingKeywords[..e] == EmergingKeywords;
  }

  /** Lines 95-103 for one paper's authors: each author adds one for the first institution it names. */
  method CountInstitutions(c0: Counter, authors: seq<string>) returns (institutionCounts: Counter)
    ensures institutionCounts == AuthorPass(c0, authors)
  {
    institutionCounts := c0;
    var a := 0;
    while a < |authors|
      invariant 0 <= a <= |authors|
      invariant institutionCounts == AuthorPass(c0, authors[..a])
    {
      institutionCounts := CountAuthor(institutionCounts, authors[a]);
      assert authors[..a + 1][..a] == authors[..a];
      a := a + 1;
    }
    assert authors[..a] == authors;
  }

  /** Lines 96-103: the search for the first institution named in one byline. */
  method CountAuthor(c: Counter, author: string) returns (institutionCounts: Counter)
    ensures institutionCounts == AuthorStep(c, author)
  {
    institutionCounts := c;
    var authorLower := Lower(author);
    var n := 0;
    while n < |Institutions|
      invariant 0 <= n <= |Institutions|
      invariant institutionCounts == c
      invariant forall m :: 0 <= m < n ==> !Contains(authorLower, Institutions[m])
    {
      if Contains(authorLower, Institutions[n]) {
        institutionCounts := Inc(institutionCounts, Institutions[n]);
        FirstMatchIsFirst(authorLower, Institutions, n);
        return;
      }
      n := n + 1;
    }
    FirstMatchNone(authorLower, Institutions);
  }

  /** Lines 106-107 for one paper's category tags. */
  method CountTags(c0: Counter, tags: seq<string>) returns (arxivCategoryCounts: Counter)
    ensures arxivCategoryCounts == TagPass(c0, tags)
  {
    arxivCategoryCounts := c0;
    var g := 0;
    while g < |tags|
      invariant 0 <= g <= |tags|
      invariant arxivCategoryCounts == TagPass(c0, tags[..g])
    {
      arxivCategoryCounts := Inc(arxivCategoryCounts, tags[g]);
      assert tags[..g + 1][..g] == tags[..g];
      g := g + 1;
    }
    assert tags[..g] == tags;
  }

  /** `extract_trends(papers)` (lines 57-116). */
  method ExtractTrends(papers: seq<Paper>) returns (r: Trends)
    ensures r == TrendsOf(papers)
  {
    var categoryCounts: map<string, Counter> := map[];
    var keywordCounts: Counter := [];
    var emergingCounts: Counter := [];
    var institutionCounts: Counter := [];
    var arxivCategoryCounts: Counter := [];
    var i := 0;
    while i < |papers|
      invariant 0 <= i <= |papers|
      invariant Tally(categoryCounts, keywordCounts, emergingCounts, institutionCounts, arxivCategoryCounts)
                == TallyOf(papers[..i])
    {
      var paper := papers[i];
      var text := SearchText(paper);
      categoryCounts, keywordCounts := CountTrendKeywords(categoryCounts, keywordCounts, text);
      emergingCounts := CountEmerging(emergingCounts, text);
      institutionCounts := CountInstitutions(institutionCounts, paper.authors);
      arxivCategoryCounts := CountTags(arxivCategoryCounts, paper.categories);
      assert papers[..i + 1][..i] == papers[..i];
      i := i + 1;
    }
    assert papers[..i] == papers;
    r := Trends(categoryCounts, MostCommon(keywordCounts, 10), MostCommon(emergingCounts, 5),
                MostCommon(institutionCounts, 5), MostCommon(arxivCategoryCounts, 8), |papers|);
  }

  // ----- what one paper adds -----

  /** One for a keyword of `keywords` that occurs in `text`, zero otherwise. */
  function Hit(keywords: seq<string>, k: string, text: string): nat
  {
    if k in keywords && Contains(text, k) then 1 else 0
  }

  /** The category names of a table, in order. */
  function Names(table: Table): seq<string>
  {
    if table == [] then [] else Names(table[..|table| - 1]) + [table[|table| - 1].0]
  }

  /** The sum of the totals of the table's category counters. */
  function CategoryTotal(m: map<string, Counter>, table: Table): nat
  {
    if table == [] then 0 else CategoryTotal(m, table[..|table| - 1]) + Total(Get(m, table[|table| - 1].0))
  }

  /** Every counter kept in the category map is a valid, non-empty counter. */
  ghost predicate GoodMap(m: map<string, Counter>)
  {
    forall c :: c in m ==> Valid(m[c]) && m[c] != []
  }

  /** Lines 84-87 for one category: what the pass adds to the two counters and what it leaves alone. */
  lemma KeywordPassEffect(cats: map<string, Counter>, global: Counter, category: string,
                          keywords: seq<string>, text: string)
    requires NoDuplicates(keywords)
    ensures var r := KeywordPass(cats, global, category, keywords, text);
            && (forall k :: Count(r.1, k) == Count(global, k) + Hit(keywords, k, text))
            && (forall k :: Count(Get(r.0, category), k) == Count(Get(cats, category), k) + Hit(keywords, k, text))
            && (forall c :: c != category ==> Get(r.0, c) == Get(cats, c))
            && r.0.Keys <= cats.Keys + {category}
            && Total(r.1) + Total(Get(cats, category)) == Total(global) + Total(Get(r.0, category))
            && (Valid(global) ==> Valid(r.1))
            && (GoodMap(cats) ==> GoodMap(r.0))
  {
    KeywordPassCounts(cats, global, category, keywords, text);
    KeywordPassFrame(cats, global, category, keywords, text);
    KeywordPassTotals(cats, global, category, keywords, text);
  }

  lemma {:induction false} KeywordPassCounts(cats: map<string, Counter>, global: Counter, category: string,
                                             keywords: seq<string>, text: string)
    requires NoDuplicates(keywords)
    ensures var r := KeywordPass(cats, global, category, keywords, text);
            && (forall k :: Count(r.1, k) == Count(global, k) + Hit(keywords, k, text))
            && (forall k :: Count(Get(r.0, category), k) == Count(Get(cats, category), k) + Hit(keywords, k, text))
  {
    if keywords != [] {
      var init := keywords[..|keywords| - 1];
      var x := keywords[|keywords| - 1];
      assert NoDuplicates(init);
      assert x !in init;
      KeywordPassCounts(cats, global, category, init, text);
      assert forall k :: k in keywords <==> k in init || k == x;
    }
  }

  lemma {:induction false} KeywordPassFrame(cats: map<string, Counter>, global: Counter, category: string,
                                            keywords: seq<string>, text: string)
    ensures var r := KeywordPass(cats, global, category, keywords, text);
            && (forall c :: c != category ==> Get(r.0, c) == Get(cats, c))
            && r.0.Keys <= cats.Keys + {category}
            && (Valid(global) ==> Valid(r.1))
            && (GoodMap(cats) ==> GoodMap(r.0))
  {
    if keywords != [] {
      KeywordPassFrame(cats, global, category, keywords[..|keywords| - 1], text);
    }
  }

  lemma {:induction false} KeywordPassTotals(cats: map<string, Counter>, global: Counter, category: string,
                                             keywords: seq<string>, text: string)
    ensures var r := KeywordPass(cats, global, category, keywords, text);
            Total(r.1) + Total(Get(cats, category)) == Total(global) + Total(Get(r.0, category))
  {
    if keywords != [] {
      KeywordPassTotals(cats, global, category, keywords[..|keywords| - 1], text);
    }
  }

  lemma {:induction false} NamesOfPrefix(table: Table)
    ensures |Names(table)| == |table|
    ensures forall j :: 0 <= j < |table| ==> Names(table)[j] == table[j].0
  {
    if table != [] {
      NamesOfPrefix(table[..|table| - 1]);
    }
  }

  /** The category total depends only on the counters of the table's own categories. */
  lemma {:induction false} CategoryTotalFrame(m1: map<string, Counter>, m2: map<string, Counter>, table: Table)
    requires forall c :: c in Names(table) ==> Get(m1, c) == Get(m2, c)
    ensures CategoryTotal(m1, table) == CategoryTotal(m2, table)
  {
    if table != [] {
      var init := table[..|table| - 1];
      assert Names(table) == Names(init) + [table[|table| - 1].0];
      CategoryTotalFrame(m1, m2, init);
    }
  }

  /** A keyword occurs in the flattened table at most once when the table is well formed. */
  lemma FlattenLast(table: Table, k: string)
    requires WellFormedTable(table) && table != []
    ensures k in table[|table| - 1].1 ==> k !in Flatten(table[..|table| - 1])
  {
    var init := table[..|table| - 1];
    var last := table[|table| - 1].1;
    FlattenMembers(init, k);
    forall j | 0 <= j < |init| ensures k in init[j].1 ==> k !in last {
      assert init[j] == table[j];
      assert Disjoint(table[j].1, last);
    }
  }

  /** The last category's name is none of the earlier ones. */
  lemma LastNameFresh(table: Table)
    requires WellFormedTable(table) && table != []
    ensures table[|table| - 1].0 !in Names(table[..|table| - 1])
  {
    var init := table[..|table| - 1];
    NamesOfPrefix(init);
    forall j | 0 <= j < |init| ensures Names(init)[j] != table[|table| - 1].0 {
      assert init[j] == table[j];
    }
  }

  /** The overall counter gains one for each keyword of the table found in the text. */
  lemma {:induction false} CategoryPassGlobal(cats: map<string, Counter>, global: Counter, table: Table, text: string)
    requires WellFormedTable(table)
    ensures var r := CategoryPass(cats, global, table, text);
            && (forall k :: Count(r.1, k) == Count(global, k) + (if k in Flatten(table) && Contains(text, k) then 1 else 0))
            && (Valid(global) ==> Valid(r.1))
  {
    if table != [] {
      var init := table[..|table| - 1];
      var last := table[|table| - 1];
      WellFormedPrefix(table, |table| - 1);
      CategoryPassGlobal(cats, global, init, text);
      var prev := CategoryPass(cats, global, init, text);
      KeywordPassEffect(prev.0, prev.1, last.0, last.1, text);
      forall k ensures k in last.1 ==> k !in Flatten(init) {
        FlattenLast(table, k);
      }
    }
  }

  /**
   * Each category's counter gains one for each of its own keywords found in
   * the text; every other entry of the map is left as it was, and the map
   * stays one of valid non-empty counters.
   */
  lemma {:induction false} CategoryPassCategories(cats: map<string, Counter>, global: Counter, table: Table, text: string)
    requires WellFormedTable(table)
    ensures var r := CategoryPass(cats, global, table, text);
            && (forall j, k :: 0 <= j < |table| ==>
                  Count(Get(r.0, table[j].0), k) == Count(Get(cats, table[j].0), k) + Hit(table[j].1, k, text))
            && (forall c :: c !in Names(table) ==> Get(r.0, c) == Get(cats, c))
            && (forall c :: c in r.0 ==> c in cats || c in Names(table))
            && (GoodMap(cats) ==> GoodMap(r.0))
  {
    if table != [] {
      var init := table[..|table| - 1];
      var last := table[|table| - 1];
      WellFormedPrefix(table, |table| - 1);
      CategoryPassCategories(cats, global, init, text);
      var prev := CategoryPass(cats, global, init, text);
      var r := KeywordPass(prev.0, prev.1, last.0, last.1, text);
      KeywordPassEffect(prev.0, prev.1, last.0, last.1, text);
      LastNameFresh(table);
      NamesOfPrefix(init);
      assert Names(table) == Names(init) + [last.0];
      forall j, k | 0 <= j < |table|
        ensures Count(Get(r.0, table[j].0), k) == Count(Get(cats, table[j].0), k) + Hit(table[j].1, k, text)
      {
        if j < |init| {
          assert init[j] == table[j];
          assert Names(init)[j] == table[j].0;
        }
      }
    }
  }

  /** The overall total grows exactly as much as the category totals together. */
  lemma {:induction false} CategoryPassTotals(cats: map<string, Counter>, global: Counter, table: Table, text: string)
    requires WellFormedTable(table)
    ensures var r := CategoryPass(cats, global, table, text);
            Total(r.1) + CategoryTotal(cats, table) == Total(global) + CategoryTotal(r.0, table)
  {
    if table != [] {
      var init := table[..|table| - 1];
      var last := table[|table| - 1];
      WellFormedPrefix(table, |table| - 1);
      CategoryPassTotals(cats, global, init, text);
      CategoryPassCategories(cats, global, init, text);
      var prev := CategoryPass(cats, global, init, text);
      var r := KeywordPass(prev.0, prev.1, last.0, last.1, text);
      KeywordPassEffect(prev.0, prev.1, last.0, last.1, text);
      LastNameFresh(table);
      CategoryTotalFrame(r.0, prev.0, init);
    }
  }

  lemma {:induction false} EmergingPassEffect(c: Counter, keywords: seq<string>, text: string)
    requires NoDuplicates(keywords)
    ensures var r := EmergingPass(c, keywords, text);
            (forall k :: Count(r, k) == Count(c, k) + Hit(keywords, k, text)) && (Valid(c) ==> Valid(r))
  {
    if keywords != [] {
      var init := keywords[..|keywords| - 1];
      var x := keywords[|keywords| - 1];
      assert NoDuplicates(init);
      assert x !in init;
      EmergingPassEffect(c, init, text);
      assert forall k :: k in keywords <==> k in init || k == x;
    }
  }

  /** How many of `authors` are counted for institution `inst`. */
  function AuthorHits(authors: seq<string>, inst: string): nat
  {
    if authors == [] then 0
    else AuthorHits(authors[..|authors| - 1], inst) + (if AuthorInstitution(authors[|authors| - 1]) == Some(inst) then 1 else 0)
  }

  lemma {:induction false} AuthorPassEffect(c: Counter, authors: seq<string>)
    ensures var r := AuthorPass(c, authors);
            && (forall inst :: Count(r, inst) == Count(c, inst) + AuthorHits(authors, inst))
            && Total(r) <= Total(c) + |authors|
            && (Valid(c) ==> Valid(r))
  {
    if authors != [] {
      AuthorPassEffect(c, authors[..|authors| - 1]);
    }
  }

  /** Only the listed institutions are ever counted. */
  lemma {:induction false} AuthorHitsListed(authors: seq<string>, inst: string)
    requires inst !in Institutions
    ensures AuthorHits(authors, inst) == 0
  {
    if authors != [] {
      AuthorHitsListed(authors[..|authors| - 1], inst);
    }
  }

  lemma {:induction false} TagPassEffect(c: Counter, tags: seq<string>)
    ensures var r := TagPass(c, tags);
            && (forall t :: Count(r, t) == Count(c, t) + multiset(tags)[t])
            && Total(r) == Total(c) + |tags|
            && (Valid(c) ==> Valid(r))
  {
    if tags != [] {
      var init := tags[..|tags| - 1];
      var x := tags[|tags| - 1];
      TagPassEffect(c, init);
      assert tags == init + [x];
      assert multiset(tags) == multiset(init) + multiset{x};
      var prev := TagPass(c, init);
      assert TagPass(c, tags) == Inc(prev, x);
      forall t ensures Count(Inc(prev, x), t) == Count(c, t) + multiset(tags)[t] {
        assert Count(prev, t) == Count(c, t) + multiset(init)[t];
      }
    }
  }

  // ----- what the batch adds up to -----

  /** How many papers' lower-cased title and abstract contain `k`. */
  function Presence(papers: seq<Paper>, k: string): nat
  {
    if papers == [] then 0
    else Presence(papers[..|papers| - 1], k) + (if Contains(SearchText(papers[|papers| - 1]), k) then 1 else 0)
  }

  /** How many author bylines over the batch are counted for `inst`. */
  function Affiliations(papers: seq<Paper>, inst: string): nat
  {
    if papers == [] then 0
    else Affiliations(papers[..|papers| - 1], inst) + AuthorHits(papers[|papers| - 1].authors, inst)
  }

  /** How many author bylines the batch has. */
  function AuthorCount(papers: seq<Paper>): nat
  {
    if papers == [] then 0 else AuthorCount(papers[..|papers| - 1]) + |papers[|papers| - 1].authors|
  }

  /** All category tags of the batch, paper by paper. */
  function AllTags(papers: seq<Paper>): seq<string>
  {
    if papers == [] then [] else AllTags(papers[..|papers| - 1]) + papers[|papers| - 1].categories
  }

  /**
   * The overall keyword counter counts, for each trend keyword, the papers
   * that mention it; every other string counts zero.
   */
  lemma {:induction false} TallyKeywords(papers: seq<Paper>)
    ensures var t := TallyOf(papers);
            && (forall k :: Count(t.keywords, k) == if k in Flatten(TrendKeywords) then Presence(papers, k) else 0)
            && Valid(t.keywords)
  {
    if papers != [] {
      var init := papers[..|papers| - 1];
      TallyKeywords(init);
      var t := TallyOf(init);
      TrendKeywordsWellFormed();
      CategoryPassGlobal(t.categories, t.keywords, TrendKeywords, SearchText(papers[|papers| - 1]));
    }
  }

  /** Each category's counter counts, for each keyword of that category, the papers that mention it, and nothing else. */
  lemma {:induction false} TallyCategoryCount(papers: seq<Paper>, j: nat, k: string)
    requires j < |TrendKeywords|
    ensures Count(Get(TallyOf(papers).categories, TrendKeywords[j].0), k)
            == if k in TrendKeywords[j].1 then Presence(papers, k) else 0
  {
    if papers != [] {
      var init := papers[..|papers| - 1];
      TallyCategoryCount(init, j, k);
      var t := TallyOf(init);
      TrendKeywordsWellFormed();
      CategoryPassCategories(t.categories, t.keywords, TrendKeywords, SearchText(papers[|papers| - 1]));
    }
  }

  /** Only the six categories appear in the category map, each with a valid counter that is not empty. */
  lemma {:induction false} TallyCategoryNames(papers: seq<Paper>)
    ensures var t := TallyOf(papers);
            (forall c :: c in t.categories ==> c in Names(TrendKeywords)) && GoodMap(t.categories)
  {
    if papers != [] {
      var init := papers[..|papers| - 1];
      TallyCategoryNames(init);
      var t := TallyOf(init);
      TrendKeywordsWellFormed();
      CategoryPassCategories(t.categories, t.keywords, TrendKeywords, SearchText(papers[|papers| - 1]));
    }
  }

  /** Every hit is counted twice over, once overall and once in its category: the totals agree. */
  lemma {:induction false} TallyMirror(papers: seq<Paper>)
    ensures var t := TallyOf(papers); Total(t.keywords) == CategoryTotal(t.categories, TrendKeywords)
  {
    if papers != [] {
      var init := papers[..|papers| - 1];
      TallyMirror(init);
      var t := TallyOf(init);
      TrendKeywordsWellFormed();
      CategoryPassTotals(t.categories, t.keywords, TrendKeywords, SearchText(papers[|papers| - 1]));
    } else {
      CategoryTotalEmpty(TrendKeywords);
    }
  }

  lemma {:induction false} CategoryTotalEmpty(table: Table)
    ensures CategoryTotal(map[], table) == 0
  {
    if table != [] {
      CategoryTotalEmpty(table[..|table| - 1]);
    }
  }

  /** The emerging counter counts, for each emerging keyword, the papers that mention it. */
  lemma {:induction false} TallyEmerging(papers: seq<Paper>)
    ensures var t := TallyOf(papers);
            && (forall k :: Count(t.emerging, k) == if k in EmergingKeywords then Presence(papers, k) else 0)
            && Valid(t.emerging)
  {
    if papers != [] {
      var init := papers[..|papers| - 1];
      TallyEmerging(init);
      EmergingAndInstitutionsDistinct();
      EmergingPassEffect(TallyOf(init).emerging, EmergingKeywords, SearchText(papers[|papers| - 1]));
    }
  }

  /**
   * The institution counter counts author bylines by the first listed
   * institution each names; authors naming none are not counted.
   */
  lemma {:induction false} TallyInstitutions(papers: seq<Paper>)
    ensures var t := TallyOf(papers);
            && (forall inst :: Count(t.institutions, inst) == Affiliations(papers, inst))
            && (forall inst :: inst !in Institutions ==> Count(t.institutions, inst) == 0)
            && Total(t.institutions) <= AuthorCount(papers)
            && Valid(t.institutions)
  {
    if papers != [] {
      var init := papers[..|papers| - 1];
      TallyInstitutions(init);
      var p := papers[|papers| - 1];
      AuthorPassEffect(TallyOf(init).institutions, p.authors);
      forall inst | inst !in Institutions ensures AuthorHits(p.authors, inst) == 0 {
        AuthorHitsListed(p.authors, inst);
      }
    }
  }

  /** The research-area counter counts every category tag of every paper. */
  lemma {:induction false} TallyAreas(papers: seq<Paper>)
    ensures var t := TallyOf(papers);
            && (forall tag :: Count(t.areas, tag) == multiset(AllTags(papers))[tag])
            && Total(t.areas) == |AllTags(papers)|
            && Valid(t.areas)
  {
    if papers != [] {
      var init := papers[..|papers| - 1];
      TallyAreas(init);
      TagPassEffect(TallyOf(init).areas, papers[|papers| - 1].categories);
    }
  }

  /** A keyword of category `j` has the same count overall as in its category's counter. */
  lemma TallyKeywordInCategory(papers: seq<Paper>, j: nat, k: string)
    requires j < |TrendKeywords| && k in TrendKeywords[j].1
    ensures Count(TallyOf(papers).keywords, k) == Count(Get(TallyOf(papers).categories, TrendKeywords[j].0), k)
  {
    TallyKeywords(papers);
    TallyCategoryCount(papers, j, k);
    FlattenMembers(TrendKeywords, k);
  }

  /** A paper adds at most one to a keyword's presence count, however often it repeats the keyword. */
  lemma {:induction false} PresenceBounded(papers: seq<Paper>, k: string)
    ensures Presence(papers, k) <= |papers|
  {
    if papers != [] {
      PresenceBounded(papers[..|papers| - 1], k);
    }
  }

  /** Every count over a batch, overall, per category and for the emerging keywords, is at most the number of papers. */
  lemma CountsBounded(papers: seq<Paper>, k: string)
    ensures var t := TallyOf(papers);
            && Count(t.keywords, k) <= |papers|
            && Count(t.emerging, k) <= |papers|
            && forall j :: 0 <= j < |TrendKeywords| ==> Count(Get(t.categories, TrendKeywords[j].0), k) <= |papers|
  {
    TallyKeywords(papers);
    TallyEmerging(papers);
    PresenceBounded(papers, k);
    forall j | 0 <= j < |TrendKeywords|
      ensures Count(Get(TallyOf(papers).categories, TrendKeywords[j].0), k) <= |papers|
    {
      TallyCategoryCount(papers, j, k);
    }
  }

  /** A category appears in `category_trends` exactly when some keyword of it was found. */
  lemma TallyCategoryPresent(papers: seq<Paper>, c: string)
    ensures c in TallyOf(papers).categories <==> Total(Get(TallyOf(papers).categories, c)) > 0
  {
    TallyCategoryNames(papers);
    var m := TallyOf(papers).categories;
    if c in m {
      TotalOfEmpty(m[c]);
      ValidCount(m[c]);
      assert m[c][0] in m[c];
    }
  }

  // ----- the order the counters keep -----

  /** The keywords of `keywords` that occur in `text`, in list order: the increments one keyword loop makes. */
  function Found(keywords: seq<string>, text: string): (r: seq<string>)
    ensures forall k :: k in r <==> k in keywords && Contains(text, k)
  {
    if keywords == [] then []
    else
      var k := keywords[|keywords| - 1];
      Found(keywords[..|keywords| - 1], text) + (if Contains(text, k) then [k] else [])
  }

  lemma {:induction false} FoundAppend(xs: seq<string>, ys: seq<string>, text: string)
    ensures Found(xs + ys, text) == Found(xs, text) + Found(ys, text)
  {
    if ys == [] {
      assert xs + ys == xs;
    } else {
      FoundAppend(xs, ys[..|ys| - 1], text);
      assert (xs + ys)[..|xs + ys| - 1] == xs + ys[..|ys| - 1];
    }
  }

  /** Two keywords found in one text stand in the order of the keyword list. */
  lemma {:induction false} FoundOrder(keywords: seq<string>, text: string)
    ensures forall a, b :: a in Found(keywords, text) && b in Found(keywords, text) ==>
      (FirstAt(Found(keywords, text), a) < FirstAt(Found(keywords, text), b) <==> FirstAt(keywords, a) < FirstAt(keywords, b))
  {
    if keywords != [] {
      var init := keywords[..|keywords| - 1];
      var x := keywords[|keywords| - 1];
      var f := Found(init, text);
      var tail := if Contains(text, x) then [x] else [];
      FoundOrder(init, text);
      assert keywords == init + [x];
      forall a, b | a in f + tail && b in f + tail
        ensures FirstAt(f + tail, a) < FirstAt(f + tail, b) <==> FirstAt(init + [x], a) < FirstAt(init + [x], b)
      {
        FirstAtAppend(f, tail, a);
        FirstAtAppend(f, tail, b);
        FirstAtAppend(init, [x], a);
        FirstAtAppend(init, [x], b);
        FirstAtInside(f, a);
        FirstAtInside(f, b);
        FirstAtInside(init, a);
        FirstAtInside(init, b);
      }
    }
  }

  lemma {:induction false} KeywordPassKeys(cats: map<string, Counter>, global: Counter, category: string,
                                           keywords: seq<string>, text: string)
    ensures Keys(KeywordPass(cats, global, category, keywords, text).1) == Arrivals(Keys(global), Found(keywords, text))
  {
    if keywords != [] {
      var init := keywords[..|keywords| - 1];
      var k := keywords[|keywords| - 1];
      KeywordPassKeys(cats, global, category, init, text);
      if Contains(text, k) {
        ArrivalsSnoc(Keys(global), Found(init, text), k);
      } else {
        assert Found(keywords, text) == Found(init, text);
      }
    }
  }

  lemma {:induction false} CategoryPassKeys(cats: map<string, Counter>, global: Counter, table: Table, text: string)
    ensures Keys(CategoryPass(cats, global, table, text).1) == Arrivals(Keys(global), Found(Flatten(table), text))
  {
    if table != [] {
      var init := table[..|table| - 1];
      var prev := CategoryPass(cats, global, init, text);
      CategoryPassKeys(cats, global, init, text);
      KeywordPassKeys(prev.0, prev.1, table[|table| - 1].0, table[|table| - 1].1, text);
      ArrivalsAppend(Keys(global), Found(Flatten(init), text), Found(table[|table| - 1].1, text));
      FoundAppend(Flatten(init), table[|table| - 1].1, text);
    }
  }

  lemma {:induction false} EmergingPassKeys(c: Counter, keywords: seq<string>, text: string)
    ensures Keys(EmergingPass(c, keywords, text)) == Arrivals(Keys(c), Found(keywords, text))
  {
    if keywords != [] {
      var init := keywords[..|keywords| - 1];
      var k := keywords[|keywords| - 1];
      EmergingPassKeys(c, init, text);
      if Contains(text, k) {
        ArrivalsSnoc(Keys(c), Found(init, text), k);
      } else {
        assert Found(keywords, text) == Found(init, text);
      }
    }
  }

  /** The keywords of `keywords` each paper mentions, paper by paper, in list order. */
  function Mentions(papers: seq<Paper>, keywords: seq<string>): seq<string>
  {
    if papers == [] then []
    else Mentions(papers[..|papers| - 1], keywords) + Found(keywords, SearchText(papers[|papers| - 1]))
  }

  /** The index of the first paper whose lower-cased title and abstract contain `k`, or `|papers|`. */
  function FirstMention(papers: seq<Paper>, k: string): (i: nat)
    ensures i <= |papers|
    ensures i < |papers| ==> Contains(SearchText(papers[i]), k)
    ensures forall j :: 0 <= j < i ==> !Contains(SearchText(papers[j]), k)
  {
    if papers == [] then 0
    else
      var f := FirstMention(papers[..|papers| - 1], k);
      if f < |papers| - 1 then f
      else if Contains(SearchText(papers[|papers| - 1]), k) then |papers| - 1
      else |papers|
  }

  /** `a` is met before `b` in a scan of the batch that tries the keywords of `keywords` in order on each paper. */
  predicate MentionedEarlier(papers: seq<Paper>, keywords: seq<string>, a: string, b: string)
  {
    || FirstMention(papers, a) < FirstMention(papers, b)
    || (FirstMention(papers, a) == FirstMention(papers, b) && FirstAt(keywords, a) < FirstAt(keywords, b))
  }

  lemma {:induction false} MentionsMembers(papers: seq<Paper>, keywords: seq<string>)
    ensures forall k :: k in Mentions(papers, keywords) <==> k in keywords && FirstMention(papers, k) < |papers|
  {
    if papers != [] {
      MentionsMembers(papers[..|papers| - 1], keywords);
    }
  }

  /** One step of `MentionsOrder`: the last paper's mentions come after the earlier papers' ones. */
  lemma MentionsPairOrder(papers: seq<Paper>, keywords: seq<string>, a: string, b: string)
    requires papers != []
    requires var m := Mentions(papers[..|papers| - 1], keywords);
             var f := Found(keywords, SearchText(papers[|papers| - 1]));
             && a in m + f && b in m + f
             && (a in m <==> a in keywords && FirstMention(papers[..|papers| - 1], a) < |papers| - 1)
             && (b in m <==> b in keywords && FirstMention(papers[..|papers| - 1], b) < |papers| - 1)
             && (a in m && b in m ==> (FirstAt(m, a) < FirstAt(m, b) <==> MentionedEarlier(papers[..|papers| - 1], keywords, a, b)))
             && (a in f && b in f ==> (FirstAt(f, a) < FirstAt(f, b) <==> FirstAt(keywords, a) < FirstAt(keywords, b)))
    ensures var m := Mentions(papers[..|papers| - 1], keywords);
            var f := Found(keywords, SearchText(papers[|papers| - 1]));
            FirstAt(m + f, a) < FirstAt(m + f, b) <==> MentionedEarlier(papers, keywords, a, b)
  {
    var m := Mentions(papers[..|papers| - 1], keywords);
    var f := Found(keywords, SearchText(papers[|papers| - 1]));
    FirstAtAppend(m, f, a);
    FirstAtAppend(m, f, b);
    FirstAtInside(m, a);
    FirstAtInside(m, b);
  }

  /** The mentions of the batch stand in the order of `MentionedEarlier`. */
  lemma {:induction false} MentionsOrder(papers: seq<Paper>, keywords: seq<string>)
    ensures forall a, b :: a in Mentions(papers, keywords) && b in Mentions(papers, keywords) ==>
      (FirstAt(Mentions(papers, keywords), a) < FirstAt(Mentions(papers, keywords), b) <==> MentionedEarlier(papers, keywords, a, b))
  {
    if papers != [] {
      var init := papers[..|papers| - 1];
      var m := Mentions(init, keywords);
      var f := Found(keywords, SearchText(papers[|papers| - 1]));
      MentionsOrder(init, keywords);
      MentionsMembers(init, keywords);
      FoundOrder(keywords, SearchText(papers[|papers| - 1]));
      forall a, b | a in m + f && b in m + f
        ensures FirstAt(m + f, a) < FirstAt(m + f, b) <==> MentionedEarlier(papers, keywords, a, b)
      {
        MentionsPairOrder(papers, keywords, a, b);
      }
    }
  }

  /** The values `f` gives for the elements of `xs` that it maps to something, in order. */
  function Picks(f: string -> Option<string>, xs: seq<string>): seq<string>
  {
    if xs == [] then []
    else
      Picks(f, xs[..|xs| - 1])
      + match f(xs[|xs| - 1]) case Some(v) => [v] case None => []
  }

  lemma {:induction false} PicksAppend(f: string -> Option<string>, xs: seq<string>, ys: seq<string>)
    ensures Picks(f, xs + ys) == Picks(f, xs) + Picks(f, ys)
  {
    if ys == [] {
      assert xs + ys == xs;
    } else {
      PicksAppend(f, xs, ys[..|ys| - 1]);
      assert (xs + ys)[..|xs + ys| - 1] == xs + ys[..|ys| - 1];
      assert (xs + ys)[|xs + ys| - 1] == ys[|ys| - 1];
    }
  }

  /** The index of the first element of `xs` that `f` maps to `v`, or `|xs|`. */
  function FirstPick(f: string -> Option<string>, xs: seq<string>, v: string): (i: nat)
    ensures i <= |xs|
    ensures i < |xs| ==> f(xs[i]) == Some(v)
    ensures forall j :: 0 <= j < i ==> f(xs[j]) != Some(v)
  {
    if xs == [] then 0
    else
      var f0 := FirstPick(f, xs[..|xs| - 1], v);
      if f0 < |xs| - 1 then f0
      else if f(xs[|xs| - 1]) == Some(v) then |xs| - 1
      else |xs|
  }

  /** The values picked stand in the order of the elements that first give them. */
  lemma {:induction false} PicksOrder(f: string -> Option<string>, xs: seq<string>)
    ensures forall v :: v in Picks(f, xs) <==> FirstPick(f, xs, v) < |xs|
    ensures forall a, b :: a in Picks(f, xs) && b in Picks(f, xs) ==>
      (FirstAt(Picks(f, xs), a) < FirstAt(Picks(f, xs), b) <==> FirstPick(f, xs, a) < FirstPick(f, xs, b))
  {
    if xs != [] {
      var init := xs[..|xs| - 1];
      var n := Picks(f, init);
      var tail := match f(xs[|xs| - 1]) case Some(v) => [v] case None => [];
      PicksOrder(f, init);
      forall a, b | a in n + tail && b in n + tail
        ensures FirstAt(n + tail, a) < FirstAt(n + tail, b) <==> FirstPick(f, xs, a) < FirstPick(f, xs, b)
      {
        FirstAtAppend(n, tail, a);
        FirstAtAppend(n, tail, b);
        FirstAtInside(n, a);
        FirstAtInside(n, b);
      }
    }
  }

  lemma {:induction false} AuthorPassKeys(c: Counter, authors: seq<string>)
    ensures Keys(AuthorPass(c, authors)) == Arrivals(Keys(c), Picks(AuthorInstitution, authors))
  {
    if authors != [] {
      var init := authors[..|authors| - 1];
      AuthorPassKeys(c, init);
      match AuthorInstitution(authors[|authors| - 1])
      case Some(inst) =>
        assert Picks(AuthorInstitution, authors) == Picks(AuthorInstitution, init) + [inst];
        ArrivalsSnoc(Keys(c), Picks(AuthorInstitution, init), inst);
      case None =>
        assert Picks(AuthorInstitution, authors) == Picks(AuthorInstitution, init);
    }
  }

  lemma {:induction false} TagPassKeys(c: Counter, tags: seq<string>)
    ensures Keys(TagPass(c, tags)) == Arrivals(Keys(c), tags)
  {
    if tags != [] {
      TagPassKeys(c, tags[..|tags| - 1]);
      ArrivalsSnoc(Keys(c), tags[..|tags| - 1], tags[|tags| - 1]);
      assert tags == tags[..|tags| - 1] + [tags[|tags| - 1]];
    }
  }

  /** All author bylines of the batch, paper by paper. */
  function Bylines(papers: seq<Paper>): seq<string>
  {
    if papers == [] then [] else Bylines(papers[..|papers| - 1]) + papers[|papers| - 1].authors
  }

  /** The keys of the batch's counters are what the per-paper increments add, in the order they come. */
  lemma {:induction false} TallyArrivals(papers: seq<Paper>)
    ensures var t := TallyOf(papers);
            && Keys(t.keywords) == Arrivals([], Mentions(papers, Flatten(TrendKeywords)))
            && Keys(t.emerging) == Arrivals([], Mentions(papers, EmergingKeywords))
            && Keys(t.institutions) == Arrivals([], Picks(AuthorInstitution, Bylines(papers)))
            && Keys(t.areas) == Arrivals([], AllTags(papers))
  {
    if papers != [] {
      var init := papers[..|papers| - 1];
      var p := papers[|papers| - 1];
      var t := TallyOf(init);
      var text := SearchText(p);
      TallyArrivals(init);
      CategoryPassKeys(t.categories, t.keywords, TrendKeywords, text);
      ArrivalsAppend([], Mentions(init, Flatten(TrendKeywords)), Found(Flatten(TrendKeywords), text));
      EmergingPassKeys(t.emerging, EmergingKeywords, text);
      ArrivalsAppend([], Mentions(init, EmergingKeywords), Found(EmergingKeywords, text));
      AuthorPassKeys(t.institutions, p.authors);
      PicksAppend(AuthorInstitution, Bylines(init), p.authors);
      ArrivalsAppend([], Picks(AuthorInstitution, Bylines(init)), Picks(AuthorInstitution, p.authors));
      TagPassKeys(t.areas, p.categories);
      ArrivalsAppend([], AllTags(init), p.categories);
    }
  }

  /**
   * `keyword_counts` holds one keyword before another exactly when an
   * earlier paper mentions it, or the same paper first mentions both and it
   * comes first in the keyword table; `most_common` breaks ties in this order.
   */
  lemma KeywordOrder(papers: seq<Paper>, a: string, b: string)
    requires a in Keys(TallyOf(papers).keywords) && b in Keys(TallyOf(papers).keywords)
    ensures FirstAt(Keys(TallyOf(papers).keywords), a) < FirstAt(Keys(TallyOf(papers).keywords), b)
            <==> MentionedEarlier(papers, Flatten(TrendKeywords), a, b)
  {
    var m := Mentions(papers, Flatten(TrendKeywords));
    TallyArrivals(papers);
    assert [] + m == m;
    ArrivalsOrder([], m);
    MentionsOrder(papers, Flatten(TrendKeywords));
  }

  /** The same for `emerging_counts`, with ties between one paper's keywords in the order of the emerging list. */
  lemma EmergingOrder(papers: seq<Paper>, a: string, b: string)
    requires a in Keys(TallyOf(papers).emerging) && b in Keys(TallyOf(papers).emerging)
    ensures FirstAt(Keys(TallyOf(papers).emerging), a) < FirstAt(Keys(TallyOf(papers).emerging), b)
            <==> MentionedEarlier(papers, EmergingKeywords, a, b)
  {
    var m := Mentions(papers, EmergingKeywords);
    TallyArrivals(papers);
    assert [] + m == m;
    ArrivalsOrder([], m);
    MentionsOrder(papers, EmergingKeywords);
  }

  /** `institution_counts` holds one institution before another exactly when an earlier byline of the batch is counted for it. */
  lemma InstitutionOrder(papers: seq<Paper>, a: string, b: string)
    requires a in Keys(TallyOf(papers).institutions) && b in Keys(TallyOf(papers).institutions)
    ensures FirstAt(Keys(TallyOf(papers).institutions), a) < FirstAt(Keys(TallyOf(papers).institutions), b)
            <==> FirstPick(AuthorInstitution, Bylines(papers), a) < FirstPick(AuthorInstitution, Bylines(papers), b)
  {
    var m := Picks(AuthorInstitution, Bylines(papers));
    TallyArrivals(papers);
    assert [] + m == m;
    ArrivalsOrder([], m);
    PicksOrder(AuthorInstitution, Bylines(papers));
  }

  /** `research_areas` counts tags in the order the batch first carries them. */
  lemma AreaOrder(papers: seq<Paper>, a: string, b: string)
    requires a in Keys(TallyOf(papers).areas) && b in Keys(TallyOf(papers).areas)
    ensures FirstAt(Keys(TallyOf(papers).areas), a) < FirstAt(Keys(TallyOf(papers).areas), b)
            <==> FirstAt(AllTags(papers), a) < FirstAt(AllTags(papers), b)
  {
    var m := AllTags(papers);
    TallyArrivals(papers);
    assert [] + m == m;
    ArrivalsOrder([], m);
  }

  // ----- the rankings -----

  /** `top_keywords`: the ten trend keywords found in the most papers, each with that number of papers. */
  lemma TopKeywordsRanked(papers: seq<Paper>)
    ensures var t := TallyOf(papers); var r := TrendsOf(papers).topKeywords;
            && IsTopRanking(r, t.keywords, 10)
            && forall e :: e in r ==> e.key in Flatten(TrendKeywords) && e.count == Presence(papers, e.key) && e.count >= 1
  {
    var t := TallyOf(papers);
    TallyKeywords(papers);
    MostCommonRanks(t.keywords, 10);
    MostCommonItems(t.keywords, 10);
  }

  /** `emerging_tech`: the five emerging keywords found in the most papers. */
  lemma EmergingTechRanked(papers: seq<Paper>)
    ensures var t := TallyOf(papers); var r := TrendsOf(papers).emergingTech;
            && IsTopRanking(r, t.emerging, 5)
            && forall e :: e in r ==> e.key in EmergingKeywords && e.count == Presence(papers, e.key) && e.count >= 1
  {
    var t := TallyOf(papers);
    TallyEmerging(papers);
    MostCommonRanks(t.emerging, 5);
    MostCommonItems(t.emerging, 5);
  }

  /** `active_institutions`: the five listed institutions with the most author bylines. */
  lemma ActiveInstitutionsRanked(papers: seq<Paper>)
    ensures var t := TallyOf(papers); var r := TrendsOf(papers).activeInstitutions;
            && IsTopRanking(r, t.institutions, 5)
            && forall e :: e in r ==> e.key in Institutions && e.count == Affiliations(papers, e.key) && e.count >= 1
  {
    var t := TallyOf(papers);
    TallyInstitutions(papers);
    MostCommonRanks(t.institutions, 5);
    MostCommonItems(t.institutions, 5);
  }

  /** `research_areas`: the eight category tags carried by the most papers, with their number of occurrences. */
  lemma ResearchAreasRanked(papers: seq<Paper>)
    ensures var t := TallyOf(papers); var r := TrendsOf(papers).researchAreas;
            && IsTopRanking(r, t.areas, 8)
            && forall e :: e in r ==> e.count == multiset(AllTags(papers))[e.key] && e.count >= 1
  {
    var t := TallyOf(papers);
    TallyAreas(papers);
    MostCommonRanks(t.areas, 8);
    MostCommonItems(t.areas, 8);
  }
}

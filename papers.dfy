/**
 * A paper as the feed stage hands it over: a Python dict with the keys
 * "title", "summary", "authors", "categories" and "link", to which the
 * importance filter later adds "importance_score". The core never changes the
 * other keys, so they are constant fields; the score is the one mutable field,
 * absent (`None`) until the filter writes it.
 */
module Papers {
  import opened Strings
  import opened Wrappers

  class Paper {
    const title: string
    const summary: string
    const authors: seq<string>
    const categories: seq<string>
    const link: string
    var importanceScore: Option<nat>

    constructor (title: string, summary: string, authors: seq<string>, categories: seq<string>, link: string)
      ensures this.title == title && this.summary == summary && this.authors == authors
      ensures this.categories == categories && this.link == link
      ensures importanceScore == None
    {
      this.title := title;
      this.summary := summary;
      this.authors := authors;
      this.categories := categories;
      this.link := link;
      importanceScore := None;
    }
  }

  /** `(paper["title"] + " " + paper["summary"]).lower()`: the text every keyword test searches. */
  function SearchText(p: Paper): (r: string)
    ensures |r| == |p.title| + 1 + |p.summary|
  {
    Lower(p.title + " " + p.summary)
  }

  /** Lowering works character by character, so the searched text is the lowered title, a space and the lowered abstract. */
  lemma SearchTextParts(p: Paper)
    ensures SearchText(p) == Lower(p.title) + " " + Lower(p.summary)
  {
    var r := Lower(p.title) + " " + Lower(p.summary);
    forall i | 0 <= i < |r| ensures SearchText(p)[i] == r[i] {
      if i < |p.title| {
        assert (p.title + " " + p.summary)[i] == p.title[i];
      } else if i > |p.title| {
        assert (p.title + " " + p.summary)[i] == p.summary[i - |p.title| - 1];
      }
    }
  }
}

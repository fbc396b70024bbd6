/**
 * `SlackClient`: posts messages to an incoming-webhook URL, and splits a list
 * of paper summaries into chunks that fit one message each.
 *
 * The HTTP post is not modelled: `deliver(n, payload)` stands for whether the
 * `n`-th post that reaches the network gets status 200 (any other status and
 * any request exception both count as failure). The client records, in
 * `sent`, every payload it hands to the network, in order.
 */
module SlackClient {
  import opened Strings
  import opened Wrappers

  /** The chunk budget of slack_client.py:68. */
  const MaxChunkSize: nat := 3500

  /** The separator placed between two summaries of one chunk. */
  const Blank: string := "\n\n"

  /** The JSON body of one post (slack_client.py:26-32). */
  datatype Payload = Payload(text: string, mrkdwn: bool, channel: Option<string>)

  /** `channel` is truthy: given and not empty. */
  predicate Given(channel: Option<string>)
  {
    channel.Some? && channel.value != ""
  }

  /** Lines 26-32: Markdown is always on, and the channel is included only when one is given. */
  function MakePayload(text: string, channel: Option<string>): (p: Payload)
    ensures p.text == text && p.mrkdwn
    ensures p.channel.Some? <==> Given(channel)
    ensures p.channel.Some? ==> p.channel == channel
  {
    Payload(text, true, if Given(channel) then channel else None)
  }

  // ----- chunking (slack_client.py:70-87) -----

  /** One iteration of the loop at line 73: the chunk being filled and the chunks already closed. */
  function PackStep(current: string, chunks: seq<string>, summary: string): (string, seq<string>)
  {
    if |current| + |summary| + 2 < MaxChunkSize then
      (if current != "" then current + Blank + summary else summary, chunks)
    else
      (summary, if current != "" then chunks + [current] else chunks)
  }

  /** The state after the loop at line 73 has run over `summaries`. */
  function PackState(summaries: seq<string>): (string, seq<string>)
  {
    if summaries == [] then ("", [])
    else
      var prev := PackState(summaries[..|summaries| - 1]);
      PackStep(prev.0, prev.1, summaries[|summaries| - 1])
  }

  /** `chunks` after line 87. */
  function Chunks(summaries: seq<string>): seq<string>
  {
    var (current, chunks) := PackState(summaries);
    if current != "" then chunks + [current] else chunks
  }

  /** Lines 70-87. */
  method PackChunks(summaries: seq<string>) returns (chunks: seq<string>)
    ensures chunks == Chunks(summaries)
  {
    var currentChunk := "";
    chunks := [];
    var i := 0;
    while i < |summaries|
      invariant 0 <= i <= |summaries|
      invariant (currentChunk, chunks) == PackState(summaries[..i])
    {
      var summary := summaries[i];
      ghost var next := PackStep(currentChunk, chunks, summary);
      if |currentChunk| + |summary| + 2 < MaxChunkSize {
        if currentChunk != "" {
          currentChunk := currentChunk + Blank;
        }
        currentChunk := currentChunk + summary;
        assert currentChunk == next.0;
      } else {
        if currentChunk != "" {
          chunks := chunks + [currentChunk];
        }
        currentChunk := summary;
      }
      assert summaries[..i + 1][..i] == summaries[..i];
      i := i + 1;
    }
    assert summaries[..i] == summaries;
    if currentChunk != "" {
      chunks := chunks + [currentChunk];
    }
  }

  /** The heading of chunk `i` of `n` (line 94). */
  function ChunkHeader(i: nat, n: nat): string
  {
    "*📊 AI論文日報 (" + NatToString(i + 1) + "/" + NatToString(n) + ")*\n\n"
  }

  /** Lines 92-96: the text posted for chunk `i`. */
  function ChunkText(chunks: seq<string>, i: nat): string
    requires i < |chunks|
  {
    if |chunks| > 1 then ChunkHeader(i, |chunks|) + chunks[i] else chunks[i]
  }

  /** The texts posted for all chunks, in order. */
  function ChunkTexts(chunks: seq<string>): (texts: seq<string>)
    ensures |texts| == |chunks|
    ensures forall i :: 0 <= i < |chunks| ==> texts[i] == ChunkText(chunks, i)
  {
    seq(|chunks|, i requires 0 <= i < |chunks| => ChunkText(chunks, i))
  }

  /** The payloads a configured client posts for `texts` (no channel is passed at line 98). */
  function Payloads(texts: seq<string>): (ps: seq<Payload>)
    ensures |ps| == |texts|
    ensures forall i :: 0 <= i < |texts| ==> ps[i] == MakePayload(texts[i], None)
  {
    seq(|texts|, i requires 0 <= i < |texts| => MakePayload(texts[i], None))
  }

  /** Whether the `n`-th post, carrying `p`, is answered with status 200. */
  predicate Accepted(deliver: (nat, Payload) -> bool, n: nat, p: Payload)
  {
    deliver(n, p)
  }

  class SlackClient {
    /** `self.webhook_url`. */
    const webhookUrl: Option<string>
    /** Every payload handed to the network so far. */
    var sent: seq<Payload>

    /** Line 9: the given URL when it is truthy, otherwise the `SLACK_WEBHOOK_URL` environment value. */
    constructor (webhookUrl: Option<string>, environment: Option<string>)
      ensures this.webhookUrl == if Given(webhookUrl) then webhookUrl else environment
      ensures sent == []
    {
      this.webhookUrl := if Given(webhookUrl) then webhookUrl else environment;
      sent := [];
    }

    /** Line 22: a webhook URL is configured. */
    predicate Configured()
    {
      Given(webhookUrl)
    }

    /** Whether every one of `texts` was delivered, posted from the `base`-th post on. */
    predicate AllDelivered(base: nat, texts: seq<string>, deliver: (nat, Payload) -> bool)
    {
      Configured() && forall i :: 0 <= i < |texts| ==> Accepted(deliver, base + i, MakePayload(texts[i], None))
    }

    /** `send_message(text, channel)` (lines 11-51). */
    method SendMessage(text: string, deliver: (nat, Payload) -> bool, channel: Option<string> := None) returns (ok: bool)
      modifies this
      ensures !Configured() ==> !ok && sent == old(sent)
      ensures Configured() ==> sent == old(sent) + [MakePayload(text, channel)]
                               && ok == Accepted(deliver, |old(sent)|, MakePayload(text, channel))
    {
      if !Configured() {
        return false;
      }
      var payload := Payload(text, true, None);
      if Given(channel) {
        payload := payload.(channel := channel);
      }
      ok := deliver(|sent|, payload);
      sent := sent + [payload];
    }

    /**
     * `send_paper_summaries(summaries)` (lines 53-102): nothing is sent for an
     * empty list; otherwise every chunk is posted, failures included, and the
     * result says whether all posts succeeded.
     */
    method SendPaperSummaries(summaries: seq<string>, deliver: (nat, Payload) -> bool) returns (ok: bool)
      modifies this
      ensures summaries == [] ==> !ok && sent == old(sent)
      ensures summaries != [] ==>
                && sent == old(sent) + (if Configured() then Payloads(ChunkTexts(Chunks(summaries))) else [])
                && (ok <==> Chunks(summaries) == [] || AllDelivered(|old(sent)|, ChunkTexts(Chunks(summaries)), deliver))
    {
      if summaries == [] {
        return false;
      }
      var chunks := PackChunks(summaries);
      ok := PostChunks(chunks, deliver);
    }

    /** Lines 90-102: every chunk is posted in order, numbered when there are several. */
    method PostChunks(chunks: seq<string>, deliver: (nat, Payload) -> bool) returns (ok: bool)
      modifies this
      ensures Configured() ==> sent == old(sent) + Payloads(ChunkTexts(chunks))
      ensures !Configured() ==> sent == old(sent)
      ensures ok <==> chunks == [] || AllDelivered(|old(sent)|, ChunkTexts(chunks), deliver)
    {
      ghost var texts := ChunkTexts(chunks);
      ghost var base := |sent|;
      var allSuccess := true;
      var i := 0;
      while i < |chunks|
        invariant 0 <= i <= |chunks|
        invariant Configured() ==> sent == old(sent) + Payloads(texts[..i])
        invariant !Configured() ==> sent == old(sent)
        invariant allSuccess == Outcome(base, texts[..i], deliver)
      {
        var chunkText := ChunkText(chunks, i);
        PostedPrefix(texts, i);
        OutcomeStep(base, texts, i, deliver);
        var success := SendMessage(chunkText, deliver);
        assert success == (Configured() && Accepted(deliver, base + i, MakePayload(texts[i], None)));
        if !success {
          allSuccess := false;
        }
        i := i + 1;
      }
      assert texts[..i] == texts;
      OutcomeMeaning(base, texts, deliver);
      ok := allSuccess;
    }

    /** The result of the loop at line 97 after posting `texts` from the `base`-th post on. */
    predicate Outcome(base: nat, texts: seq<string>, deliver: (nat, Payload) -> bool)
    {
      texts == [] ||
      (&& Outcome(base, texts[..|texts| - 1], deliver)
       && Configured() && Accepted(deliver, base + |texts| - 1, MakePayload(texts[|texts| - 1], None)))
    }

    lemma OutcomeStep(base: nat, texts: seq<string>, i: nat, deliver: (nat, Payload) -> bool)
      requires i < |texts|
      ensures Outcome(base, texts[..i + 1], deliver)
              == (Outcome(base, texts[..i], deliver) && Configured() && Accepted(deliver, base + i, MakePayload(texts[i], None)))
    {
      assert texts[..i + 1][..i] == texts[..i];
    }

    lemma {:induction false} OutcomeMeaning(base: nat, texts: seq<string>, deliver: (nat, Payload) -> bool)
      ensures Outcome(base, texts, deliver) <==> texts == [] || AllDelivered(base, texts, deliver)
    {
      if texts != [] {
        var init := texts[..|texts| - 1];
        OutcomeMeaning(base, init, deliver);
        if init != [] && AllDelivered(base, texts, deliver) {
          assert forall k :: 0 <= k < |init| ==> init[k] == texts[k];
        }
      }
    }
  }

  /** Extending the posted prefix by one text adds one payload. */
  lemma PostedPrefix(texts: seq<string>, i: nat)
    requires i < |texts|
    ensures texts[..i + 1][..i] == texts[..i] && texts[..i + 1][i] == texts[i]
    ensures Payloads(texts[..i + 1]) == Payloads(texts[..i]) + [MakePayload(texts[i], None)]
  {
  }

  // ----- what the chunking keeps -----

  /** Every summary is non-empty. */
  predicate NoneEmpty(summaries: seq<string>)
  {
    forall i :: 0 <= i < |summaries| ==> summaries[i] != ""
  }

  /** The invariant of the packing loop, for summaries that are all non-empty. */
  ghost predicate PackInvariant(summaries: seq<string>, current: string, chunks: seq<string>)
  {
    && (summaries == [] <==> current == "")
    && (summaries == [] ==> chunks == [])
    && (summaries != [] ==> Join(chunks + [current], Blank) == Join(summaries, Blank))
  }

  lemma JoinExtendLast(xs: seq<string>, a: string, b: string)
    ensures Join(xs + [a + Blank + b], Blank) == Join(xs + [a], Blank) + Blank + b
  {
    if xs == [] {
    } else {
      assert (xs + [a + Blank + b])[..|xs|] == xs;
      assert (xs + [a])[..|xs|] == xs;
    }
  }

  lemma {:induction false} PackKeepsText(summaries: seq<string>)
    requires NoneEmpty(summaries)
    ensures PackInvariant(summaries, PackState(summaries).0, PackState(summaries).1)
  {
    if summaries != [] {
      var init := summaries[..|summaries| - 1];
      var s := summaries[|summaries| - 1];
      PackKeepsText(init);
      var (current, chunks) := PackState(init);
      if init != [] {
        assert summaries == init + [s];
        JoinSnoc(init, s, Blank);
        if |current| + |s| + 2 < MaxChunkSize {
          JoinExtendLast(chunks, current, s);
        } else {
          JoinSnoc(chunks + [current], s, Blank);
        }
      }
    }
  }

  /**
   * No chunk is empty, and when every summary is non-empty the chunks hold the
   * summaries in order: joining the chunks gives the joined summaries.
   */
  lemma ChunksKeepText(summaries: seq<string>)
    requires NoneEmpty(summaries)
    ensures Join(Chunks(summaries), Blank) == Join(summaries, Blank)
  {
    PackKeepsText(summaries);
  }

  lemma {:induction false} PackNoEmpty(summaries: seq<string>)
    ensures forall c :: c in PackState(summaries).1 ==> c != ""
    ensures |PackState(summaries).1| + (if PackState(summaries).0 != "" then 1 else 0) <= |summaries|
  {
    if summaries != [] {
      PackNoEmpty(summaries[..|summaries| - 1]);
    }
  }

  /** Lines 76-87 never close an empty chunk, and there are never more chunks than summaries. */
  lemma ChunksNonEmpty(summaries: seq<string>)
    ensures forall c :: c in Chunks(summaries) ==> c != ""
    ensures |Chunks(summaries)| <= |summaries|
  {
    PackNoEmpty(summaries);
  }

  /** The runs of summaries laid end to end. */
  function Concat(runs: seq<seq<string>>): seq<string>
  {
    if runs == [] then [] else Concat(runs[..|runs| - 1]) + runs[|runs| - 1]
  }

  lemma ConcatSnoc(runs: seq<seq<string>>, run: seq<string>)
    ensures Concat(runs + [run]) == Concat(runs) + run
  {
    assert (runs + [run])[..|runs|] == runs;
  }

  /**
   * Alongside `PackState`: the summaries that went into the chunk being
   * filled, and the run of summaries behind each closed chunk.
   */
  function PackRuns(summaries: seq<string>): (seq<string>, seq<seq<string>>)
  {
    if summaries == [] then ([], [])
    else
      var init := summaries[..|summaries| - 1];
      var s := summaries[|summaries| - 1];
      var prev := PackRuns(init);
      var current := PackState(init).0;
      if |current| + |s| + 2 < MaxChunkSize then (prev.0 + [s], prev.1)
      else ([s], if current != "" then prev.1 + [prev.0] else prev.1)
  }

  /** The run of summaries behind each chunk of `Chunks(summaries)`. */
  function Runs(summaries: seq<string>): seq<seq<string>>
  {
    var (run, runs) := PackRuns(summaries);
    if PackState(summaries).0 != "" then runs + [run] else runs
  }

  /** A chunk holds a non-empty run of summaries joined by the blank line, and is under budget when the run has two or more. */
  ghost predicate ChunkOfRun(chunk: string, run: seq<string>)
  {
    && run != []
    && chunk == Join(run, Blank)
    && (|run| >= 2 ==> |chunk| < MaxChunkSize)
  }

  /** The invariant of the packing loop over non-empty summaries, in terms of runs. */
  lemma {:induction false} PackRunsShape(summaries: seq<string>)
    requires NoneEmpty(summaries)
    ensures var (current, chunks) := PackState(summaries);
            var (run, runs) := PackRuns(summaries);
            && |runs| == |chunks|
            && (forall k :: 0 <= k < |runs| ==> ChunkOfRun(chunks[k], runs[k]))
            && (current == "" <==> run == [])
            && (run != [] ==> ChunkOfRun(current, run))
            && Concat(runs) + run == summaries
  {
    if summaries != [] {
      var init := summaries[..|summaries| - 1];
      var s := summaries[|summaries| - 1];
      assert NoneEmpty(init) by {
        forall i | 0 <= i < |init| ensures init[i] != "" {
          assert init[i] == summaries[i];
        }
      }
      PackRunsShape(init);
      var (current, chunks) := PackState(init);
      var (run, runs) := PackRuns(init);
      assert summaries == init + [s];
      if |current| + |s| + 2 < MaxChunkSize {
        if current != "" {
          JoinSnoc(run, s, Blank);
        }
        assert Concat(runs) + (run + [s]) == (Concat(runs) + run) + [s];
      } else if current != "" {
        ConcatSnoc(runs, run);
      }
    }
  }

  /**
   * For non-empty summaries the chunks are consecutive runs of the summaries:
   * laid end to end the runs give back the summaries, and each chunk is its
   * run joined by the blank line.
   */
  lemma ChunksAreRuns(summaries: seq<string>)
    requires NoneEmpty(summaries)
    ensures var runs := Runs(summaries);
            && Concat(runs) == summaries
            && |runs| == |Chunks(summaries)|
            && forall k :: 0 <= k < |runs| ==> ChunkOfRun(Chunks(summaries)[k], runs[k])
  {
    PackRunsShape(summaries);
    var (run, runs) := PackRuns(summaries);
    if PackState(summaries).0 != "" {
      ConcatSnoc(runs, run);
    } else {
      assert Concat(runs) + run == Concat(runs);
    }
  }

  lemma {:induction false} PackWithinBudget(summaries: seq<string>)
    ensures var (current, chunks) := PackState(summaries);
            && (current == "" || |current| < MaxChunkSize || current in summaries)
            && forall c :: c in chunks ==> |c| < MaxChunkSize || c in summaries
    ensures NoneEmpty(summaries) ==>
            var (current, chunks) := PackState(summaries);
            var (run, runs) := PackRuns(summaries);
            && (|current| >= MaxChunkSize ==> run == [current])
            && |runs| == |chunks|
            && forall k :: 0 <= k < |chunks| && |chunks[k]| >= MaxChunkSize ==> runs[k] == [chunks[k]]
  {
    if summaries != [] {
      var init := summaries[..|summaries| - 1];
      PackWithinBudget(init);
      assert forall c :: c in init ==> c in summaries;
    }
    if NoneEmpty(summaries) {
      PackRunsShape(summaries);
    }
  }

  /**
   * A chunk reaches the budget only when it is one oversized summary on its
   * own; every chunk that joins two or more summaries is under 3500 characters.
   */
  lemma ChunksWithinBudget(summaries: seq<string>)
    ensures forall c :: c in Chunks(summaries) && |c| >= MaxChunkSize ==> c in summaries
    ensures NoneEmpty(summaries) ==>
            && |Runs(summaries)| == |Chunks(summaries)|
            && forall k :: 0 <= k < |Chunks(summaries)| && |Chunks(summaries)[k]| >= MaxChunkSize ==>
                 Runs(summaries)[k] == [Chunks(summaries)[k]]
  {
    PackWithinBudget(summaries);
    if NoneEmpty(summaries) {
      ChunksAreRuns(summaries);
    }
  }

  /** A single chunk is posted as it is; several chunks each get the heading with their number and the count. */
  lemma ChunkTextsNumbered(chunks: seq<string>)
    ensures |chunks| == 1 ==> ChunkTexts(chunks) == chunks
    ensures |chunks| > 1 ==> forall i :: 0 <= i < |chunks| ==>
              ChunkTexts(chunks)[i] == ChunkHeader(i, |chunks|) + chunks[i]
              && IsPrefix(ChunkHeader(i, |chunks|), ChunkTexts(chunks)[i])
  {
    if |chunks| > 1 {
      forall i | 0 <= i < |chunks| ensures IsPrefix(ChunkHeader(i, |chunks|), ChunkTexts(chunks)[i]) {
        assert (ChunkHeader(i, |chunks|) + chunks[i])[..|ChunkHeader(i, |chunks|)|] == ChunkHeader(i, |chunks|);
      }
    }
  }

  /** Two texts laid out as `open + a + sep + m + close` that differ only in `a`, differ. */
  lemma MiddlesDiffer(open: string, a: string, b: string, sep: string, m: string, close: string)
    requires a != b
    ensures open + a + sep + m + close != open + b + sep + m + close
  {
    var tail := sep + m + close;
    assert open + a + sep + m + close == open + a + tail;
    assert open + b + sep + m + close == open + b + tail;
    if |a| == |b| {
      assert (open + a + tail)[|open|..|open| + |a|] == a;
      assert (open + b + tail)[|open|..|open| + |b|] == b;
    } else {
      assert |open + a + tail| != |open + b + tail|;
    }
  }

  /** Chunk headings are told apart by their number: two chunks of one message never share a heading. */
  lemma ChunkHeadersDistinct(i: nat, j: nat, n: nat)
    requires i != j
    ensures ChunkHeader(i, n) != ChunkHeader(j, n)
  {
    NatToStringValue(i + 1);
    NatToStringValue(j + 1);
    MiddlesDiffer("*📊 AI論文日報 (", NatToString(i + 1), NatToString(j + 1), "/", NatToString(n), ")*\n\n");
  }
}

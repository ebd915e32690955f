/** The Transcribe streaming results every handler of the system filters, and the two filters
    they use. */
module Transcripts {
  import opened PyStr

  /** One `Result` of a `TranscriptEvent`: whether it is partial, and the transcript text of each
      of its alternatives. */
  datatype TranscriptResult = TranscriptResult(isPartial: bool, alternatives: seq<string>)

  /** Texts a handler may forward: each is non-empty and has no surrounding whitespace. */
  predicate Forwardable(texts: seq<string>) {
    forall k :: 0 <= k < |texts| ==> texts[k] != [] && IsStripped(texts[k])
  }

  /** The stripped, non-empty texts among `alts`, in order. */
  function Kept(alts: seq<string>): (r: seq<string>)
  {
    if alts == [] then []
    else
      var t := Strip(alts[|alts| - 1]);
      Kept(alts[..|alts| - 1]) + (if t != [] then [t] else [])
  }

  /** What a handler forwards when it takes every alternative of every final result. */
  function FinalAlternatives(results: seq<TranscriptResult>): (r: seq<string>)
  {
    if results == [] then []
    else
      var last := results[|results| - 1];
      FinalAlternatives(results[..|results| - 1]) + (if last.isPartial then [] else Kept(last.alternatives))
  }

  /** What one result contributes when a handler takes only its first alternative. */
  function FirstText(res: TranscriptResult): (r: seq<string>)
  {
    if res.isPartial || res.alternatives == [] then []
    else
      var t := Strip(res.alternatives[0]);
      if t != [] then [t] else []
  }

  /** What a handler forwards when it takes the first alternative of each final result that has
      one. */
  function FirstAlternatives(results: seq<TranscriptResult>): (r: seq<string>)
  {
    if results == [] then []
    else FirstAlternatives(results[..|results| - 1]) + FirstText(results[|results| - 1])
  }

  /** A final result whose `alternatives[0]` raises `IndexError`. */
  predicate Unindexable(res: TranscriptResult) {
    !res.isPartial && res.alternatives == []
  }

  /** Texts a handler forwarded before it stopped, and whether it stopped on an exception. */
  datatype Scan = Scan(texts: seq<string>, raised: bool)

  /** The first-alternative filter written without the `if result.alternatives` guard: the first
      final result without alternatives raises `IndexError` and ends the scan. */
  function FirstAlternativesUnchecked(results: seq<TranscriptResult>): (r: Scan)
    ensures r.raised <==> exists i :: 0 <= i < |results| && Unindexable(results[i])
    ensures !r.raised ==> r.texts == FirstAlternatives(results)
    ensures r.texts <= FirstAlternatives(results)
  {
    if results == [] then Scan([], false)
    else
      var n := |results| - 1;
      var prefix := FirstAlternativesUnchecked(results[..n]);
      assert forall i :: 0 <= i < n ==> results[..n][i] == results[i];
      if prefix.raised then prefix
      else if Unindexable(results[n]) then Scan(prefix.texts, true)
      else Scan(prefix.texts + FirstText(results[n]), false)
  }

  /** One more result of a scan that has not raised: it either raises or adds its first text. */
  lemma UncheckedStep(results: seq<TranscriptResult>, i: nat)
    requires i < |results| && !FirstAlternativesUnchecked(results[..i]).raised
    ensures var prefix := FirstAlternativesUnchecked(results[..i]).texts;
      FirstAlternativesUnchecked(results[..i + 1])
        == if Unindexable(results[i]) then Scan(prefix, true) else Scan(prefix + FirstText(results[i]), false)
  {
    assert results[..i + 1][..i] == results[..i];
  }

  /** Once a prefix of the results has raised, so has the whole event, with the same texts
      forwarded. */
  lemma {:induction false} FirstUncheckedStops(results: seq<TranscriptResult>, n: nat)
    requires n <= |results| && FirstAlternativesUnchecked(results[..n]).raised
    ensures FirstAlternativesUnchecked(results).raised
    ensures FirstAlternativesUnchecked(results).texts == FirstAlternativesUnchecked(results[..n]).texts
    decreases |results| - n
  {
    if n < |results| {
      assert results[..n + 1][..n] == results[..n];
      FirstUncheckedStops(results, n + 1);
    } else {
      assert results[..n] == results;
    }
  }

  lemma {:induction false} KeptForwardable(alts: seq<string>)
    ensures Forwardable(Kept(alts))
    decreases |alts|
  {
    if alts != [] {
      KeptForwardable(alts[..|alts| - 1]);
      StripSpec(alts[|alts| - 1]);
    }
  }

  /** Every text the all-alternatives handlers forward is non-empty and stripped. */
  lemma {:induction false} FinalAlternativesForwardable(results: seq<TranscriptResult>)
    ensures Forwardable(FinalAlternatives(results))
    decreases |results|
  {
    if results != [] {
      FinalAlternativesForwardable(results[..|results| - 1]);
      KeptForwardable(results[|results| - 1].alternatives);
    }
  }

  /** Every text the first-alternative handlers forward is non-empty and stripped. */
  lemma {:induction false} FirstAlternativesForwardable(results: seq<TranscriptResult>)
    ensures Forwardable(FirstAlternatives(results))
    decreases |results|
  {
    if results != [] {
      var last := results[|results| - 1];
      FirstAlternativesForwardable(results[..|results| - 1]);
      if last.alternatives != [] {
        StripSpec(last.alternatives[0]);
      }
    }
  }

  lemma {:induction false} KeptSnoc(alts: seq<string>, j: nat)
    requires j < |alts|
    ensures Kept(alts[..j + 1]) == Kept(alts[..j]) + (if Strip(alts[j]) != [] then [Strip(alts[j])] else [])
  {
    assert alts[..j + 1][..j] == alts[..j];
  }

  lemma {:induction false} FinalAlternativesSnoc(results: seq<TranscriptResult>, i: nat)
    requires i < |results|
    ensures FinalAlternatives(results[..i + 1])
         == FinalAlternatives(results[..i]) + (if results[i].isPartial then [] else Kept(results[i].alternatives))
  {
    assert results[..i + 1][..i] == results[..i];
  }

  lemma {:induction false} FirstAlternativesSnoc(results: seq<TranscriptResult>, i: nat)
    requires i < |results|
    ensures FirstAlternatives(results[..i + 1]) == FirstAlternatives(results[..i]) + FirstText(results[i])
  {
    assert results[..i + 1][..i] == results[..i];
  }

  lemma {:induction false} FinalAlternativesAppend(a: seq<TranscriptResult>, b: seq<TranscriptResult>)
    ensures FinalAlternatives(a + b) == FinalAlternatives(a) + FinalAlternatives(b)
    decreases |b|
  {
    if b != [] {
      var n := |b| - 1;
      assert (a + b)[..|a + b| - 1] == a + b[..n];
      FinalAlternativesAppend(a, b[..n]);
    } else {
      assert a + b == a;
    }
  }

  lemma {:induction false} FirstAlternativesAppend(a: seq<TranscriptResult>, b: seq<TranscriptResult>)
    ensures FirstAlternatives(a + b) == FirstAlternatives(a) + FirstAlternatives(b)
    decreases |b|
  {
    if b != [] {
      var n := |b| - 1;
      assert (a + b)[..|a + b| - 1] == a + b[..n];
      FirstAlternativesAppend(a, b[..n]);
    } else {
      assert a + b == a;
    }
  }

  lemma DropEmpty<T>(a: seq<T>, mid: seq<T>, b: seq<T>)
    requires mid == []
    ensures a + (mid + b) == a + b
  {
  }

  lemma {:induction false} PartialContributesNothing(res: TranscriptResult)
    requires res.isPartial
    ensures FinalAlternatives([res]) == []
  {
    assert [res][..0] == [];
  }

  lemma {:induction false} SkippedContributesNothing(res: TranscriptResult)
    requires res.isPartial || res.alternatives == []
    ensures FirstAlternatives([res]) == []
  {
    assert [res][..0] == [];
  }

  /** A partial result never contributes: removing it leaves the forwarded texts unchanged. */
  lemma {:induction false} PartialIgnoredByFinalAlternatives(results: seq<TranscriptResult>, i: nat)
    requires i < |results| && results[i].isPartial
    ensures FinalAlternatives(results) == FinalAlternatives(results[..i] + results[i + 1..])
  {
    var pre, res, rest := results[..i], results[i], results[i + 1..];
    assert results == pre + ([res] + rest);
    FinalAlternativesAppend(pre, [res] + rest);
    FinalAlternativesAppend([res], rest);
    PartialContributesNothing(res);
    FinalAlternativesAppend(pre, rest);
    DropEmpty(FinalAlternatives(pre), FinalAlternatives([res]), FinalAlternatives(rest));
  }

  /** A partial result, or a final one without alternatives, never contributes. */
  lemma {:induction false} SkippedByFirstAlternatives(results: seq<TranscriptResult>, i: nat)
    requires i < |results| && (results[i].isPartial || results[i].alternatives == [])
    ensures FirstAlternatives(results) == FirstAlternatives(results[..i] + results[i + 1..])
  {
    var pre, res, rest := results[..i], results[i], results[i + 1..];
    assert results == pre + ([res] + rest);
    FirstAlternativesAppend(pre, [res] + rest);
    FirstAlternativesAppend([res], rest);
    SkippedContributesNothing(res);
    FirstAlternativesAppend(pre, rest);
    DropEmpty(FirstAlternatives(pre), FirstAlternatives([res]), FirstAlternatives(rest));
  }

  /** Appending `more` to `log + done` is appending `done + more` to `log`. */
  lemma ExtendBy<T>(log: seq<T>, done: seq<T>, more: seq<T>, total: seq<T>)
    requires total == done + more
    ensures log + done + more == log + total
  {
  }

  /** `TranscribeHandler` of stt/stt.py; tools/flow_utils.py and
      live_transcriber/live_transcriber.py have the same handler, putting each text on an
      `asyncio.Queue` where this one appends it to a list. */
  class TranscribeHandler {
    var finalTranscripts: seq<string>

    constructor ()
      ensures finalTranscripts == []
    {
      finalTranscripts := [];
    }

    /** `handle_transcript_event`: every stripped, non-empty alternative of every final result
        is appended, in order. */
    method HandleTranscriptEvent(results: seq<TranscriptResult>)
      modifies this
      ensures finalTranscripts == old(finalTranscripts) + FinalAlternatives(results)
    {
      var i := 0;
      while i < |results|
        invariant 0 <= i <= |results|
        invariant finalTranscripts == old(finalTranscripts) + FinalAlternatives(results[..i])
      {
        FinalAlternativesSnoc(results, i);
        if !results[i].isPartial {
          AppendAlternatives(results[i].alternatives);
          ExtendBy(old(finalTranscripts), FinalAlternatives(results[..i]), Kept(results[i].alternatives), FinalAlternatives(results[..i + 1]));
        } else {
          ExtendBy(old(finalTranscripts), FinalAlternatives(results[..i]), [], FinalAlternatives(results[..i + 1]));
        }
        i := i + 1;
      }
      assert results[..i] == results;
    }

    /** The inner loop of `handle_transcript_event`, over the alternatives of one final result. */
    method AppendAlternatives(alts: seq<string>)
      modifies this
      ensures finalTranscripts == old(finalTranscripts) + Kept(alts)
    {
      var j := 0;
      while j < |alts|
        invariant 0 <= j <= |alts|
        invariant finalTranscripts == old(finalTranscripts) + Kept(alts[..j])
      {
        var t := Strip(alts[j]);
        KeptSnoc(alts, j);
        if t != [] {
          finalTranscripts := finalTranscripts + [t];
          ExtendBy(old(finalTranscripts), Kept(alts[..j]), [t], Kept(alts[..j + 1]));
        } else {
          ExtendBy(old(finalTranscripts), Kept(alts[..j]), [], Kept(alts[..j + 1]));
        }
        j := j + 1;
      }
      assert alts[..j] == alts;
    }
  }
}

/**
 * The fragment-streaming loop of `AppState.complete`. The engine is modelled
 * as the finite sequence of text fragments `completion_loop` would return
 * while `n_cur < n_len`; the loop consumes a prefix of it.
 */
module Streaming {
  import opened Wrappers
  import opened Text

  /** Turn-boundary marker: the start of the next role tag. */
  const TurnMarker: string := "###"
  /** End-of-sequence token text. */
  const EndOfSequence: string := "</s>"
  /** Begin-of-sequence token text, which should never be generated. */
  const BeginOfSequence: string := "<s>"
  /** Unknown-token text. */
  const UnknownToken: string := "<unk>"

  /** `isInvalidResponse`: the fragment carries a degenerate token. */
  predicate IsInvalidResponse(fragment: string)
    ensures IsInvalidResponse(fragment) ==> '<' in fragment
  {
    ContainsFirstChar(fragment, BeginOfSequence);
    ContainsFirstChar(fragment, UnknownToken);
    Contains(fragment, BeginOfSequence) || Contains(fragment, UnknownToken)
  }

  /** The text kept from a fragment that ends the turn: whatever precedes the
      first `###`, or failing that the first `</s>`, trimmed; `None` when the
      fragment holds neither marker. */
  function MarkerCut(fragment: string): (r: Option<string>)
    ensures r.None? <==> !Contains(fragment, TurnMarker) && !Contains(fragment, EndOfSequence)
    ensures forall i: nat :: IsFirstOccurrence(fragment, TurnMarker, i) ==> r == Some(Trim(fragment[..i]))
    ensures !Contains(fragment, TurnMarker) ==>
      forall i: nat :: IsFirstOccurrence(fragment, EndOfSequence, i) ==> r == Some(Trim(fragment[..i]))
  {
    match FirstIndexOf(fragment, TurnMarker)
    case Some(i) =>
      FirstOccurrenceUnique(fragment, TurnMarker, i);
      Some(Trim(fragment[..i]))
    case None =>
      match FirstIndexOf(fragment, EndOfSequence)
      case Some(j) =>
        FirstOccurrenceUnique(fragment, EndOfSequence, j);
        Some(Trim(fragment[..j]))
      case None => None
  }

  /** What one fragment does to the loop: a degenerate token aborts it, a
      marker ends it keeping the text before the marker, anything else is
      appended verbatim. The degenerate-token check comes first. */
  datatype Verdict = Degenerate | Boundary(kept: string) | Ordinary

  function Classify(fragment: string): (v: Verdict)
    ensures v == Degenerate <==> IsInvalidResponse(fragment)
    ensures v.Boundary? <==> !IsInvalidResponse(fragment) && MarkerCut(fragment).Some?
    ensures v.Boundary? ==> MarkerCut(fragment) == Some(v.kept)
  {
    if IsInvalidResponse(fragment) then Degenerate
    else match MarkerCut(fragment)
      case Some(kept) => Boundary(kept)
      case None => Ordinary
  }

  /** The fragments joined end to end. */
  function Concat(fragments: seq<string>): string
    decreases |fragments|
  {
    if |fragments| == 0 then "" else fragments[0] + Concat(fragments[1..])
  }

  /** How the streaming loop ended: at a marker (`generationCompleted`), on
      an invalid fragment (`invalidResponseDetected`), or with the token
      budget used up and neither flag set. */
  datatype StreamEnd = AtMarker | Invalid | Exhausted

  /** The loop's outcome: the text in `collectedResponse` when it left the
      loop, why it left, and how many fragments it pulled from the engine. */
  datatype StreamResult = StreamResult(collected: string, end: StreamEnd, consumed: nat) {
    /** Fragments appended verbatim before the last one pulled. */
    function PlainCount(): int {
      if end == Exhausted then consumed else consumed - 1
    }
  }

  /** The loop over the engine's fragments, for a given per-fragment verdict.
      Fragments are consumed in order; the loop stops at the first fragment
      that is not `Ordinary`, or when the budget runs out. */
  function Run(classify: string -> Verdict, fragments: seq<string>): (r: StreamResult)
    ensures r.consumed <= |fragments|
    ensures r.end != Exhausted ==> r.consumed >= 1
    ensures r.end == Exhausted ==> r.consumed == |fragments|
    ensures forall j :: 0 <= j < r.PlainCount() ==> classify(fragments[j]) == Ordinary
    ensures r.end == Invalid ==> classify(fragments[r.consumed - 1]) == Degenerate
    ensures r.end == AtMarker ==> classify(fragments[r.consumed - 1]).Boundary?
    ensures r.collected == Concat(fragments[..r.PlainCount()])
                           + (if r.end == AtMarker then classify(fragments[r.consumed - 1]).kept else "")
    decreases |fragments|
  {
    if |fragments| == 0 then StreamResult("", Exhausted, 0)
    else match classify(fragments[0])
      case Degenerate => StreamResult("", Invalid, 1)
      case Boundary(kept) => StreamResult(kept, AtMarker, 1)
      case Ordinary =>
        var rest := Run(classify, fragments[1..]);
        assert fragments[..1 + rest.PlainCount()][1..] == fragments[1..][..rest.PlainCount()];
        StreamResult(fragments[0] + rest.collected, rest.end, 1 + rest.consumed)
  }

  /** The loop with the source's per-fragment checks, described by those
      checks: the fragments before the last one read hold no degenerate
      token and no marker; an invalid ending comes from a degenerate
      fragment; a marker ending keeps the text the marker cut gives. */
  lemma {:induction false} ClassifiedRun(fragments: seq<string>)
    ensures var r := Run(Classify, fragments);
      && (forall j :: 0 <= j < r.PlainCount() ==>
            !IsInvalidResponse(fragments[j]) && MarkerCut(fragments[j]).None?)
      && (r.end == Invalid ==> IsInvalidResponse(fragments[r.consumed - 1]))
      && (r.end == AtMarker ==>
            && !IsInvalidResponse(fragments[r.consumed - 1])
            && MarkerCut(fragments[r.consumed - 1]).Some?
            && r.collected == Concat(fragments[..r.consumed - 1]) + MarkerCut(fragments[r.consumed - 1]).value)
      && (r.end != AtMarker ==> r.collected == Concat(fragments[..r.PlainCount()]))
  {
    var r := Run(Classify, fragments);
    forall j | 0 <= j < r.PlainCount()
      ensures !IsInvalidResponse(fragments[j]) && MarkerCut(fragments[j]).None?
    {
      assert Classify(fragments[j]) == Ordinary;
    }
    if r.end != Exhausted {
      var last := fragments[r.consumed - 1];
      var v := Classify(last);
      assert r.end == AtMarker ==> v.Boundary?;
    }
  }

  /** The streaming loop of `complete`, with the source's per-fragment checks. */
  function Stream(fragments: seq<string>): (r: StreamResult)
    ensures r.consumed <= |fragments|
    ensures r.end != Exhausted ==> r.consumed >= 1
    ensures r.end == Exhausted ==> r.consumed == |fragments|
    ensures forall j :: 0 <= j < r.PlainCount() ==>
      !IsInvalidResponse(fragments[j]) && MarkerCut(fragments[j]).None?
    ensures r.end == Invalid ==> IsInvalidResponse(fragments[r.consumed - 1])
    ensures r.end == AtMarker ==>
      && !IsInvalidResponse(fragments[r.consumed - 1])
      && MarkerCut(fragments[r.consumed - 1]).Some?
      && r.collected == Concat(fragments[..r.consumed - 1]) + MarkerCut(fragments[r.consumed - 1]).value
    ensures r.end != AtMarker ==> r.collected == Concat(fragments[..r.PlainCount()])
  {
    ClassifiedRun(fragments);
    Run(Classify, fragments)
  }

  /** The loop as written: a `while` over the engine's fragments with the two
      flags, appending to the collected response as it goes. */
  method CollectResponse(classify: string -> Verdict, fragments: seq<string>)
    returns (collected: string, invalidDetected: bool, consumed: nat)
    ensures invalidDetected <==> Run(classify, fragments).end == Invalid
    ensures collected == Run(classify, fragments).collected
    ensures consumed == Run(classify, fragments).consumed
  {
    collected := "";
    invalidDetected := false;
    var generationCompleted := false;
    consumed := 0;
    while consumed < |fragments|
      invariant consumed <= |fragments|
      invariant Run(classify, fragments).end == Run(classify, fragments[consumed..]).end
      invariant Run(classify, fragments).consumed == consumed + Run(classify, fragments[consumed..]).consumed
      invariant Run(classify, fragments).collected == collected + Run(classify, fragments[consumed..]).collected
      decreases |fragments| - consumed
    {
      var fragment := fragments[consumed];
      var rest := fragments[consumed..];
      assert rest[0] == fragment;
      assert rest[1..] == fragments[consumed + 1..];
      consumed := consumed + 1;
      match classify(fragment)
      case Degenerate =>
        invalidDetected := true;
        return;
      case Boundary(kept) =>
        collected := collected + kept;
        generationCompleted := true;
        return;
      case Ordinary =>
        collected := collected + fragment;
    }
  }

  /** Fragments after the one that stops the loop are never read: appending
      more fragments to a stream that stops early changes nothing. */
  lemma {:induction false} RunIgnoresLaterFragments(classify: string -> Verdict, fragments: seq<string>, more: seq<string>)
    requires Run(classify, fragments).end != Exhausted
    ensures Run(classify, fragments + more) == Run(classify, fragments)
    decreases |fragments|
  {
    assert (fragments + more)[0] == fragments[0];
    if classify(fragments[0]) == Ordinary {
      assert (fragments + more)[1..] == fragments[1..] + more;
      RunIgnoresLaterFragments(classify, fragments[1..], more);
    }
  }

  /** The loop reports invalid output exactly when some fragment is
      degenerate and every fragment before it is ordinary. */
  lemma RunInvalidIff(classify: string -> Verdict, fragments: seq<string>)
    ensures Run(classify, fragments).end == Invalid <==>
      exists k :: 0 <= k < |fragments| && classify(fragments[k]) == Degenerate
                  && forall j :: 0 <= j < k ==> classify(fragments[j]) == Ordinary
  {
    var r := Run(classify, fragments);
    var last := r.consumed - 1;
    if r.end == Invalid {
      assert classify(fragments[last]) == Degenerate;
    } else if r.end == Exhausted {
      forall k | 0 <= k < |fragments|
        ensures classify(fragments[k]) != Degenerate
      {
        assert classify(fragments[k]) == Ordinary;
      }
    } else {
      forall k | 0 <= k < |fragments|
        ensures classify(fragments[k]) != Degenerate || exists j :: 0 <= j < k && classify(fragments[j]) != Ordinary
      {
        if k < last {
          assert classify(fragments[k]) == Ordinary;
        } else if k == last {
          assert classify(fragments[k]).Boundary?;
        } else {
          assert classify(fragments[last]).Boundary?;
        }
      }
    }
  }

  /** With only plain fragments the budget runs out and every fragment is
      collected verbatim. */
  lemma AllPlainExhausts(classify: string -> Verdict, fragments: seq<string>)
    requires forall j :: 0 <= j < |fragments| ==> classify(fragments[j]) == Ordinary
    ensures Run(classify, fragments) == StreamResult(Concat(fragments), Exhausted, |fragments|)
  {
  }

  /** The invalid-token check runs before marker scanning: a fragment with a
      degenerate token ends the stream as invalid whatever markers it holds. */
  lemma InvalidBeatsMarker(fragments: seq<string>)
    requires |fragments| > 0 && IsInvalidResponse(fragments[0])
    ensures Stream(fragments).end == Invalid && Stream(fragments).consumed == 1
  {
  }

  /** `###` wins over `</s>` even when `</s>` comes first in the fragment. */
  lemma TurnMarkerWins(f: string, i: nat, j: nat)
    requires IsFirstOccurrence(f, TurnMarker, i)
    requires OccursAt(f, EndOfSequence, j) && j < i
    ensures MarkerCut(f) == Some(Trim(f[..i]))
    ensures !IsInvalidResponse(f) ==> Classify(f) == Boundary(Trim(f[..i]))
  {
  }

  /** An instance of the rule above: the text before `###` is kept, `</s>`
      and all. */
  lemma TurnMarkerWinsExample()
    ensures MarkerCut("a </s> b ### c") == Some("a </s> b")
  {
    var f := "a </s> b ### c";
    assert OccursAt(f, TurnMarker, 9);
    forall j: nat | j < 9 ensures !OccursAt(f, TurnMarker, j) {
      assert f[j] != '#';
    }
    assert IsFirstOccurrence(f, TurnMarker, 9);
    var p := f[..9];
    assert p == "a </s> b ";
    assert Leading(p) == 0;
    assert p[..8] == "a </s> b";
    assert Trailing(p[..8]) == 0;
    assert Trailing(p) == 1;
  }

  /** The end-of-sequence text `</s>` is not itself a degenerate token. */
  lemma EndOfSequenceIsValid()
    ensures !IsInvalidResponse(EndOfSequence)
    ensures MarkerCut(EndOfSequence) == Some("")
  {
    var f := EndOfSequence;
    forall i: nat | i <= |f| ensures !OccursAt(f, BeginOfSequence, i) && !OccursAt(f, UnknownToken, i) {
      if i == 0 {
        MismatchAt(f, BeginOfSequence, 0, 1);
      } else if i == 1 {
        MismatchAt(f, BeginOfSequence, 1, 0);
      }
    }
    MissingFirstChar(f, TurnMarker);
    assert OccursAt(f, EndOfSequence, 0);
    assert IsFirstOccurrence(f, EndOfSequence, 0);
  }

  /** A fragment with no `<` and no two adjacent `#` is appended verbatim. */
  lemma OrdinaryWithoutSpecials(f: string)
    requires '<' !in f
    requires forall i :: 0 <= i < |f| - 1 ==> f[i] != '#' || f[i + 1] != '#'
    ensures Classify(f) == Ordinary
  {
    MissingFirstChar(f, BeginOfSequence);
    MissingFirstChar(f, UnknownToken);
    MissingFirstChar(f, EndOfSequence);
    forall i: nat | i <= |f| ensures !OccursAt(f, TurnMarker, i) {
      if i + 3 <= |f| {
        if f[i] == '#' {
          MismatchAt(f, TurnMarker, i, 1);
        } else {
          MismatchAt(f, TurnMarker, i, 0);
        }
      }
    }
  }

  /** Joining three fragments. */
  lemma ConcatThree(a: string, b: string, c: string)
    ensures Concat([a, b, c]) == a + b + c
  {
    assert Concat([c]) == c by { assert [c][1..] == []; }
    assert Concat([b, c]) == b + c by { assert [b, c][1..] == [c]; }
    assert [a, b, c][1..] == [b, c];
  }

  /** Markers are looked for only inside single fragments: a marker split
      across fragments is collected as ordinary text. */
  lemma SplitMarkerNotDetected()
    ensures Stream(["ok #", "#", "# more"]).end == Exhausted
    ensures Contains(Stream(["ok #", "#", "# more"]).collected, TurnMarker)
  {
    var a, b, c := "ok #", "#", "# more";
    OrdinaryWithoutSpecials(a);
    OrdinaryWithoutSpecials(b);
    OrdinaryWithoutSpecials(c);
    AllPlainExhausts(Classify, [a, b, c]);
    ConcatThree(a, b, c);
    var joined := a + b + c;
    assert joined[3..6] == TurnMarker;
    assert OccursAt(joined, TurnMarker, 3);
  }
}

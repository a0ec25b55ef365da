/**
 * One conversational turn, `AppState.complete(text:img:)`: ensure a
 * context, take in the image if one came with the turn, append the human
 * segment and the user message, start the completion, run the streaming
 * loop, and finish with either the assistant segment and reply or the
 * fixed diagnostic message.
 */
module Turn {
  import opened Wrappers
  import opened Text
  import opened Streaming
  import opened Session

  /** The role tag opening a human segment of the transcript. */
  const HumanTag: string := "###Human: "
  /** The role tag opening an assistant segment of the transcript. */
  const AssistantTag: string := "###Assistant: "

  /** The assistant message shown when the output was degenerate. */
  const InvalidNotice: string := "모델 생성 한계에 도달했습니다. 아래로 스와이프해 새로고침해 주세요."

  /** A human segment as appended to the transcript. */
  function HumanSegment(text: string): string {
    HumanTag + text + " "
  }

  /** An assistant segment as appended to the transcript. */
  function AssistantSegment(reply: string): string {
    AssistantTag + reply + " "
  }

  /** The outcome of a turn: the new state, the loading states published in
      order, the calls made on the engine, and how many fragments the
      streaming loop read. */
  datatype TurnResult = TurnResult(state: AppState, phases: seq<LoadingState>, calls: seq<EngineCall>, fragmentsRead: nat)

  /** The transcript a turn starts from: emptied by an image, kept otherwise. */
  function BaseTranscript(s: AppState, img: Option<Image>): string {
    if img.Some? then "" else s.conversationLog
  }

  /** The part of `complete` before the streaming loop, once a context
      exists: take in the image if one came with the turn, reset the engine
      as needed, append the human segment and the user message, and start
      the completion. Returns the state, the engine calls made and the loading
      states published so far. */
  function BeginTurn(s: AppState, text: string, img: Option<Image>): (r: (AppState, seq<EngineCall>, seq<LoadingState>))
    ensures r.0.messages == s.messages + [ChatMessage(text, img, true)]
    ensures r.0.conversationLog == BaseTranscript(s, img) + HumanSegment(text)
    ensures r.0.hasImageEmbedding == (img.Some? || s.hasImageEmbedding)
    ensures r.0.lastImageBytes == (if img.Some? then img.value.jpeg else s.lastImageBytes)
    ensures r.0.loadingState == GeneratingResponse
    ensures r.0.(messages := s.messages, conversationLog := s.conversationLog, hasImageEmbedding := s.hasImageEmbedding,
                 lastImageBytes := s.lastImageBytes, loadingState := s.loadingState) == s
    ensures r.1 == (if img.Some? then [ClearEngine, SystemInit] else if !s.hasImageEmbedding then [ClearEngine] else [])
                   + [CompletionInit(r.0.conversationLog, if r.0.hasImageEmbedding then r.0.lastImageBytes else None)]
    ensures r.2 == (if img.Some? then [EmbeddingImage] else []) + [GeneratingResponse]
  {
    var s2 := if img.Some? then s.(loadingState := EmbeddingImage, lastImageBytes := img.value.jpeg,
                                   hasImageEmbedding := true, conversationLog := "")
              else s;
    var prepare := if img.Some? then [ClearEngine, SystemInit]
                   else if !s.hasImageEmbedding then [ClearEngine] else [];
    var s3 := s2.(conversationLog := s2.conversationLog + HumanSegment(text),
                  messages := s2.messages + [ChatMessage(text, img, true)],
                  loadingState := GeneratingResponse);
    var imageBytesToUse := if img.Some? then s3.lastImageBytes
                           else if s3.hasImageEmbedding then s3.lastImageBytes else None;
    (s3, prepare + [CompletionInit(s3.conversationLog, imageBytesToUse)],
     (if img.Some? then [EmbeddingImage] else []) + [GeneratingResponse])
  }

  /** The part of `complete` after the streaming loop: a degenerate stream
      adds only the diagnostic message; any other ending, at a marker or with
      the budget used up, adds the assistant segment and the trimmed reply. */
  function FinishTurn(s: AppState, out: StreamResult): (r: AppState)
    ensures |r.messages| == |s.messages| + 1 && r.messages[..|s.messages|] == s.messages
    ensures r.messages[|s.messages|] ==
      ChatMessage(if out.end == Invalid then InvalidNotice else Trim(out.collected), None, false)
    ensures out.end == Invalid ==> r.conversationLog == s.conversationLog
    ensures out.end != Invalid ==> r.conversationLog == s.conversationLog + AssistantSegment(Trim(out.collected))
    ensures r.loadingState == Idle
    ensures r.(messages := s.messages, conversationLog := s.conversationLog, loadingState := s.loadingState) == s
  {
    if out.end == Invalid then
      s.(messages := s.messages + [ChatMessage(InvalidNotice, None, false)], loadingState := Idle)
    else
      var reply := Trim(out.collected);
      s.(conversationLog := s.conversationLog + AssistantSegment(reply),
         messages := s.messages + [ChatMessage(reply, None, false)],
         loadingState := Idle)
  }

  /** `complete(text:img:)` for a given outcome of its streaming loop. When
      no context can be had the turn does nothing; otherwise it always ends
      idle with two more messages. */
  function CompleteWith(s: AppState, env: Environment, text: string, img: Option<Image>, out: StreamResult): (r: TurnResult)
    ensures r.state.context.None? ==> r == TurnResult(s, [], [], 0)
    ensures r.state.context.Some? ==> r.state.loadingState == Idle && |r.state.messages| == |s.messages| + 2
  {
    var s1 := EnsureContext(s, env);
    if s1.context.None? then TurnResult(s1, [], [], 0)
    else
      var (s3, calls, phases) := BeginTurn(s1, text, img);
      TurnResult(FinishTurn(s3, out), phases + [Idle], calls, out.consumed)
  }

  /** `complete(text:img:)`, with the engine's output given as the fragments
      it produces within its token budget. */
  function Complete(s: AppState, env: Environment, text: string, img: Option<Image>, fragments: seq<string>): (r: TurnResult)
    ensures r.fragmentsRead <= |fragments|
    ensures r.state.context.Some? ==> r.state.loadingState == Idle && |r.state.messages| == |s.messages| + 2
  {
    CompleteWith(s, env, text, img, Stream(fragments))
  }

  /** A turn that finds no context and cannot load one changes nothing:
      transcript, messages, image fields and loading state stay as they were,
      and the engine is never called. */
  lemma CompleteWithoutContext(s: AppState, env: Environment, text: string, img: Option<Image>, out: StreamResult)
    requires s.context.None? && !CanLoad(s, env)
    ensures CompleteWith(s, env, text, img, out) == TurnResult(s, [], [], 0)
  {
  }

  /** A turn that has a context appends exactly one user message carrying the
      text and image, then exactly one assistant message without an image. */
  lemma CompleteMessages(s: AppState, env: Environment, text: string, img: Option<Image>, out: StreamResult)
    requires s.context.Some? || CanLoad(s, env)
    ensures var m := s.messages;
            var m' := CompleteWith(s, env, text, img, out).state.messages;
            && |m'| == |m| + 2 && m'[..|m|] == m
            && m'[|m|] == ChatMessage(text, img, true)
            && !m'[|m| + 1].isUser && m'[|m| + 1].image.None?
  {
  }

  /** The transcript after a turn: the base (emptied by an image, kept
      otherwise) plus the human segment, plus the assistant segment with the
      trimmed collected text unless the stream was degenerate, in which case
      the assistant message is the fixed diagnostic. A marker and a used-up
      budget end the turn the same way. */
  lemma CompleteTranscript(s: AppState, env: Environment, text: string, img: Option<Image>, out: StreamResult)
    requires s.context.Some? || CanLoad(s, env)
    ensures var r := CompleteWith(s, env, text, img, out).state;
            var prompt := BaseTranscript(s, img) + HumanSegment(text);
            if out.end == Invalid then
              r.conversationLog == prompt && r.messages[|r.messages| - 1].text == InvalidNotice
            else
              r.conversationLog == prompt + AssistantSegment(Trim(out.collected))
              && r.messages[|r.messages| - 1].text == Trim(out.collected)
  {
  }

  /** The image context after a turn, and what the engine is asked: an image
      turn resets the engine and re-primes the system prompt, a text turn
      without image context resets it, a text turn with image context keeps
      it; the completion always receives the new transcript and the stored
      bytes exactly when the image flag is set. */
  lemma CompleteImageContext(s: AppState, env: Environment, text: string, img: Option<Image>, out: StreamResult)
    requires s.context.Some? || CanLoad(s, env)
    ensures var r := CompleteWith(s, env, text, img, out);
            && r.state.hasImageEmbedding == (img.Some? || s.hasImageEmbedding)
            && r.state.lastImageBytes == (if img.Some? then img.value.jpeg else s.lastImageBytes)
            && r.calls == (if img.Some? then [ClearEngine, SystemInit]
                           else if !s.hasImageEmbedding then [ClearEngine] else [])
                          + [CompletionInit(BaseTranscript(s, img) + HumanSegment(text),
                                            if r.state.hasImageEmbedding then r.state.lastImageBytes else None)]
  {
  }

  /** The loading states a turn publishes: through `embeddingImage` when an
      image came with it, then `generatingResponse`, ending `idle`; the
      fragments read are those the loop consumed. */
  lemma CompletePhases(s: AppState, env: Environment, text: string, img: Option<Image>, out: StreamResult)
    requires s.context.Some? || CanLoad(s, env)
    ensures var r := CompleteWith(s, env, text, img, out);
            && r.phases == (if img.Some? then [EmbeddingImage] else []) + [GeneratingResponse, Idle]
            && r.state.loadingState == Idle
            && r.fragmentsRead == out.consumed
  {
  }

  /** A turn leaves the catalogue, the model list, the selection, the download
      flag and the RAM reading alone, and keeps the context `ensureContext` produced. */
  lemma CompleteFrame(s: AppState, env: Environment, text: string, img: Option<Image>, out: StreamResult)
    ensures var r := CompleteWith(s, env, text, img, out).state;
            && r.context == EnsureContext(s, env).context
            && r.selectedModel == s.selectedModel && r.downloadedModels == s.downloadedModels
            && r.isDownloading == s.isDownloading && r.deviceRAMSize == s.deviceRAMSize
            && r.defaultModels == s.defaultModels
  {
  }

  /** Using up the token budget without any marker is a normal completion:
      every fragment is read and collected, and the trimmed text becomes the
      reply and the assistant segment. */
  lemma BudgetExhaustedIsNormal(s: AppState, env: Environment, text: string, img: Option<Image>, fragments: seq<string>)
    requires s.context.Some? || CanLoad(s, env)
    requires forall j :: 0 <= j < |fragments| ==> Classify(fragments[j]) == Ordinary
    ensures var r := Complete(s, env, text, img, fragments);
            && r.fragmentsRead == |fragments|
            && r.state.conversationLog
               == BaseTranscript(s, img) + HumanSegment(text) + AssistantSegment(Trim(Concat(fragments)))
            && r.state.messages[|r.state.messages| - 1] == ChatMessage(Trim(Concat(fragments)), None, false)
  {
    AllPlainExhausts(Classify, fragments);
  }

  /** A degenerate fragment before any marker ends the turn with the fixed
      diagnostic: the transcript keeps only the human segment, and the loop
      reads nothing after that fragment. */
  lemma DegenerateFragmentShowsNotice(s: AppState, env: Environment, text: string, img: Option<Image>,
                                       fragments: seq<string>, k: nat)
    requires s.context.Some? || CanLoad(s, env)
    requires k < |fragments| && IsInvalidResponse(fragments[k])
    requires forall j :: 0 <= j < k ==> Classify(fragments[j]) == Ordinary
    ensures var r := Complete(s, env, text, img, fragments);
            && r.fragmentsRead == k + 1
            && r.state.conversationLog == BaseTranscript(s, img) + HumanSegment(text)
            && r.state.messages[|r.state.messages| - 1] == ChatMessage(InvalidNotice, None, false)
  {
    RunInvalidIff(Classify, fragments);
  }

  /** A text turn keeps the transcript it found and only appends to it. */
  lemma TextTurnAppendsOnly(s: AppState, env: Environment, text: string, out: StreamResult)
    requires s.context.Some? || CanLoad(s, env)
    ensures var log := CompleteWith(s, env, text, None, out).state.conversationLog;
            |s.conversationLog| <= |log| && log[..|s.conversationLog|] == s.conversationLog
  {
  }

  /** An image turn starts the transcript afresh: afterwards the image
      context is set with the picked image's bytes, and the transcript is
      exactly this exchange. */
  lemma ImageTurnStartsFresh(s: AppState, env: Environment, img: Image, text: string, out: StreamResult)
    requires s.context.Some? || CanLoad(s, env)
    requires out.end != Invalid
    ensures var r := CompleteWith(s, env, text, Some(img), out).state;
            && r.context.Some? && r.hasImageEmbedding && r.lastImageBytes == img.jpeg
            && r.conversationLog == HumanSegment(text) + AssistantSegment(Trim(out.collected))
  {
    CompleteTranscript(s, env, text, Some(img), out);
    CompleteImageContext(s, env, text, Some(img), out);
    CompleteFrame(s, env, text, Some(img), out);
    EmptyPrefix(HumanSegment(text));
  }

  /** A text turn with image context set keeps it: the engine is not reset,
      the completion receives the stored bytes, and the exchange is appended
      to the transcript. */
  lemma TextTurnKeepsImage(s: AppState, env: Environment, text: string, out: StreamResult)
    requires s.context.Some? && s.hasImageEmbedding
    requires out.end != Invalid
    ensures var r := CompleteWith(s, env, text, None, out);
            && r.state.hasImageEmbedding && r.state.lastImageBytes == s.lastImageBytes
            && r.calls == [CompletionInit(s.conversationLog + HumanSegment(text), s.lastImageBytes)]
            && r.state.conversationLog == s.conversationLog + HumanSegment(text) + AssistantSegment(Trim(out.collected))
  {
  }

  /** An image turn followed by a text turn: the image context stays set,
      the second completion receives the same bytes, the engine is not reset
      in between, and the transcript is the two exchanges in order, starting
      from empty. */
  lemma ImageThenTextTurn(s: AppState, env: Environment, img: Image, text1: string, out1: StreamResult,
                          text2: string, out2: StreamResult)
    requires s.context.Some? || CanLoad(s, env)
    requires out1.end != Invalid && out2.end != Invalid
    ensures var first := CompleteWith(s, env, text1, Some(img), out1);
            var second := CompleteWith(first.state, env, text2, None, out2);
            && second.state.hasImageEmbedding
            && second.state.lastImageBytes == img.jpeg
            && second.calls == [CompletionInit(first.state.conversationLog + HumanSegment(text2), img.jpeg)]
            && second.state.conversationLog
               == HumanSegment(text1) + AssistantSegment(Trim(out1.collected))
                  + HumanSegment(text2) + AssistantSegment(Trim(out2.collected))
  {
    ImageTurnStartsFresh(s, env, img, text1, out1);
    TextTurnKeepsImage(CompleteWith(s, env, text1, Some(img), out1).state, env, text2, out2);
  }

  /** A turn keeps stored image bytes tied to the image flag: a photo sets
      the flag with whatever bytes it encodes to, and a text turn touches
      neither. */
  lemma CompleteKeepsImageInvariant(s: AppState, env: Environment, text: string, img: Option<Image>, out: StreamResult)
    requires ImageBytesImplyFlag(s)
    ensures ImageBytesImplyFlag(CompleteWith(s, env, text, img, out).state)
  {
  }

  /** The image flag does not imply stored bytes: when JPEG encoding fails
      the flag is set, no bytes are kept, and the completion gets none. */
  lemma ImageFlagWithoutBytes(s: AppState, env: Environment, text: string, out: StreamResult)
    requires s.context.Some? || CanLoad(s, env)
    ensures var r := CompleteWith(s, env, text, Some(Image(None)), out);
            && r.state.hasImageEmbedding && r.state.lastImageBytes.None?
            && r.calls[|r.calls| - 1].imageBytes.None?
  {
  }

  /** After a reset, the next text turn starts from an empty transcript with
      no image context, so it resets the engine and sends no image. */
  lemma ClearThenTextTurn(s: AppState, env: Environment, text: string, out: StreamResult)
    requires s.context.Some? || CanLoad(s, env)
    ensures var cleared := Clear(s, env).state;
            var r := CompleteWith(cleared, env, text, None, out);
            r.calls == [ClearEngine, CompletionInit(HumanSegment(text), None)]
  {
    var cleared := Clear(s, env).state;
    assert cleared.context.Some?;
    CompleteImageContext(cleared, env, text, None, out);
    EmptyPrefix(HumanSegment(text));
  }
}

/**
 * The published state of `AppState` as one immutable record, with model
 * initialisation, `ensureContext`, `preInit` and the `clear` reset.
 *
 * The inference engine handle (`LlamaContext`) is modelled by the values it
 * was created from; the calls `AppState` makes on it are recorded as a trace
 * of `EngineCall`s. File-system and bundle lookups and the outcome of
 * `create_context` are inputs gathered in an `Environment`.
 */
module Session {
  import opened Wrappers
  import opened Registry

  /** `AppState.LoadingState`: what the screen shows the app is busy with. */
  datatype LoadingState = Idle | EmbeddingImage | GeneratingResponse | ReloadingModel

  /** A picked image, carrying what `jpegData(compressionQuality: 1.0)` gives
      for it: JPEG bytes, or `None` when encoding fails. */
  datatype Image = Image(jpeg: Option<seq<byte>>)

  /** A chat bubble: its text, its image if any, and whether the user sent it. */
  datatype ChatMessage = ChatMessage(text: string, image: Option<Image>, isUser: bool)

  /** The system prompt every context is created with. */
  const DefaultSystemPrompt: string :=
    "A chat between a curious human and an artificial intelligence assistant. The assistant gives helpful, detailed, and polite answers to the human's questions."

  /** The postfix every context is created with, appended after each user prompt. */
  const DefaultUserPostfix: string := "###Assistant:"

  /** An engine context, identified by the model file it was created from;
      the prompt settings are always the two defaults above. Handle identity
      is not modelled. */
  datatype Context = Context(modelFilename: string)

  /** The context `create_context` builds for a model. */
  function ContextFor(model: LlamaModel): (c: Context)
    ensures c.modelFilename == model.filename
  {
    Context(model.filename)
  }

  /** What the file system, the app bundle and the engine answer during
      `initializeModel`: which model files exist in the documents directory,
      whether the projection model is in the bundle, and whether
      `create_context` succeeds. */
  datatype Environment = Environment(presentFiles: set<string>, projectionInBundle: bool, engineCreates: bool)

  /** A call the controller makes on the engine context, in order. */
  datatype EngineCall =
    | ClearEngine                                                   // `clear()`
    | SystemInit                                                    // `completion_system_init()`
    | CompletionInit(prompt: string, imageBytes: Option<seq<byte>>) // `completion_init(text:imageBytes:)`

  /** The fields of `AppState` the core reads and writes. */
  datatype AppState = AppState(
    loadingState: LoadingState,
    messages: seq<ChatMessage>,
    downloadedModels: seq<LlamaModel>,
    defaultModels: seq<LlamaModel>,
    selectedModel: Option<LlamaModel>,
    context: Option<Context>,
    isDownloading: bool,
    deviceRAMSize: UInt64,
    conversationLog: string,
    hasImageEmbedding: bool,
    lastImageBytes: Option<seq<byte>>)

  /** Stored image bytes always come with the image flag: only a turn that
      sets the flag keeps bytes, and a reset drops both. The converse does
      not hold, since a photo whose JPEG encoding fails sets the flag alone. */
  predicate ImageBytesImplyFlag(s: AppState) {
    s.lastImageBytes.Some? ==> s.hasImageEmbedding
  }

  /** `loadModelsFromDisk` on the app: the published model list becomes the
      app's catalogue with each status read from the files present. */
  function RefreshModels(s: AppState, present: set<string>): (r: AppState)
    ensures r.(downloadedModels := s.downloadedModels) == s
    ensures |r.downloadedModels| == |s.defaultModels|
    ensures forall i :: 0 <= i < |r.downloadedModels| ==>
      && r.downloadedModels[i].(status := NotDownloaded) == s.defaultModels[i].(status := NotDownloaded)
      && (r.downloadedModels[i].status == Downloaded <==> s.defaultModels[i].filename in present)
  {
    s.(downloadedModels := LoadModelsFromDisk(s.defaultModels, present))
  }

  /** A freshly constructed `AppState` on a device with `physicalMemory` bytes. */
  function InitialState(physicalMemory: UInt64): (s: AppState)
    ensures s.loadingState == Idle && s.messages == [] && s.context.None? && s.selectedModel.None?
    ensures s.downloadedModels == [] && s.defaultModels == DefaultModels && !s.isDownloading
    ensures s.conversationLog == "" && !s.hasImageEmbedding && s.lastImageBytes.None?
    ensures s.deviceRAMSize * GiB <= physicalMemory < (s.deviceRAMSize + 1) * GiB
    ensures ImageBytesImplyFlag(s)
  {
    AppState(Idle, [], [], DefaultModels, None, None, false, RamGiB(physicalMemory), "", false, None)
  }

  /** Every guard in `initializeModel` passes: a model is selected, its file
      exists, the projection model is bundled and the engine comes up. */
  predicate CanLoad(s: AppState, env: Environment) {
    && s.selectedModel.Some?
    && s.selectedModel.value.filename in env.presentFiles
    && env.projectionInBundle
    && env.engineCreates
  }

  /** `initializeModel`: replaces the context with a fresh one for the
      selected model when every guard passes. Any failure returns early and
      leaves the previous context, if any, in place. */
  function InitializeModel(s: AppState, env: Environment): (r: AppState)
    ensures r.(context := s.context) == s
    ensures CanLoad(s, env) ==> r.context == Some(ContextFor(s.selectedModel.value))
    ensures !CanLoad(s, env) ==> r.context == s.context
  {
    if s.selectedModel.None? then s
    else if s.selectedModel.value.filename !in env.presentFiles then s
    else if !env.projectionInBundle then s
    else if !env.engineCreates then s
    else s.(context := Some(ContextFor(s.selectedModel.value)))
  }

  /** `ensureContext`: loads the selected model only when no context exists. */
  function EnsureContext(s: AppState, env: Environment): (r: AppState)
    ensures r.(context := s.context) == s
    ensures s.context.Some? ==> r == s
    ensures s.context.None? ==> (r.context.Some? <==> CanLoad(s, env))
  {
    if s.context.None? then InitializeModel(s, env) else s
  }

  /** With the same environment, ensuring a context twice is ensuring it once,
      and an absent context afterwards means nothing changed. */
  lemma EnsureContextIdempotent(s: AppState, env: Environment)
    ensures EnsureContext(EnsureContext(s, env), env) == EnsureContext(s, env)
    ensures EnsureContext(s, env).context.None? ==> EnsureContext(s, env) == s
  {
  }

  /** `preInit`: ensures a context and, if there is one, primes its system prompt. */
  function PreInit(s: AppState, env: Environment): (r: (AppState, seq<EngineCall>))
    ensures r.0.(context := s.context) == s
    ensures r.1 == (if r.0.context.Some? then [SystemInit] else [])
    ensures r.0.context.Some? <==> s.context.Some? || CanLoad(s, env)
  {
    var s1 := EnsureContext(s, env);
    if s1.context.None? then (s1, []) else (s1, [SystemInit])
  }

  /** `preInit` leaves the state `ensureContext` gives, and calling it again
      changes nothing more but primes the system prompt once more. */
  lemma PreInitAfterEnsureContext(s: AppState, env: Environment)
    ensures PreInit(s, env).0 == EnsureContext(s, env)
    ensures PreInit(PreInit(s, env).0, env) == PreInit(s, env)
  {
  }

  /** The outcome of a reset: the new state, the loading states published in
      order, and the calls made on the engine. */
  datatype ClearResult = ClearResult(state: AppState, phases: seq<LoadingState>, calls: seq<EngineCall>)

  /** `clear`: marks the app as reloading, clears the engine if there is one,
      empties the conversation and image context, reloads the selected model
      and returns to idle. The wait for a running generation is not modelled. */
  function Clear(s: AppState, env: Environment): (r: ClearResult)
    ensures r.state.messages == [] && r.state.conversationLog == ""
    ensures !r.state.hasImageEmbedding && r.state.lastImageBytes.None?
    ensures r.state.loadingState == Idle
    ensures r.phases == [ReloadingModel, Idle]
    ensures r.calls == (if s.context.Some? then [ClearEngine] else [])
    ensures r.state.downloadedModels == s.downloadedModels && r.state.selectedModel == s.selectedModel
    ensures r.state.isDownloading == s.isDownloading && r.state.deviceRAMSize == s.deviceRAMSize
    ensures r.state.defaultModels == s.defaultModels
    ensures CanLoad(s, env) ==> r.state.context == Some(ContextFor(s.selectedModel.value))
    ensures !CanLoad(s, env) ==> r.state.context == s.context
    ensures ImageBytesImplyFlag(r.state)
  {
    var calls := if s.context.Some? then [ClearEngine] else [];
    var emptied := s.(messages := [], conversationLog := "", hasImageEmbedding := false, lastImageBytes := None);
    var reloaded := InitializeModel(emptied, env);
    ClearResult(reloaded.(loadingState := Idle), [ReloadingModel, Idle], calls)
  }

  /** Resetting twice with nothing in between leaves the same state as
      resetting once. */
  lemma ClearIdempotent(s: AppState, env: Environment)
    ensures Clear(Clear(s, env).state, env).state == Clear(s, env).state
  {
  }
}

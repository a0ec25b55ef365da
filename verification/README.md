# llava-ios session core in Dafny

This project models the core of the llava-ios chat app's `AppState` controller and of its model-picker row. It covers:

- **the conversational turn** (`complete`): ensuring an inference context, taking in an image, building the role-tagged transcript (`conversationLog`), streaming the engine's fragments with stop-marker detection (`###`, then `</s>`) and the invalid-output guard (`<s>`, `<unk>`), and finishing with the assistant reply or a fixed diagnostic message;
- **the reset** (`clear`), `ensureContext`, `initializeModel` and `preInit`;
- **the model registry**: the built-in catalogue, `loadModelsFromDisk`, and the device RAM reading in whole GiB;
- **the download gate** (`ModelRowView.shouldDisableButton`) and the row's Download and Load buttons.

The app state is one immutable record (`Session.AppState`). Every operation is a pure function from the state and its inputs to a new state. Three operations also return, in order, the calls they make on an existing inference context (`EngineCall`): a turn (`Turn.CompleteWith`), `Session.PreInit` and `Session.Clear`. The turn and the reset also return the `LoadingState` values they publish, in order. Creating a context (`create_context` in `initializeModel`) is not a recorded call. A context is identified by its model file alone, so a new context for another model shows as a change of the state's `context` field, while a reload of the model already loaded leaves that field as it was. `Session.InitializeModel`, `Session.EnsureContext` and the Load button return the new state alone.

The engine is modelled by what it would give back. A turn receives the finite sequence of text fragments that `completion_loop` would return while `n_cur < n_len`. The file system, the app bundle and the success of `create_context` become an `Environment` input. The RAM reading takes the physical memory size as a parameter.

Files, one module each:

| file | module | models |
|---|---|---|
| wrappers.dfy | `Wrappers` | Swift optionals, bytes |
| text.dfy | `Text` | `range(of:)`, `contains`, `trimmingCharacters(in: .whitespacesAndNewlines)` |
| registry.dfy | `Registry` | `LlamaModel`, the catalogue, `loadModelsFromDisk`, `getDeviceRAMSize` |
| streaming.dfy | `Streaming` | `isInvalidResponse`, marker scanning, the streaming `while` loop |
| session.dfy | `Session` | `AppState` fields, `LoadingState`, `initializeModel`, `ensureContext`, `preInit`, `clear` |
| turn.dfy | `Turn` | `complete(text:img:)` |
| modelselection.dfy | `ModelSelection` | `shouldDisableButton`, Download and Load actions |

Behaviour of the code worth noting:

- Starting a completion is never retried. The result of `completion_init` is ignored.
- Using up the token budget without a marker is a normal completion (`Turn.BudgetExhaustedIsNormal`).
- The image flag can be set while no image bytes are stored, because `jpegData` may return nil (`Turn.ImageFlagWithoutBytes`).
- The first RAM refusal applies below 5 GiB, although its text asks for 6 GB.
- An empty pattern is never found, as with Foundation's `contains` and `range(of:)`.

`ModelSelection.ButtonFor` and `ModelSelection.ButtonsEnabled` are the row view's one-line branches (ModelSelectionView.swift:47, 60 and 88). Their behaviour is stated by `ModelSelection.SucceededDownloadOffersLoad` and `ModelSelection.ButtonsFollowTransfer`.

## Model

| member | source | states |
|---|---|---|
| Text.FirstIndexOf | llava-ios/ContentView.swift:225 | `range(of:)`: when found, the index is where the first occurrence starts, with none earlier; nothing is found exactly when the string does not contain the pattern; an empty pattern is never found |
| Text.Trim | llava-ios/ContentView.swift:226 | trimming yields the infix left after dropping whitespace and newlines from both ends: it starts and ends with non-whitespace, and everything dropped after it is whitespace |
| Text.TrimExtremes | llava-ios/ContentView.swift:252 | an all-whitespace reply trims to the empty string, and one with no whitespace at either end is kept as it is |
| Text.TrimIdempotent | llava-ios/ContentView.swift:252 | trimming the already trimmed text again changes nothing |
| Streaming.IsInvalidResponse | llava-ios/ContentView.swift:263-270 | a fragment is degenerate when it contains `<s>` or `<unk>`; such a fragment always contains a `<` |
| Streaming.MarkerCut | llava-ios/ContentView.swift:225-234 | a fragment ends the turn exactly when it holds `###` or `</s>`; the kept text is the trimmed text before the first `###`, and only when there is no `###`, the trimmed text before the first `</s>` |
| Streaming.Classify | llava-ios/ContentView.swift:220-237 | a fragment is degenerate exactly when it contains `<s>` or `<unk>`; only a fragment that is not degenerate can end the turn at a marker; anything else is appended verbatim |
| Streaming.Run | llava-ios/ContentView.swift:216-238 | the loop reads a prefix of the fragments; all fragments before the last one read are plain; it ends invalid, at a marker or with the budget used up, according to the last fragment read; the collected text is the plain fragments joined, plus the kept text at a marker |
| Streaming.Stream | llava-ios/ContentView.swift:216-238 | the loop in the source's own terms: it reads a prefix of the fragments; the fragments before the last one read hold no degenerate token and no marker; an invalid ending comes from a degenerate last fragment; a marker ending keeps the plain fragments joined plus the marker cut of the last one; otherwise the collected text is the plain fragments joined |
| Streaming.CollectResponse | llava-ios/ContentView.swift:212-238 | the `while` loop with its two flags computes the same collected text, invalid flag and fragment count as `Run` |
| Streaming.RunIgnoresLaterFragments | llava-ios/ContentView.swift:220-234 | after a `break` nothing more is read: fragments after the one that stops the loop do not change its outcome |
| Streaming.RunInvalidIff | llava-ios/ContentView.swift:216-223 | the loop reports invalid output exactly when some fragment is degenerate and every fragment before it is plain |
| Streaming.AllPlainExhausts | llava-ios/ContentView.swift:235-237 | with only plain fragments every fragment is read and appended verbatim, and the loop ends with the budget used up |
| Streaming.InvalidBeatsMarker | llava-ios/ContentView.swift:219-225 | the invalid-token check runs before marker scanning: a first fragment with a degenerate token ends the stream as invalid after one read, whatever markers it holds |
| Streaming.TurnMarkerWins | llava-ios/ContentView.swift:225-234 | for every fragment, `###` takes precedence even when `</s>` comes earlier: the kept text is the trimmed text before the first `###` |
| Streaming.TurnMarkerWinsExample | llava-ios/ContentView.swift:225-234 | on `a </s> b ### c` the kept text is `a </s> b` |
| Streaming.EndOfSequenceIsValid | llava-ios/ContentView.swift:263-270 | `</s>` alone is not degenerate output; it ends the turn keeping nothing |
| Streaming.OrdinaryWithoutSpecials | llava-ios/ContentView.swift:235-237 | a fragment with no `<` and no two adjacent `#` is appended verbatim |
| Streaming.SplitMarkerNotDetected | llava-ios/ContentView.swift:225-237 | markers are searched for only within one fragment: `###` split across three fragments does not end the turn and ends up in the collected text |
| Registry.LoadModelsFromDisk | llava-ios/ContentView.swift:122-129 | the refresh keeps the catalogue's length, order, names, file names and URLs, and marks an entry downloaded exactly when its file is present |
| Registry.RefreshIdempotent | llava-ios/ContentView.swift:122-129 | refreshing an already refreshed list against the same files changes nothing |
| Registry.RefreshIgnoresOldStatus | llava-ios/ContentView.swift:122-129 | the statuses held before the refresh make no difference to its result |
| Registry.RefreshMonotone | llava-ios/ContentView.swift:122-129 | more files on disk never turn a downloaded entry back to not downloaded |
| Registry.RamGiB | llava-ios/ContentView.swift:131-134 | the RAM reading is physical memory in whole GiB, rounded down |
| Session.InitialState | llava-ios/ContentView.swift:87-120 | a new app is idle, with no messages, no model list, no selection, no context, not downloading, the built-in catalogue and the RAM reading in whole GiB; the transcript is empty, and there is no image flag and no stored image; stored image bytes come with the image flag |
| Session.RefreshModels | llava-ios/ContentView.swift:122-129 | `loadModelsFromDisk` replaces only the published model list; that list is the app's catalogue entry for entry, with each status read from the files present |
| Session.InitializeModel | llava-ios/ContentView.swift:137-164 | only the context changes; when every guard passes it is a fresh context for the selected model's file; any failed guard leaves the previous context in place |
| Session.EnsureContext | llava-ios/ContentView.swift:166-171 | an existing context is kept and nothing else changes; without one, a context appears exactly when the selected model can be loaded |
| Session.EnsureContextIdempotent | llava-ios/ContentView.swift:166-171 | ensuring a context twice is ensuring it once; an absent context afterwards means nothing changed |
| Session.PreInit | llava-ios/ContentView.swift:179-183 | the system prompt is primed exactly when a context exists or can be loaded, and nothing but the context changes |
| Session.PreInitAfterEnsureContext | llava-ios/ContentView.swift:179-183 | `preInit` leaves exactly the state `ensureContext` gives; calling it again changes no state and primes the system prompt again |
| Session.Clear | llava-ios/ContentView.swift:272-297 | after a reset the messages, transcript and image context are empty and the app is idle, having published reloading then idle; the engine is cleared only if it existed; the model list, selection, download flag and RAM are kept; the model is reloaded when possible, and the old context is kept otherwise; the catalogue is kept; stored image bytes come with the image flag |
| Session.ClearIdempotent | llava-ios/ContentView.swift:272-297 | resetting twice leaves the same state as resetting once |
| Turn.BeginTurn | llava-ios/ContentView.swift:189-210 | before streaming: the user message is appended; the transcript is the base (emptied by an image) plus the human segment; an image sets the image flag and its bytes; the engine is cleared and re-primed for an image, cleared for a text turn without image context, and left alone otherwise; the completion receives the new transcript and the stored bytes exactly when the image flag is set |
| Turn.FinishTurn | llava-ios/ContentView.swift:240-259 | after streaming exactly one assistant message is appended and the app is idle; invalid output adds the fixed diagnostic and leaves the transcript alone; any other ending appends the assistant segment with the trimmed reply |
| Turn.CompleteWith | llava-ios/ContentView.swift:185-260 | a turn without an obtainable context returns the state unchanged and calls nothing; otherwise it ends idle with exactly two more messages |
| Turn.Complete | llava-ios/ContentView.swift:216-238 | the streaming loop reads no more fragments than the engine produces within its budget |
| Turn.CompleteWithoutContext | llava-ios/ContentView.swift:185-187 | with no context and none loadable, the turn leaves transcript, messages, image fields and loading state unchanged and never calls the engine |
| Turn.CompleteMessages | llava-ios/ContentView.swift:202-254 | the earlier messages are kept, followed by exactly one user message with the text and image, then one assistant message without an image |
| Turn.CompleteTranscript | llava-ios/ContentView.swift:202-258 | the new transcript is the base plus the human segment, plus the assistant segment with the trimmed reply unless the output was invalid; the last message is the reply or the fixed diagnostic |
| Turn.CompleteImageContext | llava-ios/ContentView.swift:189-210 | image flag and bytes after the turn, the engine resets made, and the completion's prompt and bytes (stored bytes exactly when the flag is set) |
| Turn.CompletePhases | llava-ios/ContentView.swift:189-259 | the loading states published are `embeddingImage` (only for an image), `generatingResponse`, `idle`; the fragments read are those the loop consumed |
| Turn.CompleteFrame | llava-ios/ContentView.swift:185-260 | a turn leaves the catalogue, model list, selection, download flag and RAM alone, and keeps the context `ensureContext` produced |
| Turn.BudgetExhaustedIsNormal | llava-ios/ContentView.swift:216-258 | with no marker and no degenerate token every fragment is read, and the joined, trimmed text becomes the reply and the assistant segment |
| Turn.DegenerateFragmentShowsNotice | llava-ios/ContentView.swift:220-249 | a degenerate fragment preceded only by plain ones stops the loop right after it; the transcript keeps only the human segment and the last message is the fixed diagnostic |
| Turn.TextTurnAppendsOnly | llava-ios/ContentView.swift:198-202 | a text turn keeps the transcript it found as a prefix |
| Turn.ImageTurnStartsFresh | llava-ios/ContentView.swift:189-206 | after a valid image turn the image context holds the picked image's bytes and the transcript is exactly that exchange |
| Turn.TextTurnKeepsImage | llava-ios/ContentView.swift:198-210 | a text turn with image context set does not reset the engine, sends the stored bytes and appends its exchange |
| Turn.ImageThenTextTurn | llava-ios/ContentView.swift:189-210 | an image turn then a text turn: same bytes sent twice, no reset in between, and the transcript is the two exchanges in order |
| Turn.CompleteKeepsImageInvariant | llava-ios/ContentView.swift:189-199 | a turn keeps stored image bytes tied to the image flag: the bytes are only set where the flag is set |
| Turn.ImageFlagWithoutBytes | llava-ios/ContentView.swift:193-209 | when JPEG encoding fails the image flag is set, no bytes are stored and the completion gets none |
| Turn.ClearThenTextTurn | llava-ios/ContentView.swift:281-292 | after a reset the next text turn clears the engine and sends only its human segment, with no image |
| ModelSelection.ShouldDisableButton | llava-ios/UI/Screens/InferenceScreen/ModelSelectionView.swift:107-119 | below 5 GiB the 6GB refusal is given for every model; any refusal is one of the two texts; the 8GB refusal is given only for a model named with `FP16` |
| ModelSelection.GateMatchesMinimum | llava-ios/UI/Screens/InferenceScreen/ModelSelectionView.swift:110-118 | a download is allowed exactly when the RAM reaches the model's minimum (8 GiB for `FP16`, 5 otherwise); the 6GB text is given exactly below 5 GiB, and the 8GB text exactly for an `FP16` model at 5 to 7 GiB |
| ModelSelection.GateMonotone | llava-ios/UI/Screens/InferenceScreen/ModelSelectionView.swift:110-118 | more RAM never turns an allowed download into a refused one |
| ModelSelection.CatalogueMinimums | llava-ios/ContentView.swift:96-109 | of the built-in models, the first ("Model FP16") needs 8 GiB and the second (Q8) needs 5 |
| ModelSelection.TapDownload | llava-ios/UI/Screens/InferenceScreen/ModelSelectionView.swift:63-79 | a transfer starts exactly when the button is enabled and the gate passes; it is for the row's model and marks the app downloading; a refusal raises the alert with the reason and leaves the app state alone; a disabled button does nothing |
| ModelSelection.FinishDownload | llava-ios/UI/Screens/InferenceScreen/ModelSelectionView.swift:73-78 | the completion callback always clears the download flag; a success refreshes the model list from the files present; a failure changes nothing else |
| ModelSelection.ButtonsFollowTransfer | llava-ios/UI/Screens/InferenceScreen/ModelSelectionView.swift:60-88 | both buttons are disabled exactly while a transfer runs: a tap that starts one needs them enabled and disables them, and its completion enables them again, whether it succeeded or not |
| ModelSelection.TapLoad | llava-ios/UI/Screens/InferenceScreen/ModelSelectionView.swift:47-60 | a disabled button does nothing; otherwise the row's model is selected, the picker is hidden and the model is loaded (the old context kept if loading fails); nothing else changes |
| ModelSelection.SingleFlight | llava-ios/UI/Screens/InferenceScreen/ModelSelectionView.swift:67-88 | once a transfer has started, another Download tap on any row starts nothing and changes nothing |
| ModelSelection.RefusedTapChangesNoAppState | llava-ios/UI/Screens/InferenceScreen/ModelSelectionView.swift:64-66 | a refused tap starts no transfer and leaves `isDownloading` and all other app state unchanged |
| ModelSelection.FailedDownloadRestores | llava-ios/UI/Screens/InferenceScreen/ModelSelectionView.swift:67-78 | a failed transfer puts the app back exactly as it was before the tap |
| ModelSelection.SucceededDownloadOffersLoad | llava-ios/UI/Screens/InferenceScreen/ModelSelectionView.swift:47-78 | after a successful transfer the buttons are enabled again, and each catalogue row offers Load exactly when its file is present |
| ModelSelection.RowActionsKeepImageInvariant | llava-ios/UI/Screens/InferenceScreen/ModelSelectionView.swift:48-78 | the Download tap, its completion and the Load tap keep stored image bytes tied to the image flag |
| ModelSelection.LoadedModelServesTurns | llava-ios/UI/Screens/InferenceScreen/ModelSelectionView.swift:48-52 | after a successful Load the context is for the row's model, and the next turn's `ensureContext` keeps it |

## Left out

- SwiftUI views, layout, colours and the alert as a view. Only the row's alert state (`showAlert`, `alertMessage`) is modelled.
- The `DownloadState` transport: the URL session task, the progress publisher, the file copy and the `status` strings. A transfer is a `DownloadRequest` plus a `success` flag given to `FinishDownload`. A model URL that does not parse makes `download` return without ever calling its completion, which leaves `isDownloading` set; the model does not represent a transfer that never finishes.
- The inside of `LlamaContext` (`create_context`, `completion_init`, `completion_loop`, `clear`, the `n_cur`/`n_len` counters): it is a foreign inference engine. It is represented by the fragments it returns within the budget, by the recorded `EngineCall`s, and by an `engineCreates` flag.
- `FileManager.fileExists`, `Bundle.main.path`, `jpegData`, `ProcessInfo.physicalMemory` and `UUID()`. Their results are inputs: the present-files set, the bundle flag, `Image.jpeg`, the physical-memory parameter. Entry identity by `UUID` is not modelled.
- Concurrency: the `DispatchQueue.main.async` hops and the wait in `clear` for a running generation to stop. Each operation is one sequential step, with its published loading states listed in order. Interleaving of a reset with a running turn is not modelled.
- `StartupState state`, which the core never assigns.
- The identity of the context handle. A context is identified by its model file, and the prompt settings (`DefaultSystemPrompt`, `DefaultUserPostfix`) are the same for every context.
- Swift `String` semantics. Strings are sequences of Unicode scalars, so grapheme clusters and `NSString` bridging are not modelled. The whitespace set is that of `CharacterSet.whitespacesAndNewlines`.
- Reloading the model that is already loaded (`initializeModel` from `clear`, ContentView.swift:292) builds a fresh `LlamaContext` in the source. A context here is identified by its model file only, so that reload cannot be told apart from keeping the cleared context.
- The diagnostic `print` calls in `initializeModel` and `ensureContext` (ContentView.swift:142, 147, 151, 160, 162 and 168): console output only.
- `Turn.Complete`: its own contract states only the bound on fragments read and the two-message outcome. The full outcome for given fragments follows from the `CompleteWith` lemmas applied to `Stream(fragments)`, and from `Turn.BudgetExhaustedIsNormal` and `Turn.DegenerateFragmentShowsNotice`.

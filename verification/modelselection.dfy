/**
 * A row of the model picker (`ModelRowView`): the RAM gate that decides
 * whether a model may be downloaded on this device, and the Download and
 * Load buttons as updates of the app state and of the row's alert state.
 * The transfer itself (`DownloadState.download`) is outside the model: a
 * tap that starts one yields a `DownloadRequest`, and the transfer's
 * completion callback is `FinishDownload`.
 */
module ModelSelection {
  import opened Wrappers
  import opened Text
  import opened Registry
  import opened Session

  /** The refusal given below 5 GiB, although its wording asks for 6 GB
      (possibly because a 6 GB device can read as 5 whole GiB). */
  const LowRamNotice: string := "6GB 이상의 RAM을 가진 기기가 필요합니다."

  /** The refusal given for a full-precision model below 8 GiB. */
  const FullPrecisionNotice: string := "8GB 이상의 RAM을 가진 기기가 필요합니다."

  /** The name fragment that marks a full-precision (16-bit float) model. */
  const FullPrecisionTag: string := "FP16"

  /** `shouldDisableButton`: the reason a download is refused for `model` on
      a device with `ram` whole GiB, or `None` when it may go ahead. */
  function ShouldDisableButton(ram: UInt64, model: LlamaModel): (reason: Option<string>)
    ensures ram < 5 ==> reason == Some(LowRamNotice)
    ensures reason.Some? ==> reason.value == LowRamNotice || reason.value == FullPrecisionNotice
    ensures reason == Some(FullPrecisionNotice) ==> Contains(model.name, FullPrecisionTag)
  {
    if ram < 5 then Some(LowRamNotice)
    else if Contains(model.name, FullPrecisionTag) && ram < 8 then Some(FullPrecisionNotice)
    else None
  }

  /** The least RAM, in whole GiB, a model needs: 8 for a full-precision
      model, 5 for any other. */
  function MinimumRamGiB(model: LlamaModel): nat {
    if Contains(model.name, FullPrecisionTag) then 8 else 5
  }

  /** The gate lets a download through exactly when the device has at least
      the model's minimum, and names the failed requirement otherwise: the
      general one below 5 GiB, the full-precision one from 5 to 7 GiB. */
  lemma GateMatchesMinimum(ram: UInt64, model: LlamaModel)
    ensures ShouldDisableButton(ram, model).None? <==> ram >= MinimumRamGiB(model)
    ensures ShouldDisableButton(ram, model) == Some(LowRamNotice) <==> ram < 5
    ensures (ShouldDisableButton(ram, model) == Some(FullPrecisionNotice))
        <==> (5 <= ram < 8 && Contains(model.name, FullPrecisionTag))
  {
  }

  /** More RAM never turns an allowed download into a refused one. */
  lemma GateMonotone(ram: UInt64, more: UInt64, model: LlamaModel)
    requires ram <= more
    ensures ShouldDisableButton(ram, model).None? ==> ShouldDisableButton(more, model).None?
  {
  }

  /** The first entry of the built-in catalogue is the full-precision one. */
  lemma FullPrecisionEntryMinimum()
    ensures MinimumRamGiB(DefaultModels[0]) == 8
  {
    var fp16 := DefaultModels[0].name;
    assert fp16[6..10] == FullPrecisionTag;
    OccurrenceWitness(fp16, FullPrecisionTag, 6);
  }

  /** The second entry of the built-in catalogue is not full-precision. */
  lemma LiteEntryMinimum()
    ensures MinimumRamGiB(DefaultModels[1]) == 5
  {
    var q8 := DefaultModels[1].name;
    forall i | 0 <= i < |q8|
      ensures q8[i] != 'F'
    {
    }
    MissingFirstChar(q8, FullPrecisionTag);
  }

  /** On the built-in catalogue the first entry is the full-precision one,
      needing 8 GiB, and the second needs 5. */
  lemma CatalogueMinimums()
    ensures MinimumRamGiB(DefaultModels[0]) == 8
    ensures MinimumRamGiB(DefaultModels[1]) == 5
  {
    FullPrecisionEntryMinimum();
    LiteEntryMinimum();
  }

  /** The row's own state: whether the refusal alert is up, and its text. */
  datatype RowState = RowState(showAlert: bool, alertMessage: string)

  /** The transfer a Download tap asks `DownloadState.download` for. */
  datatype DownloadRequest = DownloadRequest(modelName: string, modelUrl: string, filename: string)

  /** The button a row shows: Load for a downloaded model, Download otherwise. */
  datatype RowButton = LoadButton | DownloadButton

  /** The button shown for a catalogue entry. */
  function ButtonFor(model: LlamaModel): RowButton {
    if model.status == Downloaded then LoadButton else DownloadButton
  }

  /** Both buttons are disabled while any download is running. */
  predicate ButtonsEnabled(app: AppState) {
    !app.isDownloading
  }

  /** What a Download tap leaves behind: the app state, the row state and
      the transfer started, if any. */
  datatype TapOutcome = TapOutcome(app: AppState, row: RowState, request: Option<DownloadRequest>)

  /** The Download button. A disabled button does nothing. A refused model
      raises the alert with the reason and starts nothing. Otherwise the app
      is marked downloading and the transfer for the row's model starts. */
  function TapDownload(app: AppState, row: RowState, model: LlamaModel): (o: TapOutcome)
    ensures o.request.Some? <==> ButtonsEnabled(app) && ShouldDisableButton(app.deviceRAMSize, model).None?
    ensures o.request.Some? ==>
      && o.request.value == DownloadRequest(model.name, model.url, model.filename)
      && o.app == app.(isDownloading := true) && o.row == row
    ensures o.request.None? ==> o.app == app
    ensures !ButtonsEnabled(app) ==> o.row == row
    ensures ButtonsEnabled(app) && ShouldDisableButton(app.deviceRAMSize, model).Some? ==>
      o.row == RowState(true, ShouldDisableButton(app.deviceRAMSize, model).value)
  {
    if !ButtonsEnabled(app) then TapOutcome(app, row, None)
    else match ShouldDisableButton(app.deviceRAMSize, model)
      case Some(reason) => TapOutcome(app, RowState(true, reason), None)
      case None =>
        TapOutcome(app.(isDownloading := true), row, Some(DownloadRequest(model.name, model.url, model.filename)))
  }

  /** The completion callback of a transfer: the app stops downloading, and
      only a successful transfer refreshes the model list from the files
      now present. */
  function FinishDownload(app: AppState, success: bool, present: set<string>): (r: AppState)
    ensures !r.isDownloading
    ensures success ==> r == RefreshModels(app, present).(isDownloading := false)
    ensures !success ==> r == app.(isDownloading := false)
  {
    var stopped := app.(isDownloading := false);
    if success then RefreshModels(stopped, present) else stopped
  }

  /** The Load button: a disabled button does nothing; otherwise it selects
      the row's model, hides the picker and loads the model. Returns the app
      state and whether the picker is still showing. */
  function TapLoad(app: AppState, showingSelection: bool, model: LlamaModel, env: Environment): (r: (AppState, bool))
    ensures !ButtonsEnabled(app) ==> r == (app, showingSelection)
    ensures ButtonsEnabled(app) ==>
      && r.0.selectedModel == Some(model) && !r.1
      && r.0.(selectedModel := app.selectedModel, context := app.context) == app
    ensures (ButtonsEnabled(app) && CanLoad(app.(selectedModel := Some(model)), env))
        ==> r.0.context == Some(ContextFor(model))
    ensures (ButtonsEnabled(app) && !CanLoad(app.(selectedModel := Some(model)), env))
        ==> r.0.context == app.context
  {
    if !ButtonsEnabled(app) then (app, showingSelection)
    else (InitializeModel(app.(selectedModel := Some(model)), env), false)
  }

  /** One transfer at a time: once a tap has started a download, a second
      tap on any row starts nothing and changes nothing until the first one
      finishes. */
  lemma SingleFlight(app: AppState, row: RowState, model: LlamaModel, row2: RowState, model2: LlamaModel)
    requires TapDownload(app, row, model).request.Some?
    ensures var first := TapDownload(app, row, model).app;
            TapDownload(first, row2, model2) == TapOutcome(first, row2, None)
  {
  }

  /** The buttons are disabled exactly while a transfer runs: a tap that
      starts one disables them, and its completion enables them again,
      whether it succeeded or not. */
  lemma ButtonsFollowTransfer(app: AppState, row: RowState, model: LlamaModel, success: bool, present: set<string>)
    requires TapDownload(app, row, model).request.Some?
    ensures ButtonsEnabled(app)
    ensures !ButtonsEnabled(TapDownload(app, row, model).app)
    ensures ButtonsEnabled(FinishDownload(TapDownload(app, row, model).app, success, present))
  {
  }

  /** A tap that the gate refuses leaves the app state as it was, whatever
      the row showed before. */
  lemma RefusedTapChangesNoAppState(app: AppState, row: RowState, model: LlamaModel)
    requires ShouldDisableButton(app.deviceRAMSize, model).Some?
    ensures TapDownload(app, row, model).app == app
    ensures TapDownload(app, row, model).request.None?
  {
  }

  /** A download that fails puts the app back exactly as it was before the
      tap that started it. */
  lemma FailedDownloadRestores(app: AppState, row: RowState, model: LlamaModel, present: set<string>)
    requires TapDownload(app, row, model).request.Some?
    ensures FinishDownload(TapDownload(app, row, model).app, false, present) == app
  {
  }

  /** After a successful download, each row of the catalogue offers Load
      exactly when its file is present, and the buttons are enabled again. */
  lemma SucceededDownloadOffersLoad(app: AppState, present: set<string>)
    ensures var r := FinishDownload(app, true, present);
            && ButtonsEnabled(r)
            && |r.downloadedModels| == |app.defaultModels|
            && forall i :: 0 <= i < |r.downloadedModels| ==>
                 (ButtonFor(r.downloadedModels[i]) == LoadButton <==> app.defaultModels[i].filename in present)
  {
  }

  /** The picker's actions never touch the image context, so they keep
      stored image bytes tied to the image flag. */
  lemma RowActionsKeepImageInvariant(app: AppState, row: RowState, model: LlamaModel, showingSelection: bool,
                                     success: bool, present: set<string>, env: Environment)
    requires ImageBytesImplyFlag(app)
    ensures ImageBytesImplyFlag(TapDownload(app, row, model).app)
    ensures ImageBytesImplyFlag(FinishDownload(app, success, present))
    ensures ImageBytesImplyFlag(TapLoad(app, showingSelection, model, env).0)
  {
  }

  /** Loading a downloaded model that the engine accepts leaves a context
      that a following turn keeps: `ensureContext` has nothing to do. */
  lemma LoadedModelServesTurns(app: AppState, showingSelection: bool, model: LlamaModel, env: Environment)
    requires ButtonsEnabled(app)
    requires CanLoad(app.(selectedModel := Some(model)), env)
    ensures var loaded := TapLoad(app, showingSelection, model, env).0;
            && EnsureContext(loaded, env) == loaded
            && loaded.context == Some(ContextFor(model))
            && loaded.selectedModel == Some(model)
  {
  }
}

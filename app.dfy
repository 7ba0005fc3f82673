/**
 * The side panel's state cells and the handlers that replace them. Storage
 * effects, timers and rendering are outside the model. The clock and the
 * two service operations are parameters of the handlers: `generate` stands
 * for `generateNanoPrompt` and `refine` for `refineNanoPrompt` (modelled in
 * `GeminiService` as `Generation` and `RefineNanoPrompt`), each yielding a
 * result or the message of the `Error` it throws.
 */
module App {
  import opened Wrappers
  import opened Types
  import opened Instruction
  import opened History

  datatype ToastKind = SuccessToast | ErrorToast

  /** The transient notice at the bottom of the panel. */
  datatype Toast = Toast(message: string, kind: ToastKind)

  const GeneratedMessage: string := "สร้าง Prompt สำเร็จ!"
  const RefinedMessage: string := "แก้ไข Prompt สำเร็จ!"
  const LoadedMessage: string := "โหลดจากประวัติสำเร็จ!"
  const DefaultNegativePrompt: string := "หน้าคน"
  const DefaultAdditionalDetails: string :=
    "บรรยากาศ, แสงแดด, และสภาพแวดล้อม ต้องให้ความรู้สึกว่าเป็นประเทศไทย (Thailand Vibe)"

  class SidePanel {
    var taskType: TaskType
    var contentInput: string
    var userAspectRatio: string
    var userResolution: string
    var style: string
    var fontName: string
    var textInImage: string
    var negativePrompt: string
    var additionalDetails: string
    var referenceImages: seq<ImageFile>
    var referenceIntents: seq<string>
    var brandKit: BrandKit
    var history: seq<HistoryItem>
    var showHistory: bool
    var result: Option<PromptResult>
    var error: Option<string>
    var toast: Option<Toast>

    /** The request the current settings describe. */
    function CurrentRequest(): Request
      reads this
    {
      Request(taskType, contentInput, referenceImages, referenceIntents, textInImage, fontName, style,
        negativePrompt, additionalDetails, userAspectRatio, userResolution, brandKit)
    }

    /** The generation settings other than the task and its content are as they were. */
    twostate predicate SettingsKept()
      reads this
    {
      userAspectRatio == old(userAspectRatio) && userResolution == old(userResolution) &&
      style == old(style) && fontName == old(fontName) && textInImage == old(textInImage) &&
      negativePrompt == old(negativePrompt) && additionalDetails == old(additionalDetails) &&
      referenceImages == old(referenceImages) && brandKit == old(brandKit)
    }

    /** The initial state cells: reverse engineering, the default settings, nothing selected or recorded. */
    constructor ()
      ensures taskType == ImageToPrompt && contentInput == ""
      ensures userAspectRatio == "16:9" && userResolution == "2K" && style == Auto && fontName == Auto
      ensures textInImage == "" && negativePrompt == DefaultNegativePrompt && additionalDetails == DefaultAdditionalDetails
      ensures referenceImages == [] && referenceIntents == [] && brandKit == DefaultBrandKit
      ensures history == [] && !showHistory && result == None && error == None && toast == None
    {
      taskType := ImageToPrompt;
      contentInput := "";
      userAspectRatio := "16:9";
      userResolution := "2K";
      style := Auto;
      fontName := Auto;
      textInImage := "";
      negativePrompt := DefaultNegativePrompt;
      additionalDetails := DefaultAdditionalDetails;
      referenceImages := [];
      referenceIntents := [];
      brandKit := DefaultBrandKit;
      history := [];
      showHistory := false;
      result := None;
      error := None;
      toast := None;
    }

    /**
     * `handleGenerate`. A rejected request only shows the validation
     * message. Otherwise the result is cleared and the service runs: on
     * success the result is shown and recorded at the head of the capped
     * history, on failure the error is shown and the history is untouched.
     * `clock` and `timestamp` stand for the two `Date.now()` readings.
     */
    method Generate(generate: Request -> Result<PromptResult, string>, clock: nat, timestamp: int)
      returns (rejected: Option<string>)
      modifies this
      ensures rejected == ValidationError(old(taskType), |old(referenceImages)|, old(contentInput))
      ensures SettingsKept() && taskType == old(taskType) && contentInput == old(contentInput)
      ensures referenceIntents == old(referenceIntents) && showHistory == old(showHistory)
      ensures rejected.Some? ==>
        history == old(history) && result == old(result) && error == old(error) &&
        toast == Some(Toast(rejected.value, ErrorToast))
      ensures rejected.None? && generate(old(CurrentRequest())).Success? ==>
        var value := generate(old(CurrentRequest())).value;
        history == AddToHistory(NewHistoryItem(clock, timestamp, old(taskType), old(contentInput), value), old(history)) &&
        result == Some(value) && error == None && toast == Some(Toast(GeneratedMessage, SuccessToast))
      ensures rejected.None? && generate(old(CurrentRequest())).Failure? ==>
        var message := generate(old(CurrentRequest())).error;
        history == old(history) && result == None && error == Some(message) && toast == Some(Toast(message, ErrorToast))
    {
      rejected := ValidationError(taskType, |referenceImages|, contentInput);
      if rejected.Some? {
        toast := Some(Toast(rejected.value, ErrorToast));
        return;
      }
      // The result and the error are cleared before the call and set once it settles.
      var outcome := generate(CurrentRequest());
      if outcome.Success? {
        var item := NewHistoryItem(clock, timestamp, taskType, contentInput, outcome.value);
        history, result, error := AddToHistory(item, history), Some(outcome.value), None;
        toast := Some(Toast(GeneratedMessage, SuccessToast));
      } else {
        result, error := None, Some(outcome.error);
        toast := Some(Toast(outcome.error, ErrorToast));
      }
    }

    /**
     * `handleRefine`: without a current result nothing happens; otherwise
     * the refined result replaces it or the error is shown. The history is
     * never touched.
     */
    method Refine(refine: (PromptResult, string) -> Result<PromptResult, string>, instruction: string)
      modifies this
      ensures history == old(history)
      ensures SettingsKept() && taskType == old(taskType) && contentInput == old(contentInput)
      ensures referenceIntents == old(referenceIntents) && showHistory == old(showHistory)
      ensures old(result).None? ==> result == old(result) && error == old(error) && toast == old(toast)
      ensures old(result).Some? && refine(old(result).value, instruction).Success? ==>
        result == Some(refine(old(result).value, instruction).value) && error == None &&
        toast == Some(Toast(RefinedMessage, SuccessToast))
      ensures old(result).Some? && refine(old(result).value, instruction).Failure? ==>
        var message := refine(old(result).value, instruction).error;
        result == old(result) && error == Some(message) && toast == Some(Toast(message, ErrorToast))
    {
      if result.None? {
        return;
      }
      error := None;
      var outcome := refine(result.value, instruction);
      if outcome.Success? {
        result := Some(outcome.value);
        toast := Some(Toast(RefinedMessage, SuccessToast));
      } else {
        error := Some(outcome.error);
        toast := Some(Toast(outcome.error, ErrorToast));
      }
    }

    /** `handleToggleIntent`. */
    method ToggleIntent(id: string)
      modifies this
      ensures referenceIntents == History.ToggleIntent(old(referenceIntents), id)
      ensures SettingsKept() && taskType == old(taskType) && contentInput == old(contentInput)
      ensures history == old(history) && showHistory == old(showHistory)
      ensures result == old(result) && error == old(error) && toast == old(toast)
    {
      referenceIntents := History.ToggleIntent(referenceIntents, id);
    }

    /** `handleFavoriteHistory`. */
    method FavoriteHistory(id: string)
      modifies this
      ensures history == ToggleFavorite(old(history), id)
      ensures SettingsKept() && taskType == old(taskType) && contentInput == old(contentInput)
      ensures referenceIntents == old(referenceIntents) && showHistory == old(showHistory)
      ensures result == old(result) && error == old(error) && toast == old(toast)
    {
      history := ToggleFavorite(history, id);
    }

    /** `handleDeleteHistory`. */
    method DeleteHistory(id: string)
      modifies this
      ensures history == DeleteById(old(history), id)
      ensures SettingsKept() && taskType == old(taskType) && contentInput == old(contentInput)
      ensures referenceIntents == old(referenceIntents) && showHistory == old(showHistory)
      ensures result == old(result) && error == old(error) && toast == old(toast)
    {
      history := DeleteById(history, id);
    }

    /** `handleLoadFromHistory`: the entry's task, content and result come back; the history closes. */
    method LoadFromHistory(item: HistoryItem)
      modifies this
      ensures taskType == item.taskType && contentInput == item.contentInput
      ensures SettingsKept() && referenceIntents == old(referenceIntents)
      ensures result == Some(item.result) && !showHistory && toast == Some(Toast(LoadedMessage, SuccessToast))
      ensures history == old(history) && error == old(error)
    {
      taskType := item.taskType;
      contentInput := item.contentInput;
      result := Some(item.result);
      showHistory := false;
      toast := Some(Toast(LoadedMessage, SuccessToast));
    }
  }
}

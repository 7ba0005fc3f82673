/** The records the side panel, the prompt service and the history share. */
module Types {

  /** What a `catch` clause receives: an `Error` with its message, or any other thrown value. */
  datatype Thrown = ErrorValue(message: string) | OtherValue

  /** The five kinds of generation task. */
  datatype TaskType = Cover | Infographic | Illustration | ImageToPrompt | Custom

  /** The pair of parameters the model suggests alongside a prompt. */
  datatype SuggestedParameters = SuggestedParameters(aspectRatio: string, style: string)

  /** The structured reply of the generation backend: exactly four fields. */
  datatype PromptResult = PromptResult(
    thaiPrompt: string,
    englishTranslation: string,
    reasoning: string,
    suggestedParameters: SuggestedParameters)

  /** Brand constraints; contribute nothing to an instruction while `enabled` is false. */
  datatype BrandKit = BrandKit(
    enabled: bool,
    brandName: string,
    brandColor: string,
    brandFont: string,
    brandMood: string,
    additionalContext: string)

  /** One generation kept in the history list. */
  datatype HistoryItem = HistoryItem(
    id: string,
    timestamp: int,
    taskType: TaskType,
    contentInput: string,
    result: PromptResult,
    isFavorite: bool)

  /** A file chosen by the user: its name and its declared media type (`File.type`). */
  datatype ImageFile = ImageFile(name: string, mimeType: string)

  /** The brand kit the side panel starts with: disabled and empty. */
  const DefaultBrandKit: BrandKit := BrandKit(false, "", "", "", "", "")
}

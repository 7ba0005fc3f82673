/**
 * The prompt service around the instruction builder: reading the API key,
 * assembling the request parts, choosing the reasoning effort, and turning
 * whatever was thrown into the message the side panel shows.
 */
module GeminiService {
  import opened Wrappers
  import opened Strings
  import opened Types
  import opened Instruction

  // ---------------------------------------------------------------------------
  // Messages

  const StorageMessage: string := "ไม่สามารถอ่าน Storage ได้"
  const MissingKeyMessage: string := "กรุณาตั้งค่า " + "API Key" + " ในหน้า \"ตั้งค่า\" ก่อน"
  const ConfigureKeyMessage: string := "กรุณาตั้งค่า " + "API Key" + " ในหน้า \"ตั้งค่า\""
  const InvalidKeyMessage: string := "API Key ไม่ถูกต้อง กรุณาตรวจสอบอีกครั้ง"
  const RateLimitMessage: string := "เกินจำนวนการใช้งาน API กรุณารอสักครู่"
  const UnknownErrorMessage: string := "เกิดข้อผิดพลาดที่ไม่ทราบสาเหตุ"
  const EmptyResponseMessage: string := "ไม่ได้รับการตอบกลับจาก Gemini API"
  const RefineFailedMessage: string := "เกิดข้อผิดพลาดในการแก้ไข Prompt"

  // ---------------------------------------------------------------------------
  // API key

  /** The outcome of reading the key from extension storage. */
  datatype StoredKey = StorageUnreadable | Stored(geminiApiKey: Option<string>)

  /** `getApiKey`: a storage failure and a missing or empty key reject with their own errors. */
  function GetApiKey(stored: StoredKey): (r: Result<string, Thrown>)
    ensures r.Success? <==> stored.Stored? && stored.geminiApiKey.Some? && stored.geminiApiKey.value != ""
    ensures r.Success? ==> r.value == stored.geminiApiKey.value
    ensures r.Failure? ==> r.error == ErrorValue(if stored.StorageUnreadable? then StorageMessage else MissingKeyMessage)
  {
    match stored
    case StorageUnreadable => Failure(ErrorValue(StorageMessage))
    case Stored(key) =>
      if key.None? || key.value == "" then Failure(ErrorValue(MissingKeyMessage))
      else Success(key.value)
  }

  // ---------------------------------------------------------------------------
  // Error classification

  /**
   * The `catch` of `generateNanoPrompt`: the checks apply in order, a message
   * mentioning the API key first, then the authorisation codes, then the
   * rate limit; any other `Error` is rethrown unchanged and anything else
   * becomes the unknown-error message.
   */
  function ClassifyGenerationError(e: Thrown): (r: string)
    ensures e.ErrorValue? && Contains(e.message, "API Key") ==> r == ConfigureKeyMessage
    ensures (e.ErrorValue? && !Contains(e.message, "API Key") &&
      (Contains(e.message, "401") || Contains(e.message, "403"))) ==> r == InvalidKeyMessage
    ensures (e.ErrorValue? && !Contains(e.message, "API Key") &&
      !Contains(e.message, "401") && !Contains(e.message, "403") && Contains(e.message, "429")) ==> r == RateLimitMessage
    ensures (e.ErrorValue? && !Contains(e.message, "API Key") &&
      !Contains(e.message, "401") && !Contains(e.message, "403") && !Contains(e.message, "429")) ==> r == e.message
    ensures e.OtherValue? ==> r == UnknownErrorMessage
  {
    match e
    case OtherValue => UnknownErrorMessage
    case ErrorValue(m) =>
      if Contains(m, "API Key") then ConfigureKeyMessage
      else if Contains(m, "401") || Contains(m, "403") then InvalidKeyMessage
      else if Contains(m, "429") then RateLimitMessage
      else m
  }

  /** The `catch` of `refineNanoPrompt`: an `Error` is rethrown unclassified, anything else gets the refinement message. */
  function ClassifyRefinementError(e: Thrown): (r: string)
    ensures e.ErrorValue? ==> r == e.message
    ensures e.OtherValue? ==> r == RefineFailedMessage
  {
    if e.ErrorValue? then e.message else RefineFailedMessage
  }

  /** A message without the letter `K` and the digit `4` matches none of the checks and is shown as it is. */
  lemma UnmatchedMessagePassesThrough(m: string)
    requires 'K' !in m && '4' !in m
    ensures ClassifyGenerationError(ErrorValue(m)) == m
  {
    MissingCharExcludes(m, "API Key", 'K');
    MissingCharExcludes(m, "401", '4');
    MissingCharExcludes(m, "403", '4');
    MissingCharExcludes(m, "429", '4');
  }

  /** A missing key mentions the API key, so generation rewords it to the configure message. */
  lemma MissingKeyReworded()
    ensures ClassifyGenerationError(GetApiKey(Stored(None)).error) == ConfigureKeyMessage
  {
    ContainsMiddle("กรุณาตั้งค่า ", "API Key", " ในหน้า \"ตั้งค่า\" ก่อน");
  }

  /** An unreadable storage is shown as it is. */
  lemma StorageErrorShown()
    ensures ClassifyGenerationError(GetApiKey(StorageUnreadable).error) == StorageMessage
  {
    UnmatchedMessagePassesThrough(StorageMessage);
  }

  /** A reply without text is shown as the empty-response message. */
  lemma EmptyResponseShown(parse: string -> Result<PromptResult, Thrown>)
    ensures ClassifyGenerationError(Interpret(Answered(""), parse).error) == EmptyResponseMessage
  {
    UnmatchedMessagePassesThrough(EmptyResponseMessage);
  }

  /** A message mentioning the API key is the configure message whatever status code it also carries. */
  lemma ApiKeyCheckComesFirst(m: string)
    requires Contains(m, "API Key")
    ensures ClassifyGenerationError(ErrorValue(m + " 401")) == ConfigureKeyMessage
    ensures ClassifyGenerationError(ErrorValue(m + " 429")) == ConfigureKeyMessage
  {
    ContainsWithin(m, "API Key", "", " 401");
    assert "" + m + " 401" == m + " 401";
    ContainsWithin(m, "API Key", "", " 429");
    assert "" + m + " 429" == m + " 429";
  }

  /** Every generation error shown is one of the four fixed messages or the thrown `Error`'s own message. */
  lemma GenerationMessageOrigin(e: Thrown)
    ensures var r := ClassifyGenerationError(e);
      r in {ConfigureKeyMessage, InvalidKeyMessage, RateLimitMessage, UnknownErrorMessage} ||
      (e.ErrorValue? && r == e.message)
  {
  }

  // ---------------------------------------------------------------------------
  // Requests to the backend

  /** One entry of the request's `parts`: an inline image or the instruction text. */
  datatype Part = InlineData(data: string, mimeType: string) | TextPart(text: string)

  /** Everything the backend receives that the model distinguishes. */
  datatype BackendCall = BackendCall(apiKey: string, parts: seq<Part>, level: ThinkingLevel)

  /** The backend's answer: a response whose `text` may be empty or missing (`""`), or a thrown value. */
  datatype Reply = Answered(text: string) | Raised(thrown: Thrown)

  /** The inline parts of the images, one per image, in order, each with its payload and media type. */
  function ImageParts(images: seq<ImageFile>, read: ImageFile -> Option<string>): (r: seq<Part>)
    requires forall i :: 0 <= i < |images| ==> read(images[i]).Some?
    ensures |r| == |images|
    ensures forall i :: 0 <= i < |r| ==> r[i] == InlineData(read(images[i]).value, images[i].mimeType)
  {
    if images == [] then []
    else [InlineData(read(images[0]).value, images[0].mimeType)] + ImageParts(images[1..], read)
  }

  /** Every image can be read. */
  predicate AllReadable(images: seq<ImageFile>, read: ImageFile -> Option<string>)
  {
    forall i :: 0 <= i < |images| ==> read(images[i]).Some?
  }

  /** The common ending of both operations: an empty reply is an error, otherwise the text is parsed. */
  function Interpret(reply: Reply, parse: string -> Result<PromptResult, Thrown>): (r: Result<PromptResult, Thrown>)
    ensures reply.Answered? && reply.text == "" ==> r == Failure(ErrorValue(EmptyResponseMessage))
    ensures r.Success? <==> reply.Answered? && reply.text != "" && parse(reply.text).Success?
  {
    match reply
    case Raised(t) => Failure(t)
    case Answered(text) => if text == "" then Failure(ErrorValue(EmptyResponseMessage)) else parse(text)
  }

  /** The outcome of one call of an operation and the backend call it made, if any. */
  datatype Attempt = Attempt(outcome: Result<PromptResult, string>, call: Option<BackendCall>)

  /**
   * What one run of `generateNanoPrompt` yields, stated without its loop:
   * the backend is reached only with a key and every image read, and then
   * receives one inline part per image, in order, with the instruction last;
   * a result exists only if the backend was reached.
   */
  function Generation(stored: StoredKey, req: Request, read: ImageFile -> Option<string>,
                      backend: BackendCall -> Reply, parse: string -> Result<PromptResult, Thrown>): (r: Attempt)
    ensures r.call.Some? <==> GetApiKey(stored).Success? && AllReadable(req.referenceImages, read)
    ensures r.call.Some? ==>
      r.call.value.apiKey == GetApiKey(stored).value &&
      |r.call.value.parts| == |req.referenceImages| + 1 &&
      r.call.value.parts[|req.referenceImages|] == TextPart(TaskInstruction(req)) &&
      r.call.value.level == ThinkingLevelFor(req.taskType, |req.referenceImages|)
    ensures r.call.Some? ==> forall i :: 0 <= i < |req.referenceImages| ==>
      r.call.value.parts[i].InlineData? && r.call.value.parts[i].mimeType == req.referenceImages[i].mimeType
    ensures r.outcome.Success? ==> r.call.Some? && backend(r.call.value).Answered?
  {
    var key := GetApiKey(stored);
    if key.Failure? then Attempt(Failure(ClassifyGenerationError(key.error)), None)
    else if !AllReadable(req.referenceImages, read) then Attempt(Failure(UnknownErrorMessage), None)
    else
      var c := BackendCall(key.value,
        ImageParts(req.referenceImages, read) + [TextPart(TaskInstruction(req))],
        ThinkingLevelFor(req.taskType, |req.referenceImages|));
      var res := Interpret(backend(c), parse);
      Attempt(if res.Success? then Success(res.value) else Failure(ClassifyGenerationError(res.error)), Some(c))
  }

  /**
   * `generateNanoPrompt`. `read` stands for `fileToBase64` (`None` when the
   * reader fails; it rejects with an event, which is not an `Error`),
   * `backend` for `generateContent` and `parse` for `JSON.parse`. The
   * backend is called only when the key exists and every image was read;
   * it then receives the images in order followed by the task instruction,
   * at the level `getThinkingLevel` picks.
   */
  method GenerateNanoPrompt(stored: StoredKey, req: Request, read: ImageFile -> Option<string>,
                            backend: BackendCall -> Reply, parse: string -> Result<PromptResult, Thrown>)
    returns (outcome: Result<PromptResult, string>, call: Option<BackendCall>)
    ensures GetApiKey(stored).Failure? ==>
      call == None && outcome == Failure(ClassifyGenerationError(GetApiKey(stored).error))
    ensures GetApiKey(stored).Success? && !AllReadable(req.referenceImages, read) ==>
      call == None && outcome == Failure(UnknownErrorMessage)
    ensures GetApiKey(stored).Success? && AllReadable(req.referenceImages, read) ==>
      call == Some(BackendCall(GetApiKey(stored).value,
        ImageParts(req.referenceImages, read) + [TextPart(TaskInstruction(req))],
        ThinkingLevelFor(req.taskType, |req.referenceImages|)))
    ensures call.Some? ==>
      var r := Interpret(backend(call.value), parse);
      outcome == if r.Success? then Success(r.value) else Failure(ClassifyGenerationError(r.error))
    ensures Attempt(outcome, call) == Generation(stored, req, read, backend, parse)
  {
    var key := GetApiKey(stored);
    if key.Failure? {
      return Failure(ClassifyGenerationError(key.error)), None;
    }
    var images := req.referenceImages;
    var parts: seq<Part> := [];
    var i := 0;
    while i < |images|
      invariant 0 <= i <= |images|
      invariant AllReadable(images[..i], read)
      invariant parts == ImageParts(images[..i], read)
    {
      var data := read(images[i]);
      if data.None? {
        return Failure(ClassifyGenerationError(OtherValue)), None;
      }
      assert images[..i + 1] == images[..i] + [images[i]];
      parts := parts + [InlineData(data.value, images[i].mimeType)];
      i := i + 1;
    }
    assert images[..i] == images;
    parts := parts + [TextPart(TaskInstruction(req))];
    var c := BackendCall(key.value, parts, ThinkingLevelFor(req.taskType, |images|));
    call := Some(c);
    var r := Interpret(backend(c), parse);
    outcome := if r.Success? then Success(r.value) else Failure(ClassifyGenerationError(r.error));
  }

  const RefineTitle: string := "**TASK: REFINE EXISTING PROMPT**\n\nCurrent Thai Prompt:\n"
  const RefineRequestHead: string := "\n\nUser's Refinement Request: \""
  const RefineClosing: string :=
    "\"\n\nCreate an improved version following the Golden Formula (7 sections). Keep the core structure but apply the requested changes."

  /** The single text part of a refinement request: the current Thai prompt, then the user's request in quotes. */
  function RefineText(thaiPrompt: string, instruction: string): (r: string)
    ensures StartsWith(r, RefineTitle + thaiPrompt + RefineRequestHead)
    ensures EndsWith(r, instruction + RefineClosing)
  {
    var r := RefineTitle + thaiPrompt + RefineRequestHead + instruction + RefineClosing;
    StartsWithAppend(RefineTitle + thaiPrompt + RefineRequestHead, instruction + RefineClosing);
    EndsWithAppend(RefineTitle + thaiPrompt + RefineRequestHead, instruction + RefineClosing);
    assert RefineTitle + thaiPrompt + RefineRequestHead + (instruction + RefineClosing) == r;
    r
  }

  /**
   * `refineNanoPrompt`: one text part at the low level; every `Error`,
   * including a missing key, reaches the user unclassified.
   */
  function RefineNanoPrompt(stored: StoredKey, current: PromptResult, instruction: string,
                            backend: BackendCall -> Reply, parse: string -> Result<PromptResult, Thrown>): (r: Attempt)
    ensures GetApiKey(stored).Failure? ==>
      r == Attempt(Failure(ClassifyRefinementError(GetApiKey(stored).error)), None)
    ensures GetApiKey(stored).Success? ==>
      r.call == Some(BackendCall(GetApiKey(stored).value, [TextPart(RefineText(current.thaiPrompt, instruction))], Low))
    ensures r.call.Some? ==>
      var res := Interpret(backend(r.call.value), parse);
      r.outcome == if res.Success? then Success(res.value) else Failure(ClassifyRefinementError(res.error))
  {
    var key := GetApiKey(stored);
    if key.Failure? then Attempt(Failure(ClassifyRefinementError(key.error)), None)
    else
      var c := BackendCall(key.value, [TextPart(RefineText(current.thaiPrompt, instruction))], Low);
      var res := Interpret(backend(c), parse);
      Attempt(if res.Success? then Success(res.value) else Failure(ClassifyRefinementError(res.error)), Some(c))
  }

  /**
   * A missing key is reported differently by the two operations: generation
   * rewords it to the configure message, refinement shows the storage
   * message itself, which still asks to configure the key first.
   */
  lemma MissingKeyMessages(current: PromptResult, instruction: string, req: Request, read: ImageFile -> Option<string>,
                           backend: BackendCall -> Reply, parse: string -> Result<PromptResult, Thrown>)
    ensures RefineNanoPrompt(Stored(None), current, instruction, backend, parse).outcome == Failure(MissingKeyMessage)
    ensures ClassifyGenerationError(GetApiKey(Stored(None)).error) == ConfigureKeyMessage
    ensures MissingKeyMessage != ConfigureKeyMessage
  {
    MissingKeyReworded();
    assert |MissingKeyMessage| != |ConfigureKeyMessage|;
  }

  /** Generation and refinement never run at the same reasoning level. */
  lemma RefinementIsCheaper(req: Request, read: ImageFile -> Option<string>, stored: StoredKey, current: PromptResult,
                            instruction: string, backend: BackendCall -> Reply, parse: string -> Result<PromptResult, Thrown>)
    requires GetApiKey(stored).Success?
    ensures RefineNanoPrompt(stored, current, instruction, backend, parse).call.value.level == Low
    ensures ThinkingLevelFor(req.taskType, |req.referenceImages|) != Low
  {
  }
}

# FlowMate Pro: a verified model of the prompt builder and side-panel logic

FlowMate Pro is a Chrome extension. It writes image-generation prompts with
the Gemini API and types them into the chat box of the page the user is on.
This project models the deterministic parts of it in Dafny and proves what
they promise:

- **Instruction** (`instruction.dfy`): the text sent to the model.
  - `buildBrandKitText` and `buildReferenceIntentText`.
  - The five task openings of `buildTaskInstruction`.
  - The "Reference Images Provided" block and the User Specifications lines, with the order and emission rule of each line.
  - The brand block, the reverse-engineering context and the fixed closing.
  - `getThinkingLevel`.
- **GeminiService** (`service.dfy`): `getApiKey`'s outcomes and the error classification of `generateNanoPrompt`.
  - The request that `generateNanoPrompt` builds: one inline part per image, in order, then the instruction, at the chosen level.
  - `refineNanoPrompt`'s single-part request at the low level, which passes errors through.
  - The storage read, the file reader, the SDK call and `JSON.parse` are parameters.
- **History** (`history.dfy`): the list updates behind the side panel.
  - The validation before a generation.
  - The history entry and the history capped at 50.
  - The favourite toggle, delete by id and the reference-intent toggle.
- **App** (`app.dfy`): class `SidePanel`, whose fields are the React state cells of `App.tsx`.
  - Its methods are the handlers: generate, refine, toggle intent, favourite, delete and load from history.
  - The two service operations and the `Date.now()` readings are parameters.
- **Content** (`content.dfy`): the content script.
  - The DOM is a tree of elements, each of which may host a shadow root.
  - `findTextarea` is three first-match queries in document order, then a search of the shadow roots.
  - It is proved complete against a traversal that pierces every shadow root.
  - `simulateInput` is a method on an element class that keeps an event log.
  - The `insertPrompt` listener yields its response record.
- **ResultCard** (`resultcard.dfy`): `formatText`.
  - The split on `(\*\*.*?\*\*)` is modelled as a left-to-right scan for the shortest `**…**` that does not cross a line terminator, as the JavaScript regular expression matches it.
  - The round trip and the classification of the parts are proved.
  - The refine box's empty-input guard is the class `RefineBox`.
- **HistorySidebar** (`historysidebar.dfy`): the tab filter and counts, the relative-age buckets of `formatDate`, and the placeholder for empty content.
- **UploadArea** (`uploadarea.dfy`): the lists handed to `onImagesChange` by file selection, drop, remove-at-index and remove-all.
- **Strings**, **Seqs**, **Types** and **Wrappers** are shared helpers and records.
  - **Strings** holds substring, prefix and suffix predicates, concatenation, join, decimal digits and ECMAScript whitespace.
  - **Seqs** holds an order-preserving filter and the subsequence relation.
  - **Types** holds the records of `src/types/index.ts`.

## Behaviour of the code worth noting

- `refineNanoPrompt` does not classify errors the way generation does. Every `Error` is passed through as it is. A missing key therefore reaches the user as the storage message itself, not as the configure message (`GeminiService.MissingKeyMessages`).
- The parsed reply is not checked field by field. Whatever `JSON.parse` yields is the result.
- The history loaded from storage is not capped again. Only an insertion caps it.

## Model

| member | source | states |
|---|---|---|
| Instruction.BrandFields | src/services/geminiService.ts:121-125 | a field gets a line exactly when its value is non-empty, and the lines keep the order Brand, Colors, Font, Mood, Context |
| Instruction.BrandKitText | src/services/geminiService.ts:117-128 | empty exactly when the kit is disabled; otherwise it starts with the brand heading |
| Instruction.BrandLineListed | src/services/geminiService.ts:121-125 | every non-empty field has its `- Label: value` line among the emitted lines |
| Instruction.BrandKitTextStatesField | src/services/geminiService.ts:117-128 | an enabled kit's text contains the line of every non-empty field |
| Instruction.ReferenceIntentText | src/services/geminiService.ts:131-149 | the all-aspects phrase exactly when no intent is selected; otherwise it starts with the "only" prefix |
| Instruction.IntentTextNamesEveryIntent | src/services/geminiService.ts:134-148 | every selected intent's label appears in the text, and an unknown id appears verbatim |
| Instruction.Opening | src/services/geminiService.ts:168-209 | every opening starts with the task marker; reverse engineering ends with the intent phrase; every other task quotes the typed content |
| Instruction.ReferenceBlock | src/services/geminiService.ts:210-213 | the reference block is present exactly when there are images and the task is not reverse engineering, and it begins with the image count |
| Instruction.AvoidText | src/services/geminiService.ts:223-227 | the avoid value always ends with the excluded brand terms, and is prefixed by `<negative>, ` exactly when the negative prompt is non-empty |
| Instruction.SpecLines | src/services/geminiService.ts:216-234 | a specification line is emitted exactly when its rule holds, in the fixed order Text, Font, Style, Avoid, Aspect Ratio, Resolution, Additional, Brand |
| Instruction.SpecLinesShape | src/services/geminiService.ts:217-231 | the optional leading lines, then Avoid, Aspect Ratio and Resolution always, then the optional Additional line |
| Instruction.SpecificationsBlock | src/services/geminiService.ts:216-234 | empty exactly for reverse engineering; otherwise it starts with the User Specifications header |
| Instruction.AdditionalContextBlock | src/services/geminiService.ts:235-237 | the additional-context paragraph is present exactly for reverse engineering with non-empty details |
| Instruction.TaskInstruction | src/services/geminiService.ts:152-242 | every instruction starts with its task's opening and ends with the fixed closing sentence |
| Instruction.SpecificationsInside | src/services/geminiService.ts:216-234 | for the other tasks, the instruction contains the specification block, all its lines and the brand block |
| Instruction.SpecLineInInstruction | src/services/geminiService.ts:217-231 | every emitted specification line occurs in the instruction |
| Instruction.AvoidRunInLines | src/services/geminiService.ts:227-229 | the Avoid line is directly followed by the Aspect Ratio and Resolution lines |
| Instruction.AvoidLineAlwaysPresent | src/services/geminiService.ts:216-229 | for every task but reverse engineering, the instruction contains the Avoid line, even with an empty negative prompt |
| Instruction.AutoIsUnset | src/services/geminiService.ts:219-220 | a font or style of `Auto` produces the same instruction as an empty one |
| Instruction.SameRulesSameSpecifications | src/services/geminiService.ts:219-220 | the font and style values matter only through the lines they emit |
| Instruction.SameRulesSameInstruction | src/services/geminiService.ts:152-242 | the font and style values matter to the whole instruction only through the lines they emit |
| Instruction.ReverseEngineeringShape | src/services/geminiService.ts:168-173 | the reverse-engineering opening embeds the intent phrase, with singular or plural wording by image count; the content and all specification settings are ignored; details are appended as additional context |
| Instruction.ReferenceCountStated | src/services/geminiService.ts:210-213 | with images and a non-reverse task, the instruction states the image count followed by the intent phrase |
| Instruction.ThinkingLevelFor | src/services/geminiService.ts:245-257 | high exactly for reverse engineering, or custom with more than two images; otherwise medium, never low |
| GeminiService.GetApiKey | src/services/geminiService.ts:86-100 | a storage failure and a missing or empty key reject with their own messages; otherwise the stored key |
| GeminiService.ClassifyGenerationError | src/services/geminiService.ts:330-346 | the ordered checks: "API Key", then 401/403, then 429, otherwise the Error's own message; a non-Error becomes the unknown-error message |
| GeminiService.ClassifyRefinementError | src/services/geminiService.ts:390-396 | an Error passes through unchanged; anything else becomes the refinement-failed message |
| GeminiService.UnmatchedMessagePassesThrough | src/services/geminiService.ts:333-343 | a message that matches none of the checks is rethrown unchanged |
| GeminiService.MissingKeyReworded | src/services/geminiService.ts:93-95 | during generation, the missing-key rejection is reworded to the configure message |
| GeminiService.StorageErrorShown | src/services/geminiService.ts:89-91 | the storage failure reaches the user unchanged |
| GeminiService.EmptyResponseShown | src/services/geminiService.ts:325-326 | an empty reply surfaces as the empty-response message, unclassified |
| GeminiService.ApiKeyCheckComesFirst | src/services/geminiService.ts:334-339 | the API-key check wins over a status code in the same message |
| GeminiService.GenerationMessageOrigin | src/services/geminiService.ts:330-346 | every generation error shown is one of four fixed messages or the thrown Error's own message |
| GeminiService.ImageParts | src/services/geminiService.ts:281-289 | one inline part per image, in order, with its payload and media type |
| GeminiService.Interpret | src/services/geminiService.ts:325-329 | an empty reply is the empty-response error; success exactly when the reply is non-empty and parses |
| GeminiService.Generation | src/services/geminiService.ts:274-329 | the backend is reached exactly when the key exists and every image was read; it then gets the key, one inline part per image with its media type, in order, the instruction last, at getThinkingLevel's level; a result exists only if the backend answered |
| GeminiService.GenerateNanoPrompt | src/services/geminiService.ts:260-347 | the backend is called only with a key and readable images; it gets the image parts, then the instruction, at getThinkingLevel's level; every failure is classified |
| GeminiService.RefineText | src/services/geminiService.ts:359-370 | the refinement text starts with the current Thai prompt and ends with the quoted request and the fixed closing |
| GeminiService.RefineNanoPrompt | src/services/geminiService.ts:351-396 | a single text part at the low level; failures pass through unclassified |
| GeminiService.MissingKeyMessages | src/services/geminiService.ts:93-95 | a missing key is reported differently by refinement and by generation |
| GeminiService.RefinementIsCheaper | src/services/geminiService.ts:245-257 | refinement always runs at the low level, which generation never uses |
| History.ValidationError | src/sidepanel/App.tsx:143-151 | rejected exactly when reverse engineering has no image, or another task's content is blank after trimming, each with its message |
| History.NewHistoryItem | src/sidepanel/App.tsx:176-183 | the id is the clock in decimal; the task, timestamp and result come from the generation; empty content is recorded as `Image-to-Prompt`; not a favourite |
| History.DistinctClocksDistinctIds | src/sidepanel/App.tsx:177 | entries made at different clock readings have different ids |
| History.AddToHistory | src/sidepanel/App.tsx:185 | length min(n+1, 50); the new entry first; then a prefix of the old history in order |
| History.HistoryStaysCapped | src/sidepanel/App.tsx:185 | after any number of insertions the length is min(inserted + old, 50); the inserted entries come first, newest at the head; then the old entries in their order; a history within the cap stays within it |
| History.ToggleFavorite | src/sidepanel/App.tsx:228-234 | the flag flips exactly on the entries with the id; length, order and every other field are unchanged |
| History.ToggleFavoriteTwice | src/sidepanel/App.tsx:228-234 | toggling twice is the identity |
| History.DeleteById | src/sidepanel/App.tsx:236-238 | exactly the entries without the id remain, each as often as before, in order, and the list never grows |
| History.DeleteByIdSettles | src/sidepanel/App.tsx:236-238 | deleting an absent id changes nothing; deleting twice equals deleting once |
| History.ToggleIntent | src/sidepanel/App.tsx:220-226 | an absent id is appended at the end; a present id is removed wherever it occurs, every other id keeping its occurrences and order |
| History.ToggleIntentTwice | src/sidepanel/App.tsx:220-226 | toggling an absent id twice restores the list, order included |
| App.SidePanel.constructor | src/sidepanel/App.tsx:28-63 | the initial state cells and their defaults |
| App.SidePanel.Generate | src/sidepanel/App.tsx:141-195 | a rejected request only shows its message; success shows the result and records it in the capped history; failure shows the error and leaves the history alone; the settings are kept |
| App.SidePanel.Refine | src/sidepanel/App.tsx:248-265 | no-op without a result; the history is never touched; success replaces the result, failure shows the error |
| App.SidePanel.ToggleIntent | src/sidepanel/App.tsx:220-226 | the intents become the toggled list; nothing else changes |
| App.SidePanel.FavoriteHistory | src/sidepanel/App.tsx:228-234 | the history becomes the toggled list; nothing else changes |
| App.SidePanel.DeleteHistory | src/sidepanel/App.tsx:236-238 | the history loses the entries with the id; nothing else changes |
| App.SidePanel.LoadFromHistory | src/sidepanel/App.tsx:240-246 | the entry's task, content and result come back, the history closes and the success toast shows; the settings are kept |
| Content.Visits | src/content/index.ts:19 | the elements of one tree in document order, not entering shadow roots; every node given is visited |
| Content.FirstMatch | src/content/index.ts:7-16 | none exactly when no element matches the rule; otherwise the first matching element in document order |
| Content.FindTextarea | src/content/index.ts:5-28 | a writable textarea in the tree means a writable textarea is returned; when the tree holds any candidate, the answer is one of its own candidates, never one behind a shadow root |
| Content.SelectorOrder | src/content/index.ts:7-16 | the rules apply in order, each answering its first match in document order: a writable textarea beats any contenteditable or shadow-hosted candidate met earlier, and contenteditable beats the textarea inside rich-textarea |
| Content.FirstShadowResultAppend | src/content/index.ts:19-25 | the shadow scan over two stretches of elements is the first stretch's result, else the second's |
| Content.ScanShadowsInDocumentOrder | src/content/index.ts:19-25 | the shadow roots are searched in document order and the first non-null result is returned |
| Content.VisitsReachable | src/content/index.ts:7-19 | every element that a query of one root sees is reachable in the whole tree |
| Content.FindTextareaComplete | src/content/index.ts:5-28 | null exactly when no candidate exists anywhere, including nested shadow roots; otherwise a reachable candidate |
| Content.ScanComplete | src/content/index.ts:19-27 | when the three rules fail at a level, the shadow search finds a candidate exactly when one is reachable |
| Content.RichTextareaAnswerIsReadonly | src/content/index.ts:7-16 | an element returned by the `rich-textarea textarea` rule is always read-only |
| Content.ThreeShadowsDeep | src/content/index.ts:19-25 | a textarea reachable only through three nested shadow roots is found |
| Content.EditableTarget.constructor | src/content/index.ts:31 | a target with its initial contents, not focused, with no events |
| Content.EditableTarget.SimulateInput | src/content/index.ts:31-51 | a textarea gets the value, then bubbling input and change events; any other element gets the text content, then one bubbling insertText input carrying the text; earlier events are kept |
| Content.Respond | src/content/index.ts:54-76 | one response exactly for insertPrompt: success exactly when a target is found, the not-found message otherwise; on an exception the prefix followed by the Error's message, or by `Unknown error` for anything else |
| Content.InsertSucceedsIffReachable | src/content/index.ts:54-67 | the insertion succeeds exactly when an editable candidate is reachable in the document |
| Content.OnMessage | src/content/index.ts:54-76 | the response is the modelled one; the found element is focused, shows exactly the text and receives the bubbling input and change events (a textarea) or one insertText input carrying the text; otherwise nothing changes |
| ResultCard.CloseFrom | src/sidepanel/components/ResultCard.tsx:30 | the lazy `.*?` stops at the first closing `**` |
| ResultCard.CloseFromFirst | src/sidepanel/components/ResultCard.tsx:30 | nothing before the close is a line terminator or `**`; no close exists when every later `**` is past a line break |
| ResultCard.MatchAt | src/sidepanel/components/ResultCard.tsx:30 | a match spans at least four characters and starts and ends with `**` |
| ResultCard.MatchDelimited | src/sidepanel/components/ResultCard.tsx:30 | a matched part starts and ends with `**` and is at least four long |
| ResultCard.SplitFrom | src/sidepanel/components/ResultCard.tsx:30 | the scan yields an odd number of parts |
| ResultCard.SplitFromConcat | src/sidepanel/components/ResultCard.tsx:30 | the parts of the scan concatenate back to the scanned text |
| ResultCard.SplitFromMatches | src/sidepanel/components/ResultCard.tsx:30 | every odd-indexed part is a captured match |
| ResultCard.Split | src/sidepanel/components/ResultCard.tsx:30 | a split with a capturing group yields an odd number of parts |
| ResultCard.SplitRoundTrip | src/sidepanel/components/ResultCard.tsx:30 | the parts concatenate back to the input exactly, and the captured parts are delimited by `**` |
| ResultCard.Inner | src/sidepanel/components/ResultCard.tsx:35 | `slice(2, -2)`: a delimited part is `**` + inner + `**`; a part shorter than four gives "" |
| ResultCard.Classify | src/sidepanel/components/ResultCard.tsx:31-39 | a part is emphasised exactly when it starts and ends with `**`, showing `slice(2, -2)`; otherwise it is shown as it is |
| ResultCard.FormatText | src/sidepanel/components/ResultCard.tsx:29-41 | one segment per part of the split; each is emphasised exactly when its part starts and ends with `**`, captured or not, showing the part's inner text, and otherwise shows the part verbatim |
| ResultCard.MatchesAreEmphasised | src/sidepanel/components/ResultCard.tsx:31-39 | every captured match is shown emphasised, and its text wrapped in `**` is the match |
| ResultCard.ExampleSplit | src/sidepanel/components/ResultCard.tsx:30 | `x **A** y **B** z` splits into the five parts with both bold phrases captured |
| ResultCard.TwoBoldPhrases | src/sidepanel/components/ResultCard.tsx:29-41 | `x **A** y **B** z` gives exactly two bold segments, A and B, with the surrounding text unchanged |
| ResultCard.LoneStarsVanish | src/sidepanel/components/ResultCard.tsx:32-35 | as written, a lone `**` is not a match yet is shown as an empty emphasis, losing the characters |
| ResultCard.FormatMatches | src/sidepanel/components/ResultCard.tsx:29-41 | corrected: emphasis exactly for the captured matches |
| ResultCard.FormatMatchesRestores | src/sidepanel/components/ResultCard.tsx:29-41 | corrected: the shown segments, with captured ones re-wrapped in `**`, give back the input |
| ResultCard.RefineBox.constructor | src/sidepanel/components/ResultCard.tsx:20-21 | an empty request with the refine box closed |
| ResultCard.RefineBox.HandleRefine | src/sidepanel/components/ResultCard.tsx:43-53 | blank text only adds the error notice; otherwise the handler gets the untrimmed text, and the box is cleared and closed; without a handler nothing happens; a sent text is never blank |
| HistorySidebar.FilteredHistory | src/sidepanel/components/HistorySidebar.tsx:39-41 | the all tab lists the whole history; the favourites tab lists exactly the favourites, in order |
| HistorySidebar.TabCounts | src/sidepanel/components/HistorySidebar.tsx:100-109 | the labels count every entry and the favourites, the latter being how many the favourites tab lists |
| HistorySidebar.FormatAge | src/sidepanel/components/HistorySidebar.tsx:43-56 | just now exactly below one minute, future included; otherwise the largest whole number of minutes, hours or days that fits, below 60, 24 and 7 |
| HistorySidebar.AgeText | src/sidepanel/components/HistorySidebar.tsx:48-55 | the just-now text, or the count in decimal without leading zeros followed by its unit |
| HistorySidebar.CountText | src/sidepanel/components/HistorySidebar.tsx:49-55 | a count in decimal, without leading zeros, followed by the unit; the count can be read back from it |
| HistorySidebar.DisplayContent | src/sidepanel/components/HistorySidebar.tsx:163 | empty content is shown as the placeholder, other content as it is |
| HistorySidebar.View | src/sidepanel/components/HistorySidebar.tsx:114-120 | the empty notice exactly when the tab lists nothing; otherwise the tab's entries |
| HistorySidebar.FavoritesEmptyIffNone | src/sidepanel/components/HistorySidebar.tsx:39-41 | the favourites tab is empty exactly when no entry is a favourite |
| UploadArea.AddImages | src/sidepanel/components/UploadArea.tsx:17-23 | the old list followed by exactly the image files, each as often as chosen, in order; none exactly when no file is an image, so the callback is not called |
| UploadArea.AddedFilesAreImages | src/sidepanel/components/UploadArea.tsx:41-50 | non-image files never enter the list, for selection and drop alike |
| UploadArea.RemoveAt | src/sidepanel/components/UploadArea.tsx:53-57 | an index in range drops exactly that file, leaving n-1 files in order; an index out of range changes nothing |
| UploadArea.RemoveAll | src/sidepanel/components/UploadArea.tsx:59-62 | the list handed on is empty |

## Left out

- The Gemini SDK, the backend reply and `JSON.parse` (src/services/geminiService.ts:276, 312-323, 329, 372-389) are parameters: an uninterpreted backend and an uninterpreted parse. Model names, the response schema and the system instruction text are not modelled.
- `getApiKey`'s `chrome.storage` read is a parameter, the `StoredKey` outcome. `fileToBase64` is the parameter `read`: a `FileReader` failure, which rejects with an event rather than an `Error`, is `None`. The data-URL splitting is not modelled.
- `chrome.storage` persistence (src/sidepanel/App.tsx:70-107), the toast timer and the loading-message rotation (src/sidepanel/App.tsx:110-135) are side effects with no logic beyond the state cells.
- The `isLoading`/`isRefining` flags and the modal flags of `App.tsx` are presentation state.
- App.SidePanel.Generate: the clearing of the result and error before the call (src/sidepanel/App.tsx:154-155) is not a separate step, because the call is atomic in the model.
- App.SidePanel.Generate: the `'เกิดข้อผิดพลาด'` fallback for a non-Error is not modelled, because the service only ever throws `Error`s.
- App.SidePanel.Refine: the `'เกิดข้อผิดพลาดในการแก้ไข'` fallback for a non-Error is not modelled, for the same reason.
- `handleAutoFill` (src/sidepanel/App.tsx:197-212) and the background relay in src/background/index.ts are message-passing I/O. The content side of that exchange is modelled by `Content.Respond`.
- Rendering is not modelled: JSX, CSS classes, the clipboard, `URL.createObjectURL` previews and the expanded-section state of the result card.
- HistorySidebar.AgeText: the calendar-date branch of `formatDate` (src/sidepanel/components/HistorySidebar.tsx:57-61) depends on the locale. AgeText requires an age under seven days, and `FormatAge` yields `Older` for it.
- `intentMap[id] || id` with an id such as `constructor` would pick up an inherited Object property. The model treats every id outside the fixed table as unknown.
- Content.OnMessage: only the fault-free path changes the target. An exception inside the DOM calls is the `fault` parameter of `Content.Respond`, which fixes the error response.
- Elements are compared by value, not identity. Real DOM event propagation and the page's reactions are not modelled; dispatched events are only appended to a log. Focus is a flag.
- The `AppState` and `GenerationState` interfaces of src/types/index.ts are not part of this model; nothing in the core uses them.
- These are not part of this model: Settings.tsx, BrandKitModal.tsx, AdvancedSettings.tsx, TaskTypeSelector.tsx, ReferenceIntentSelector.tsx and tailwind.config.js. They hold presentation, a storage write and build configuration.
- The legacy `generateImagePrompt` (src/services/geminiService.ts:399-417) only forwards to `generateNanoPrompt` with fixed defaults.
- The `console.error` calls (src/services/geminiService.ts:331, 391) and the `console.log` (src/content/index.ts:78) are diagnostics with no effect on results; logging is not modelled.
- UploadArea: the drag flags and the reset of the file input are UI state. `onImagesChange` is modelled by the list it receives.

## Findings

| source | as written | input that shows it | evidently intended | confidence | as-written member | corrected member |
|---|---|---|---|---|---|---|
| src/sidepanel/components/ResultCard.tsx:32-35 | any part that starts and ends with `**` is shown as emphasis of `part.slice(2, -2)`, including parts the regular expression did not capture | the text `**`, which is one uncaptured part shown as an empty emphasis, so both stars disappear; likewise `***`, or `**a` + line break + `b**` | only captured matches (the odd-indexed parts of the split) are emphasised, so every character of the input stays on screen | not executed | ResultCard.LoneStarsVanish | ResultCard.FormatMatches, ResultCard.FormatMatchesRestores |

`ResultCard.FormatText` remains the model of `formatText` as written. `ResultCard.FormatMatches` is the corrected rendering, and no other member depends on either of them.

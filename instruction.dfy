/**
 * The instruction builder of the prompt service: the brand-identity block,
 * the reference-intent phrase, the task instruction assembled from guarded
 * appends, and the reasoning-effort table.
 */
module Instruction {
  import opened Strings
  import opened Types
  import opened Seqs

  /** Every input the task instruction is assembled from. */
  datatype Request = Request(
    taskType: TaskType,
    contentInput: string,
    referenceImages: seq<ImageFile>,
    referenceIntents: seq<string>,
    textInImage: string,
    fontName: string,
    style: string,
    negativePrompt: string,
    additionalDetails: string,
    userAspectRatio: string,
    userResolution: string,
    brandKit: BrandKit)

  // ---------------------------------------------------------------------------
  // Brand identity block

  const BrandHeading: string := "\n\n**BRAND IDENTITY (ต้องใช้ตลอด)**\n"

  /** The brand-kit fields, in the order their lines are appended. */
  datatype BrandField = BrandName | BrandColor | BrandFont | BrandMood | BrandContext

  const AllBrandFields: seq<BrandField> := [BrandName, BrandColor, BrandFont, BrandMood, BrandContext]

  lemma BrandFieldListed(f: BrandField)
    ensures f in AllBrandFields
  {
  }

  function BrandLabel(f: BrandField): string
  {
    match f
    case BrandName => "Brand"
    case BrandColor => "Colors"
    case BrandFont => "Font"
    case BrandMood => "Mood"
    case BrandContext => "Context"
  }

  function BrandValue(kit: BrandKit, f: BrandField): string
  {
    match f
    case BrandName => kit.brandName
    case BrandColor => kit.brandColor
    case BrandFont => kit.brandFont
    case BrandMood => kit.brandMood
    case BrandContext => kit.additionalContext
  }

  /** The fields that get a line: exactly the non-empty ones, each once, in the fixed order. */
  function BrandFields(kit: BrandKit): (r: seq<BrandField>)
    ensures forall f :: f in r <==> BrandValue(kit, f) != ""
    ensures SubsequenceOf(r, AllBrandFields)
  {
    var r := Filter(AllBrandFields, f => BrandValue(kit, f) != "");
    assert forall f :: f in r <==> BrandValue(kit, f) != "" by {
      forall f: BrandField ensures f in AllBrandFields {
        BrandFieldListed(f);
      }
    }
    r
  }

  function BrandLineText(kit: BrandKit, f: BrandField): string
  {
    "- " + BrandLabel(f) + ": " + BrandValue(kit, f) + "\n"
  }

  function BrandLineTexts(kit: BrandKit, fs: seq<BrandField>): seq<string>
  {
    seq(|fs|, i requires 0 <= i < |fs| => BrandLineText(kit, fs[i]))
  }

  /** `buildBrandKitText`: nothing while disabled, otherwise the heading and one line per non-empty field. */
  function BrandKitText(kit: BrandKit): (r: string)
    ensures !kit.enabled <==> r == ""
    ensures kit.enabled ==> StartsWith(r, BrandHeading)
  {
    if !kit.enabled then ""
    else
      var parts := [BrandHeading] + BrandLineTexts(kit, BrandFields(kit));
      ConcatStartsWith(parts);
      Concat(parts)
  }

  /** Every non-empty field has its line among the brand lines. */
  lemma BrandLineListed(kit: BrandKit, f: BrandField)
    requires BrandValue(kit, f) != ""
    ensures BrandLineText(kit, f) in BrandLineTexts(kit, BrandFields(kit))
  {
    var fs := BrandFields(kit);
    var i :| 0 <= i < |fs| && fs[i] == f;
    assert BrandLineTexts(kit, fs)[i] == BrandLineText(kit, f);
  }

  /** An enabled kit states every non-empty field on a `- Label: value` line. */
  lemma BrandKitTextStatesField(kit: BrandKit, f: BrandField)
    requires kit.enabled && BrandValue(kit, f) != ""
    ensures Contains(BrandKitText(kit), BrandLineText(kit, f))
  {
    BrandLineListed(kit, f);
    var parts := [BrandHeading] + BrandLineTexts(kit, BrandFields(kit));
    assert BrandLineText(kit, f) in parts;
    ConcatContainsMember(parts, BrandLineText(kit, f));
  }

  // ---------------------------------------------------------------------------
  // Reference intents

  const AllAspects: string := "อ้างอิงทุกด้านจากภาพ"
  const OnlyPrefix: string := "อ้างอิงเฉพาะ: "

  /** The labels of the known intent identifiers. */
  const IntentLabels: map<string, string> := map[
    "mood" := "บรรยากาศโดยรวม (Mood)",
    "lighting" := "แสงและเงา (Lighting)",
    "style" := "ลายเส้น/สไตล์ภาพ (Style)",
    "color" := "ชุดสี (Color Palette)",
    "composition" := "การจัดวาง (Composition)",
    "camera" := "มุมกล้อง (Camera Angle)",
    "subject" := "ตัวละคร/วัตถุ (Subject)",
    "outfit" := "เสื้อผ้า (Costume)",
    "background" := "ฉากหลัง (Background)",
    "typography" := "ฟอนต์ (Typography)"
  ]

  /** An intent's label; an unknown identifier stands for itself. */
  function IntentLabel(id: string): string
  {
    if id in IntentLabels then IntentLabels[id] else id
  }

  function IntentLabelList(ids: seq<string>): seq<string>
  {
    seq(|ids|, i requires 0 <= i < |ids| => IntentLabel(ids[i]))
  }

  /** `buildReferenceIntentText`. */
  function ReferenceIntentText(intents: seq<string>): (r: string)
    ensures r == AllAspects <==> intents == []
    ensures intents != [] ==> StartsWith(r, OnlyPrefix)
  {
    if intents == [] then AllAspects
    else
      var r := OnlyPrefix + Join(IntentLabelList(intents), ", ");
      assert r[..|OnlyPrefix|] == OnlyPrefix;
      assert AllAspects[7] != OnlyPrefix[7];
      r
  }

  /** A non-empty selection names every selected intent by its label, unknown ones verbatim. */
  lemma IntentTextNamesEveryIntent(intents: seq<string>, i: nat)
    requires i < |intents|
    ensures Contains(ReferenceIntentText(intents), IntentLabel(intents[i]))
    ensures intents[i] !in IntentLabels ==> Contains(ReferenceIntentText(intents), intents[i])
  {
    var labels := IntentLabelList(intents);
    JoinContains(labels, ", ", i);
    ContainsWithin(Join(labels, ", "), labels[i], OnlyPrefix, "");
    assert OnlyPrefix + Join(labels, ", ") + "" == ReferenceIntentText(intents);
  }

  // ---------------------------------------------------------------------------
  // Task openings

  /** Every opening begins with this task marker. */
  const TaskTag: string := "**TASK: "

  const ReverseTitle: string := TaskTag + "REVERSE ENGINEERING**\n\nAnalyze "
  const ReverseMiddle: string := " and create a detailed, professional prompt in Thai that could recreate "

  /** The reverse-engineering opening up to the intent phrase, singular or plural by image count. */
  function ReverseHead(imageCount: nat): string
  {
    ReverseTitle + (if imageCount > 1 then "these images" else "this image") +
    ReverseMiddle + (if imageCount > 1 then "them" else "it") + ".\n\n"
  }

  // Each opening is the text before the quoted content, the content in
  // double quotes, and the requirements after it.
  const CoverIntro: string :=
    TaskTag + "COVER IMAGE (ภาพปก)**\n\nCreate a prompt for an eye-catching cover image with headline text for: "
  const CoverRequirements: string :=
    "\n\nRequirements:\n- Must include visible headline text in the image\n" +
    "- Eye-catching and attention-grabbing\n- Suitable for Facebook, YouTube, Blog covers"
  const InfographicIntro: string :=
    TaskTag + "INFOGRAPHIC**\n\nCreate a prompt for an explanatory infographic about: "
  const InfographicRequirements: string :=
    "\n\nRequirements:\n- Educational and data-driven\n- Clear visual hierarchy\n" +
    "- Text annotations and labels included"
  const IllustrationIntro: string :=
    TaskTag + "ILLUSTRATION (ภาพประกอบ)**\n\nCreate a prompt for a storytelling illustration about: "
  const IllustrationRequirements: string :=
    "\n\nRequirements:\n- Focus on storytelling and emotion\n" +
    "- NO TEXT in the final image (pure illustration)\n- Atmospheric and narrative-driven"
  const CustomIntro: string :=
    TaskTag + "CUSTOM CREATIVE VISION (โหมดเนรมิต)**\n\nFree-form prompt creation for: "
  const CustomRequirements: string :=
    "\n\nYou have complete creative freedom. Combine elements as requested."

  /** `"${t}"` */
  function Quoted(t: string): string
  {
    "\"" + t + "\""
  }

  /** The text before the quoted content, for a task that has content. */
  function Intro(task: TaskType): string
  {
    match task
    case Cover => CoverIntro
    case Infographic => InfographicIntro
    case Illustration => IllustrationIntro
    case _ => CustomIntro
  }

  /** The text after the quoted content, for a task that has content. */
  function Requirements(task: TaskType): string
  {
    match task
    case Cover => CoverRequirements
    case Infographic => InfographicRequirements
    case Illustration => IllustrationRequirements
    case _ => CustomRequirements
  }

  /**
   * The task-specific opening. Every one starts with the task marker; the
   * reverse-engineering one ends with the intent phrase, and every other
   * one quotes the content the user typed.
   */
  function Opening(req: Request): (r: string)
    ensures StartsWith(r, TaskTag)
    ensures req.taskType == ImageToPrompt ==> EndsWith(r, ReferenceIntentText(req.referenceIntents))
    ensures req.taskType != ImageToPrompt ==> Contains(r, Quoted(req.contentInput))
  {
    if req.taskType == ImageToPrompt then
      var head := ReverseHead(|req.referenceImages|);
      var tail := head[|TaskTag|..] + ReferenceIntentText(req.referenceIntents);
      EndsWithAppend(head, ReferenceIntentText(req.referenceIntents));
      StartsWithAppend(TaskTag, tail);
      assert head == TaskTag + head[|TaskTag|..];
      head + ReferenceIntentText(req.referenceIntents)
    else
      var intro := Intro(req.taskType);
      var rest := intro[|TaskTag|..] + Quoted(req.contentInput) + Requirements(req.taskType);
      ContainsMiddle(intro, Quoted(req.contentInput), Requirements(req.taskType));
      StartsWithAppend(TaskTag, rest);
      assert intro == TaskTag + intro[|TaskTag|..];
      intro + Quoted(req.contentInput) + Requirements(req.taskType)
  }

  // ---------------------------------------------------------------------------
  // Reference images block

  const ReferenceCountHead: string := "\n\nReference Images Provided ("

  function ReferenceCountLine(imageCount: nat): string
  {
    ReferenceCountHead + NatToString(imageCount) + "):\n"
  }

  /** The reference-image block: present exactly when images exist and the task is not reverse engineering. */
  function ReferenceBlock(req: Request): (r: string)
    ensures r != "" <==> |req.referenceImages| > 0 && req.taskType != ImageToPrompt
    ensures r != "" ==> StartsWith(r, ReferenceCountLine(|req.referenceImages|))
  {
    if |req.referenceImages| > 0 && req.taskType != ImageToPrompt then
      ReferenceCountLine(|req.referenceImages|) + ReferenceIntentText(req.referenceIntents)
    else ""
  }

  // ---------------------------------------------------------------------------
  // User specifications block

  const SpecHeader: string := "\n\n**User Specifications:**"
  const ExcludedTerms: string := "โลโก้แบรนด์, ชื่อแบรนด์"

  /** The negative terms: the user's text, if any, then the two terms that are always excluded. */
  function AvoidText(negativePrompt: string): (r: string)
    ensures EndsWith(r, ExcludedTerms)
    ensures negativePrompt != "" ==> StartsWith(r, negativePrompt + ", ")
    ensures |r| == |ExcludedTerms| + (if negativePrompt == "" then 0 else |negativePrompt| + 2)
  {
    if negativePrompt != "" then negativePrompt + ", " + ExcludedTerms else ExcludedTerms
  }

  /** The lines of the specifications block, in their fixed order. */
  datatype SpecLine = TextInImage | Font | Style | Avoid | AspectRatio | Resolution | Additional

  /** The fixed order: three optional lines, the three lines that are always present, one more optional line. */
  const LeadingLines: seq<SpecLine> := [TextInImage, Font, Style]
  const FixedLines: seq<SpecLine> := [Avoid, AspectRatio, Resolution]
  const TrailingLines: seq<SpecLine> := [Additional]
  const AllSpecLines: seq<SpecLine> := LeadingLines + FixedLines + TrailingLines

  /** "Auto" is the sentinel for an unset font or style. */
  const Auto: string := "Auto"

  lemma SpecLineListed(l: SpecLine)
    ensures l in AllSpecLines
  {
  }

  /** The rule for each line: the text, font, style and details lines need a value, "Auto" unsets font and style. */
  predicate Emitted(req: Request, l: SpecLine)
  {
    match l
    case TextInImage => req.textInImage != ""
    case Font => req.fontName != "" && req.fontName != Auto
    case Style => req.style != "" && req.style != Auto
    case Avoid => true
    case AspectRatio => true
    case Resolution => true
    case Additional => req.additionalDetails != ""
  }

  /**
   * The lines the specifications block holds: text only when given, font and
   * style only when given and not "Auto", additional details only when given,
   * and the avoid, aspect-ratio and resolution lines always; each at most once,
   * in the fixed order.
   */
  function EmitRule(req: Request): SpecLine -> bool
  {
    l => Emitted(req, l)
  }

  function SpecLines(req: Request): (r: seq<SpecLine>)
    ensures forall l :: l in r <==> Emitted(req, l)
    ensures SubsequenceOf(r, AllSpecLines)
  {
    var r := Filter(AllSpecLines, EmitRule(req));
    assert forall l :: l in r <==> Emitted(req, l) by {
      forall l: SpecLine ensures l in AllSpecLines {
        SpecLineListed(l);
      }
    }
    r
  }

  function SpecText(req: Request, l: SpecLine): string
  {
    match l
    case TextInImage => "\n- Text in Image: \"" + req.textInImage + "\""
    case Font => "\n- Font: " + req.fontName
    case Style => "\n- Style: " + req.style
    case Avoid => "\n- Avoid: " + AvoidText(req.negativePrompt)
    case AspectRatio => "\n- Aspect Ratio: " + req.userAspectRatio
    case Resolution => "\n- Resolution: " + req.userResolution
    case Additional => "\n- Additional: " + req.additionalDetails
  }

  function SpecTexts(req: Request, ls: seq<SpecLine>): (r: seq<string>)
    ensures |r| == |ls|
  {
    seq(|ls|, i requires 0 <= i < |ls| => SpecText(req, ls[i]))
  }

  function SpecificationsParts(req: Request): seq<string>
  {
    [SpecHeader, Concat(SpecTexts(req, SpecLines(req))), BrandKitText(req.brandKit)]
  }

  /** The specifications block and the brand block after it; absent for reverse engineering. */
  function SpecificationsBlock(req: Request): (r: string)
    ensures req.taskType == ImageToPrompt <==> r == ""
    ensures req.taskType != ImageToPrompt ==> StartsWith(r, SpecHeader)
  {
    if req.taskType != ImageToPrompt then
      ConcatStartsWith(SpecificationsParts(req));
      Concat(SpecificationsParts(req))
    else ""
  }

  const AdditionalContextHead: string := "\n\nAdditional Context: "

  /** The additional-context line of reverse engineering: present exactly when that task has details. */
  function AdditionalContextBlock(req: Request): (r: string)
    ensures r != "" <==> req.taskType == ImageToPrompt && req.additionalDetails != ""
  {
    if req.taskType == ImageToPrompt && req.additionalDetails != "" then
      AdditionalContextHead + req.additionalDetails
    else ""
  }

  const Closing: string := "\n\nCreate a professional, structured Thai prompt following the Golden Formula (7 sections)."

  /** The blocks `buildTaskInstruction` appends, in order; an absent block is empty. */
  function InstructionBlocks(req: Request): seq<string>
  {
    [Opening(req), ReferenceBlock(req), SpecificationsBlock(req), AdditionalContextBlock(req), Closing]
  }

  /** `buildTaskInstruction`: every instruction, whatever the task, starts with its opening and ends with the closing directive. */
  function TaskInstruction(req: Request): (r: string)
    ensures StartsWith(r, Opening(req))
    ensures EndsWith(r, Closing)
  {
    var blocks := InstructionBlocks(req);
    ConcatStartsWith(blocks);
    ConcatEndsWith(blocks);
    Concat(blocks)
  }

  /** The specification lines, the brand block and the closing directive lie inside a non-reverse instruction. */
  lemma SpecificationsInside(req: Request)
    requires req.taskType != ImageToPrompt
    ensures Contains(TaskInstruction(req), SpecificationsBlock(req))
    ensures Contains(TaskInstruction(req), Concat(SpecTexts(req, SpecLines(req))))
    ensures Contains(TaskInstruction(req), BrandKitText(req.brandKit))
  {
    var blocks := InstructionBlocks(req);
    ConcatContains(blocks, 2);
    var spec := SpecificationsParts(req);
    ConcatContains(spec, 1);
    ConcatContains(spec, 2);
    ContainsTransitive(TaskInstruction(req), SpecificationsBlock(req), spec[1]);
    ContainsTransitive(TaskInstruction(req), SpecificationsBlock(req), spec[2]);
  }

  /** Every emitted specification line occurs in the instruction. */
  lemma SpecLineInInstruction(req: Request, l: SpecLine)
    requires req.taskType != ImageToPrompt && Emitted(req, l)
    ensures Contains(TaskInstruction(req), SpecText(req, l))
  {
    var ls := SpecLines(req);
    var i :| 0 <= i < |ls| && ls[i] == l;
    SpecificationsInside(req);
    ConcatContains(SpecTexts(req, ls), i);
    ContainsTransitive(TaskInstruction(req), Concat(SpecTexts(req, ls)), SpecText(req, l));
  }

  /** The avoid, aspect-ratio and resolution lines always stand together between the optional lines. */
  lemma SpecLinesShape(req: Request)
    ensures SpecLines(req) ==
      Filter(LeadingLines, EmitRule(req)) + FixedLines + Filter(TrailingLines, EmitRule(req))
  {
    var p := EmitRule(req);
    assert forall l :: l in FixedLines ==> p(l);
    FilterKeepsAll(FixedLines, p);
    FilterAppend(LeadingLines + FixedLines, TrailingLines, p);
    FilterAppend(LeadingLines, FixedLines, p);
  }

  lemma SpecTextsAppend(req: Request, a: seq<SpecLine>, b: seq<SpecLine>)
    ensures SpecTexts(req, a + b) == SpecTexts(req, a) + SpecTexts(req, b)
  {
  }

  /** The rendered lines hold the avoid, aspect-ratio and resolution lines back to back. */
  lemma AvoidRunInLines(req: Request)
    ensures Contains(Concat(SpecTexts(req, SpecLines(req))),
      SpecText(req, Avoid) + SpecText(req, AspectRatio) + SpecText(req, Resolution))
  {
    var p := EmitRule(req);
    var pre, mid, post := Filter(LeadingLines, p), FixedLines, Filter(TrailingLines, p);
    SpecLinesShape(req);
    SpecTextsAppend(req, pre + mid, post);
    SpecTextsAppend(req, pre, mid);
    ConcatAppend(SpecTexts(req, pre) + SpecTexts(req, mid), SpecTexts(req, post));
    ConcatAppend(SpecTexts(req, pre), SpecTexts(req, mid));
    assert SpecTexts(req, mid) == [SpecText(req, Avoid), SpecText(req, AspectRatio), SpecText(req, Resolution)];
    ConcatThree(SpecText(req, Avoid), SpecText(req, AspectRatio), SpecText(req, Resolution));
    ContainsMiddle(Concat(SpecTexts(req, pre)), Concat(SpecTexts(req, mid)), Concat(SpecTexts(req, post)));
  }

  /**
   * Whatever the user's negative text, a non-reverse instruction holds the
   * avoid line (which ends in the two always-excluded terms), followed
   * directly by the aspect-ratio and resolution lines.
   */
  lemma AvoidLineAlwaysPresent(req: Request)
    requires req.taskType != ImageToPrompt
    ensures Contains(TaskInstruction(req),
      SpecText(req, Avoid) + SpecText(req, AspectRatio) + SpecText(req, Resolution))
  {
    AvoidRunInLines(req);
    SpecificationsInside(req);
    ContainsTransitive(TaskInstruction(req), Concat(SpecTexts(req, SpecLines(req))),
      SpecText(req, Avoid) + SpecText(req, AspectRatio) + SpecText(req, Resolution));
  }

  /** "Auto" for the font or the style yields exactly the instruction of an unset field. */
  lemma AutoIsUnset(req: Request)
    ensures TaskInstruction(req.(fontName := Auto)) == TaskInstruction(req.(fontName := ""))
    ensures TaskInstruction(req.(style := Auto)) == TaskInstruction(req.(style := ""))
  {
    SameRulesSameInstruction(req.(fontName := Auto), req.(fontName := ""));
    SameRulesSameInstruction(req.(style := Auto), req.(style := ""));
  }

  /** Font and style values whose lines are not emitted leave the specifications block unchanged. */
  lemma SameRulesSameSpecifications(a: Request, b: Request)
    requires a.(fontName := b.fontName, style := b.style) == b
    requires (!Emitted(a, Font) && !Emitted(b, Font)) || a.fontName == b.fontName
    requires (!Emitted(a, Style) && !Emitted(b, Style)) || a.style == b.style
    ensures SpecificationsBlock(a) == SpecificationsBlock(b)
  {
    assert forall l :: EmitRule(a)(l) == EmitRule(b)(l);
    FilterCongruent(AllSpecLines, EmitRule(a), EmitRule(b));
    var ls := SpecLines(a);
    assert SpecTexts(a, ls) == SpecTexts(b, ls);
    assert SpecificationsParts(a) == SpecificationsParts(b);
  }

  /** Two requests that differ only in font or style values whose lines neither emits produce the same instruction. */
  lemma SameRulesSameInstruction(a: Request, b: Request)
    requires a.(fontName := b.fontName, style := b.style) == b
    requires (!Emitted(a, Font) && !Emitted(b, Font)) || a.fontName == b.fontName
    requires (!Emitted(a, Style) && !Emitted(b, Style)) || a.style == b.style
    ensures TaskInstruction(a) == TaskInstruction(b)
  {
    SameRulesSameSpecifications(a, b);
    assert InstructionBlocks(a) == InstructionBlocks(b);
  }

  /**
   * Reverse engineering: the opening names one image or several, the intent
   * phrase follows it directly, and neither the content, the specification
   * fields nor the brand kit change the instruction.
   */
  lemma ReverseEngineeringShape(req: Request, other: Request)
    requires req.taskType == ImageToPrompt && other.taskType == ImageToPrompt
    requires other.referenceImages == req.referenceImages && other.referenceIntents == req.referenceIntents
    requires other.additionalDetails == req.additionalDetails
    ensures StartsWith(TaskInstruction(req), ReverseHead(|req.referenceImages|) + ReferenceIntentText(req.referenceIntents))
    ensures TaskInstruction(req) == TaskInstruction(other)
    ensures req.additionalDetails != "" ==>
      EndsWith(TaskInstruction(req), AdditionalContextHead + req.additionalDetails + Closing)
  {
    assert InstructionBlocks(req) == InstructionBlocks(other);
    if req.additionalDetails != "" {
      var blocks := InstructionBlocks(req);
      ConcatSuffix(blocks, 3);
      assert blocks[3..] == [AdditionalContextBlock(req), Closing];
      ConcatTwo(AdditionalContextBlock(req), Closing);
    }
  }

  /** A non-reverse instruction with images states how many, with the intent phrase after the count. */
  lemma ReferenceCountStated(req: Request)
    requires req.taskType != ImageToPrompt && |req.referenceImages| > 0
    ensures Contains(TaskInstruction(req),
      ReferenceCountLine(|req.referenceImages|) + ReferenceIntentText(req.referenceIntents))
  {
    ConcatContains(InstructionBlocks(req), 1);
  }

  // ---------------------------------------------------------------------------
  // Reasoning effort

  datatype ThinkingLevel = Low | Medium | High

  /** `getThinkingLevel`: high for reverse engineering and for custom work on more than two images, medium otherwise. */
  function ThinkingLevelFor(task: TaskType, imageCount: nat): (r: ThinkingLevel)
    ensures r == High <==> task == ImageToPrompt || (task == Custom && imageCount > 2)
    ensures r != Low
  {
    match task
    case ImageToPrompt => High
    case Custom => if imageCount > 2 then High else Medium
    case Cover => Medium
    case Infographic => Medium
    case Illustration => Medium
  }
}

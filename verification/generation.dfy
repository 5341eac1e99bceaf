/**
 * Study-material generation: which prompt is sent to the text model for a
 * request, and what text comes back. The model call itself is a parameter,
 * from prompt to outcome; the generator never fails, it falls back to fixed
 * messages.
 */
module Generation {
  import opened Types

  /** The four study-guide instructions; their wording is not part of this model. */
  datatype Instruction =
    | Comprehensive
    | MockExamInstruction
    | AssignmentInstruction
    | PracticeInstruction

  /**
   * The instruction a study guide gets: mock exam, assignment and practice
   * each have their own; "all" and no category keep the comprehensive guide.
   */
  function InstructionFor(category: Option<MaterialCategory>): (i: Instruction)
    ensures i == Comprehensive <==> category.None? || category == Some(All)
    ensures i == MockExamInstruction <==> category == Some(MockExam)
    ensures i == AssignmentInstruction <==> category == Some(Assignment)
    ensures i == PracticeInstruction <==> category == Some(Practice)
  {
    match category
    case Some(MockExam) => MockExamInstruction
    case Some(Assignment) => AssignmentInstruction
    case Some(Practice) => PracticeInstruction
    case _ => Comprehensive
  }

  /**
   * What a prompt says, without its layout. `context` is the user's
   * description when one is given; `attachment` the attached file's name.
   * The study-guide prompt also names the category in its heading.
   */
  datatype Prompt =
    | AnswerKeyPrompt(subject: Subject, unit: string, attachment: Option<string>, context: Option<string>)
    | StudyGuidePrompt(subject: Subject, unit: string, instruction: Instruction,
                       category: Option<MaterialCategory>, context: Option<string>)

  /**
   * The prompt for a request: an answer key gets the answer-key prompt with
   * the file sentence when a file name is present; any other request a
   * study guide with the category's instruction. In both, the context block
   * appears exactly when the description is non-empty.
   */
  function BuildPrompt(subject: Subject, unit: string, requestType: RequestType, category: Option<MaterialCategory>,
                       attachedFileName: Option<string>, description: Option<string>): (p: Prompt)
    ensures p.AnswerKeyPrompt? <==> requestType == AnswerKey
    ensures p.subject == subject && p.unit == unit
    ensures p.context.Some? <==> description.Some? && description.value != ""
    ensures p.context.Some? ==> p.context == description
    ensures p.AnswerKeyPrompt? ==> (p.attachment.Some? <==> attachedFileName.Some? && attachedFileName.value != "")
    ensures p.AnswerKeyPrompt? && p.attachment.Some? ==> p.attachment == attachedFileName
    ensures p.StudyGuidePrompt? ==> p.instruction == InstructionFor(category) && p.category == category
  {
    var context := NonEmpty(description);
    if requestType == AnswerKey then AnswerKeyPrompt(subject, unit, NonEmpty(attachedFileName), context)
    else StudyGuidePrompt(subject, unit, InstructionFor(category), category, context)
  }

  /** An answer key's prompt is the same whatever material category the request carries. */
  lemma AnswerKeyIgnoresCategory(subject: Subject, unit: string, c1: Option<MaterialCategory>, c2: Option<MaterialCategory>,
                                 attachedFileName: Option<string>, description: Option<string>)
    ensures BuildPrompt(subject, unit, AnswerKey, c1, attachedFileName, description)
         == BuildPrompt(subject, unit, AnswerKey, c2, attachedFileName, description)
  {
  }

  /** A study guide's prompt never mentions the attached file. */
  lemma StudyGuideIgnoresAttachment(subject: Subject, unit: string, category: Option<MaterialCategory>,
                                    f1: Option<string>, f2: Option<string>, description: Option<string>)
    ensures BuildPrompt(subject, unit, StudyGuide, category, f1, description)
         == BuildPrompt(subject, unit, StudyGuide, category, f2, description)
  {
  }

  /** What the model call ends in: a response, whose text may be missing, or an exception. */
  datatype ModelReply = Replied(text: Option<string>) | Failed

  const FallbackText: string := "## Error generating content. Please try again."
  const SystemErrorText: string := "## System Error\nCould not generate study material at this time."

  /**
   * `generateStudyMaterial`: the model's text for the request's prompt; an
   * empty or missing text gives the fallback message and a failed call the
   * system-error message, so the result is never empty.
   */
  function GenerateStudyMaterial(subject: Subject, unit: string, requestType: RequestType,
                                 category: Option<MaterialCategory>, attachedFileName: Option<string>,
                                 description: Option<string>, model: Prompt -> ModelReply): (text: string)
    ensures text != ""
    ensures var reply := model(BuildPrompt(subject, unit, requestType, category, attachedFileName, description));
            && (reply.Failed? ==> text == SystemErrorText)
            && (reply.Replied? && reply.text.Some? && reply.text.value != "" ==> text == reply.text.value)
            && (reply.Replied? && (reply.text.None? || reply.text.value == "") ==> text == FallbackText)
  {
    var prompt := BuildPrompt(subject, unit, requestType, category, attachedFileName, description);
    match model(prompt)
    case Failed => SystemErrorText
    case Replied(response) =>
      match NonEmpty(response)
      case Some(t) => t
      case None => FallbackText
  }
}

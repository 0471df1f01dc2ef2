/** The `submitFeedback` server action: the `feedbackSchema` check on the submitted form and the
    two result records it can return. */
module Feedback {
  import opened Wrappers

  /** The schema's `min(10)` bound on the feedback text. */
  const MinFeedbackLength := 10
  const TooShortMessage := "Feedback must be at least 10 characters long."
  const CorrectErrorsMessage := "Please correct the errors and try again."
  const ThankYouMessage := "Thank you for your feedback!"
  /** The only field the schema declares, and the key its errors are filed under. */
  const FeedbackField := "feedback"

  /** What `formData.get("feedback")` yields: `null` when the form has no such field, the text of
      a text field, or an uploaded file. */
  datatype EntryValue = Missing | Text(text: string) | Upload

  /** The schema's complaints about the field. `InvalidType` is the check `z.string()` makes before
      any length check; its message wording belongs to the validation library. */
  datatype Issue = TooSmall(message: string) | InvalidType

  /** The record `submitFeedback` returns: field errors keyed by field name, and a message. */
  datatype FormState = FormState(errors: map<string, seq<Issue>>, message: string)

  /** A text the schema accepts. */
  predicate LongEnough(text: string) {
    |text| >= MinFeedbackLength
  }

  /** `feedbackSchema.safeParse({ feedback: value })`: the feedback text, or the one issue found. */
  function ParseFeedback(value: EntryValue): (r: Result<string, Issue>)
    ensures r.Ok? <==> value.Text? && LongEnough(value.text)
    ensures r.Ok? ==> r.value == value.text
    ensures r.Err? && value.Text? ==> r.error == TooSmall(TooShortMessage)
    ensures r.Err? && !value.Text? ==> r.error == InvalidType
  {
    match value
    case Text(t) => if |t| < MinFeedbackLength then Err(TooSmall(TooShortMessage)) else Ok(t)
    case _ => Err(InvalidType)
  }

  /** `submitFeedback(prevState, formData)`, with the form reduced to its `feedback` entry. The
      previous state is accepted and ignored, as the action does. Logging the accepted text is
      output the model leaves out. */
  function SubmitFeedback<S>(prevState: S, value: EntryValue): (r: FormState)
    ensures r.errors == map[] <==> ParseFeedback(value).Ok?
    ensures r.message == ThankYouMessage <==> ParseFeedback(value).Ok?
    ensures r.message == CorrectErrorsMessage <==> ParseFeedback(value).Err?
  {
    match ParseFeedback(value)
    case Err(issue) =>
      var errors := map[FeedbackField := [issue]];
      assert FeedbackField in errors;
      FormState(errors, CorrectErrorsMessage)
    case Ok(_) => FormState(map[], ThankYouMessage)
  }

  /** Text of ten or more characters is accepted with the thank-you message and no errors. */
  lemma AcceptsLongEnoughText<S>(prevState: S, text: string)
    requires |text| >= MinFeedbackLength
    ensures SubmitFeedback(prevState, Text(text)) == FormState(map[], ThankYouMessage)
  {
  }

  /** Text shorter than ten characters is rejected with the length complaint filed under
      `feedback`, and the top-level message asks for corrections. */
  lemma RejectsShortText<S>(prevState: S, text: string)
    requires |text| < MinFeedbackLength
    ensures SubmitFeedback(prevState, Text(text))
         == FormState(map[FeedbackField := [TooSmall(TooShortMessage)]], CorrectErrorsMessage)
  {
  }

  /** The bound is inclusive: ten characters pass, nine do not. */
  lemma LengthBoundary<S>(prevState: S, text: string)
    requires |text| == MinFeedbackLength
    ensures SubmitFeedback(prevState, Text(text)).errors == map[]
    ensures FeedbackField in SubmitFeedback(prevState, Text(text[1..])).errors
  {
  }

  /** A form without a `feedback` text field (absent, or an uploaded file) is rejected with a
      type complaint under `feedback`, never accepted. */
  lemma RejectsNonText<S>(prevState: S, value: EntryValue)
    requires !value.Text?
    ensures SubmitFeedback(prevState, value)
         == FormState(map[FeedbackField := [InvalidType]], CorrectErrorsMessage)
  {
  }

  /** Every result carries a message and is exactly one of the two records; errors are empty
      exactly when the text was accepted, and a rejection always files one issue under
      `feedback`. */
  lemma ResultShape<S>(prevState: S, value: EntryValue)
    ensures var r := SubmitFeedback(prevState, value);
      && r.message != ""
      && (r.errors == map[] <==> value.Text? && LongEnough(value.text))
      && (r.errors != map[] ==> r.errors.Keys == {FeedbackField} && |r.errors[FeedbackField]| == 1)
  {
  }

  /** The outcome depends on the submitted entry only, never on the previous state. */
  lemma IgnoresPreviousState<S>(before: S, other: S, value: EntryValue)
    ensures SubmitFeedback(before, value) == SubmitFeedback(other, value)
  {
  }
}

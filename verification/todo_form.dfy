/** The stand-alone `TodoForm` component: two controlled fields and a submit
    handler that refuses blank titles. */
module TodoForm {
  import opened Outcomes
  import Trim

  /** The component's two `useState` fields. */
  datatype FormState = FormState(title: string, description: string)

  /** The object handed to the parent's `onSubmit` callback. */
  datatype Draft = Draft(title: string, description: string)

  /** What one submit does: the next field values and the `onSubmit` call it
      made, if any (an `Option` holds at most one call). */
  datatype FormSubmit = FormSubmit(next: FormState, emitted: Option<Draft>)

  /** Both fields start empty. */
  const Initial: FormState := FormState("", "")

  /** `!title.trim()`: the trimmed title is the (falsy) empty string. */
  function Blank(title: string): (b: bool)
    ensures b <==> Trim.AllWhitespace(title)
  {
    Trim.TrimEmptyIffAllWhitespace(title);
    Trim.Trim(title) == []
  }

  /** Typing in the title input (`onChange`). */
  function TypeTitle(s: FormState, value: string): FormState
  {
    s.(title := value)
  }

  /** Typing in the description textarea (`onChange`). */
  function TypeDescription(s: FormState, value: string): FormState
  {
    s.(description := value)
  }

  /** The submit handler. A title made only of whitespace is refused without
      any call and without touching the fields; otherwise the parent receives
      the title as typed (not trimmed) and the description unchecked, and both
      fields are cleared. */
  function Submit(s: FormState): (r: FormSubmit)
    ensures r.emitted == None <==> Trim.AllWhitespace(s.title)
    ensures r.emitted == None ==> r.next == s
    ensures r.emitted != None ==> r.emitted == Some(Draft(s.title, s.description))
    ensures r.emitted != None ==> r.next == Initial
  {
    if Blank(s.title) then FormSubmit(s, None)
    else FormSubmit(Initial, Some(Draft(s.title, s.description)))
  }

  /** A title with one non-whitespace character is accepted whatever the
      description is, the empty description included. */
  lemma EmptyDescriptionAccepted(title: string, i: nat)
    requires i < |title| && !Trim.IsWhitespace(title[i])
    ensures Submit(FormState(title, "")).emitted == Some(Draft(title, ""))
  {
  }

  /** A second submit right after an accepted one is refused: the cleared title
      is blank, so the parent is called once per filled-in form. */
  lemma NoSecondSubmit(s: FormState)
    requires Submit(s).emitted != None
    ensures Submit(Submit(s).next).emitted == None
    ensures Submit(Submit(s).next).next == Initial
  {
  }
}

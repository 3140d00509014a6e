/** src/components/AddTaskForm.tsx: the text field, the in-flight flag and the
    guarded submit. */
module AddTaskForm {

  import opened Wrappers
  import opened Text

  /** The early return of `handleSubmit` is not taken: the input is not blank
      and no submit is in flight. */
  predicate GuardPasses(input: string, isSubmitting: bool) {
    !IsBlank(input) && !isSubmitting
  }

  /** The submit button's `disabled`: a blank input, a submit in flight, or the
      list still loading. */
  predicate SubmitDisabled(input: string, isSubmitting: bool, loading: bool)
    ensures !SubmitDisabled(input, isSubmitting, loading) ==> Trim(input) != []
  {
    IsBlank(input) || isSubmitting || loading
  }

  class Form {
    var input: string
    var isSubmitting: bool

    constructor()
      ensures input == "" && !isSubmitting
    {
      input := "";
      isSubmitting := false;
    }

    /** The text field's `onChange`. */
    method SetInput(text: string)
      modifies this
      ensures input == text && isSubmitting == old(isSubmitting)
    {
      input := text;
    }

    /** `handleSubmit`. `onAdd` stands for the parent's promise: true when it
        resolves, false when it rejects. Returns the text passed to `onAdd`, or
        `None` when the guard returned early. */
    method HandleSubmit(onAdd: string -> bool) returns (sent: Option<string>)
      modifies this
      ensures !GuardPasses(old(input), old(isSubmitting)) ==>
        sent == None && input == old(input) && isSubmitting == old(isSubmitting)
      ensures GuardPasses(old(input), old(isSubmitting)) ==>
        sent == Some(Trim(old(input))) && !isSubmitting &&
        input == (if onAdd(Trim(old(input))) then "" else old(input))
      ensures sent.Some? ==> !IsBlank(sent.value) && Trim(sent.value) == sent.value
    {
      if IsBlank(input) || isSubmitting {
        return None;
      }
      var todo := Trim(input);
      TrimIdempotent(input);
      isSubmitting := true;
      sent := Some(todo);
      var resolved := onAdd(todo);
      if resolved {
        input := "";
      }
      isSubmitting := false;
    }
  }

  /** The button and the handler agree: the button is disabled exactly when
      `handleSubmit`'s guard would return early or the list is loading, so an
      enabled button always reaches `onAdd` (HandleSubmit's `sent`) with a
      non-blank, already trimmed text. */
  lemma EnabledButtonSubmits(input: string, isSubmitting: bool, loading: bool)
    ensures SubmitDisabled(input, isSubmitting, loading) <==> !GuardPasses(input, isSubmitting) || loading
    ensures !SubmitDisabled(input, isSubmitting, loading) ==>
      GuardPasses(input, isSubmitting) && GuardPasses(Trim(input), false) && Trim(Trim(input)) == Trim(input)
  {
    TrimIdempotent(input);
  }
}

/**
 * The add-item box (`AddTodoInput`): a text cell and a submit handler that
 * hands the trimmed text to its `onAdd` callback, unless it is blank.
 */
module AddTodoInput {
  import opened Strings

  /** The text `onAdd` receives on submit, or nothing when the box is blank once trimmed. */
  function Submitted(text: string): (r: seq<string>)
    ensures |r| <= 1
    ensures r == [] <==> IsBlank(text)
    ensures r != [] ==> r[0] == Trim(text)
    ensures r != [] ==> r[0] != [] && !IsWhitespace(r[0][0]) && !IsWhitespace(r[0][|r[0]| - 1])
  {
    var trimmed := Trim(text);
    if trimmed == [] then [] else [trimmed]
  }

  class AddTodoBox {
    var text: string
    /** Every value passed to `onAdd`, in order. */
    var added: seq<string>

    constructor ()
      ensures text == "" && added == []
    {
      text, added := "", [];
    }

    /** Typing replaces the box's text. */
    method SetText(value: string)
      modifies this
      ensures text == value && added == old(added)
    {
      text := value;
    }

    /**
     * `handleSubmit`: a blank text changes nothing; otherwise `onAdd` is
     * called once with the trimmed text and the box is emptied.
     */
    method HandleSubmit()
      modifies this
      ensures added == old(added) + Submitted(old(text))
      ensures IsBlank(old(text)) ==> text == old(text)
      ensures !IsBlank(old(text)) ==> text == ""
    {
      var trimmed := Trim(text);
      if trimmed == [] {
        return;
      }
      added := added + [trimmed];
      text := "";
    }
  }
}

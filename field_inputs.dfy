/**
 * The text and password fields: the error message each extracts from its
 * `error` prop, when each shows its error paragraph, and the password field's
 * show/hide toggle.
 */
module FieldInputs {
  import opened Wrappers
  import opened JsValues

  /** The `error` prop: absent, a string, or a form-library error object. */
  datatype ErrorProp = NoError | Text(text: string) | ErrorObject(fields: map<string, JsValue>)

  /** `typeof error === "string" ? error : error && "message" in error ? error.message : undefined` */
  function ErrorMessage(error: ErrorProp): (m: JsValue)
    ensures error.Text? ==> m == Str(error.text)
    ensures error.ErrorObject? && "message" in error.fields ==> m == error.fields["message"]
    ensures error.NoError? || (error.ErrorObject? && "message" !in error.fields) ==> m == Undefined
  {
    match error
    case NoError => Undefined
    case Text(s) => Str(s)
    case ErrorObject(fields) => if "message" in fields then fields["message"] else Undefined
  }

  /** The prop's own truthiness: an object always, a string when non-empty. */
  predicate ErrorGiven(error: ErrorProp) {
    match error
    case NoError => false
    case Text(s) => s != ""
    case ErrorObject(_) => true
  }

  /** `?.toString()`: nothing is shown for undefined or null. */
  function ShownText(m: JsValue): string {
    if m == Undefined || m == Null then "" else ToJsString(m)
  }

  /** The input's default `type`. */
  function InputType(t: Option<string>): (r: string)
    ensures t.None? ==> r == "text"
    ensures t.Some? ==> r == t.value
  {
    t.GetOr("text")
  }

  /** The text field's error paragraph: shown only when the extracted message is truthy. */
  function InputErrorParagraph(error: ErrorProp): (p: Option<string>)
    ensures p.Some? <==> Truthy(ErrorMessage(error))
    ensures p.Some? ==> p.value == ToJsString(ErrorMessage(error))
  {
    var m := ErrorMessage(error);
    if Truthy(m) then Some(ToJsString(m)) else None
  }

  /** The password field's error paragraph: shown whenever the prop itself is truthy, with the message's text if any. */
  function PasswordErrorParagraph(error: ErrorProp): (p: Option<string>)
    ensures p.Some? <==> ErrorGiven(error)
    ensures p.Some? ==> p.value == ShownText(ErrorMessage(error))
  {
    if ErrorGiven(error) then Some(ShownText(ErrorMessage(error))) else None
  }

  /** For a string error, and for an object with a truthy message, the two fields agree on the paragraph. */
  lemma ParagraphsAgree(error: ErrorProp)
    requires error.Text? || (error.ErrorObject? && Truthy(ErrorMessage(error)))
    ensures InputErrorParagraph(error) == PasswordErrorParagraph(error)
  {
  }

  /** For an error object without a message, the password field shows an empty paragraph where the text field shows none. */
  lemma ParagraphsDisagreeWithoutMessage()
    ensures InputErrorParagraph(ErrorObject(map[])) == None
    ensures PasswordErrorParagraph(ErrorObject(map[])) == Some("")
  {
  }

  /** The password field's visibility state. */
  class PasswordField {
    var showPassword: bool

    /** The password starts hidden. */
    constructor ()
      ensures !showPassword
    {
      showPassword := false;
    }

    /** The input's `type`: plain text while shown. */
    function InputType(): (t: string)
      reads this
      ensures t == "text" <==> showPassword
      ensures t == "password" <==> !showPassword
    {
      if showPassword then "text" else "password"
    }

    /** The crossed-out eye is shown while the password is visible, the open eye otherwise. */
    function ShowsEyeOff(): (r: bool)
      reads this
      ensures r <==> InputType() == "text"
    {
      showPassword
    }

    /** A click on the eye flips the visibility, so two clicks restore it. */
    method ToggleVisibility()
      modifies this
      ensures showPassword == !old(showPassword)
    {
      showPassword := !showPassword;
    }
  }
}

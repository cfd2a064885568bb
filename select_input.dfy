/**
 * The select field: a placeholder entry for single selects, then exactly one of
 * four option lists (loading, error, the options, or none found), and an error
 * paragraph below when an error is given.
 */
module SelectInput {
  import opened Wrappers
  import opened JsValues

  /** One `<option>`: its value attribute (None when absent), its text and whether it is disabled. */
  datatype Entry = Entry(value: Option<JsValue>, text: string, disabled: bool)

  const LoadingEntry: Entry := Entry(None, "Loading...", false)
  const ErrorEntry: Entry := Entry(None, "Error loading", true)
  const NoOptionsEntry: Entry := Entry(None, "No options found", true)

  /** The list after the placeholder, with loading first, then error, then the options, then "No options found". */
  function OptionList<T>(options: seq<T>, optionValue: T -> JsValue, optionMain: T -> string,
                         isLoading: bool, isError: bool): (es: seq<Entry>)
    ensures isLoading ==> es == [LoadingEntry]
    ensures !isLoading && isError ==> es == [ErrorEntry]
    ensures !isLoading && !isError && |options| > 0 ==>
      |es| == |options| && forall i :: 0 <= i < |options| ==> es[i] == Entry(Some(optionValue(options[i])), optionMain(options[i]), false)
    ensures !isLoading && !isError && |options| == 0 ==> es == [NoOptionsEntry]
  {
    if isLoading then [LoadingEntry]
    else if isError then [ErrorEntry]
    else if |options| > 0 then seq(|options|, i requires 0 <= i < |options| => Entry(Some(optionValue(options[i])), optionMain(options[i]), false))
    else [NoOptionsEntry]
  }

  /** Every entry of the list: the placeholder (value "") first unless `multiple`. */
  function Entries<T>(options: seq<T>, optionValue: T -> JsValue, optionMain: T -> string,
                      placeholder: Option<string>, isLoading: bool, isError: bool, multiple: bool): (es: seq<Entry>)
    ensures !multiple ==> |es| >= 1 && es[0] == Entry(Some(Str("")), placeholder.GetOr(""), false)
    ensures !multiple ==> es[1..] == OptionList(options, optionValue, optionMain, isLoading, isError)
    ensures multiple ==> es == OptionList(options, optionValue, optionMain, isLoading, isError)
  {
    var list := OptionList(options, optionValue, optionMain, isLoading, isError);
    if multiple then list else [Entry(Some(Str("")), placeholder.GetOr(""), false)] + list
  }

  /** While loading, the options and the error flag make no difference. */
  lemma LoadingHidesEverything<T>(o1: seq<T>, o2: seq<T>, v: T -> JsValue, m: T -> string, e1: bool, e2: bool)
    ensures OptionList(o1, v, m, true, e1) == OptionList(o2, v, m, true, e2)
  {
  }

  /** Some entry carries a value exactly when there are options and nothing is loading or failed. */
  lemma OptionsShownIff<T>(options: seq<T>, v: T -> JsValue, m: T -> string, isLoading: bool, isError: bool)
    ensures (exists i :: 0 <= i < |OptionList(options, v, m, isLoading, isError)| &&
               OptionList(options, v, m, isLoading, isError)[i].value.Some?)
      <==> !isLoading && !isError && |options| > 0
  {
    var es := OptionList(options, v, m, isLoading, isError);
    if !isLoading && !isError && |options| > 0 {
      assert es[0].value.Some?;
    }
  }

  /** The error paragraph: shown whenever an error (an object) is given, with its message as text, if any. */
  function ErrorParagraph(error: Option<map<string, JsValue>>): (p: Option<string>)
    ensures p.Some? <==> error.Some?
    ensures error.Some? && "message" in error.value && error.value["message"] != Undefined && error.value["message"] != Null ==>
      p == Some(ToJsString(error.value["message"]))
    ensures error.Some? && ("message" !in error.value || error.value["message"] in {Undefined, Null}) ==> p == Some("")
  {
    match error
    case None => None
    case Some(fields) =>
      var message := Get(fields, "message");
      Some(if message == Undefined || message == Null then "" else ToJsString(message))
  }
}

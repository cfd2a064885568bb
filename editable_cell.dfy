/**
 * The editable table cell: a local `value` seeded from the cell's value and
 * reset whenever that value changes, updated by typing, and written back to the
 * table on blur; and the choice between a select, an input, a badge and plain text.
 */
module EditableCell {
  import opened Wrappers
  import opened JsValues

  datatype InputType = TextType | NumberType | EmailType | SelectType

  /** The `type` attribute an input of this kind gets. */
  function InputTypeName(t: InputType): string {
    match t
    case TextType => "text"
    case NumberType => "number"
    case EmailType => "email"
    case SelectType => "select"
  }

  datatype SelectOption = SelectOption(id: int, name: string)

  /** The optional props; an absent (undefined) one takes its default. */
  datatype CellProps = CellProps(
    inputType: Option<InputType>, selectOptions: Option<seq<SelectOption>>, placeholder: Option<string>)

  /** `inputType = "text"` */
  function EffectiveType(p: CellProps): InputType {
    p.inputType.GetOr(TextType)
  }

  /** `selectOptions = []` */
  function EffectiveOptions(p: CellProps): seq<SelectOption> {
    p.selectOptions.GetOr([])
  }

  const DefaultPlaceholder: string := "Select an option"

  /** `placeholder || "Select an option"`: an absent or empty placeholder gives the default. */
  function PlaceholderLabel(placeholder: Option<string>): (text: string)
    ensures placeholder.Some? && placeholder.value != "" ==> text == placeholder.value
    ensures placeholder.None? || placeholder.value == "" ==> text == DefaultPlaceholder
  {
    match placeholder
    case Some(p) => if p != "" then p else DefaultPlaceholder
    case None => DefaultPlaceholder
  }

  /** One `<option>`: its value attribute and its caption. */
  datatype OptionEntry = OptionEntry(value: string, caption: string)

  /** What the cell renders. */
  datatype CellView =
    | SelectEditor(selected: JsValue, entries: seq<OptionEntry>)
    | InputEditor(shown: JsValue, inputType: string, placeholder: Option<string>)
    | Badge(text: JsValue)
    | PlainText(text: JsValue)

  /** The entries of the select editor: the placeholder entry, then one per option. */
  function SelectEntries(options: seq<SelectOption>, placeholder: Option<string>): (es: seq<OptionEntry>)
    ensures |es| == |options| + 1
    ensures es[0] == OptionEntry("", PlaceholderLabel(placeholder))
    ensures forall i :: 0 <= i < |options| ==> es[i + 1] == OptionEntry(options[i].name, options[i].name)
  {
    [OptionEntry("", PlaceholderLabel(placeholder))]
      + seq(|options|, i requires 0 <= i < |options| => OptionEntry(options[i].name, options[i].name))
  }

  /**
   * The render: in edit mode a select (showing `value || ""`) or an input of the
   * configured type; otherwise a badge for a select column with a truthy value,
   * and plain text in every other case.
   */
  function View(editing: bool, p: CellProps, value: JsValue): (v: CellView)
    ensures editing && EffectiveType(p) == SelectType ==>
      v == SelectEditor(Or(value, Str("")), SelectEntries(EffectiveOptions(p), p.placeholder))
    ensures editing && EffectiveType(p) != SelectType ==>
      v == InputEditor(value, InputTypeName(EffectiveType(p)), p.placeholder)
    ensures !editing ==> (v.Badge? <==> EffectiveType(p) == SelectType && Truthy(value))
    ensures !editing ==> (v.Badge? || v.PlainText?) && v.text == value
  {
    if editing then
      if EffectiveType(p) == SelectType then SelectEditor(Or(value, Str("")), SelectEntries(EffectiveOptions(p), p.placeholder))
      else InputEditor(value, InputTypeName(EffectiveType(p)), p.placeholder)
    else if EffectiveType(p) == SelectType && Truthy(value) then Badge(value)
    else PlainText(value)
  }

  /** A cell with no optional props edits as a text input. */
  lemma DefaultCellIsTextInput(value: JsValue)
    ensures View(true, CellProps(None, None, None), value) == InputEditor(value, "text", None)
  {
  }

  /** A select cell given no options offers only the placeholder entry. */
  lemma SelectWithoutOptions(value: JsValue, placeholder: Option<string>)
    ensures View(true, CellProps(Some(SelectType), None, placeholder), value).entries
      == [OptionEntry("", PlaceholderLabel(placeholder))]
  {
  }

  /** The `updateData` call `onBlur` makes. */
  datatype UpdateCall = UpdateCall(rowIndex: nat, columnId: string, value: JsValue)

  /** One mounted cell's local state. */
  class TableCell {
    const rowIndex: nat
    const columnId: string
    var initialValue: JsValue
    var value: JsValue

    /** `useState(initialValue)` on mount. */
    constructor (rowIndex: nat, columnId: string, initialValue: JsValue)
      ensures this.rowIndex == rowIndex && this.columnId == columnId
      ensures this.initialValue == initialValue && value == initialValue
    {
      this.rowIndex := rowIndex;
      this.columnId := columnId;
      this.initialValue := initialValue;
      value := initialValue;
    }

    /** A re-render with `getValue()` now `current`: the effect resets the local value when it changed. */
    method Rerender(current: JsValue)
      modifies this
      ensures initialValue == current
      ensures current != old(initialValue) ==> value == current
      ensures current == old(initialValue) ==> value == old(value)
    {
      if current != initialValue {
        value := current;
      }
      initialValue := current;
    }

    /** `onChange`: the local value becomes the element's value; nothing is sent to the table. */
    method OnChange(input: string)
      modifies this
      ensures value == Str(input) && initialValue == old(initialValue)
    {
      value := Str(input);
    }

    /** `onBlur`: the table's `updateData` is called with the local value; the cell itself is unchanged. */
    method OnBlur() returns (call: UpdateCall)
      ensures call.rowIndex == rowIndex && call.columnId == columnId && call.value == value
    {
      call := UpdateCall(rowIndex, columnId, value);
    }

    /** The render, given whether the row is in edit mode. */
    function Render(editing: bool, p: CellProps): CellView
      reads this
    {
      View(editing, p, value)
    }
  }
}

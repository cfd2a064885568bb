/**
 * The categories page: a list with inline renaming of one category at a time,
 * a form for adding a category, and a confirmation dialog for deleting one.
 * The page's own state is five variables; the server calls are made through
 * the mutation hooks, whose outcome is a parameter of each handler.
 */
module Categories {
  import opened Wrappers
  import opened JsValues
  import opened JsStrings
  import opened Modal
  import HttpClient

  datatype Category = Category(id: int, name: string)

  /** The endpoint `useFetch` and `useCreate` use, and the one `useUpdate` and `useDelete` use. */
  const ListEndpoint: string := "/categories/"
  const ItemEndpoint: string := "/categories"

  /** The body every create and rename sends: `{ name }`. */
  function NameBody(name: string): (body: JsValue)
    ensures body.Obj? && body.fields.Keys == {"name"} && body.fields["name"] == Str(name)
  {
    Obj(map["name" := Str(name)])
  }

  /** A row is in edit mode when `editingId === category.id`: only a number equal to the row's id matches. */
  predicate IsEditing(editingId: JsValue, c: Category)
    ensures IsEditing(editingId, c) <==> editingId.Num? && editingId.n == c.id
    ensures editingId.Str? ==> !IsEditing(editingId, c)
  {
    editingId == Num(c.id)
  }

  /** The reset value `""` puts no row in edit mode. */
  lemma ResetEditsNoRow(c: Category)
    ensures !IsEditing(Str(""), c)
  {
  }

  /** With distinct ids, at most one row is in edit mode, and after `handleEdit(c)` it is `c`'s row. */
  lemma AtMostOneRowEditing(cs: seq<Category>, editingId: JsValue, i: nat, j: nat)
    requires forall a, b :: 0 <= a < b < |cs| ==> cs[a].id != cs[b].id
    requires i < |cs| && j < |cs| && IsEditing(editingId, cs[i]) && IsEditing(editingId, cs[j])
    ensures i == j
  {
  }

  /**
   * `handleAddNew`'s guard: the name is sent, as typed and untrimmed, only when
   * trimming leaves something.
   */
  function AddRequest(name: string): (r: Option<JsValue>)
    ensures r.Some? <==> exists i :: 0 <= i < |name| && !IsTrimmable(name[i])
    ensures r.Some? ==> r.value == NameBody(name)
  {
    TrimEmptyIff(name);
    if Trim(name) != "" then Some(NameBody(name)) else None
  }

  /** A name with surrounding spaces is sent with them. */
  lemma AddKeepsSpaces()
    ensures AddRequest(" Tools ") == Some(NameBody(" Tools "))
    ensures AddRequest("   ") == None
  {
    assert !IsTrimmable(" Tools "[1]);
    assert forall i :: 0 <= i < 3 ==> IsTrimmable("   "[i]);
  }

  /** What one row of the list shows. */
  datatype RowView =
    | EditingRow(input: string, showsButtons: bool)  // the rename input, with save/cancel unless an update is running
    | NameRow(name: string)                          // the name, with edit and delete buttons

  function RowViewOf(editingId: JsValue, editingName: string, isUpdating: bool, c: Category): (v: RowView)
    ensures v.EditingRow? <==> IsEditing(editingId, c)
    ensures v.EditingRow? ==> v.input == editingName && (v.showsButtons <==> !isUpdating)
    ensures v.NameRow? ==> v.name == c.name
  {
    if IsEditing(editingId, c) then EditingRow(editingName, !isUpdating) else NameRow(c.name)
  }

  /** What the page shows below its header. */
  datatype Content =
    | Skeletons(count: nat)
    | CategoryList(rows: seq<RowView>, showsEmptyState: bool)

  /**
   * While the list loads, five skeleton rows; then one row per category of
   * `data?.results || []` (a missing `data` or `results` gives none), and the
   * empty state exactly when there are none.
   */
  function PageContent(isLoading: bool, results: Option<seq<Category>>, editingId: JsValue, editingName: string,
                       isUpdating: bool): (c: Content)
    ensures isLoading ==> c == Skeletons(5)
    ensures !isLoading ==> c.CategoryList? && |c.rows| == |results.GetOr([])|
    ensures !isLoading ==> (c.showsEmptyState <==> results.None? || results.value == [])
    ensures !isLoading ==> forall i :: 0 <= i < |c.rows| ==>
      c.rows[i] == RowViewOf(editingId, editingName, isUpdating, results.value[i])
  {
    if isLoading then Skeletons(5)
    else
      var cs := results.GetOr([]);
      CategoryList(seq(|cs|, i requires 0 <= i < |cs| => RowViewOf(editingId, editingName, isUpdating, cs[i])), cs == [])
  }

  /** The add form, shown while `isAdding`, with its save/cancel buttons unless a create is running. */
  function AddForm(isAdding: bool, isCreating: bool): (form: Option<bool>)
    ensures form.Some? <==> isAdding
    ensures form.Some? ==> (form.value <==> !isCreating)
  {
    if isAdding then Some(!isCreating) else None
  }

  const DeleteTitle: string := "Are you sure you want to delete this category"

  /** An update request as `useUpdate` receives it: the id and the body. */
  datatype UpdateRequest = UpdateRequest(id: JsValue, body: JsValue)

  /** The page's state and its delete dialog. */
  class CategoriesView {
    var editingId: JsValue
    var editingName: string
    var deletingId: JsValue
    var isAdding: bool
    var newCategoryName: string
    const deleteModal: ModalDialog

    /** On mount: no row in edit mode, nothing being deleted or added, and a closed dialog. */
    constructor ()
      ensures editingId == Str("") && editingName == "" && deletingId == Str("")
      ensures !isAdding && newCategoryName == ""
      ensures fresh(deleteModal) && !deleteModal.isOpen && deleteModal.title == DeleteTitle
      ensures deleteModal.negativeText == "Cancel" && !deleteModal.isDisabled
    {
      editingId := Str("");
      editingName := "";
      deletingId := Str("");
      isAdding := false;
      newCategoryName := "";
      deleteModal := new ModalDialog(DeleteTitle, "Yes", Some("Cancel"), None, false, false);
    }

    /** The row of `c` is in edit mode. */
    predicate Editing(c: Category)
      reads this
    {
      IsEditing(editingId, c)
    }

    /** `handleEdit(category)`: that row enters edit mode with its current name. */
    method HandleEdit(c: Category)
      modifies this
      ensures editingId == Num(c.id) && editingName == c.name && Editing(c)
      ensures deletingId == old(deletingId) && isAdding == old(isAdding) && newCategoryName == old(newCategoryName)
    {
      editingId := Num(c.id);
      editingName := c.name;
    }

    /** Typing in the rename input. */
    method SetEditingName(input: string)
      modifies this
      ensures editingName == input
      ensures editingId == old(editingId) && deletingId == old(deletingId)
      ensures isAdding == old(isAdding) && newCategoryName == old(newCategoryName)
    {
      editingName := input;
    }

    /**
     * `handleSaveEdit`: sends `{ name: editingName }` for `editingId`, with no check
     * on the name; on success edit mode ends, on failure it stays.
     */
    method HandleSaveEdit(succeeded: bool) returns (sent: UpdateRequest, url: string)
      modifies this
      ensures sent == UpdateRequest(old(editingId), NameBody(old(editingName)))
      ensures url == HttpClient.ItemUrl(ItemEndpoint, old(editingId))
      ensures succeeded ==> editingId == Str("") && editingName == ""
      ensures succeeded ==> forall c :: !Editing(c)
      ensures !succeeded ==> editingId == old(editingId) && editingName == old(editingName)
      ensures deletingId == old(deletingId) && isAdding == old(isAdding) && newCategoryName == old(newCategoryName)
    {
      sent := UpdateRequest(editingId, NameBody(editingName));
      url := HttpClient.ItemUrl(ItemEndpoint, editingId);
      if succeeded {
        editingId := Str("");
        editingName := "";
      }
    }

    /** A keydown in the rename input: Enter saves. */
    method EditKeyDown(key: string, succeeded: bool) returns (sent: Option<UpdateRequest>)
      modifies this
      ensures key != "Enter" ==> sent.None? && editingId == old(editingId) && editingName == old(editingName)
      ensures key == "Enter" ==> sent == Some(UpdateRequest(old(editingId), NameBody(old(editingName))))
      ensures key == "Enter" && succeeded ==> editingId == Str("") && editingName == ""
      ensures key == "Enter" && !succeeded ==> editingId == old(editingId) && editingName == old(editingName)
      ensures deletingId == old(deletingId) && isAdding == old(isAdding) && newCategoryName == old(newCategoryName)
    {
      sent := None;
      if key == "Enter" {
        var r, _ := HandleSaveEdit(succeeded);
        sent := Some(r);
      }
    }

    /** `handleCancelEdit`: edit mode ends and nothing is sent. */
    method HandleCancelEdit()
      modifies this
      ensures editingId == Str("") && editingName == "" && forall c :: !Editing(c)
      ensures deletingId == old(deletingId) && isAdding == old(isAdding) && newCategoryName == old(newCategoryName)
    {
      editingId := Str("");
      editingName := "";
    }

    /** `handleDelete(id)`: the id is recorded and the dialog opened. */
    method HandleDelete(id: int)
      modifies this, deleteModal
      ensures deletingId == Num(id) && deleteModal.isOpen
      ensures editingId == old(editingId) && editingName == old(editingName)
      ensures isAdding == old(isAdding) && newCategoryName == old(newCategoryName)
    {
      deletingId := Num(id);
      deleteModal.Open();
    }

    /**
     * The dialog's positive action: deletes the recorded id; on success the dialog
     * closes. No row is removed here: the list is refreshed by the hook's invalidation.
     */
    method ConfirmDelete(succeeded: bool) returns (deleted: JsValue, url: string)
      requires deleteModal.isOpen && !deleteModal.isDisabled
      modifies deleteModal
      ensures deleted == deletingId && url == HttpClient.ItemUrl(ItemEndpoint, deletingId)
      ensures deleteModal.isOpen <==> !succeeded
    {
      var _ := deleteModal.HandlePositive();
      deleted := deletingId;
      url := HttpClient.ItemUrl(ItemEndpoint, deleted);
      if succeeded {
        deleteModal.Close();
      }
    }

    /** The "Add Category" and "Add First Category" buttons. */
    method StartAdding()
      modifies this
      ensures isAdding && newCategoryName == old(newCategoryName)
      ensures editingId == old(editingId) && editingName == old(editingName) && deletingId == old(deletingId)
    {
      isAdding := true;
    }

    /** Typing in the add form's input. */
    method SetNewCategoryName(input: string)
      modifies this
      ensures newCategoryName == input && isAdding == old(isAdding)
      ensures editingId == old(editingId) && editingName == old(editingName) && deletingId == old(deletingId)
    {
      newCategoryName := input;
    }

    /**
     * `handleAddNew`: a blank name sends nothing and changes nothing; otherwise the
     * name is sent, and on success the form is cleared and closed.
     */
    method HandleAddNew(succeeded: bool) returns (sent: Option<JsValue>)
      modifies this
      ensures sent == AddRequest(old(newCategoryName))
      ensures sent.Some? && succeeded ==> newCategoryName == "" && !isAdding
      ensures sent.None? || !succeeded ==> newCategoryName == old(newCategoryName) && isAdding == old(isAdding)
      ensures editingId == old(editingId) && editingName == old(editingName) && deletingId == old(deletingId)
    {
      sent := AddRequest(newCategoryName);
      if sent.Some? && succeeded {
        newCategoryName := "";
        isAdding := false;
      }
    }

    /** A keypress in the add form's input: Enter adds. */
    method AddKeyPress(key: string, succeeded: bool) returns (sent: Option<JsValue>)
      modifies this
      ensures key != "Enter" ==> sent.None? && newCategoryName == old(newCategoryName) && isAdding == old(isAdding)
      ensures key == "Enter" ==> sent == AddRequest(old(newCategoryName))
      ensures key == "Enter" && sent.Some? && succeeded ==> newCategoryName == "" && !isAdding
      ensures editingId == old(editingId) && editingName == old(editingName) && deletingId == old(deletingId)
    {
      sent := None;
      if key == "Enter" {
        sent := HandleAddNew(succeeded);
      }
    }

    /** `handleCancelAdd`: the form closes and its input is cleared. */
    method HandleCancelAdd()
      modifies this
      ensures !isAdding && newCategoryName == ""
      ensures editingId == old(editingId) && editingName == old(editingName) && deletingId == old(deletingId)
    {
      isAdding := false;
      newCategoryName := "";
    }
  }
}

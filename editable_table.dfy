/**
 * The editable collection pages (inventory, outlets, users). Each keeps a
 * working copy of the fetched rows, a baseline copy, per-row edit flags keyed
 * by row index, and a snapshot of the last fetched results. Toggling a row's
 * buttons flips its flag; "cancel" restores the row from the baseline; "done"
 * sends the row and, on success, copies it into the baseline; a change in the
 * fetched results replaces both copies. Deleting goes through a confirmation
 * dialog and a refetch; no row is removed locally.
 */
module EditableTable {
  import opened Wrappers
  import opened JsValues
  import opened EditableCell
  import opened Modal
  import HttpClient
  import QueryHooks

  /** A row as the table holds it: a record whose fields `updateData` can set by name. */
  type Row = map<string, JsValue>

  datatype Page = InventoryPage | OutletsPage | UsersPage {

    /** The list `useFetch` reads. */
    function ListEndpoint(): string {
      match this
      case InventoryPage => "/inventory/"
      case OutletsPage => "/outlets/"
      case UsersPage => "/users/"
    }

    /** The endpoint `useUpdate` and `useDelete` are given. */
    function ItemEndpoint(): string {
      match this
      case InventoryPage => "/inventory"
      case OutletsPage => "/outlets"
      case UsersPage => "/users"
    }

    /** Whether "done" and "cancel" are disabled while an update is pending. */
    predicate DisablesSaveWhileUpdating() {
      this != UsersPage
    }

    /** Whether "edit" and "delete" give way to "updating..." while an update is pending. */
    predicate HidesIdleActionsWhileUpdating() {
      this != OutletsPage
    }

    /** The columns of the loading skeleton. */
    function SkeletonColumns(): nat {
      if this == UsersPage then 5 else 7
    }

    function DeleteTitle(): string {
      match this
      case InventoryPage => "Are you sure you want to delete this item?"
      case OutletsPage => "Are you sure you want to delete this outlet?"
      case UsersPage => "Are you sure you want to delete this user?"
    }
  }

  /** The list is fetched from the item endpoint followed by "/". */
  lemma ListIsItemEndpointSlash(page: Page)
    ensures page.ListEndpoint() == page.ItemEndpoint() + "/"
  {
  }

  /** A successful save or delete invalidates a key that prefixes the page's list query key. */
  lemma MutationsRefreshThePage(page: Page, m: QueryHooks.Mutation)
    requires !m.CreateMutation?
    ensures exists k ::
      k in QueryHooks.Invalidations(page.ItemEndpoint(), m)
      && QueryHooks.IsPrefixKey(k, QueryHooks.FetchKey(page.ListEndpoint(), None))
  {
    QueryHooks.MutationsReachTheList(page.ItemEndpoint(), None, m);
    assert page.ItemEndpoint() + "/" == page.ListEndpoint();
  }

  // ---------------------------------------------------------------- columns

  /** The fixed role choices of the users table. */
  const RoleOptions: seq<SelectOption> := [SelectOption(1, "manager"), SelectOption(2, "staff")]

  /** The props an editable column's cell gets; None for columns that are not editable cells. */
  function ColumnProps(page: Page, column: string, categories: Option<seq<SelectOption>>): (r: Option<CellProps>)
    ensures page.InventoryPage? ==>
      (r.Some? <==> column in {"name", "category_name", "quantity", "min_quantity", "cost_price", "selling_price"})
    ensures page.OutletsPage? ==> (r.Some? <==> column in {"name", "total_sales", "location"})
    ensures page.UsersPage? ==> (r.Some? <==> column in {"username", "email", "role"})
    ensures r.Some? && r.value.inputType == Some(SelectType) <==>
      (page.InventoryPage? && column == "category_name") || (page.UsersPage? && column == "role")
    ensures r.Some? && r.value.inputType != Some(SelectType) ==> r.value == CellProps(None, None, None)
    ensures page.InventoryPage? && column == "category_name" ==> r.value.selectOptions == categories
    ensures page.UsersPage? && column == "role" ==> r.value.selectOptions == Some(RoleOptions)
  {
    var plain := Some(CellProps(None, None, None));
    match page
    case InventoryPage =>
      if column == "category_name" then Some(CellProps(Some(SelectType), categories, None))
      else if column in {"name", "quantity", "min_quantity", "cost_price", "selling_price"} then plain
      else None
    case OutletsPage =>
      if column in {"name", "total_sales", "location"} then plain else None
    case UsersPage =>
      if column == "role" then Some(CellProps(Some(SelectType), Some(RoleOptions), None))
      else if column in {"username", "email"} then plain
      else None
  }

  /** Editing a user's role offers the placeholder, then exactly "manager" and "staff". */
  lemma RoleEditorOptions(value: JsValue, categories: Option<seq<SelectOption>>)
    ensures ColumnProps(UsersPage, "role", categories).Some?
    ensures View(true, ColumnProps(UsersPage, "role", categories).value, value).entries
      == [OptionEntry("", "Select an option"), OptionEntry("manager", "manager"), OptionEntry("staff", "staff")]
  {
    var es := View(true, ColumnProps(UsersPage, "role", categories).value, value).entries;
    assert es == SelectEntries(RoleOptions, None);
  }

  /** The inventory category editor offers the fetched categories, or only the placeholder before they arrive. */
  lemma CategoryEditorOptions(value: JsValue, categories: Option<seq<SelectOption>>)
    ensures ColumnProps(InventoryPage, "category_name", categories).Some?
    ensures View(true, ColumnProps(InventoryPage, "category_name", categories).value, value).entries
      == SelectEntries(categories.GetOr([]), None)
  {
  }

  /** The inventory status column: "Out of Stock" for a truthy `is_out_of_stock`, else "In Stock". */
  function StockStatusLabel(row: Row): (text: string)
    ensures text == "Out of Stock" <==> Truthy(Get(row, "is_out_of_stock"))
    ensures text == "In Stock" <==> !Truthy(Get(row, "is_out_of_stock"))
  {
    if Truthy(Get(row, "is_out_of_stock")) then "Out of Stock" else "In Stock"
  }

  /** What the page body shows. */
  datatype Content = Skeleton(columns: nat, rows: nat) | ErrorPanel | EmptyPanel | TableBody

  /** Loading first, then error, then an empty table, then the table. */
  function PageContent(page: Page, isLoading: bool, isError: bool, rowCount: nat): (c: Content)
    ensures isLoading <==> c.Skeleton?
    ensures c.Skeleton? ==> c == Skeleton(page.SkeletonColumns(), 5)
    ensures c.ErrorPanel? <==> !isLoading && isError
    ensures c.EmptyPanel? <==> !isLoading && !isError && rowCount == 0
    ensures c.TableBody? <==> !isLoading && !isError && rowCount > 0
  {
    if isLoading then Skeleton(page.SkeletonColumns(), 5)
    else if isError then ErrorPanel
    else if rowCount == 0 then EmptyPanel
    else TableBody
  }

  // --------------------------------------------------------- row actions

  /** The buttons of the actions column. */
  datatype RowButton = DoneButton | CancelButton | EditButton | DeleteButton

  /** What the actions column of one row shows. */
  datatype ActionsView =
    | EditingActions(disabled: bool)  // "done" and "cancel"
    | IdleActions                     // "edit" and "delete"
    | UpdatingNotice                  // the "updating..." text

  function Actions(page: Page, edited: bool, isUpdating: bool): (v: ActionsView)
    ensures edited <==> v.EditingActions?
    ensures v.EditingActions? ==> (v.disabled <==> isUpdating && page.DisablesSaveWhileUpdating())
    ensures v.UpdatingNotice? <==> !edited && isUpdating && page.HidesIdleActionsWhileUpdating()
  {
    if edited then EditingActions(isUpdating && page.DisablesSaveWhileUpdating())
    else if isUpdating && page.HidesIdleActionsWhileUpdating() then UpdatingNotice
    else IdleActions
  }

  /** Whether `b` is on screen and enabled. */
  predicate Clickable(v: ActionsView, b: RowButton) {
    match v
    case EditingActions(disabled) => !disabled && (b == DoneButton || b == CancelButton)
    case IdleActions => b == EditButton || b == DeleteButton
    case UpdatingNotice => false
  }

  /** Inventory: while an update is pending no row button can be clicked. */
  lemma InventoryLocksWhileUpdating(edited: bool, b: RowButton)
    ensures !Clickable(Actions(InventoryPage, edited, true), b)
  {
  }

  /** Outlets: while an update is pending "done"/"cancel" are disabled but "edit"/"delete" stay. */
  lemma OutletsWhileUpdating(b: RowButton)
    ensures !Clickable(Actions(OutletsPage, true, true), b)
    ensures Clickable(Actions(OutletsPage, false, true), b) <==> b == EditButton || b == DeleteButton
  {
  }

  /** Users: "done"/"cancel" are never disabled; "edit"/"delete" are hidden while an update is pending. */
  lemma UsersWhileUpdating(b: RowButton)
    ensures Clickable(Actions(UsersPage, true, true), b) <==> b == DoneButton || b == CancelButton
    ensures !Clickable(Actions(UsersPage, false, true), b)
  {
  }

  // ----------------------------------------------------------- table state

  /** The working rows, the baseline rows, the edit flags and the last fetched snapshot (None for null). */
  datatype TableState = TableState(
    tableData: seq<Row>, originalData: seq<Row>, editedRows: map<nat, bool>, snapshot: Option<seq<Row>>)
  {
    /** The working and baseline copies are index-aligned. */
    predicate Valid() {
      |tableData| == |originalData|
    }
  }

  const InitialTable: TableState := TableState([], [], map[], None)

  /** `editedRows[i]`, with a missing entry reading as not edited. */
  predicate IsEdited(flags: map<nat, bool>, i: nat) {
    i in flags && flags[i]
  }

  /** `{...old, [i]: !old[i]}` */
  function Toggled(flags: map<nat, bool>, i: nat): (r: map<nat, bool>)
    ensures IsEdited(r, i) <==> !IsEdited(flags, i)
    ensures forall j :: j != i ==> (j in r <==> j in flags) && (j in flags ==> r[j] == flags[j])
  {
    flags[i := !IsEdited(flags, i)]
  }

  /** Toggling twice restores every row's edit mode. */
  lemma ToggleTwice(flags: map<nat, bool>, i: nat, j: nat)
    ensures IsEdited(Toggled(Toggled(flags, i), i), j) == IsEdited(flags, j)
  {
  }

  /** `rows.map((row, index) => index === i ? x : row)`: out of range, nothing changes. */
  function ReplaceAt(rows: seq<Row>, i: nat, x: Row): (r: seq<Row>)
    ensures |r| == |rows|
    ensures forall j :: 0 <= j < |rows| ==> r[j] == if j == i then x else rows[j]
  {
    if i < |rows| then rows[i := x] else rows
  }

  /** The reconcile effect: results that differ from the snapshot replace both copies and the snapshot. */
  function Reconciled(s: TableState, results: Option<seq<Row>>): (t: TableState)
    ensures results.Some? && Some(results.value) != s.snapshot ==>
      t.tableData == results.value && t.originalData == results.value && t.snapshot == results
    ensures results.None? || results == s.snapshot ==> t == s
    ensures t.editedRows == s.editedRows
    ensures s.Valid() ==> t.Valid()
  {
    match results
    case None => s
    case Some(rs) => if Some(rs) != s.snapshot then s.(tableData := rs, originalData := rs, snapshot := Some(rs)) else s
  }

  /** Reconciling twice with the same results is reconciling once. */
  lemma ReconcileIdempotent(s: TableState, results: Option<seq<Row>>)
    ensures Reconciled(Reconciled(s, results), results) == Reconciled(s, results)
  {
  }

  /** `updateData(i, column, v)`: field `column` of working row `i` becomes `v`; nothing else changes. */
  function WithField(s: TableState, i: nat, column: string, v: JsValue): (t: TableState)
    ensures |t.tableData| == |s.tableData|
    ensures i < |s.tableData| ==> t.tableData[i] == s.tableData[i][column := v]
    ensures forall j :: 0 <= j < |s.tableData| && j != i ==> t.tableData[j] == s.tableData[j]
    ensures t.originalData == s.originalData && t.editedRows == s.editedRows && t.snapshot == s.snapshot
  {
    if i < |s.tableData| then s.(tableData := ReplaceAt(s.tableData, i, s.tableData[i][column := v])) else s
  }

  /** "cancel": working row `i` becomes baseline row `i` again. */
  function Cancelled(s: TableState, i: nat): (t: TableState)
    requires s.Valid()
    ensures t.Valid()
    ensures t.tableData == ReplaceAt(s.tableData, i, if i < |s.originalData| then s.originalData[i] else map[])
    ensures t.originalData == s.originalData && t.editedRows == s.editedRows && t.snapshot == s.snapshot
  {
    if i < |s.tableData| then s.(tableData := ReplaceAt(s.tableData, i, s.originalData[i])) else s
  }

  /** The variables "done" passes to the update mutation: `{id: row.id, data: row}`. */
  datatype SaveRequest = SaveRequest(id: JsValue, data: Row)

  /** The URL the save request is sent to: the list's URL followed by the id, without a trailing slash. */
  function SaveUrl(page: Page, req: SaveRequest): (url: string)
    ensures req.id.Num? ==> url == page.ListEndpoint() + IntToString(req.id.n)
    ensures req.id.Str? ==> url == page.ListEndpoint() + req.id.s
  {
    HttpClient.ItemUrl(page.ItemEndpoint(), req.id)
  }

  /** "done": on success baseline row `i` becomes the sent working row; on failure nothing changes. */
  function Saved(s: TableState, i: nat, succeeded: bool): (t: TableState)
    requires i < |s.tableData|
    ensures succeeded ==> t.originalData == ReplaceAt(s.originalData, i, s.tableData[i])
    ensures !succeeded ==> t == s
    ensures t.tableData == s.tableData && t.editedRows == s.editedRows && t.snapshot == s.snapshot
    ensures s.Valid() ==> t.Valid()
  {
    if succeeded then s.(originalData := ReplaceAt(s.originalData, i, s.tableData[i])) else s
  }

  /** After a successful save, "cancel" on that row changes nothing. */
  lemma CancelAfterSaveIsNoOp(s: TableState, i: nat)
    requires s.Valid() && i < |s.tableData|
    ensures Cancelled(Saved(s, i, true), i) == Saved(s, i, true)
  {
    var t := Saved(s, i, true);
    assert t.originalData[i] == s.tableData[i];
    assert ReplaceAt(t.tableData, i, t.originalData[i]) == t.tableData;
  }

  /** A sequence of blur writes from the cells. */
  function ApplyEdits(s: TableState, calls: seq<UpdateCall>): (t: TableState)
    ensures |t.tableData| == |s.tableData| && t.originalData == s.originalData
    ensures t.editedRows == s.editedRows && t.snapshot == s.snapshot
    decreases |calls|
  {
    if calls == [] then s
    else ApplyEdits(WithField(s, calls[0].rowIndex, calls[0].columnId, calls[0].value), calls[1..])
  }

  /** Cell writes only touch the working copy, and only the rows they name. */
  lemma {:induction false} ApplyEditsFrame(s: TableState, calls: seq<UpdateCall>)
    ensures forall j ::
      0 <= j < |s.tableData| && (forall k :: 0 <= k < |calls| ==> calls[k].rowIndex != j)
      ==> ApplyEdits(s, calls).tableData[j] == s.tableData[j]
    decreases |calls|
  {
    if calls != [] {
      var s1 := WithField(s, calls[0].rowIndex, calls[0].columnId, calls[0].value);
      ApplyEditsFrame(s1, calls[1..]);
      forall j | 0 <= j < |s.tableData| && (forall k :: 0 <= k < |calls| ==> calls[k].rowIndex != j)
        ensures ApplyEdits(s, calls).tableData[j] == s.tableData[j]
      {
        assert calls[0].rowIndex != j;
        assert forall k :: 0 <= k < |calls[1..]| ==> calls[1..][k].rowIndex != j by {
          forall k | 0 <= k < |calls[1..]| ensures calls[1..][k].rowIndex != j {
            assert calls[1..][k] == calls[k + 1];
          }
        }
      }
    }
  }

  /** Whatever was typed into any rows, "cancel" on row `i` brings it back to its baseline. */
  lemma EditsThenCancelRestoreRow(s: TableState, calls: seq<UpdateCall>, i: nat)
    requires s.Valid() && i < |s.tableData|
    ensures ApplyEdits(s, calls).Valid()
    ensures Cancelled(ApplyEdits(s, calls), i).tableData[i] == s.originalData[i]
    ensures Cancelled(ApplyEdits(s, calls), i).originalData == s.originalData
  {
    ApplyEditsFrame(s, calls);
  }

  /** Editing one field of row `i` and saving successfully makes that edited row the baseline. */
  lemma EditThenSave(s: TableState, i: nat, column: string, v: JsValue)
    requires s.Valid() && i < |s.tableData|
    ensures var t := Saved(WithField(s, i, column, v), i, true);
      t.originalData[i] == s.tableData[i][column := v] == t.tableData[i]
      && forall j :: 0 <= j < |s.originalData| && j != i ==> t.originalData[j] == s.originalData[j]
  {
  }

  // ------------------------------------------------------------------ page

  /** One mounted page: the table state, the id awaiting deletion, and its confirmation dialog. */
  class CollectionTable {
    const page: Page
    var tableData: seq<Row>
    var originalData: seq<Row>
    var editedRows: map<nat, bool>
    var snapshot: Option<seq<Row>>
    var pendingDeleteId: JsValue
    const deleteModal: ModalDialog

    function State(): TableState
      reads this
    {
      TableState(tableData, originalData, editedRows, snapshot)
    }

    predicate Valid()
      reads this
    {
      State().Valid()
    }

    /** A fresh page: empty copies, no edit flags, a null snapshot, an empty id and a closed dialog. */
    constructor (page: Page)
      ensures this.page == page && State() == InitialTable && Valid()
      ensures pendingDeleteId == Str("")
      ensures fresh(deleteModal) && !deleteModal.isOpen && !deleteModal.isDisabled
      ensures deleteModal.title == page.DeleteTitle() && deleteModal.negativeText == "Cancel"
    {
      this.page := page;
      tableData := [];
      originalData := [];
      editedRows := map[];
      snapshot := None;
      pendingDeleteId := Str("");
      deleteModal := new ModalDialog(page.DeleteTitle(), "Yes", Some("Cancel"), None, false, false);
    }

    /** The effect on `data`: `results` is the fetched results array, None when it is missing or not an array. */
    method Reconcile(results: Option<seq<Row>>)
      requires Valid()
      modifies this
      ensures State() == Reconciled(old(State()), results) && Valid()
      ensures pendingDeleteId == old(pendingDeleteId)
    {
      if results.Some? && Some(results.value) != snapshot {
        tableData := results.value;
        originalData := results.value;
        snapshot := results;
      }
    }

    /** `meta.updateData` */
    method UpdateData(i: nat, column: string, v: JsValue)
      requires Valid()
      modifies this
      ensures State() == WithField(old(State()), i, column, v) && Valid()
      ensures pendingDeleteId == old(pendingDeleteId)
    {
      if i < |tableData| {
        tableData := ReplaceAt(tableData, i, tableData[i][column := v]);
      }
    }

    /** `meta.revertData(i, revert)`; `saveSucceeds` is the outcome of the update the save sends. */
    method RevertData(i: nat, revert: bool, saveSucceeds: bool) returns (sent: Option<SaveRequest>)
      requires Valid() && i < |tableData|
      modifies this
      ensures revert ==> sent.None? && State() == Cancelled(old(State()), i)
      ensures !revert ==> sent == Some(SaveRequest(Get(old(tableData)[i], "id"), old(tableData)[i]))
      ensures !revert ==> State() == Saved(old(State()), i, saveSucceeds)
      ensures Valid() && pendingDeleteId == old(pendingDeleteId)
    {
      if revert {
        tableData := ReplaceAt(tableData, i, originalData[i]);
        sent := None;
      } else {
        var updatedRow := tableData[i];
        sent := Some(SaveRequest(Get(updatedRow, "id"), updatedRow));
        if saveSucceeds {
          originalData := ReplaceAt(originalData, i, updatedRow);
        }
      }
    }

    /**
     * A click on "edit", "done" or "cancel" of row `i`: the row's flag flips first,
     * then "done" and "cancel" call `revertData` with `revert` true exactly for "cancel".
     */
    method ClickRowButton(i: nat, b: RowButton, isUpdating: bool, saveSucceeds: bool) returns (sent: Option<SaveRequest>)
      requires Valid() && i < |tableData| && b != DeleteButton
      requires Clickable(Actions(page, IsEdited(editedRows, i), isUpdating), b)
      modifies this
      ensures editedRows == Toggled(old(editedRows), i)
      ensures b == EditButton ==> sent.None? && tableData == old(tableData) && originalData == old(originalData)
      ensures b == CancelButton ==> sent.None? && State() == Cancelled(old(State()).(editedRows := editedRows), i)
      ensures b == DoneButton ==> sent == Some(SaveRequest(Get(old(tableData)[i], "id"), old(tableData)[i]))
      ensures b == DoneButton ==> State() == Saved(old(State()).(editedRows := editedRows), i, saveSucceeds)
      ensures snapshot == old(snapshot) && pendingDeleteId == old(pendingDeleteId) && Valid()
    {
      editedRows := Toggled(editedRows, i);
      sent := None;
      if b != EditButton {
        sent := RevertData(i, b == CancelButton, saveSucceeds);
      }
    }

    /** `meta.handleDelete(id)`: the id is recorded and the dialog opened. */
    method HandleDelete(id: JsValue)
      modifies this, deleteModal
      ensures pendingDeleteId == id && deleteModal.isOpen
      ensures State() == old(State())
    {
      deleteModal.Open();
      pendingDeleteId := id;
    }

    /** The "delete" button of row `i` passes the row's own `id`. */
    method ClickDelete(i: nat, isUpdating: bool)
      requires i < |tableData|
      requires Clickable(Actions(page, IsEdited(editedRows, i), isUpdating), DeleteButton)
      modifies this, deleteModal
      ensures State() == old(State())
      ensures pendingDeleteId == Get(tableData[i], "id") && deleteModal.isOpen
    {
      HandleDelete(Get(tableData[i], "id"));
    }

    /**
     * The dialog's positive action: deletes the recorded id. On success the dialog
     * closes and the list is refetched; the rows are left for the refetch to replace.
     */
    method ConfirmDelete(succeeded: bool) returns (deleted: JsValue, url: string, refetch: bool)
      requires deleteModal.isOpen && !deleteModal.isDisabled
      modifies deleteModal
      ensures deleted == pendingDeleteId && url == HttpClient.ItemUrl(page.ItemEndpoint(), pendingDeleteId)
      ensures succeeded ==> !deleteModal.isOpen && refetch
      ensures !succeeded ==> deleteModal.isOpen && !refetch
      ensures State() == old(State())
    {
      var _ := deleteModal.HandlePositive();
      deleted := pendingDeleteId;
      url := HttpClient.ItemUrl(page.ItemEndpoint(), deleted);
      refetch := false;
      if succeeded {
        deleteModal.Close();
        refetch := true;
      }
    }
  }
}

# Trackify admin dashboard: a verified model of its client-side logic

Trackify is an admin dashboard for a small business. It has inventory, outlets, categories and users screens backed by a REST API. This project models the dashboard's client-side logic in Dafny and proves properties of that model. The model covers:

- **The editable collection tables** of the inventory, outlets and users pages (`EditableTable`), and the table cell they use (`EditableCell`).
  - Each page keeps three things: a working copy of the fetched rows, a baseline copy, and a map of edit flags keyed by row index.
  - It also keeps a snapshot of the last fetched results and the id awaiting deletion.
  - The three pages share one class, `CollectionTable`, parameterised by the page. The pages differ only in their endpoints and their column editors. They also differ in which row buttons survive a pending update.
- **The categories page** (`Categories`): inline renaming of one category, the add form with its blank-name guard, and the delete confirmation.
- **The HTTP helper** (`HttpClient`):
  - the default headers;
  - the FormData and bearer-token request interceptors;
  - the 401 response interceptor;
  - `handleError`;
  - the URLs of `getById`, `update`, `patch` and `delete`.
- **The query hooks** (`QueryHooks`): the cache key of each query hook, which keys each mutation invalidates, the custom-URL key, and the global loading flag.
- **The credential store** (`TokenStorage`) and **the auth slice** (`AuthSlice`), whose `login` and `logout` write through to that store.
- **The dashboard's low-stock filter and stat fallbacks** (`Dashboard`), and **the low-stock table's status column** (`LowStockTable`).
- **The select field** (`SelectInput`), **`omit`** (`ObjectUtils`), **the login schema** (`LoginSchema`), and **the text and password fields** (`FieldInputs`).
- **The two dialogs' open/close machines** (`Modal`, `CreateModal`).

Two modules model JavaScript's own semantics, which the rest rely on:

- `JsValues` holds values, truthiness, `||`, optional property access and `String()`.
- `JsStrings` holds `indexOf`/`includes`, `replace` with a string pattern (including its `$` patterns), `trim`, `split(sep)[0]` and `slice`.

Modelling choices:

- **Server calls.** Their outcome is a boolean parameter of the handler that starts them. Other inputs the model cannot see are parameters too: browser storage is a pair of maps, and zod's email check is a function argument.
- **Two interceptor orders.** The interceptors are registered FormData first, bearer second. Axios runs request interceptors in reverse order of registration. `HttpClient.InterceptorsCommute` shows that this order does not matter.

Where the design documentation of this system and the code disagree, the model follows the code.

- The documentation describes a one-shot token refresh on a 401. The code has none: a 401 is logged and rejected again unchanged (`HttpClient.OnResponseError`).
- The bearer interceptor reads the durable-store key `"token"`. That key is not `"accessToken"`, and the credential store never writes it. `HttpClient.BearerIgnoresStoredTokens` proves that storing a refresh token does not change the header.
- The documentation has a delete remove the row from both copies. The code only closes the dialog and refetches. Rows change only through the reconcile effect.
- `update`, `patch` and `delete` send to `endpoint + "/" + id`, which has no trailing slash.
- The dashboard's comment says `quantity < min_quantity`. The code filters with `quantity <= min_quantity`, and so does the model.

Edit flags follow TanStack's default row ids, which are the row indices. So a flag belongs to a position, not to an entity. `EditableTable.Reconciled` keeps `editedRows` across a refetch. If a refetch shifts rows, for example after a delete, an open edit therefore moves to whatever row now sits at that index.

## Model

| member | source | states |
|---|---|---|
| JsValues.Prop | src/services/axios.ts:92 | `v?.key` is undefined unless `v` is an object holding `key`, and is then that field |
| JsValues.Truthy | src/services/axios.ts:54 | the falsy values are exactly undefined, null, false, 0 and "" |
| JsValues.Or | src/services/axios.ts:92-93 | `a \|\| b` is `a` when `a` is truthy and `b` otherwise |
| JsValues.NatToDecimal | src/services/axios.ts:93 | a natural number's text is a non-empty digit string without a leading zero |
| JsValues.DecimalRoundTrip | src/services/axios.ts:93 | reading a number's decimal text back gives the number |
| JsValues.IntToString | src/services/axios.ts:129 | an integer's `toString()` is its digits, after a "-" when negative |
| JsValues.IntToStringInjective | src/services/axios.ts:154 | distinct integers have distinct texts |
| JsValues.ToJsString | src/services/tanstack-helpers.ts:69 | `String(v)` of a string is the string itself, and of a number its decimal text |
| JsStrings.IndexOfFrom | src/services/axios.ts:128 | the result is the first position at or after `from` where the pattern matches, or none when there is none |
| JsStrings.IncludesIff | src/services/axios.ts:128 | `includes` holds exactly when the pattern matches at some position |
| JsStrings.SubstitutionLiteral | src/services/axios.ts:129 | a replacement string without "$" is inserted literally |
| JsStrings.ReplaceFirst | src/services/axios.ts:129 | without a match the string is unchanged; otherwise the first occurrence is replaced by the replacement's substitution |
| JsStrings.ReplaceFirstLiteral | src/services/tanstack-helpers.ts:69 | with a "$"-free replacement and the first match at `i`, the result is `s[..i] + replacement + s[i+\|pat\|..]` |
| JsStrings.TrimStart | src/pages/Categories.tsx:75 | exactly the leading whitespace is dropped |
| JsStrings.TrimEnd | src/pages/Categories.tsx:75 | exactly the trailing whitespace is dropped |
| JsStrings.Trim | src/pages/Categories.tsx:75 | `trim()` is one contiguous piece of the string with only white space around it, and no white space at either end |
| JsStrings.TrimEmptyIff | src/pages/Categories.tsx:75 | `trim()` is empty exactly when every character is whitespace |
| JsStrings.FirstSegment | src/services/tanstack-helpers.ts:155 | `split(sep)[0]` is the longest prefix without `sep`, and the separator follows it when it is shorter than the string |
| JsStrings.Slice | src/services/tanstack-helpers.ts:155 | `slice(start, end)` is `s[start..end]` when both are in range; `end` past the string is clamped to its length, so the result is `s[start..]`; an empty range gives "" |
| TokenStorage.Lookup | src/services/tokenStorage.ts:3-4 | `getItem` returns a value exactly when the key is stored, and then the stored value |
| TokenStorage.BaseTokenStorage.constructor | src/services/tokenStorage.ts:22-23 | the single credential store wraps the given browser stores |
| TokenStorage.BaseTokenStorage.GetAccessToken | src/services/tokenStorage.ts:3 | the access token is the session store's "accessToken" entry, or null |
| TokenStorage.BaseTokenStorage.GetRefreshToken | src/services/tokenStorage.ts:4 | the refresh token is the durable store's "refreshToken" entry, or null |
| TokenStorage.BaseTokenStorage.SetTokens | src/services/tokenStorage.ts:6-15 | the two entries are written, the getters then return them, and every other key of both stores is unchanged |
| TokenStorage.BaseTokenStorage.ClearTokens | src/services/tokenStorage.ts:17-20 | the two entries are removed, both getters then return null, and every other key is unchanged |
| HttpClient.ClientHeaders | src/services/axios.ts:33-41 | the defaults are kept and Content-Type is "application/json" unless the defaults set it |
| HttpClient.FormDataHeaders | src/services/axios.ts:43-48 | a FormData body loses Content-Type; any other body keeps the headers; no other header changes |
| HttpClient.WithBearer | src/services/axios.ts:51-60 | a non-empty token sets Authorization to "Bearer " + token; an absent or empty one changes nothing; no other header changes |
| HttpClient.InterceptorsCommute | src/services/axios.ts:43-60 | applying the two request interceptors in either order gives the same headers |
| HttpClient.BearerIgnoresStoredTokens | src/services/axios.ts:53 | writing the refresh token to the durable store does not change the header, because the interceptor reads "token" |
| HttpClient.RequestConfig.StripContentTypeForFormData | src/services/axios.ts:43-48 | the config's headers become `FormDataHeaders` of the old headers and its body |
| HttpClient.RequestConfig.AttachBearerToken | src/services/axios.ts:51-58 | the headers become `WithBearer` of the old headers and the durable store's "token" |
| HttpClient.RequestConfig.RunRequestInterceptors | src/services/axios.ts:43-60 | the bearer interceptor runs first and the FormData one second, and the result equals the other order |
| HttpClient.StripPadding | src/services/axios.ts:55 | exactly the trailing "=" signs are dropped |
| HttpClient.StripSpaces | src/services/axios.ts:55 | exactly the leading spaces are dropped |
| HttpClient.BearerValueConforms | src/services/axios.ts:55 | for a token not starting with a space, "Bearer " + token follows section 2.1 of RFC 6750 exactly when the token is a b64token |
| HttpClient.AttachedHeaderConforms | src/services/axios.ts:54-56 | for a b64token, the header the interceptor writes is well-formed Bearer credentials |
| HttpClient.MalformedTokenIsAttached | src/services/axios.ts:54-56 | the token "a b" is attached as "Bearer a b", which is not valid Bearer syntax: the interceptor does not check the token |
| HttpClient.StatusMessage | src/services/axios.ts:93 | the fallback message starts with "Request failed with status code " |
| HttpClient.StatusMessageRoundTrip | src/services/axios.ts:93 | the text after that prefix is the status code's digits and reads back as the status |
| HttpClient.StatusMessageInjective | src/services/axios.ts:93 | different statuses give different fallback messages |
| HttpClient.HandleError | src/services/axios.ts:83-106 | with a response, the status and data come from it and the message is `data.message` when truthy and the status message otherwise; with a request and no response, the message is "No response received from server" and status and data are null; otherwise the message is the error's own |
| HttpClient.OnResponseError | src/services/axios.ts:63-75 | the error is rejected unchanged, and the 401 log happens exactly for a response with status 401 |
| HttpClient.GetByIdUrl | src/services/axios.ts:128-130 | without ":id" the id is appended; with it, the first ":id" is replaced by the id's text, or the call fails for an undefined or null id |
| HttpClient.GetByIdNumericUrl | src/services/axios.ts:128-129 | for a numeric id and the first ":id" at `i`, the URL is `endpoint[..i] + digits + endpoint[i+3..]` |
| HttpClient.ItemUrl | src/services/axios.ts:147-188 | `update`, `patch` and `delete` send to `endpoint + "/"` followed by the id's text |
| HttpClient.ItemUrlInjective | src/services/axios.ts:154 | two numeric ids give the same item URL only when they are equal |
| HttpClient.ItemUrlExamples | src/services/axios.ts:182 | "/outlets" and 3 give "/outlets/3", with no trailing slash |
| QueryHooks.FetchKey | src/services/tanstack-helpers.ts:46-58 | the list key is `[endpoint, params]`, with params `{}` by default |
| QueryHooks.FetchKeyInjective | src/services/tanstack-helpers.ts:53 | two list queries share a key only for the same endpoint and parameters |
| QueryHooks.FetchByIdKey | src/services/tanstack-helpers.ts:69 | the by-id key carries the id, with ":id" replaced by `String(id)` for a truthy id and by "" otherwise |
| QueryHooks.FetchByIdEnabled | src/services/tanstack-helpers.ts:72 | `!!id`: an undefined or null id disables the query; a number enables it exactly when non-zero, a string exactly when non-empty |
| QueryHooks.FetchByIdKeyIsUrl | src/services/tanstack-helpers.ts:63-75 | for a non-zero numeric id the query runs and its key names the URL `getById` requests |
| QueryHooks.FetchByIdFalsyId | src/services/tanstack-helpers.ts:69-72 | a falsy id disables the query and drops ":id" from the key |
| QueryHooks.Invalidations | src/services/tanstack-helpers.ts:91-138 | create invalidates `[endpoint]`; update invalidates `[endpoint, id]` and `[endpoint + "/"]`; delete invalidates `[endpoint + "/"]` |
| QueryHooks.MutationsReachTheList | src/services/tanstack-helpers.ts:114-138 | update and delete invalidate a prefix of every list key of `endpoint + "/"`, and create one of `endpoint`'s |
| QueryHooks.SuccessEffectsAsWritten | src/services/tanstack-helpers.ts:89-97 | as written, a hook-level `onSuccess` replaces the built-in handler, so nothing is invalidated |
| QueryHooks.SuccessEffectsIntended | src/services/tanstack-helpers.ts:89-96 | the intended handler invalidates the mutation's keys and then runs the hook's callback if there is one |
| QueryHooks.HookOnSuccessSuppressesInvalidation | src/services/tanstack-helpers.ts:113-121 | with a hook-level `onSuccess` the written code and the intended handler differ |
| QueryHooks.AgreeWithoutHookOnSuccess | src/services/tanstack-helpers.ts:136-144 | without a hook-level `onSuccess` both give the same effects |
| QueryHooks.CustomKey | src/services/tanstack-helpers.ts:155 | the custom key is characters 8 up to 22 of the text before the first ".", cut short where that text ends, and "" when it has at most 8 characters |
| QueryHooks.CustomKeyOfHttpsUrl | src/services/tanstack-helpers.ts:151-161 | for "https://host.rest", the key is the host cut to 14 characters |
| QueryHooks.FetchingCountPositive | src/services/tanstack-helpers.ts:169 | `isFetching() > 0` exactly when some cached query's fetch status is "fetching" |
| QueryHooks.PendingCountPositive | src/services/tanstack-helpers.ts:169 | `isMutating() > 0` exactly when some mutation is pending |
| QueryHooks.IsLoading | src/services/tanstack-helpers.ts:166-171 | the app is loading exactly when some query is fetching or some mutation is pending |
| AuthSlice.InitialState | src/store/slices/authSlice.ts:41-48 | the tokens are the stored ones, the user is null, and the user is authenticated exactly when a non-empty access token was stored |
| AuthSlice.LoginReducer | src/store/slices/authSlice.ts:54-59 | `login` sets the payload's tokens and user and sets authenticated |
| AuthSlice.LogoutReducer | src/store/slices/authSlice.ts:67-70 | `logout` clears the tokens and the user and sets not authenticated |
| AuthSlice.LogoutAfterLogin | src/store/slices/authSlice.ts:54-73 | a login followed by a logout ends in the same logged-out state, whatever the state and payload |
| AuthSlice.LoginOverridesLogin | src/store/slices/authSlice.ts:54-59 | a second login erases every trace of the first |
| AuthSlice.GetIsAuthenticated | src/store/slices/authSlice.ts:93-94 | `getIsAuthenticated` reports the slice's `isAuthenticated` flag |
| AuthSlice.GetUserProfile | src/store/slices/authSlice.ts:96-98 | `getUserProfile` reports `{user}` with the slice's user |
| AuthSlice.SelectorsAfterActions | src/store/slices/authSlice.ts:93-98 | after login the selectors report authenticated and `{user}`; after logout they report not authenticated and `{user: null}` |
| AuthSlice.Rehydrate | src/store/slices/authSlice.ts:77-82 | after a reload only `user` is restored, and tokens and flag start from the credential store |
| AuthSlice.RehydrateDependsOnlyOnUser | src/store/slices/authSlice.ts:80 | two saved states with the same user rehydrate alike |
| AuthSlice.AuthStore.constructor | src/store/slices/authSlice.ts:11-12 | the slice starts in `InitialState` of the two tokens read from the store |
| AuthSlice.AuthStore.Login | src/store/slices/authSlice.ts:54-65 | the state becomes `LoginReducer` of the old one, and the store holds the payload's two tokens |
| AuthSlice.AuthStore.Logout | src/store/slices/authSlice.ts:67-73 | the state becomes the logged-out state, and both tokens are removed from the store |
| Modal.Next | src/components/ui/Modal.tsx:35-74 | open opens; close, the close buttons and a backdrop click close; the positive action and inner clicks change nothing; Escape closes only an open dialog |
| Modal.HandleCloseCloses | src/components/ui/Modal.tsx:40-43 | every event that runs `handleClose` leaves the dialog closed |
| Modal.DeletePositiveText | src/pages/Inventory.tsx:325 | every delete dialog (also Outlets.tsx, Users.tsx and Categories.tsx:262) reads "Deleting" while the delete runs and "Yes" otherwise |
| Modal.StaysClosedWithoutOpen | src/components/ui/Modal.tsx:32-74 | a closed dialog stays closed through any events without `open()` |
| Modal.StaysOpenWithoutClose | src/components/ui/Modal.tsx:45-74 | an open dialog stays open through any events that neither close it nor run `handleClose` |
| Modal.ModalDialog.constructor | src/components/ui/Modal.tsx:26-32 | a new dialog is closed, with negative text "Cancel" and an enabled positive button unless given |
| Modal.ModalDialog.View | src/components/ui/Modal.tsx:76-137 | nothing is rendered while closed; the positive button is disabled exactly when `isDisabled` |
| Modal.ModalDialog.Open | src/components/ui/Modal.tsx:35 | `open()` opens the dialog |
| Modal.ModalDialog.Close | src/components/ui/Modal.tsx:36-38 | `close()` closes the dialog without calling `onClose` |
| Modal.ModalDialog.HandleClose | src/components/ui/Modal.tsx:40-43 | the dialog closes, and `onClose` is called exactly when given |
| Modal.ModalDialog.HandlePositive | src/components/ui/Modal.tsx:45-48 | `onPositive` is called and the dialog stays open |
| Modal.ModalDialog.KeyDown | src/components/ui/Modal.tsx:51-67 | Escape closes and calls `onClose` only while open; other keys change nothing |
| Modal.ModalDialog.BackdropClick | src/components/ui/Modal.tsx:70-74 | only a click whose target is the backdrop itself closes |
| CreateModal.CreateDialog.constructor | src/components/admin/CreateModal.tsx:16 | a new form dialog is closed |
| CreateModal.CreateDialog.Open | src/components/admin/CreateModal.tsx:19-20 | `open()` opens the dialog, so it renders, with the children's wrapper exactly when it has children |
| CreateModal.CreateDialog.Close | src/components/admin/CreateModal.tsx:21-22 | `close()` closes the dialog, so it renders nothing (the null at line 55) |
| CreateModal.CreateDialog.HandleClose | src/components/admin/CreateModal.tsx:24-27 | the dialog closes and renders nothing, and `onClose` is called exactly when given |
| CreateModal.CreateDialog.KeyDown | src/components/admin/CreateModal.tsx:30-46 | Escape closes only while open; afterwards the dialog renders exactly when it was open and the key was not Escape |
| CreateModal.CreateDialog.BackdropClick | src/components/admin/CreateModal.tsx:49-53 | only a click on the backdrop itself closes; the dialog still renders exactly when the click was inside it |
| EditableCell.PlaceholderLabel | src/components/admin/EditableTableCell.tsx:56 | an absent or empty placeholder shows "Select an option" |
| EditableCell.SelectEntries | src/components/admin/EditableTableCell.tsx:49-65 | the placeholder entry with value "" comes first, then one entry per option in order, with value and caption both the option's name |
| EditableCell.View | src/components/admin/EditableTableCell.tsx:48-90 | in edit mode, a select showing `value \|\| ""` or an input of the configured type (default "text"); outside edit mode, a badge exactly for a select column with a truthy value, else plain text |
| EditableCell.DefaultCellIsTextInput | src/components/admin/EditableTableCell.tsx:25-26 | a cell without props edits as a text input |
| EditableCell.SelectWithoutOptions | src/components/admin/EditableTableCell.tsx:26 | a select cell without options offers only the placeholder |
| EditableCell.TableCell.constructor | src/components/admin/EditableTableCell.tsx:30-32 | the local value starts as the cell's value |
| EditableCell.TableCell.Rerender | src/components/admin/EditableTableCell.tsx:34-36 | the local value is reset to the cell's value exactly when that value changed |
| EditableCell.TableCell.OnChange | src/components/admin/EditableTableCell.tsx:42-46 | typing sets only the local value |
| EditableCell.TableCell.OnBlur | src/components/admin/EditableTableCell.tsx:38-40 | blur calls `updateData(row.index, column.id, value)` with the local value |
| EditableTable.ListIsItemEndpointSlash | src/pages/Inventory.tsx:108-123 | each page fetches its list from its item endpoint followed by "/" |
| EditableTable.MutationsRefreshThePage | src/pages/Inventory.tsx:122-123 | a successful save or delete invalidates a prefix of the page's own list key |
| EditableTable.ColumnProps | src/pages/Inventory.tsx:151-208 | the editable cells: name, category, quantity, min qty, cost and selling price on inventory; name, total sales and location on outlets (Outlets.tsx:139-161); username, email and role on users (Users.tsx:137-168); the category and role columns are selects with the fetched categories and the two roles, the rest plain text inputs; status, date joined and actions are not editable cells |
| EditableTable.RoleEditorOptions | src/pages/Users.tsx:19-22 | the role editor offers the placeholder, then exactly "manager" and "staff" |
| EditableTable.CategoryEditorOptions | src/pages/Inventory.tsx:151-208 | the category editor offers the fetched categories, or only the placeholder before they arrive |
| EditableTable.StockStatusLabel | src/pages/Inventory.tsx:183-199 | "Out of Stock" exactly for a truthy `is_out_of_stock`, else "In Stock" |
| EditableTable.PageContent | src/pages/Inventory.tsx:256-300 | a skeleton while loading, then the error panel, then the empty state for no rows, then the table |
| EditableTable.Actions | src/pages/Inventory.tsx:53-100 | an edited row shows done/cancel, disabled while updating where the page does that; an idle row gives way to "updating..." where the page does that |
| EditableTable.InventoryLocksWhileUpdating | src/pages/Inventory.tsx:62-79 | inventory: no row button can be clicked while an update is pending |
| EditableTable.OutletsWhileUpdating | src/pages/Outlets.tsx:54-93 | outlets: done/cancel are disabled while updating, but edit/delete stay |
| EditableTable.UsersWhileUpdating | src/pages/Users.tsx:53-75 | users: done/cancel are never disabled; edit/delete are hidden while updating |
| EditableTable.Toggled | src/pages/Inventory.tsx:43-46 | toggling flips the clicked row's flag, with a missing flag read as false, and leaves every other flag |
| EditableTable.ToggleTwice | src/pages/Outlets.tsx:33-43 | toggling a row twice restores every row's edit mode |
| EditableTable.ReplaceAt | src/pages/Inventory.tsx:220-225 | `rows.map` at one index replaces that row only and keeps the length |
| EditableTable.Reconciled | src/pages/Inventory.tsx:131-143 | results differing from the snapshot replace both copies and the snapshot; otherwise nothing changes; edit flags are never touched |
| EditableTable.ReconcileIdempotent | src/pages/Users.tsx:120-130 | reconciling twice with the same results is reconciling once |
| EditableTable.WithField | src/pages/Inventory.tsx:246-252 | `updateData` changes only one field of one working row; the length, other rows and the baseline are unchanged |
| EditableTable.Cancelled | src/pages/Inventory.tsx:220-225 | cancel copies the baseline row back into the working copy; nothing else changes |
| EditableTable.Saved | src/pages/Inventory.tsx:226-243 | on success the baseline row becomes the sent working row; on failure nothing changes |
| EditableTable.SaveUrl | src/services/axios.ts:153-154 | a save goes to the page's list URL followed by the row's id, with no trailing slash |
| EditableTable.CancelAfterSaveIsNoOp | src/pages/Outlets.tsx:172-198 | after a successful save, cancel on that row changes nothing |
| EditableTable.ApplyEdits | src/components/admin/EditableTableCell.tsx:38-40 | blur writes keep the length, the baseline, the flags and the snapshot |
| EditableTable.ApplyEditsFrame | src/pages/Outlets.tsx:199-205 | blur writes change only the rows they name |
| EditableTable.EditsThenCancelRestoreRow | src/pages/Inventory.tsx:219-252 | after any writes, cancel restores the row to its baseline |
| EditableTable.EditThenSave | src/pages/Users.tsx:185-210 | editing a field and saving successfully makes the edited row the baseline |
| EditableTable.CollectionTable.constructor | src/pages/Inventory.tsx:108-129 | a page starts with empty copies, no edit flags, a null snapshot, an empty id and a closed dialog |
| EditableTable.CollectionTable.Reconcile | src/pages/Outlets.tsx:121-132 | the state becomes `Reconciled` of the old one |
| EditableTable.CollectionTable.UpdateData | src/pages/Users.tsx:204-210 | the state becomes `WithField` of the old one |
| EditableTable.CollectionTable.RevertData | src/pages/Inventory.tsx:219-245 | cancel gives `Cancelled`; save sends `{id: row.id, data: row}` and gives `Saved` |
| EditableTable.CollectionTable.ClickRowButton | src/pages/Users.tsx:39-49 | the flag flips first; only done/cancel then run `revertData`, with revert exactly for cancel |
| EditableTable.CollectionTable.HandleDelete | src/pages/Inventory.tsx:145-148 | the id is recorded and the dialog opened |
| EditableTable.CollectionTable.ClickDelete | src/pages/Inventory.tsx:91 | delete records the row's own `id` |
| EditableTable.CollectionTable.ConfirmDelete | src/pages/Inventory.tsx:326-337 | the recorded id is deleted; on success the dialog closes and the list is refetched, with no row removed locally |
| Categories.NameBody | src/pages/Categories.tsx:46 | the body holds exactly the `name` field |
| Categories.IsEditing | src/pages/Categories.tsx:177 | `editingId === category.id`: only a number equal to the row's id puts it in edit mode; a string id never does |
| Categories.AtMostOneRowEditing | src/pages/Categories.tsx:177 | with distinct ids at most one row is in edit mode |
| Categories.AddRequest | src/pages/Categories.tsx:74-77 | the name is sent, untrimmed, exactly when it has a non-whitespace character |
| Categories.AddKeepsSpaces | src/pages/Categories.tsx:75-77 | " Tools " is sent with its spaces, and "   " is not sent |
| Categories.RowViewOf | src/pages/Categories.tsx:177-232 | a row is in edit mode exactly when `editingId === category.id`; it shows the rename input, and save/cancel unless updating |
| Categories.PageContent | src/pages/Categories.tsx:101-256 | five skeletons while loading; otherwise one row per category, and the empty state exactly when there are none |
| Categories.AddForm | src/pages/Categories.tsx:134-168 | the add form is shown exactly while adding, with its buttons unless a create is running |
| Categories.CategoriesView.constructor | src/pages/Categories.tsx:34-38 | no row is edited, nothing is being deleted or added, and the dialog is closed |
| Categories.CategoriesView.HandleEdit | src/pages/Categories.tsx:40-43 | the category's id and name become the edited ones, so its row is in edit mode |
| Categories.CategoriesView.SetEditingName | src/pages/Categories.tsx:183 | typing sets the edited name only |
| Categories.CategoriesView.HandleSaveEdit | src/pages/Categories.tsx:44-62 | `{name: editingName}` is sent for `editingId`; success clears both, so no row stays in edit mode; failure leaves them |
| Categories.CategoriesView.EditKeyDown | src/pages/Categories.tsx:186 | Enter saves; other keys do nothing |
| Categories.CategoriesView.HandleCancelEdit | src/pages/Categories.tsx:64-67 | both edit fields are reset, so no row is in edit mode |
| Categories.CategoriesView.HandleDelete | src/pages/Categories.tsx:69-72 | the id is recorded and the dialog opened |
| Categories.CategoriesView.ConfirmDelete | src/pages/Categories.tsx:263-273 | the recorded id is deleted, and the dialog closes exactly on success |
| Categories.CategoriesView.StartAdding | src/pages/Categories.tsx:125 | the add form opens |
| Categories.CategoriesView.SetNewCategoryName | src/pages/Categories.tsx:140 | typing sets the new name only |
| Categories.CategoriesView.HandleAddNew | src/pages/Categories.tsx:74-94 | blank names are not sent; otherwise the name is sent, and success clears and closes the form |
| Categories.CategoriesView.AddKeyPress | src/pages/Categories.tsx:144 | Enter adds; other keys do nothing |
| Categories.CategoriesView.HandleCancelAdd | src/pages/Categories.tsx:96-99 | the form closes and its name is cleared |
| Dashboard.FilterLow | src/pages/Dashboard.tsx:27-29 | every kept item is low, and the list is no longer than the input |
| Dashboard.LowStock | src/pages/Dashboard.tsx:25-30 | absent results give no items; otherwise the filter |
| Dashboard.FilterLowCounts | src/pages/Dashboard.tsx:27-29 | each low item occurs as often as in the input, and others not at all |
| Dashboard.FilterLowIsSubsequence | src/pages/Dashboard.tsx:27-29 | the filter keeps the inventory's order |
| Dashboard.UnflaggedLowMatchesTable | src/pages/Dashboard.tsx:28 | an unflagged item is low exactly when the low-stock table calls it "Below Min" or "At Min" |
| Dashboard.Stats | src/pages/Dashboard.tsx:32-65 | total and out-of-stock fall back to "0"; the low-stock count is "0" for none; today's sales are "$" + (`today_sales` \|\| "0") |
| Dashboard.StatsWithoutData | src/pages/Dashboard.tsx:38-62 | before any data arrives the cards read "0", "0", "$0" and "0" |
| Dashboard.StatGrid | src/pages/Dashboard.tsx:70-74 | four skeletons while either fetch is pending, otherwise the four cards |
| LowStockTable.StatusOf | src/components/admin/LowStock.tsx:44-53 | below, at, or above the minimum, one and only one |
| LowStockTable.Label | src/components/admin/LowStock.tsx:45-52 | "Below Min", "At Min" and "OK" name below, at and above the minimum, each label exactly one status |
| LowStockTable.Color | src/components/admin/LowStock.tsx:44-52 | red, yellow and green mark below, at and above the minimum, each colour exactly one status |
| LowStockTable.Cell | src/components/admin/LowStock.tsx:43-55 | below the minimum, red "Below Min"; at it, yellow "At Min"; above it, green "OK" |
| LowStockTable.CellsDistinguishStatuses | src/components/admin/LowStock.tsx:44-55 | two rows share a label or a colour only when they share a status |
| LowStockTable.BuiltInStatuses | src/components/admin/LowStock.tsx:17-22 | 12/15 and 3/10 are "Below Min", 5/5 is "At Min" and 20/15 is "OK" |
| SelectInput.OptionList | src/components/ui/SelectInput.tsx:54-66 | loading shows only "Loading..."; then an error shows a disabled "Error loading"; then one entry per option in order; else a disabled "No options found" |
| SelectInput.Entries | src/components/ui/SelectInput.tsx:52 | a placeholder with value "" comes first exactly when the select is not multiple |
| SelectInput.LoadingHidesEverything | src/components/ui/SelectInput.tsx:54-55 | while loading, the options and the error flag make no difference |
| SelectInput.OptionsShownIff | src/components/ui/SelectInput.tsx:54-66 | real options appear exactly when there are options and nothing is loading or failed |
| SelectInput.ErrorParagraph | src/components/ui/SelectInput.tsx:68-70 | the error paragraph is shown exactly when an error is given, with its message's text |
| ObjectUtils.KeySet | src/lib/utils.ts:13-18 | one key, or the keys of the array |
| ObjectUtils.Without | src/lib/utils.ts:12-19 | no omitted key remains, every other key remains with its value |
| ObjectUtils.Omit | src/lib/utils.ts:8-21 | deleting the keys one by one from the clone gives the input without them |
| ObjectUtils.OmitSingleIsList | src/lib/utils.ts:14-19 | `omit(o, k)` equals `omit(o, [k])` |
| ObjectUtils.OmitNothing | src/lib/utils.ts:14-17 | omitting `[]` gives a copy equal to the input |
| ObjectUtils.OmitComposes | src/lib/utils.ts:14-16 | two omits are one omit of the union, so omitting again changes nothing |
| LoginSchema.Utf16LengthBounds | src/lib/schema.ts:10 | a string's UTF-16 length lies between its length and twice its length |
| LoginSchema.EmailIssues | src/lib/schema.ts:5-7 | the format message exactly when the email check fails, the empty message exactly for "" |
| LoginSchema.PasswordIssues | src/lib/schema.ts:8-11 | the length message exactly under 5 code units, the lowercase message exactly without an a-z letter |
| LoginSchema.Validate | src/lib/schema.ts:4-12 | `safeParse` reports at most four issues, each about email or password, the email ones first, exactly those of the two fields' checks |
| LoginSchema.AcceptsIff | src/lib/schema.ts:4-12 | the form is accepted exactly when the email is a non-empty email and the password has 5 code units and a lowercase letter |
| LoginSchema.EmptyEmailRejected | src/lib/schema.ts:7 | an empty email is rejected whatever the email check says |
| LoginSchema.LengthCountsCodeUnits | src/lib/schema.ts:10 | five characters always pass the length check, and so do three characters that make five code units |
| FieldInputs.ErrorMessage | src/components/ui/Input.tsx:19-24 | a string error is its own message, an object's `message` field is its message, anything else has none |
| FieldInputs.InputType | src/components/ui/Input.tsx:15 | the type defaults to "text" |
| FieldInputs.InputErrorParagraph | src/components/ui/Input.tsx:43-45 | the text field shows a paragraph exactly when the message is truthy |
| FieldInputs.PasswordErrorParagraph | src/components/ui/PasswordInput.tsx:50-52 | the password field shows a paragraph exactly when the error itself is truthy, even without a message |
| FieldInputs.ParagraphsAgree | src/components/ui/PasswordInput.tsx:17-22 | for a string error or a truthy message the two fields agree |
| FieldInputs.ParagraphsDisagreeWithoutMessage | src/components/ui/PasswordInput.tsx:50-52 | an error object without a message gives the password field an empty paragraph and the text field none |
| FieldInputs.PasswordField.constructor | src/components/ui/PasswordInput.tsx:16 | the password starts hidden |
| FieldInputs.PasswordField.InputType | src/components/ui/PasswordInput.tsx:35 | the type is "text" exactly while shown, else "password" |
| FieldInputs.PasswordField.ShowsEyeOff | src/components/ui/PasswordInput.tsx:43-47 | the crossed-out eye shows exactly while the password is visible |
| FieldInputs.PasswordField.ToggleVisibility | src/components/ui/PasswordInput.tsx:40 | a click flips the visibility, so two clicks restore it |

## Left out

- Token refresh and retry: the code has none, so there is nothing to model.
- Transport: `getAll`, `create`, `request` and `customGet` only forward to the HTTP layer, and the base URL is configuration. Promises are not modelled either; a failed call is described by the error value it produces.
- The query cache: prefix matching inside `invalidateQueries`, staleness and garbage collection are not modelled. Keys are compared as values.
- Interleaved mutations and stale closures: a save is one step over the row it captured.
- `JSON.stringify` key order in the reconcile effect: results are compared as values.
- Rendering, the DOM and portals: event listeners, focus handling, body scroll locking and class merging are not modelled.
- Browser storage is modelled as two maps.
- Storage is an explicit object: the module-level shared credential store is passed to its users as an object.
- redux-persist wiring: only its key and whitelist are modelled, in `AuthSlice.Rehydrate`.
- Toast notifications, console logging and locale date formatting: these are output only.
- Header names are compared case-sensitively, while axios header objects are case-insensitive.
- zod's email-format check is a function parameter, not a definition.
- Numbers are integers: model prices and quantities are whole numbers.
- Characters are Unicode scalar values. Only the password length check counts UTF-16 code units, because that is what the code compares.
- `SelectInput`'s `onChange` passes the selected value on unchanged. There is nothing to model.
- The delete dialog's "Deleting" label does not go through the dialog class. It is a function of the pending flag (`Modal.DeletePositiveText`, shared by all four pages).
- Login submission, the Create* forms, routing, ProtectedRoute, display-only tables, skeletons, empty and error states, and the sidebars are not part of this model.
- Schemas imported from `src/lib/schema.ts` but not defined there are not part of this model.
- StatCard's `getRandomColor` is not part of this model.

## Findings

| source | as written | input that shows it | evidently intended | confidence | as-written member | corrected member |
|---|---|---|---|---|---|---|
| src/services/tanstack-helpers.ts:89-97, 113-121, 136-144 | `...options` is spread after the built-in `onSuccess`, so a hook-level `options.onSuccess` replaces it and no query is invalidated | `useDelete("/outlets", { onSuccess })`: a successful delete leaves `["/outlets/"]` valid | invalidate, then call `options.onSuccess`, as the handler's own `if (options.onSuccess)` shows | not executed; latent, because no caller in the application passes a hook-level `onSuccess` | QueryHooks.SuccessEffectsAsWritten, QueryHooks.HookOnSuccessSuppressesInvalidation | QueryHooks.SuccessEffectsIntended |

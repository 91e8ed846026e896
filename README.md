# User list view: a Dafny model

The repository is a single-page form for managing an in-memory list of users
(id, name, email). Its one component, `App`, holds four pieces of state: the
ordered list `users`, the modal flag `showAddForm`, the nullable edit target
`editingUserId` and the draft `formData`. Six event handlers move that state:
field change, submit (create or update), start edit, confirmed delete, cancel,
and the "Add User" button. The table renders each user with its position plus
one, or a single placeholder row for an empty list.

The model has three modules:

- `Users` (`users.dfy`): the values (`User`, `FormData`, `Row`) and the pure list
  transforms the handlers use: `Append` (the array spread), `UpdateById` (the
  `map`), `RemoveById` (the `filter`) and `Rows` (the numbered table body).
  Lemmas state what is kept, what changes, and in which order.
- `Js` (`js.dfy`): the JavaScript semantics the guards rely on, as a reference
  definition: the values a guard can see, ToBoolean (section 7.1.2 of
  ECMA-262) and the `&&` operator.
- `UserListApp` (`app.dfy`): class `App` with the four state fields. It has one
  method per handler, each specified against the functions above. There are
  also two client scenarios.

Three details of the source are modelled exactly as written:

- The edit target is an `Option<int>`. The guard `if (editingUserId)` is
  JavaScript truthiness, so `IsEditing` is `Some(id)` with `id != 0`. A user
  whose id is 0 therefore cannot be edited: submitting appends a new user.
- Create-mode submit does not reset the edit target, because only the update
  branch calls `setEditingUserId(null)`. A falsy `Some(0)` survives a
  successful submit (`FalsyIdScenario`). After a successful submit the target
  is null unless it was a falsy 0, which the create branch keeps. Ids from
  the wall clock are positive, so in practice it is always null.
- Update and delete act on every entry whose id matches, not just the first.

These are modelled as inputs:

- The wall-clock id (`Date.now()`) is the `newId` parameter of `HandleAddUser`.
- The blocking confirmation dialog is the `confirmed` parameter of
  `HandleDelete`.

## Model

| member | source | states |
|---|---|---|
| `Users.IsEditing` | client/src/App.jsx:26 | the closed form "the target is `Some(id)` with `id != 0`" equals JavaScript's ToBoolean of the target (null or a number), so null and 0 both mean create mode; the branches it selects are stated in `HandleAddUser` and exercised by `FalsyIdScenario` |
| `Users.Complete` | client/src/App.jsx:25 | "both fields non-empty" equals JavaScript's truthiness of `name && email` on two strings; what passing or failing it does is stated in `HandleAddUser` |
| `Users.Append` | client/src/App.jsx:44-47 | the new list is one longer; every earlier entry is unchanged in its place; the new user is last |
| `Users.UpdateById` | client/src/App.jsx:28-34 | same length and same ids in the same order; every entry with the id gets the new name and email; every other entry is unchanged |
| `Users.RemoveById` | client/src/App.jsx:68 | no entry with the id is left; every remaining entry was in the list; every entry with another id stays |
| `Users.NumberFrom` | client/src/App.jsx:107-109 | one row per user, in order, numbered from the given start |
| `Users.Rows` | client/src/App.jsx:102-109 | the placeholder row alone exactly when the list is empty; otherwise row `i` shows user `i` with number `i + 1` |
| `Users.RemoveByIdIsSubsequence` | client/src/App.jsx:68 | the remaining entries keep their relative order |
| `Users.RemoveByIdMultiset` | client/src/App.jsx:68 | the result is the original minus exactly the entries with the id: every other value keeps its multiplicity |
| `Users.RemoveByIdLength` | client/src/App.jsx:68 | the length drops by the number of entries carrying the id |
| `Users.RemoveByIdConcat` | client/src/App.jsx:68 | filtering works entry by entry: it distributes over concatenation |
| `Users.RemoveByIdAbsent` | client/src/App.jsx:68 | a delete leaves the list unchanged if and only if no entry has the id |
| `Users.RemoveByIdIdempotent` | client/src/App.jsx:66-69 | a second confirmed delete of the same id changes nothing |
| `Users.AppendThenRemove` | client/src/App.jsx:44-68 | deleting a just-appended user whose id nobody else has restores the earlier list |
| `Users.UpdateByIdIdempotent` | client/src/App.jsx:28-34 | submitting the same edit twice equals submitting it once |
| `Users.UpdateByIdAbsent` | client/src/App.jsx:28-34 | an edit for an id no entry has changes nothing |
| `Users.RemoveAfterUpdate` | client/src/App.jsx:28-68 | deleting after an edit removes the same entries as deleting without it |
| `Users.DeleteMiddleRenumbers` | client/src/App.jsx:102-109 | with distinct ids, deleting B from [A, B, C] shows A and C numbered 1 and 2 |
| `UserListApp.App.constructor` | client/src/App.jsx:5-11 | empty list, hidden modal, null edit target, empty draft |
| `UserListApp.App.Modal` | client/src/App.jsx:135-138 | definition of the modal on screen: hidden when `showAddForm` is false, "Edit User" on an `IsEditing` target, "Add New User" otherwise; no contract of its own, its values are proved in the `Modal()` clauses of `HandleEdit`, `HandleCancel` and `HandleAddButton` |
| `UserListApp.App.HandleInputChange` | client/src/App.jsx:13-19 | only the named field of the draft takes the value; the list, modal and edit target are unchanged |
| `UserListApp.App.HandleAddUser` | client/src/App.jsx:21-55 | an incomplete draft changes nothing. In edit mode the list becomes `UpdateById` and the target is cleared. In create mode the list becomes `Append` of `{newId, name, email}` and the target is kept. On success the draft is empty, the modal is hidden, and the form is in create mode. Keeps `Valid`. After success the target is null unless it was a falsy 0, which stays |
| `UserListApp.App.HandleEdit` | client/src/App.jsx:57-64 | the draft is the user's name and email, the target is the user's id, the modal is shown, the list is unchanged; the modal is in edit mode unless the id is 0 |
| `UserListApp.App.HandleDelete` | client/src/App.jsx:66-70 | when confirmed the list becomes `RemoveById` and no entry has the id; when declined nothing changes; the draft, target and modal flag are never touched |
| `UserListApp.App.HandleCancel` | client/src/App.jsx:72-76 | from any state: empty draft, null target, hidden modal, list unchanged |
| `UserListApp.App.HandleAddButton` | client/src/App.jsx:86 | only the modal flag is set; the draft and target are kept; from a consistent idle state the modal is a blank create-mode form |
| `UserListApp.AddEditDeleteScenario` | client/src/App.jsx:13-109 | add "Al", edit his email, delete him with confirmation: the table shows only the placeholder row |
| `UserListApp.FalsyIdScenario` | client/src/App.jsx:26-47 | editing a user with id 0 and submitting appends a second user and leaves the target at 0 |

## Left out

- JSX markup, CSS classes, the modal overlay and the table's element structure
  are left out: they are presentation only. `Modal()` records which modal title
  is shown.
- `window.confirm` is a blocking browser dialog. It is the `confirmed` input.
- `Date.now()` reads the wall clock. It is the `newId` input. The code does
  not guarantee unique ids, so the model does not promise uniqueness.
- `console.log` and `e.preventDefault()` are left out: they have no effect on
  state.
- React's asynchronous, batched `setState` and its functional updaters are not
  modelled. Each handler is one atomic transition.
- The browser's `required` and `type="email"` input checks are left out. They
  are done by the browser, not by the component.
- HandleInputChange: the field name is one of the two form inputs
  (`Name | Email`). The source's computed key `[name]` would accept any input
  name, but the form has only these two. Called while the modal is hidden,
  the method can break `Valid` by leaving a non-empty draft, and no clause
  says otherwise. The form's inputs are rendered only while the modal is
  open, so in the view this does not occur.

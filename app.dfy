/** The `App` component's state and its six event handlers. Each handler is
    one atomic transition; the confirmation dialog and the clock are inputs. */
module UserListApp {
  import opened Users

  /** Which modal, if any, is on screen. */
  datatype Mode = Idle | Creating | Editing(id: int)

  class App {
    var users: seq<User>
    var showAddForm: bool
    var editingUserId: Option<int>
    var formData: FormData

    /** The initial state: empty list, hidden modal, no edit target, empty draft. */
    constructor ()
      ensures users == [] && !showAddForm && editingUserId == None && formData == EmptyForm
      ensures Valid() && IdsPositive()
    {
      users := [];
      showAddForm := false;
      editingUserId := None;
      formData := EmptyForm;
    }

    /** The modal shown: hidden, "Add New User" or "Edit User". */
    function Modal(): Mode
      reads this
    {
      if !showAddForm then Idle
      else if IsEditing(editingUserId) then Editing(editingUserId.value)
      else Creating
    }

    /** While the modal is hidden, the draft is empty and the form is in create
        mode, so opening it shows a blank "Add New User" form. */
    ghost predicate Valid()
      reads this
    {
      !showAddForm ==> formData == EmptyForm && !IsEditing(editingUserId)
    }

    /** Every id in the list and the edit target are positive, as ids taken
        from the wall clock are. */
    ghost predicate IdsPositive()
      reads this
    {
      (forall i :: 0 <= i < |users| ==> users[i].id > 0) &&
      (editingUserId.Some? ==> editingUserId.value > 0)
    }

    /** handleInputChange: only the named field of the draft changes. */
    method HandleInputChange(field: Field, value: string)
      modifies this
      ensures formData == match field
        case Name => old(formData).(name := value)
        case Email => old(formData).(email := value)
      ensures users == old(users) && showAddForm == old(showAddForm)
      ensures editingUserId == old(editingUserId)
      ensures IdsPositive() == old(IdsPositive())
    {
      match field
      case Name => formData := formData.(name := value);
      case Email => formData := formData.(email := value);
    }

    /** handleAddUser, the form's submit. An incomplete draft changes nothing.
        Otherwise, in edit mode every entry with the edit target's id takes the
        draft's name and email and the target is cleared; in create mode a user
        with id `newId` is appended and the target is left as it was (null, or
        a falsy 0). Both paths empty the draft and hide the modal. */
    method HandleAddUser(newId: int)
      modifies this
      ensures !Complete(old(formData)) ==>
        users == old(users) && showAddForm == old(showAddForm) &&
        editingUserId == old(editingUserId) && formData == old(formData)
      ensures Complete(old(formData)) && IsEditing(old(editingUserId)) ==>
        users == UpdateById(old(users), old(editingUserId).value, old(formData).name, old(formData).email) &&
        editingUserId == None
      ensures Complete(old(formData)) && !IsEditing(old(editingUserId)) ==>
        users == Append(old(users), User(newId, old(formData).name, old(formData).email)) &&
        editingUserId == old(editingUserId)
      ensures Complete(old(formData)) ==>
        formData == EmptyForm && !showAddForm && !IsEditing(editingUserId) && Valid()
      ensures old(Valid()) ==> Valid()
      ensures old(IdsPositive()) && newId > 0 ==> IdsPositive()
      ensures Complete(old(formData)) ==>
        editingUserId == if old(editingUserId) == Some(0) then Some(0) else None
    {
      if Complete(formData) {
        if IsEditing(editingUserId) {
          users := UpdateById(users, editingUserId.value, formData.name, formData.email);
          editingUserId := None;
        } else {
          var newUser := User(newId, formData.name, formData.email);
          users := Append(users, newUser);
        }
        formData := EmptyForm;
        showAddForm := false;
      }
    }

    /** handleEdit: load a user into the draft and open the modal on it. */
    method HandleEdit(user: User)
      modifies this
      ensures formData == FormData(user.name, user.email)
      ensures editingUserId == Some(user.id) && showAddForm
      ensures users == old(users)
      ensures Modal() == if user.id != 0 then Editing(user.id) else Creating
      ensures old(IdsPositive()) && user in users ==> IdsPositive()
    {
      formData := FormData(user.name, user.email);
      editingUserId := Some(user.id);
      showAddForm := true;
    }

    /** handleDelete: when confirmed, every entry with the id goes; otherwise
        nothing changes. The draft, the edit target and the modal are never
        touched, so deleting the user being edited leaves the target dangling. */
    method HandleDelete(userId: int, confirmed: bool)
      modifies this
      ensures users == if confirmed then RemoveById(old(users), userId) else old(users)
      ensures confirmed ==> !HasId(users, userId)
      ensures formData == old(formData) && editingUserId == old(editingUserId)
      ensures showAddForm == old(showAddForm)
      ensures old(Valid()) ==> Valid()
      ensures old(IdsPositive()) ==> IdsPositive()
    {
      if confirmed {
        ghost var before := users;
        users := RemoveById(users, userId);
        forall i | 0 <= i < |users| && old(IdsPositive())
          ensures users[i].id > 0
        {
          assert users[i] in users;
          assert users[i] in before;
        }
      }
    }

    /** handleCancel: whatever the state, close the modal on an empty draft in
        create mode; the list is untouched. */
    method HandleCancel()
      modifies this
      ensures formData == EmptyForm && editingUserId == None && !showAddForm
      ensures users == old(users)
      ensures Modal() == Idle && Valid()
      ensures old(IdsPositive()) ==> IdsPositive()
    {
      formData := EmptyForm;
      editingUserId := None;
      showAddForm := false;
    }

    /** The "Add User" button: only shows the modal; the draft and the edit
        target are kept. From a consistent idle state this is a blank
        create-mode form. */
    method HandleAddButton()
      modifies this
      ensures showAddForm
      ensures users == old(users) && formData == old(formData)
      ensures editingUserId == old(editingUserId)
      ensures old(Valid()) && !old(showAddForm) ==> Modal() == Creating && formData == EmptyForm
      ensures IdsPositive() == old(IdsPositive())
    {
      showAddForm := true;
    }
  }

  /** Start empty, add "Al", edit his email, delete him with confirmation:
      the table ends on the single placeholder row. */
  method AddEditDeleteScenario() returns (rows: seq<Row>)
    ensures rows == [NoData]
  {
    var app := new App();
    app.HandleAddButton();
    app.HandleInputChange(Name, "Al");
    app.HandleInputChange(Email, "a@x.com");
    app.HandleAddUser(1700000000000);
    assert app.users == [User(1700000000000, "Al", "a@x.com")];
    assert Rows(app.users) == [UserRow(1, User(1700000000000, "Al", "a@x.com"))];
    app.HandleEdit(app.users[0]);
    app.HandleInputChange(Email, "al2@x.com");
    app.HandleAddUser(1700000000001);
    assert app.users == [User(1700000000000, "Al", "al2@x.com")];
    app.HandleDelete(1700000000000, true);
    assert app.users == [];
    rows := Rows(app.users);
  }

  /** A user whose id is 0 cannot be edited: the falsy id puts the form in
      create mode, so submitting the edit appends a second user and leaves the
      edit target at 0. */
  method FalsyIdScenario() returns (count: nat, target: Option<int>)
    ensures count == 2 && target == Some(0)
  {
    var app := new App();
    app.HandleAddButton();
    app.HandleInputChange(Name, "Zed");
    app.HandleInputChange(Email, "z@x.com");
    app.HandleAddUser(0);
    app.HandleEdit(app.users[0]);
    app.HandleInputChange(Name, "Zoe");
    app.HandleAddUser(5);
    assert app.users == [User(0, "Zed", "z@x.com"), User(5, "Zoe", "z@x.com")];
    count := |app.users|;
    target := app.editingUserId;
  }
}

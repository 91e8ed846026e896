/** The values held by the user-list view and the pure transforms that its
    handlers apply to the list: append, update-by-id (an Array `map`),
    remove-by-id (an Array `filter`) and the numbered rows of the table. */
module Users {
  import Js

  datatype Option<T> = None | Some(value: T)

  /** One managed record. Ids are plain numbers: they come from the wall
      clock, and nothing in the view keeps them distinct. */
  datatype User = User(id: int, name: string, email: string)

  /** The draft behind the add/edit modal. */
  datatype FormData = FormData(name: string, email: string)

  const EmptyForm := FormData("", "")

  /** The two named inputs of the form. */
  datatype Field = Name | Email

  /** The edit target as the JavaScript value the view holds: null, or a number. */
  function TargetValue(target: Option<int>): Js.Value
  {
    match target
    case None => Js.Null
    case Some(n) => Js.Number(n)
  }

  /** The guard `if (editingUserId)`: the form is in edit mode when the target
      is neither null nor 0. */
  function IsEditing(target: Option<int>): (b: bool)
    ensures b == Js.ToBoolean(TargetValue(target))
  {
    target.Some? && target.value != 0
  }

  /** The guard `if (formData.name && formData.email)`: both fields of the
      draft are non-empty strings. */
  function Complete(form: FormData): (b: bool)
    ensures b == Js.ToBoolean(Js.And(Js.Str(form.name), Js.Str(form.email)))
  {
    form.name != "" && form.email != ""
  }

  function Ids(users: seq<User>): seq<int>
  {
    seq(|users|, i requires 0 <= i < |users| => users[i].id)
  }

  predicate HasId(users: seq<User>, id: int)
  {
    exists i :: 0 <= i < |users| && users[i].id == id
  }

  /** Number of entries carrying the given id. */
  function CountId(users: seq<User>, id: int): nat
  {
    if users == [] then 0
    else (if users[0].id == id then 1 else 0) + CountId(users[1..], id)
  }

  /** `s` occurs in `t` with its order kept (greedy matching). */
  predicate IsSubsequence<T(==)>(s: seq<T>, t: seq<T>)
    decreases |t|
  {
    if s == [] then true
    else if t == [] then false
    else if s[0] == t[0] then IsSubsequence(s[1..], t[1..])
    else IsSubsequence(s, t[1..])
  }

  /** The spread append `[...users, user]`. */
  function Append(users: seq<User>, user: User): (r: seq<User>)
    ensures |r| == |users| + 1
    ensures r[..|users|] == users && r[|users|] == user
  {
    users + [user]
  }

  /** `users.map(u => u.id === id ? {...u, name, email} : u)`: every entry
      whose id matches (not only the first) takes the new name and email. */
  function UpdateById(users: seq<User>, id: int, name: string, email: string): (r: seq<User>)
    ensures |r| == |users|
    ensures Ids(r) == Ids(users)
    ensures forall i :: 0 <= i < |r| && users[i].id == id ==> r[i] == User(id, name, email)
    ensures forall i :: 0 <= i < |r| && users[i].id != id ==> r[i] == users[i]
  {
    if users == [] then []
    else
      var head := if users[0].id == id then users[0].(name := name, email := email) else users[0];
      [head] + UpdateById(users[1..], id, name, email)
  }

  /** `users.filter(u => u.id !== id)`. */
  function RemoveById(users: seq<User>, id: int): (r: seq<User>)
    ensures |r| <= |users|
    ensures forall i :: 0 <= i < |r| ==> r[i].id != id
    ensures forall u {:trigger u in r} :: u in r ==> u in users
    ensures forall u {:trigger u in r} :: u in users && u.id != id ==> u in r
  {
    if users == [] then []
    else (if users[0].id == id then [] else [users[0]]) + RemoveById(users[1..], id)
  }

  /** One body row of the table. */
  datatype Row = NoData | UserRow(seqNo: nat, user: User)

  /** `users.map((user, index) => ...)` with the sequence number starting at `start`. */
  function NumberFrom(users: seq<User>, start: nat): (r: seq<Row>)
    ensures |r| == |users|
    ensures forall i :: 0 <= i < |r| ==> r[i] == UserRow(start + i, users[i])
  {
    if users == [] then []
    else [UserRow(start, users[0])] + NumberFrom(users[1..], start + 1)
  }

  /** The table body: a single placeholder row for an empty list, otherwise
      one row per user whose sequence number is its position plus one. */
  function Rows(users: seq<User>): (r: seq<Row>)
    ensures users == [] <==> r == [NoData]
    ensures users != [] ==> |r| == |users| && forall i :: 0 <= i < |r| ==> r[i] == UserRow(i + 1, users[i])
  {
    if users == [] then [NoData] else NumberFrom(users, 1)
  }

  // ---------------------------------------------------------------------
  // Remove-by-id: what is removed, what stays, in which order.

  /** The entries that stay keep their relative order. */
  lemma {:induction false} RemoveByIdIsSubsequence(users: seq<User>, id: int)
    ensures IsSubsequence(RemoveById(users, id), users)
  {
    if users != [] {
      var rest := RemoveById(users[1..], id);
      RemoveByIdIsSubsequence(users[1..], id);
      if users[0].id == id {
        assert RemoveById(users, id) == rest;
        if rest != [] {
          assert rest[0] in rest;
          assert rest[0] != users[0];
        }
      } else {
        assert RemoveById(users, id) == [users[0]] + rest;
        assert ([users[0]] + rest)[1..] == rest;
      }
    }
  }

  /** Exactly the entries with the id are taken out: every other value keeps
      its multiplicity, and no entry with the id is left. */
  lemma {:induction false} RemoveByIdMultiset(users: seq<User>, id: int)
    ensures forall v :: multiset(RemoveById(users, id))[v] == if v.id == id then 0 else multiset(users)[v]
  {
    if users != [] {
      RemoveByIdMultiset(users[1..], id);
      assert users == [users[0]] + users[1..];
      assert multiset(users) == multiset{users[0]} + multiset(users[1..]);
    }
  }

  /** The list shrinks by the number of entries carrying the id. */
  lemma {:induction false} RemoveByIdLength(users: seq<User>, id: int)
    ensures |RemoveById(users, id)| == |users| - CountId(users, id)
  {
    if users != [] {
      RemoveByIdLength(users[1..], id);
    }
  }

  /** Removing works entry by entry, so it distributes over concatenation. */
  lemma {:induction false} RemoveByIdConcat(a: seq<User>, b: seq<User>, id: int)
    ensures RemoveById(a + b, id) == RemoveById(a, id) + RemoveById(b, id)
  {
    if a != [] {
      assert (a + b)[0] == a[0];
      assert (a + b)[1..] == a[1..] + b;
      RemoveByIdConcat(a[1..], b, id);
    } else {
      assert a + b == b;
    }
  }

  /** An id occurs in a non-empty list when it is the first entry's or it
      occurs in the rest. */
  lemma HasIdTail(users: seq<User>, id: int)
    requires users != []
    ensures HasId(users, id) <==> users[0].id == id || HasId(users[1..], id)
  {
  }


  /** Removing changes nothing exactly when no entry carries the id. */
  lemma {:induction false} RemoveByIdAbsent(users: seq<User>, id: int)
    ensures RemoveById(users, id) == users <==> !HasId(users, id)
  {
    if users != [] {
      HasIdTail(users, id);
      RemoveByIdAbsent(users[1..], id);
      var rest := RemoveById(users[1..], id);
      if users[0].id == id {
        assert RemoveById(users, id) == rest;
        assert |rest| < |users|;
      } else {
        assert RemoveById(users, id) == [users[0]] + rest;
        assert ([users[0]] + rest)[1..] == rest;
        assert users == [users[0]] + users[1..];
      }
    }
  }

  /** A second confirmed delete of the same id changes nothing. */
  lemma RemoveByIdIdempotent(users: seq<User>, id: int)
    ensures RemoveById(RemoveById(users, id), id) == RemoveById(users, id)
  {
    RemoveByIdAbsent(RemoveById(users, id), id);
  }

  /** Deleting a user just appended with an id nobody else has gives back the
      list as it was before the append. */
  lemma AppendThenRemove(users: seq<User>, user: User)
    requires !HasId(users, user.id)
    ensures RemoveById(Append(users, user), user.id) == users
  {
    RemoveByIdConcat(users, [user], user.id);
    RemoveByIdAbsent(users, user.id);
    assert RemoveById([user], user.id) == [];
  }

  // ---------------------------------------------------------------------
  // Update-by-id.

  /** Submitting the same edit twice is the same as submitting it once. */
  lemma {:induction false} UpdateByIdIdempotent(users: seq<User>, id: int, name: string, email: string)
    ensures UpdateById(UpdateById(users, id, name, email), id, name, email) == UpdateById(users, id, name, email)
  {
    if users != [] {
      var once := UpdateById(users, id, name, email);
      assert once[0].id == users[0].id;
      assert once[1..] == UpdateById(users[1..], id, name, email);
      UpdateByIdIdempotent(users[1..], id, name, email);
    }
  }

  /** An edit whose id no entry carries changes nothing. */
  lemma {:induction false} UpdateByIdAbsent(users: seq<User>, id: int, name: string, email: string)
    requires !HasId(users, id)
    ensures UpdateById(users, id, name, email) == users
  {
    if users != [] {
      HasIdTail(users, id);
      UpdateByIdAbsent(users[1..], id, name, email);
      assert users == [users[0]] + users[1..];
    }
  }

  /** Deleting after editing removes the edited entries all the same. */
  lemma {:induction false} RemoveAfterUpdate(users: seq<User>, id: int, name: string, email: string)
    ensures RemoveById(UpdateById(users, id, name, email), id) == RemoveById(users, id)
  {
    if users != [] {
      var u := UpdateById(users, id, name, email);
      assert u[0].id == users[0].id;
      assert u[1..] == UpdateById(users[1..], id, name, email);
      RemoveAfterUpdate(users[1..], id, name, email);
    }
  }

  // ---------------------------------------------------------------------
  // Rows.

  /** Deleting the middle one of three users renumbers the other two 1 and 2. */
  lemma DeleteMiddleRenumbers(a: User, b: User, c: User)
    requires a.id != b.id && c.id != b.id
    ensures Rows(RemoveById([a, b, c], b.id)) == [UserRow(1, a), UserRow(2, c)]
  {
    assert [a, b, c][1..] == [b, c] && [b, c][1..] == [c] && [c][1..] == [];
    calc {
      RemoveById([a, b, c], b.id);
      [a] + RemoveById([b, c], b.id);
      [a] + RemoveById([c], b.id);
      [a] + ([c] + RemoveById([], b.id));
      [a, c];
    }
  }

}

/** The user service (application/UserService.java) over an abstract user
    store: registration with a duplicate-email check, update of name and
    password, and soft delete. Update and delete see only users that are
    not deleted. */
module UserService {
  import opened Outcomes
  import opened Users

  /** The user table, by id. Soft-deleted users stay in it. */
  type UserStore = map<int, User>

  /** Registration body: email, name and password. */
  datatype RegistrationData = RegistrationData(email: Option<string>, name: Option<string>, password: Option<string>)

  /** Modification body: name and password only. */
  datatype ModificationData = ModificationData(name: Option<string>, password: Option<string>)

  /** Every stored user carries the id it is stored under. */
  ghost predicate WellFormed(store: UserStore)
  {
    forall k :: k in store ==> store[k].id == Some(k)
  }

  /** No two stored users, deleted or not, share an email. */
  ghost predicate EmailsUnique(store: UserStore)
  {
    forall j, k :: j in store && k in store && store[j].email == store[k].email ==> j == k
  }

  ghost predicate Invariant(store: UserStore)
  {
    WellFormed(store) && EmailsUnique(store)
  }

  /** The email column of the user table, deleted users included. */
  function Emails(store: UserStore): set<Option<string>>
  {
    set k | k in store :: store[k].email
  }

  /** `existsByEmail`: whether the email column, deleted users included,
      holds this email. */
  function EmailExists(store: UserStore, email: Option<string>): (b: bool)
    ensures b <==> email in Emails(store)
  {
    exists k :: k in store && store[k].email == email
  }

  /** `findByIdAndDeletedIsFalse(id).orElseThrow(...)`: the stored user
      when it exists and is not deleted, UserNotFound(id) otherwise. */
  function FindUser(store: UserStore, id: int): (r: Result<User>)
    ensures r.Ok? <==> id in store && !store[id].deleted
    ensures r.Ok? ==> r.value == store[id]
    ensures r.Err? ==> r.failure == UserNotFound(id)
  {
    if id in store && !store[id].deleted then Ok(store[id]) else Err(UserNotFound(id))
  }

  /** `registerUser`. `newId` is the id the store's save assigns; the store
      never hands out an id it already holds. */
  function RegisterUser(store: UserStore, data: RegistrationData, newId: int): (r: Step<User, UserStore>)
    requires newId !in store
    ensures r.result.Err? <==> EmailExists(store, data.email)
    ensures r.result.Err? ==> r.result.failure == EmailDuplication(data.email) && r.store == store
    ensures r.result.Ok? ==>
      var u := r.result.value;
      && u.id == Some(newId) && !u.deleted
      && u.email == data.email && u.name == data.name && u.password == data.password
      && r.store == store[newId := u]
  {
    if EmailExists(store, data.email) then
      Step(Err(EmailDuplication(data.email)), store)
    else
      var user := NewUser(data.email, data.name, data.password).(id := Some(newId));
      Step(Ok(user), store[newId := user])
  }

  /** `updateUser`: overwrites name and password of an active user; the
      change to the managed entity is what the store keeps. */
  function UpdateUser(store: UserStore, id: int, data: ModificationData): (r: Step<User, UserStore>)
    ensures r.result.Err? <==> id !in store || store[id].deleted
    ensures r.result.Err? ==> r.result.failure == UserNotFound(id) && r.store == store
    ensures r.result.Ok? ==>
      var u := r.result.value;
      && u.id == store[id].id && u.email == store[id].email && !u.deleted
      && u.name == data.name && u.password == data.password
      && r.store == store[id := u]
  {
    match FindUser(store, id)
    case Err(e) => Step(Err(e), store)
    case Ok(user) =>
      var source := NewUser(None, data.name, data.password);
      var changed := ChangeWith(user, source);
      Step(Ok(changed), store[id := changed])
  }

  /** `deleteUser`: soft-deletes an active user, which stays in the store. */
  function DeleteUser(store: UserStore, id: int): (r: Step<User, UserStore>)
    ensures r.result.Err? <==> id !in store || store[id].deleted
    ensures r.result.Err? ==> r.result.failure == UserNotFound(id) && r.store == store
    ensures r.result.Ok? ==>
      var u := r.result.value;
      && u.deleted && u == store[id].(deleted := true)
      && r.store == store[id := u] && r.store.Keys == store.Keys
  {
    match FindUser(store, id)
    case Err(e) => Step(Err(e), store)
    case Ok(user) =>
      var destroyed := Destroy(user);
      Step(Ok(destroyed), store[id := destroyed])
  }

  /** On a well-formed store, update and delete return the user stored
      under the requested id. */
  lemma UpdateDeleteReturnRequestedId(store: UserStore, id: int, data: ModificationData)
    requires WellFormed(store)
    ensures UpdateUser(store, id, data).result.Ok? ==> UpdateUser(store, id, data).result.value.id == Some(id)
    ensures DeleteUser(store, id).result.Ok? ==> DeleteUser(store, id).result.value.id == Some(id)
  {
  }

  lemma RegisterPreservesInvariant(store: UserStore, data: RegistrationData, newId: int)
    requires newId !in store
    requires Invariant(store)
    ensures Invariant(RegisterUser(store, data, newId).store)
  {
  }

  lemma UpdatePreservesInvariant(store: UserStore, id: int, data: ModificationData)
    requires Invariant(store)
    ensures Invariant(UpdateUser(store, id, data).store)
  {
  }

  lemma DeletePreservesInvariant(store: UserStore, id: int)
    requires Invariant(store)
    ensures Invariant(DeleteUser(store, id).store)
  {
  }

  /** Once an email is registered, registering it again fails, whatever
      the new name, password or id. */
  lemma RegisterTwiceFails(store: UserStore, data: RegistrationData, again: RegistrationData, newId: int, newId2: int)
    requires newId !in store
    requires RegisterUser(store, data, newId).result.Ok?
    requires again.email == data.email
    requires newId2 !in RegisterUser(store, data, newId).store
    ensures RegisterUser(RegisterUser(store, data, newId).store, again, newId2).result
         == Err(EmailDuplication(data.email))
  {
    var s := RegisterUser(store, data, newId).store;
    assert s[newId].email == data.email;
  }

  /** Deleting the same id twice: the second call fails with NotFound. */
  lemma DeleteTwiceFails(store: UserStore, id: int)
    requires DeleteUser(store, id).result.Ok?
    ensures DeleteUser(DeleteUser(store, id).store, id).result == Err(UserNotFound(id))
  {
  }

  /** A deleted user cannot be updated either. */
  lemma UpdateAfterDeleteFails(store: UserStore, id: int, data: ModificationData)
    requires DeleteUser(store, id).result.Ok?
    ensures UpdateUser(DeleteUser(store, id).store, id, data).result == Err(UserNotFound(id))
  {
  }

  /** The service's test fixture: user 1 is active with a known email,
      user 200 is soft-deleted, and no user 100 exists. */
  lemma FixtureScenarios()
    ensures
      var existed := Some("existed@gmail.com");
      var store := map[1 := User(Some(1), existed, Some("Tester"), Some("TEST"), false),
                       200 := User(Some(200), None, None, None, true)];
      var edit := ModificationData(Some("TEST"), Some("test"));
      && RegisterUser(store, RegistrationData(existed, Some("Tester"), Some("test")), 13).result
         == Err(EmailDuplication(existed))
      && RegisterUser(store, RegistrationData(Some("test@gmail.com"), Some("Tester"), Some("test")), 13).result
         == Ok(User(Some(13), Some("test@gmail.com"), Some("Tester"), Some("test"), false))
      && UpdateUser(store, 1, edit).result == Ok(User(Some(1), existed, Some("TEST"), Some("test"), false))
      && UpdateUser(store, 100, edit).result == Err(UserNotFound(100))
      && UpdateUser(store, 200, edit).result == Err(UserNotFound(200))
      && DeleteUser(store, 1).result == Ok(User(Some(1), existed, Some("Tester"), Some("TEST"), true))
      && DeleteUser(store, 100).result == Err(UserNotFound(100))
      && DeleteUser(store, 200).result == Err(UserNotFound(200))
  {
    var existed := Some("existed@gmail.com");
    var store := map[1 := User(Some(1), existed, Some("Tester"), Some("TEST"), false),
                     200 := User(Some(200), None, None, None, true)];
    assert store[1].email == existed;
    assert !EmailExists(store, Some("test@gmail.com")) by {
      assert store.Keys == {1, 200};
      assert "test@gmail.com" != "existed@gmail.com";
    }
  }

  /** One request to the service; a registration carries the id the store
      would assign. */
  datatype Command =
    | Register(registration: RegistrationData, newId: int)
    | Update(id: int, modification: ModificationData)
    | Delete(id: int)

  /** The id a registration is given is not already taken. */
  predicate Admissible(store: UserStore, c: Command)
  {
    c.Register? ==> c.newId !in store
  }

  function Execute(store: UserStore, c: Command): Step<User, UserStore>
    requires Admissible(store, c)
  {
    match c
    case Register(data, newId) => RegisterUser(store, data, newId)
    case Update(id, data) => UpdateUser(store, id, data)
    case Delete(id) => DeleteUser(store, id)
  }

  /** Every registration in the sequence gets an id not yet in use. */
  predicate AdmissibleRun(store: UserStore, cmds: seq<Command>)
    decreases |cmds|
  {
    cmds == [] ||
    (Admissible(store, cmds[0]) && AdmissibleRun(Execute(store, cmds[0]).store, cmds[1..]))
  }

  /** The store after a sequence of requests, oldest first. */
  function Run(store: UserStore, cmds: seq<Command>): UserStore
    requires AdmissibleRun(store, cmds)
    decreases |cmds|
  {
    if cmds == [] then store else Run(Execute(store, cmds[0]).store, cmds[1..])
  }

  /** Ids agree with keys and emails stay unique across any run. */
  lemma {:induction false} RunPreservesInvariant(store: UserStore, cmds: seq<Command>)
    requires AdmissibleRun(store, cmds)
    requires Invariant(store)
    ensures Invariant(Run(store, cmds))
    decreases |cmds|
  {
    if cmds != [] {
      match cmds[0] {
        case Register(data, newId) => RegisterPreservesInvariant(store, data, newId);
        case Update(id, data) => UpdatePreservesInvariant(store, id, data);
        case Delete(id) => DeletePreservesInvariant(store, id);
      }
      RunPreservesInvariant(Execute(store, cmds[0]).store, cmds[1..]);
    }
  }

  /** Soft delete is final: no user ever leaves the store, and a deleted
      user's record is never changed again. */
  lemma {:induction false} RunKeepsDeletedUsers(store: UserStore, cmds: seq<Command>)
    requires AdmissibleRun(store, cmds)
    ensures store.Keys <= Run(store, cmds).Keys
    ensures forall k :: k in store && store[k].deleted ==> Run(store, cmds)[k] == store[k]
    decreases |cmds|
  {
    if cmds != [] {
      var next := Execute(store, cmds[0]).store;
      RunKeepsDeletedUsers(next, cmds[1..]);
      assert forall k :: k in store && store[k].deleted ==> k in next && next[k] == store[k];
    }
  }
}

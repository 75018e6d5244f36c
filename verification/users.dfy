/** The User entity (domain/User.java): a record with a soft-delete flag.
    As a state machine it has two states, Active (`deleted == false`) and
    Deleted (`deleted == true`); `Destroy` is the only transition and
    Deleted is terminal. */
module Users {
  import opened Outcomes

  /** `id` is None until the store assigns one; the strings are nullable. */
  datatype User = User(
    id: Option<int>,
    email: Option<string>,
    name: Option<string>,
    password: Option<string>,
    deleted: bool)

  /** A user built from its email, name and password (the builder, or the
      field mapping from registration data): no id yet, and not deleted. */
  function NewUser(email: Option<string>, name: Option<string>, password: Option<string>): (u: User)
    ensures u.id == None && !u.deleted
    ensures u.email == email && u.name == name && u.password == password
  {
    User(None, email, name, password, false)
  }

  /** Overwrites name and password with the source's, nulls included; the
      source's id, email and deleted flag are ignored. */
  function ChangeWith(user: User, source: User): (r: User)
    ensures r.name == source.name && r.password == source.password
    ensures r.id == user.id && r.email == user.email && r.deleted == user.deleted
  {
    user.(name := source.name, password := source.password)
  }

  /** Soft delete: sets the flag and nothing else. */
  function Destroy(user: User): (r: User)
    ensures r.deleted
    ensures r.id == user.id && r.email == user.email
    ensures r.name == user.name && r.password == user.password
  {
    user.(deleted := true)
  }

  /** Only the source's name and password matter to `ChangeWith`. */
  lemma ChangeWithReadsOnlyNameAndPassword(user: User, a: User, b: User)
    requires a.name == b.name && a.password == b.password
    ensures ChangeWith(user, a) == ChangeWith(user, b)
  {
  }

  /** Two changes in a row leave what the second one alone would. */
  lemma ChangeWithLastWins(user: User, a: User, b: User)
    ensures ChangeWith(ChangeWith(user, a), b) == ChangeWith(user, b)
  {
  }

  lemma DestroyIdempotent(user: User)
    ensures Destroy(Destroy(user)) == Destroy(user)
  {
  }

  /** The two mutations touch disjoint fields, so their order does not matter. */
  lemma ChangeWithDestroyCommute(user: User, source: User)
    ensures ChangeWith(Destroy(user), source) == Destroy(ChangeWith(user, source))
  {
  }

  /** The entity's mutating methods, as events applied to one user. */
  datatype Event = Changed(source: User) | Destroyed

  function Handle(user: User, e: Event): User
  {
    match e
    case Changed(source) => ChangeWith(user, source)
    case Destroyed => Destroy(user)
  }

  /** The user after a history of method calls, oldest first. */
  function Replay(user: User, events: seq<Event>): User
    decreases |events|
  {
    if events == [] then user else Replay(Handle(user, events[0]), events[1..])
  }

  /** After any history, a user is deleted exactly when it started deleted
      or the history contains a `destroy()`: deletion is monotone and no
      method brings a user back. */
  lemma {:induction false} ReplayDeleted(user: User, events: seq<Event>)
    ensures Replay(user, events).deleted <==> user.deleted || Destroyed in events
    decreases |events|
  {
    if events != [] {
      ReplayDeleted(Handle(user, events[0]), events[1..]);
      assert events == [events[0]] + events[1..];
    }
  }

  /** No method changes a user's id or email. */
  lemma {:induction false} ReplayKeepsIdentity(user: User, events: seq<Event>)
    ensures Replay(user, events).id == user.id
    ensures Replay(user, events).email == user.email
    decreases |events|
  {
    if events != [] {
      ReplayKeepsIdentity(Handle(user, events[0]), events[1..]);
    }
  }
}

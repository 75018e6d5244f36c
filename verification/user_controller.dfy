/** The pure part of the user controller (controllers/UserController.java):
    the projection of a user onto the response body, and the create and
    update handlers that apply it to the service's result. */
module UserController {
  import opened Outcomes
  import opened Users
  import opened UserService

  /** The response body (dto/response/UserResultData.java): id, email and
      name; there is no field for the password or the deleted flag. */
  datatype UserResultData = UserResultData(id: Option<int>, email: Option<string>, name: Option<string>)

  /** `getUserResultData`: null for a null user, otherwise the user's id,
      email and name. */
  function GetUserResultData(user: Option<User>): (r: Option<UserResultData>)
    ensures r.None? <==> user.None?
    ensures user.Some? ==>
      && r.value.id == user.value.id
      && r.value.email == user.value.email
      && r.value.name == user.value.name
  {
    match user
    case None => None
    case Some(u) => Some(UserResultData(u.id, u.email, u.name))
  }

  /** The response never depends on the password or the deleted flag: two
      users that agree on id, email and name project identically. */
  lemma ProjectionHidesSecrets(a: User, b: User)
    requires a.id == b.id && a.email == b.email && a.name == b.name
    ensures GetUserResultData(Some(a)) == GetUserResultData(Some(b))
  {
  }

  /** The response of a user the service returned. */
  function Respond(result: Result<User>): Result<Option<UserResultData>>
  {
    match result
    case Ok(user) => Ok(GetUserResultData(Some(user)))
    case Err(e) => Err(e)
  }

  /** `create` (POST /users): registers, then projects the new user. A
      duplicate email propagates as EmailDuplication. */
  function Create(store: UserStore, data: RegistrationData, newId: int): (r: Step<Option<UserResultData>, UserStore>)
    requires newId !in store
    ensures r.result.Err? <==> EmailExists(store, data.email)
    ensures r.result.Err? ==> r.result.failure == EmailDuplication(data.email) && r.store == store
    ensures r.result.Ok? ==> r.result.value == Some(UserResultData(Some(newId), data.email, data.name))
  {
    var step := RegisterUser(store, data, newId);
    Step(Respond(step.result), step.store)
  }

  /** `update` (PATCH /users/{id}): updates, then projects the user. The
      email in the response is the stored one; the name is the new one. */
  function Update(store: UserStore, id: int, data: ModificationData): (r: Step<Option<UserResultData>, UserStore>)
    ensures r.result.Err? <==> id !in store || store[id].deleted
    ensures r.result.Err? ==> r.result.failure == UserNotFound(id) && r.store == store
    ensures r.result.Ok? ==>
      r.result.value == Some(UserResultData(store[id].id, store[id].email, data.name))
  {
    var step := UpdateUser(store, id, data);
    Step(Respond(step.result), step.store)
  }

  /** The store each handler leaves is the service's: projecting the
      result changes nothing persisted. */
  lemma HandlersKeepServiceStore(store: UserStore, id: int, reg: RegistrationData,
                                 mod: ModificationData, newId: int)
    requires newId !in store
    ensures Create(store, reg, newId).store == RegisterUser(store, reg, newId).store
    ensures Update(store, id, mod).store == UpdateUser(store, id, mod).store
  {
  }
}

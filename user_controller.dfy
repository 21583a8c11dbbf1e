/** `UserController` of the controller draft
    (src/controllers/UserController.ts): users keyed by username. */
module UserController {
  import opened Common
  import opened DataType
  import opened Storage

  /** `registerUser`: refuses an empty username or one already used as a key
      (compared exactly), otherwise stores a user with no points whose id is
      the caller. */
  method RegisterUser(st: Stores, payload: UserPayload, caller: Principal) returns (r: Result<(), Errors>)
    modifies st`usersStorage
    ensures payload.username == [] ==> r == Err(InvalidPayload)
    ensures (payload.username != [] && payload.username in old(st.usersStorage)) ==> r == Err(UserAlreadyExists)
    ensures r.Ok? <==> (payload.username != [] && payload.username !in old(st.usersStorage))
    ensures r.Err? ==> st.usersStorage == old(st.usersStorage)
    ensures r.Ok? ==> st.usersStorage == old(st.usersStorage)[payload.username :=
                        User(caller, payload.username, payload.role, 0, payload.contactInfo)]
    ensures r.Ok? ==> forall k :: k in old(st.usersStorage) ==>
                        k in st.usersStorage && st.usersStorage[k] == old(st.usersStorage)[k]
  {
    if payload.username == [] {
      return Err(InvalidPayload);
    }
    if payload.username in st.usersStorage {
      return Err(UserAlreadyExists);
    }
    var createUser := User(caller, payload.username, payload.role, 0, payload.contactInfo);
    st.usersStorage := st.usersStorage[payload.username := createUser];
    r := Ok(());
  }
}

/**
 * Customer accounts (backend/helpers.php findUserByEmail(), currentCustomer(),
 * customerRegister(), customerLogin()). Password hashing is outside the
 * model: registration is handed the hash of the submitted password, and login
 * is handed the password_verify() check as a predicate.
 */
module Accounts {
  import opened Wrappers
  import opened Text
  import opened Responses

  datatype User = User(id: int, email: string, name: string, passwordHash: string)

  /** The user fields a response shows: id, email and name, never the hash. */
  datatype PublicUser = PublicUser(id: int, email: string, name: string)

  function Public(u: User): PublicUser {
    PublicUser(u.id, u.email, u.name)
  }

  /** findUserByEmail($email): the first user whose email matches case-insensitively. */
  function FindUserByEmail(users: seq<User>, email: string): (r: Option<User>)
    ensures r.Some? ==> r.value in users && EqualsIgnoreCase(r.value.email, email)
    ensures r.None? <==> forall k :: 0 <= k < |users| ==> !EqualsIgnoreCase(users[k].email, email)
    ensures r.Some? ==> exists k ::
                          && 0 <= k < |users| && users[k] == r.value
                          && forall j :: 0 <= j < k ==> !EqualsIgnoreCase(users[j].email, email)
  {
    if |users| == 0 then None
    else if EqualsIgnoreCase(users[0].email, email) then Some(users[0])
    else
      assert forall k :: 0 < k < |users| ==> users[k] == users[1..][k - 1];
      FindUserByEmail(users[1..], email)
  }

  /** A match found after every earlier user failed to match is the one returned. */
  lemma {:induction false} FindAppended(users: seq<User>, u: User, email: string)
    requires forall k :: 0 <= k < |users| ==> !EqualsIgnoreCase(users[k].email, email)
    requires EqualsIgnoreCase(u.email, email)
    ensures FindUserByEmail(users + [u], email) == Some(u)
  {
    if |users| == 0 {
      assert [u][0] == u;
    } else {
      assert (users + [u])[1..] == users[1..] + [u];
      FindAppended(users[1..], u, email);
    }
  }

  /** currentCustomer(): the first user whose id is the session's customer id, if one is set. */
  function CurrentCustomer(users: seq<User>, customerId: Option<int>): (r: Option<User>)
    ensures customerId.None? ==> r.None?
    ensures r.Some? ==> r.value in users && r.value.id == customerId.value
    ensures customerId.Some? && r.None? ==> forall k :: 0 <= k < |users| ==> users[k].id != customerId.value
    ensures r.Some? ==> exists k ::
                          && 0 <= k < |users| && users[k] == r.value
                          && forall j :: 0 <= j < k ==> users[j].id != customerId.value
  {
    if customerId.None? || |users| == 0 then None
    else if users[0].id == customerId.value then Some(users[0])
    else
      assert forall k :: 0 < k < |users| ==> users[k] == users[1..][k - 1];
      CurrentCustomer(users[1..], customerId)
  }

  function MaxId(users: seq<User>): (m: int)
    requires |users| > 0
    ensures forall k :: 0 <= k < |users| ==> users[k].id <= m
    ensures exists k :: 0 <= k < |users| && users[k].id == m
  {
    if |users| == 1 then users[0].id
    else
      var rest := MaxId(users[1..]);
      assert forall k :: 0 < k < |users| ==> users[k] == users[1..][k - 1];
      if users[0].id >= rest then users[0].id else rest
  }

  /** The id registration assigns: one past the largest id in use, or 1 for the first user. */
  function NextUserId(users: seq<User>): (id: int)
    ensures forall k :: 0 <= k < |users| ==> users[k].id < id
    ensures |users| == 0 ==> id == 1
    ensures |users| > 0 ==> exists k :: 0 <= k < |users| && users[k].id == id - 1
  {
    if |users| > 0 then MaxId(users) + 1 else 1
  }

  /** The fields of a registration request, each possibly absent. */
  datatype RegisterPayload = RegisterPayload(email: Option<string>, name: Option<string>, password: Option<string>)

  function SubmittedEmail(email: Option<string>): string {
    Trim(email.GetOr(""))
  }

  /**
   * customerRegister($payload) on the stored users: the trimmed email and the
   * password must be non-empty, the email must not be taken by any user
   * (ignoring case), and the new user gets the next id and the trimmed name,
   * or 'Customer' when that is empty. `hash` is password_hash() of the
   * submitted password.
   */
  function Register(users: seq<User>, payload: RegisterPayload, hash: string): (r: Result<User>)
    ensures r.Err? ==> r.failure == FieldsRequired || r.failure == UserExists
    ensures r == Err(FieldsRequired) <==> SubmittedEmail(payload.email) == "" || payload.password.GetOr("") == ""
    ensures r == Err(UserExists) <==>
      && SubmittedEmail(payload.email) != "" && payload.password.GetOr("") != ""
      && exists k :: 0 <= k < |users| && EqualsIgnoreCase(users[k].email, SubmittedEmail(payload.email))
    ensures r.Ok? ==>
      && r.value.id == NextUserId(users)
      && r.value.email == SubmittedEmail(payload.email)
      && r.value.name == (if Trim(payload.name.GetOr("")) != "" then Trim(payload.name.GetOr("")) else "Customer")
      && r.value.passwordHash == hash
  {
    var email := SubmittedEmail(payload.email);
    var name := Trim(payload.name.GetOr(""));
    var password := payload.password.GetOr("");
    if email == "" || password == "" then Err(FieldsRequired)
    else if FindUserByEmail(users, email).Some? then Err(UserExists)
    else Ok(User(NextUserId(users), email, if name != "" then name else "Customer", hash))
  }

  /** No two users share an email, ignoring case. */
  predicate EmailsUnique(users: seq<User>) {
    forall i, j :: 0 <= i < j < |users| ==> !EqualsIgnoreCase(users[i].email, users[j].email)
  }

  predicate IdsUnique(users: seq<User>) {
    forall i, j :: 0 <= i < j < |users| ==> users[i].id != users[j].id
  }

  /** Registration keeps emails and ids unique across the stored users. */
  lemma RegisterKeepsUnique(users: seq<User>, payload: RegisterPayload, hash: string)
    requires EmailsUnique(users) && IdsUnique(users)
    requires Register(users, payload, hash).Ok?
    ensures EmailsUnique(users + [Register(users, payload, hash).value])
    ensures IdsUnique(users + [Register(users, payload, hash).value])
  {
    var u := Register(users, payload, hash).value;
    var all := users + [u];
    forall i, j | 0 <= i < j < |all| ensures !EqualsIgnoreCase(all[i].email, all[j].email) {
      if j == |users| {
        assert all[i] == users[i];
      }
    }
  }

  /** Registering the same email twice, in any letter case, is refused the second time. */
  lemma RegisterTwiceConflicts(users: seq<User>, payload: RegisterPayload, again: RegisterPayload, hash: string, hash2: string)
    requires Register(users, payload, hash).Ok?
    requires EqualsIgnoreCase(SubmittedEmail(again.email), SubmittedEmail(payload.email))
    requires again.password.GetOr("") != ""
    ensures Register(users + [Register(users, payload, hash).value], again, hash2) == Err(UserExists)
  {
    var u := Register(users, payload, hash).value;
    var all := users + [u];
    EqualsIgnoreCaseSymmetric(SubmittedEmail(again.email), u.email);
    assert all[|users|] == u;
    assert SubmittedEmail(again.email) != "";
  }

  /** The fields of a login request. */
  datatype LoginPayload = LoginPayload(email: Option<string>, password: Option<string>)

  /**
   * customerLogin($payload): the user found by the trimmed email, when the
   * password verifies against its hash. An unknown email and a wrong password
   * get the same error.
   */
  function Login(users: seq<User>, payload: LoginPayload, verify: (string, string) -> bool): (r: Result<User>)
    ensures r.Err? ==> r.failure == InvalidCredentials
    ensures r.Ok? <==>
      var found := FindUserByEmail(users, SubmittedEmail(payload.email));
      found.Some? && verify(payload.password.GetOr(""), found.value.passwordHash)
    ensures r.Ok? ==> r.value in users && EqualsIgnoreCase(r.value.email, SubmittedEmail(payload.email))
  {
    var user := FindUserByEmail(users, SubmittedEmail(payload.email));
    if user.None? || !verify(payload.password.GetOr(""), user.value.passwordHash) then Err(InvalidCredentials)
    else Ok(user.value)
  }

  /** An unknown email fails exactly like a wrong password. */
  lemma LoginErrorsAlike(users: seq<User>, unknown: LoginPayload, wrong: LoginPayload, verify: (string, string) -> bool)
    requires forall k :: 0 <= k < |users| ==> !EqualsIgnoreCase(users[k].email, SubmittedEmail(unknown.email))
    requires var found := FindUserByEmail(users, SubmittedEmail(wrong.email));
      found.Some? && !verify(wrong.password.GetOr(""), found.value.passwordHash)
    ensures Login(users, unknown, verify) == Login(users, wrong, verify) == Err(InvalidCredentials)
  {
  }

  /** Logging in with the email and password just registered finds the new user. */
  lemma LoginAfterRegister(users: seq<User>, payload: RegisterPayload, hash: string, verify: (string, string) -> bool)
    requires Register(users, payload, hash).Ok?
    requires verify(payload.password.GetOr(""), hash)
    ensures Login(users + [Register(users, payload, hash).value], LoginPayload(payload.email, payload.password), verify)
      == Ok(Register(users, payload, hash).value)
  {
    var u := Register(users, payload, hash).value;
    EqualsIgnoreCaseReflexive(u.email);
    assert SubmittedEmail(payload.email) == u.email;
    FindAppended(users, u, u.email);
  }
}

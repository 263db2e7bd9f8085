/**
 * The backend's accounts: the `users` table, email/password login and registration
 * (the corrected service under `fixes/`, which hashes passwords through an encoder, and
 * the original service, which compares them as plain text), and the Google sign-in
 * callback that finds or creates the user for a Google account. The password encoder is
 * a pair of parameters; its hashing is outside the model.
 */
module Auth {
  import opened Wrappers

  // ---------------------------------------------------------------- the users table

  /** A row of `users`; every column but the id may be null. */
  datatype UserRow = UserRow(id: int, email: Option<string>, password: Option<string>,
                             displayName: Option<string>, avatarUrl: Option<string>,
                             googleId: Option<string>, authProvider: Option<string>)

  /** A user built but not yet saved. */
  datatype NewUser = NewUser(email: Option<string>, password: Option<string>, displayName: Option<string>,
                             avatarUrl: Option<string>, googleId: Option<string>, authProvider: Option<string>)

  /** Why saving a user fails: the email column is `nullable = false`, and the email and
      Google id columns are `unique`. */
  datatype SaveError = NullEmail | DuplicateEmail | DuplicateGoogleId

  function SaveErrorText(e: SaveError): string {
    match e
    case NullEmail => "not-null property references a null value: email"
    case DuplicateEmail => "duplicate key value violates unique constraint: email"
    case DuplicateGoogleId => "duplicate key value violates unique constraint: google_id"
  }

  /** `findByEmail`: the row with that email (the column is unique). */
  function FindByEmail(rows: seq<UserRow>, email: Option<string>): (r: Option<UserRow>)
    ensures r.None? <==> forall i :: 0 <= i < |rows| ==> email.None? || rows[i].email != email
    ensures r.Some? ==> r.value in rows && email.Some? && r.value.email == email
  {
    if email.None? || rows == [] then None
    else if rows[0].email == email then Some(rows[0])
    else FindByEmail(rows[1..], email)
  }

  /** `existsByEmail`. */
  predicate ExistsByEmail(rows: seq<UserRow>, email: Option<string>) {
    FindByEmail(rows, email).Some?
  }

  /** `findByGoogleId`. */
  function FindByGoogleId(rows: seq<UserRow>, googleId: string): (r: Option<UserRow>)
    ensures r.None? <==> forall i :: 0 <= i < |rows| ==> rows[i].googleId != Some(googleId)
    ensures r.Some? ==> r.value in rows && r.value.googleId == Some(googleId)
  {
    if rows == [] then None
    else if rows[0].googleId == Some(googleId) then Some(rows[0])
    else FindByGoogleId(rows[1..], googleId)
  }

  function Row(id: int, u: NewUser): (row: UserRow)
    ensures row.id == id && row.email == u.email && row.googleId == u.googleId
  {
    UserRow(id, u.email, u.password, u.displayName, u.avatarUrl, u.googleId, u.authProvider)
  }

  /** The `users` table and its identity counter. */
  class UserRepository {
    var rows: seq<UserRow>
    var nextId: int

    /** Ids are distinct and below the counter, every row has an email, and no email or
        Google id appears twice. */
    predicate Valid()
      reads this
    {
      1 <= nextId &&
      (forall i :: 0 <= i < |rows| ==> 1 <= rows[i].id < nextId && rows[i].email.Some?) &&
      (forall i, j :: 0 <= i < j < |rows| ==> rows[i].id != rows[j].id && rows[i].email != rows[j].email) &&
      (forall i, j :: 0 <= i < j < |rows| && rows[i].googleId.Some? ==> rows[i].googleId != rows[j].googleId)
    }

    constructor ()
      ensures Valid() && rows == [] && nextId == 1
    {
      rows := [];
      nextId := 1;
    }

    /** `save` of a new user: refused when a constraint would break, else stored under a
        fresh id. */
    method Save(u: NewUser) returns (r: Result<UserRow, SaveError>)
      requires Valid()
      modifies this
      ensures Valid()
      ensures u.email.None? ==> r == Failure(NullEmail)
      ensures u.email.Some? && ExistsByEmail(old(rows), u.email) ==> r == Failure(DuplicateEmail)
      ensures (u.email.Some? && !ExistsByEmail(old(rows), u.email) && u.googleId.Some? &&
               FindByGoogleId(old(rows), u.googleId.value).Some?) ==> r == Failure(DuplicateGoogleId)
      ensures r.Success? <==> u.email.Some? && !ExistsByEmail(old(rows), u.email) &&
                              (u.googleId.None? || FindByGoogleId(old(rows), u.googleId.value).None?)
      ensures r.Failure? ==> rows == old(rows) && nextId == old(nextId)
      ensures r.Success? ==> r.value == Row(old(nextId), u) && rows == old(rows) + [r.value] && nextId == old(nextId) + 1
    {
      if u.email.None? {
        return Failure(NullEmail);
      }
      if ExistsByEmail(rows, u.email) {
        return Failure(DuplicateEmail);
      }
      if u.googleId.Some? && FindByGoogleId(rows, u.googleId.value).Some? {
        return Failure(DuplicateGoogleId);
      }
      var row := Row(nextId, u);
      rows := rows + [row];
      nextId := nextId + 1;
      r := Success(row);
    }
  }

  // ---------------------------------------------------------------- responses

  datatype AuthResponse = AuthResponse(id: Option<int>, email: Option<string>, displayName: Option<string>,
                                       avatarUrl: Option<string>, message: Option<string>)

  /** `mapToResponse`: the user's public fields and a message. */
  function MapToResponse(u: UserRow, message: string): (r: AuthResponse)
    ensures r.id == Some(u.id) && r.email == u.email && r.displayName == u.displayName
    ensures r.avatarUrl == u.avatarUrl && r.message == Some(message)
  {
    AuthResponse(Some(u.id), u.email, u.displayName, u.avatarUrl, Some(message))
  }

  /** A reply that carries nothing but a message. */
  function MessageOnly(message: string): (r: AuthResponse)
    ensures r.id.None? && r.email.None? && r.message == Some(message)
  {
    AuthResponse(None, None, None, None, Some(message))
  }

  // ---------------------------------------------------------------- the corrected service

  datatype LoginRequest = LoginRequest(email: Option<string>, password: Option<string>)
  datatype RegisterRequest = RegisterRequest(email: Option<string>, password: Option<string>,
                                             displayName: Option<string>)

  const NullPasswordText := "rawPassword cannot be null"

  /** The encoder's `matches(raw, encoded)`: a null raw password is an error, a missing
      stored hash never matches. */
  function CheckPassword(matches: (string, string) -> bool, raw: Option<string>, stored: Option<string>): (r: Result<bool, string>)
    ensures raw.None? <==> r.Failure?
    ensures r == Success(true) ==> stored.Some? && matches(raw.value, stored.value)
  {
    if raw.None? then Failure(NullPasswordText)
    else if stored.None? || stored.value == "" then Success(false)
    else Success(matches(raw.value, stored.value))
  }

  /** `login`. */
  function Login(rows: seq<UserRow>, matches: (string, string) -> bool, req: LoginRequest): (r: AuthResponse)
    ensures FindByEmail(rows, req.email).None? ==> r == MessageOnly("Invalid email or password")
    ensures r.id.Some? <==>
      FindByEmail(rows, req.email).Some? && CheckPassword(matches, req.password, FindByEmail(rows, req.email).value.password) == Success(true)
    ensures r.id.Some? ==> r == MapToResponse(FindByEmail(rows, req.email).value, "Login successful!")
    ensures var user := FindByEmail(rows, req.email);
      user.Some? && CheckPassword(matches, req.password, user.value.password) == Success(false) ==>
        r == MessageOnly("Invalid email or password")
    ensures var user := FindByEmail(rows, req.email);
      user.Some? && CheckPassword(matches, req.password, user.value.password).Failure? ==>
        r == MessageOnly("An error occurred during login: " + CheckPassword(matches, req.password, user.value.password).error)
  {
    var user := FindByEmail(rows, req.email);
    if user.None? then MessageOnly("Invalid email or password")
    else
      match CheckPassword(matches, req.password, user.value.password)
      case Failure(text) => MessageOnly("An error occurred during login: " + text)
      case Success(ok) =>
        if ok then MapToResponse(user.value, "Login successful!") else MessageOnly("Invalid email or password")
  }

  /** `register`: a new local account with the encoded password, unless the email is
      taken; any failure becomes a message. */
  method Register(repo: UserRepository, encode: string -> string, req: RegisterRequest) returns (r: AuthResponse)
    requires repo.Valid()
    modifies repo
    ensures repo.Valid()
    ensures ExistsByEmail(old(repo.rows), req.email) ==> r == MessageOnly("Email already exists") && repo.rows == old(repo.rows)
    ensures r.id.None? ==> repo.rows == old(repo.rows)
    ensures r.id.Some? <==> !ExistsByEmail(old(repo.rows), req.email) && req.email.Some? && req.password.Some?
    ensures r.id.Some? ==>
      var saved := UserRow(old(repo.nextId), req.email, Some(encode(req.password.value)), req.displayName, None, None, Some("local"));
      repo.rows == old(repo.rows) + [saved] && r == MapToResponse(saved, "Registration successful!")
  {
    if ExistsByEmail(repo.rows, req.email) {
      return MessageOnly("Email already exists");
    }
    if req.password.None? {
      return MessageOnly("An error occurred during registration: " + NullPasswordText);
    }
    var user := NewUser(req.email, Some(encode(req.password.value)), req.displayName, None, None, Some("local"));
    var saved := repo.Save(user);
    match saved
    case Failure(e) =>
      r := MessageOnly("An error occurred during registration: " + SaveErrorText(e));
    case Success(row) =>
      r := MapToResponse(row, "Registration successful!");
  }

  /** `googleLogin`: a stub that signs nobody in, whatever the credential. */
  function GoogleLogin(credential: string): (r: AuthResponse)
    ensures r.id.None? && r.email.None?
    ensures r.message == Some("Google login not yet fully implemented")
  {
    MessageOnly("Google login not yet fully implemented")
  }

  /** With an encoder whose `matches` accepts exactly what `encode` produced from the same
      password, a freshly registered account logs in with its password. */
  lemma RegisteredCanLogIn(rows: seq<UserRow>, saved: UserRow, encode: string -> string,
                           matches: (string, string) -> bool, email: string, password: string)
    requires forall p :: matches(p, encode(p))
    requires encode(password) != ""
    requires FindByEmail(rows, Some(email)).None?
    requires saved.email == Some(email) && saved.password == Some(encode(password))
    ensures Login(rows + [saved], matches, LoginRequest(Some(email), Some(password))) == MapToResponse(saved, "Login successful!")
  {
    FoundAfterAppend(rows, saved, Some(email));
  }

  lemma {:induction false} FoundAfterAppend(rows: seq<UserRow>, row: UserRow, email: Option<string>)
    requires email.Some? && row.email == email && FindByEmail(rows, email).None?
    ensures FindByEmail(rows + [row], email) == Some(row)
  {
    if rows != [] {
      assert (rows + [row])[1..] == rows[1..] + [row];
      FoundAfterAppend(rows[1..], row, email);
    }
  }

  // ---------------------------------------------------------------- the original service

  /** What a call that throws instead of answering threw. */
  datatype Thrown = NullPointer

  /** The original `login`: the stored password compared as plain text; a user without a
      stored password makes the comparison throw. */
  function PlainLogin(rows: seq<UserRow>, req: LoginRequest): (r: Result<AuthResponse, Thrown>)
    ensures FindByEmail(rows, req.email).None? ==> r == Success(MessageOnly("Sai email hoặc mật khẩu!"))
    ensures r.Failure? <==> FindByEmail(rows, req.email).Some? && FindByEmail(rows, req.email).value.password.None?
    ensures r.Success? && r.value.id.Some? <==>
      FindByEmail(rows, req.email).Some? && FindByEmail(rows, req.email).value.password.Some? &&
      req.password == FindByEmail(rows, req.email).value.password
    ensures r.Success? && r.value.id.Some? ==> r.value == MapToResponse(FindByEmail(rows, req.email).value, "Đăng nhập thành công!")
  {
    var user := FindByEmail(rows, req.email);
    if user.None? then Success(MessageOnly("Sai email hoặc mật khẩu!"))
    else if user.value.password.None? then Failure(NullPointer)
    else if Some(user.value.password.value) != req.password then Success(MessageOnly("Sai email hoặc mật khẩu!"))
    else Success(MapToResponse(user.value, "Đăng nhập thành công!"))
  }

  // ---------------------------------------------------------------- Google sign-in

  /** The Google account's attributes: email, subject id, name and picture. */
  datatype Principal = Principal(email: Option<string>, sub: string, name: Option<string>, picture: Option<string>)

  /** The map `loginSuccess` returns. */
  datatype SuccessResponse =
    | NotAuthenticated
    | Authenticated(id: int, email: Option<string>, name: Option<string>, picture: Option<string>)
  {
    function Success(): bool { this.Authenticated? }
    function Message(): string {
      if this.Authenticated? then "Google OAuth Login Successful!" else "Not authenticated"
    }
  }

  function ResponseOf(u: UserRow): (r: SuccessResponse)
    ensures r == Authenticated(u.id, u.email, u.displayName, u.avatarUrl)
  {
    Authenticated(u.id, u.email, u.displayName, u.avatarUrl)
  }

  /** `loginSuccess`: the user with the account's Google id, created from the account's
      attributes when there is none; saving can fail, and then the call throws. */
  method LoginSuccess(repo: UserRepository, principal: Option<Principal>) returns (r: Result<SuccessResponse, SaveError>)
    requires repo.Valid()
    modifies repo
    ensures repo.Valid()
    ensures principal.None? ==> r == Success(NotAuthenticated) && repo.rows == old(repo.rows)
    ensures principal.Some? && FindByGoogleId(old(repo.rows), principal.value.sub).Some? ==>
      repo.rows == old(repo.rows) && r == Success(ResponseOf(FindByGoogleId(old(repo.rows), principal.value.sub).value))
    ensures principal.Some? && FindByGoogleId(old(repo.rows), principal.value.sub).None? && r.Success? ==>
      var p := principal.value;
      var created := UserRow(old(repo.nextId), p.email, None, p.name, p.picture, Some(p.sub), Some("google"));
      repo.rows == old(repo.rows) + [created] && r == Success(ResponseOf(created))
    ensures (principal.Some? && FindByGoogleId(old(repo.rows), principal.value.sub).None? &&
             principal.value.email.None?) ==> r == Failure(NullEmail)
    ensures (principal.Some? && FindByGoogleId(old(repo.rows), principal.value.sub).None? &&
             ExistsByEmail(old(repo.rows), principal.value.email)) ==> r == Failure(DuplicateEmail)
    ensures principal.Some? && FindByGoogleId(old(repo.rows), principal.value.sub).None? ==>
      (r.Success? <==> principal.value.email.Some? && !ExistsByEmail(old(repo.rows), principal.value.email))
    ensures r.Failure? ==> repo.rows == old(repo.rows)
    ensures principal.Some? && r.Success? ==> FindByGoogleId(repo.rows, principal.value.sub).Some?
  {
    if principal.None? {
      return Success(NotAuthenticated);
    }
    var p := principal.value;
    var found := FindByGoogleId(repo.rows, p.sub);
    var user: UserRow;
    if found.Some? {
      user := found.value;
    } else {
      var saved := repo.Save(NewUser(p.email, None, p.name, p.picture, Some(p.sub), Some("google")));
      if saved.Failure? {
        return Failure(saved.error);
      }
      user := saved.value;
      GoogleIdFoundAfterAppend(old(repo.rows), user, p.sub);
    }
    r := Success(ResponseOf(user));
  }

  lemma {:induction false} GoogleIdFoundAfterAppend(rows: seq<UserRow>, row: UserRow, sub: string)
    requires row.googleId == Some(sub) && FindByGoogleId(rows, sub).None?
    ensures FindByGoogleId(rows + [row], sub) == Some(row)
  {
    if rows != [] {
      assert (rows + [row])[1..] == rows[1..] + [row];
      GoogleIdFoundAfterAppend(rows[1..], row, sub);
    }
  }
}

/** The server's authentication rules: e-mail normalisation, bearer-header
    parsing, the auth and role guards, and the handlers that change the
    `users` and `refresh_tokens` tables. bcrypt, JWT decoding and the random
    refresh-token generator are parameters: a password check, a claims
    decoder, and the fresh token and password hash a call would produce. */
module AuthServer {
  import opened Base
  import opened Json
  import opened Crypto
  import opened OtpCooldown
  import ActivityChain
  import AdminChain

  const RefreshExpDays: int := 14
  /** A refresh token's lifetime in microseconds. */
  const RefreshLifetime: int := RefreshExpDays * 86400 * MicrosPerSecond

  const Roles: set<string> := {"user", "admin"}

  /** Python truthiness of an optional string field. */
  predicate Given(v: Option<string>) {
    v.Some? && v.value != ""
  }

  /** `(x or '').strip()`. */
  function StripField(v: Option<string>): string {
    PyStrip(v.GetOr(""))
  }

  // ---------------------------------------------------------------- e-mail

  lemma LowerIdempotent(s: string)
    ensures Lower(Lower(s)) == Lower(s)
  {
  }

  lemma LowerKeepsTrimmed(s: string)
    requires IsTrimmed(s, IsPyWhitespace)
    ensures IsTrimmed(Lower(s), IsPyWhitespace)
  {
  }

  /** `normalize_email`: stripped and lower-cased; None becomes ''. */
  function NormalizeEmail(e: Option<string>): (r: string)
    ensures e.None? ==> r == ""
    ensures IsTrimmed(r, IsPyWhitespace)
    ensures forall i :: 0 <= i < |r| ==> !('A' <= r[i] <= 'Z')
    ensures Lower(r) == r
  {
    var s := PyStrip(e.GetOr(""));
    TrimIsTrimmed(e.GetOr(""), IsPyWhitespace);
    LowerKeepsTrimmed(s);
    LowerIdempotent(s);
    Lower(s)
  }

  predicate IsNormalized(e: string) {
    NormalizeEmail(Some(e)) == e
  }

  lemma NormalizeEmailIdempotent(e: Option<string>)
    ensures IsNormalized(NormalizeEmail(e))
  {
    var r := NormalizeEmail(e);
    TrimOfTrimmed(r, IsPyWhitespace);
    LowerIdempotent(PyStrip(e.GetOr("")));
  }

  lemma NormalizedIsLower(e: string)
    requires IsNormalized(e)
    ensures Lower(e) == e
  {
    LowerIdempotent(PyStrip(e));
  }

  // ---------------------------------------------------------- bearer header

  /** Python's `s.split(' ', 1)[1]`: the text after the first space. */
  function AfterFirstSpace(s: string): Option<string> {
    if s == [] then None
    else if s[0] == ' ' then Some(s[1..])
    else AfterFirstSpace(s[1..])
  }

  lemma AfterFirstSpaceOfBearer(h: string)
    requires StartsWith(h, "Bearer ")
    ensures AfterFirstSpace(h) == Some(h[7..])
  {
    var k := 0;
    while k < 6
      invariant k <= 6
      invariant AfterFirstSpace(h) == AfterFirstSpace(h[k..])
    {
      assert h[k..][0] == h[..7][k] != ' ';
      assert h[k..][1..] == h[k + 1..];
      k := k + 1;
    }
    assert h[6..][0] == h[..7][6] == ' ';
    assert h[6..][1..] == h[7..];
  }

  /** The token `require_auth` takes from an `Authorization` header: None
      unless the header starts with "Bearer ", else the rest, stripped. */
  function BearerToken(header: string): (r: Option<string>)
    ensures r.None? <==> !StartsWith(header, "Bearer ")
    ensures r.Some? ==> r.value == PyStrip(header[7..])
  {
    if !StartsWith(header, "Bearer ") then None
    else
      AfterFirstSpaceOfBearer(header);
      Some(PyStrip(AfterFirstSpace(header).value))
  }

  // ------------------------------------------------------------ the guards

  /** What `jwt.decode` yields for a token: its claims, or one of the two
      errors the guard tells apart. */
  datatype Claims = Decoded(userId: Option<int>) | ExpiredSignature | InvalidToken

  datatype User = User(id: nat, email: string, passwordHash: string, otpSecret: string,
                       lastOtpAt: Option<int>, role: string)

  datatype AuthResult = Authenticated(user: User) | Denied(status: int, message: string)

  /** `UserModel.query.get(id)`. */
  function FindUserById(users: seq<User>, id: Option<int>): (r: Option<nat>)
    ensures r.Some? ==> r.value < |users| && id == Some(users[r.value].id as int)
    ensures r.None? ==> forall i :: 0 <= i < |users| ==> id != Some(users[i].id as int)
  {
    if users == [] then None
    else if id == Some(users[0].id as int) then Some(0)
    else match FindUserById(users[1..], id)
      case None => None
      case Some(i) => Some(i + 1)
  }

  /** `require_auth`: every refusal is a 401. */
  function RequireAuth(header: Option<string>, decode: string -> Claims, users: seq<User>): (r: AuthResult)
    ensures !StartsWith(header.GetOr(""), "Bearer ") ==> r == Denied(401, "Missing token")
    ensures r.Denied? ==> r.status == 401
    ensures r.Authenticated? <==>
              BearerToken(header.GetOr("")).Some? && decode(BearerToken(header.GetOr("")).value).Decoded?
              && FindUserById(users, decode(BearerToken(header.GetOr("")).value).userId).Some?
    ensures r.Authenticated? ==>
              r.user in users && Some(r.user.id as int) == decode(BearerToken(header.GetOr("")).value).userId
  {
    match BearerToken(header.GetOr(""))
    case None => Denied(401, "Missing token")
    case Some(token) =>
      match decode(token)
      case ExpiredSignature => Denied(401, "Token expired")
      case InvalidToken => Denied(401, "Invalid token")
      case Decoded(userId) =>
        match FindUserById(users, userId)
        case None => Denied(401, "User not found")
        case Some(i) => Authenticated(users[i])
  }

  /** `require_role(*roles)`: authentication runs first, so any 401 of
      `require_auth` comes before the 403 of the role check. */
  function RequireRole(roles: set<string>, header: Option<string>, decode: string -> Claims,
                       users: seq<User>): (r: AuthResult)
    ensures RequireAuth(header, decode, users).Denied? ==> r == RequireAuth(header, decode, users)
    ensures r.Denied? && r.status == 403 ==>
              RequireAuth(header, decode, users).Authenticated?
              && RequireAuth(header, decode, users).user.role !in roles
    ensures r.Authenticated? <==>
              RequireAuth(header, decode, users).Authenticated? && RequireAuth(header, decode, users).user.role in roles
    ensures r.Authenticated? ==> r == RequireAuth(header, decode, users)
  {
    match RequireAuth(header, decode, users)
    case Denied(status, message) => Denied(status, message)
    case Authenticated(user) =>
      if user.role !in roles then Denied(403, "Forbidden: insufficient role") else Authenticated(user)
  }

  // ----------------------------------------------------------- the tables

  datatype RefreshTokenRow = RefreshTokenRow(id: nat, userId: int, tokenHash: string, expiresAt: int,
                                             revoked: bool, createdAt: int, replacedBy: Option<string>)

  /** What a handler's response carries besides its status and message. */
  datatype Cookie = CookieUnchanged | CookieSet(raw: string) | CookieCleared

  datatype Reply = Reply(status: int, message: string, cookie: Cookie)

  /** The lookup `filter(func.lower(UserModel.email) == email).first()`. */
  function FindUserByEmail(users: seq<User>, email: string): (r: Option<nat>)
    ensures r.Some? ==> r.value < |users| && Lower(users[r.value].email) == email
    ensures r.None? ==> forall i :: 0 <= i < |users| ==> Lower(users[i].email) != email
  {
    if users == [] then None
    else if Lower(users[0].email) == email then Some(0)
    else match FindUserByEmail(users[1..], email)
      case None => None
      case Some(i) => Some(i + 1)
  }

  /** `filter_by(token_hash=...).first()`. */
  function FindToken(tokens: seq<RefreshTokenRow>, hash: string): (r: Option<nat>)
    ensures r.Some? ==> r.value < |tokens| && tokens[r.value].tokenHash == hash
    ensures r.None? ==> forall i :: 0 <= i < |tokens| ==> tokens[i].tokenHash != hash
  {
    if tokens == [] then None
    else if tokens[0].tokenHash == hash then Some(0)
    else match FindToken(tokens[1..], hash)
      case None => None
      case Some(i) => Some(i + 1)
  }

  /** A stored refresh token `refresh` accepts at time `now`: known, not
      revoked and not expired (a token is still good at its expiry instant). */
  predicate Accepted(tokens: seq<RefreshTokenRow>, hash: string, now: int) {
    var i := FindToken(tokens, hash);
    i.Some? && !tokens[i.value].revoked && !(tokens[i.value].expiresAt < now)
  }

  /** The bulk update in `change_password`: every live token of the user is
      revoked and nothing else changes. */
  function RevokeAllFor(tokens: seq<RefreshTokenRow>, userId: int): (r: seq<RefreshTokenRow>)
    ensures |r| == |tokens|
    ensures forall i :: 0 <= i < |r| ==> r[i] == tokens[i].(revoked := r[i].revoked)
    ensures forall i :: 0 <= i < |r| ==> (r[i].revoked <==> tokens[i].revoked || tokens[i].userId == userId)
  {
    seq(|tokens|, i requires 0 <= i < |tokens| =>
      if tokens[i].userId == userId && !tokens[i].revoked then tokens[i].(revoked := true) else tokens[i])
  }

  /** `_rotate_refresh`: a new token for the same user is minted, then the
      old row is revoked and points at the new token's hash. */
  function Rotated(tokens: seq<RefreshTokenRow>, i: nat, newHash: string, now: int): seq<RefreshTokenRow>
    requires i < |tokens|
  {
    tokens[i := tokens[i].(revoked := true, replacedBy := Some(newHash))]
      + [RefreshTokenRow(|tokens| + 1, tokens[i].userId, newHash, now + RefreshLifetime, false, now, None)]
  }

  /** Ids follow insertion order, and no two users share an e-mail address
      up to case (every stored address is already lower-cased). */
  predicate UsersValid(users: seq<User>) {
    (forall i :: 0 <= i < |users| ==> users[i].id == i + 1 && Lower(users[i].email) == users[i].email)
    && (forall i, j :: 0 <= i < j < |users| ==> users[i].email != users[j].email)
  }

  predicate TokensValid(tokens: seq<RefreshTokenRow>) {
    (forall i :: 0 <= i < |tokens| ==> tokens[i].id == i + 1)
    && (forall i :: 0 <= i < |tokens| ==> tokens[i].replacedBy.Some? ==> tokens[i].revoked)
    && (forall i, j :: 0 <= i < j < |tokens| ==> tokens[i].tokenHash != tokens[j].tokenHash)
  }

  /** After a rotation the presented token is refused from then on, and the
      new token is accepted at once, for the same user. */
  lemma RotationRefusesReplay(tokens: seq<RefreshTokenRow>, oldHash: string, newHash: string, now: int, later: int)
    requires TokensValid(tokens) && Accepted(tokens, oldHash, now)
    requires FindToken(tokens, newHash).None?
    ensures var i := FindToken(tokens, oldHash).value;
            var r := Rotated(tokens, i, newHash, now);
            TokensValid(r) && !Accepted(r, oldHash, later) && Accepted(r, newHash, now)
            && r[FindToken(r, newHash).value].userId == tokens[i].userId
  {
    var i := FindToken(tokens, oldHash).value;
    var r := Rotated(tokens, i, newHash, now);
    assert r[i].tokenHash == oldHash;
    assert r[|tokens|].tokenHash == newHash;
    var j := FindToken(r, oldHash).value;
    assert j == i;
    var k := FindToken(r, newHash).value;
    assert k == |tokens|;
  }

  /** After the bulk revoke no token of the user is accepted, and every other
      user's tokens are accepted exactly as before. */
  lemma RevokeAllRefusesUser(tokens: seq<RefreshTokenRow>, userId: int, hash: string, now: int)
    requires TokensValid(tokens)
    ensures TokensValid(RevokeAllFor(tokens, userId))
    ensures FindToken(RevokeAllFor(tokens, userId), hash) == FindToken(tokens, hash)
    ensures FindToken(tokens, hash).Some? && tokens[FindToken(tokens, hash).value].userId == userId ==>
              !Accepted(RevokeAllFor(tokens, userId), hash, now)
    ensures FindToken(tokens, hash).Some? && tokens[FindToken(tokens, hash).value].userId != userId ==>
              (Accepted(RevokeAllFor(tokens, userId), hash, now) <==> Accepted(tokens, hash, now))
  {
    var r := RevokeAllFor(tokens, userId);
    var a := FindToken(r, hash);
    var b := FindToken(tokens, hash);
    if a.Some? {
      assert b.Some? && b.value <= a.value;
      assert r[b.value].tokenHash == hash;
    } else {
      assert b.None?;
    }
  }

  /** `int(30 - elapsed)` when the last OTP went out less than 30 seconds
      before `now`: the whole seconds still to wait, rounded down. */
  function CooldownWait(lastOtpAt: Option<int>, now: int): (r: Option<nat>)
    ensures r.Some? <==> lastOtpAt.Some? && now - lastOtpAt.value < ResendCooldownSeconds * MicrosPerSecond
    ensures r.Some? ==>
              var left := ResendCooldownSeconds * MicrosPerSecond - (now - lastOtpAt.value);
              r.value * MicrosPerSecond <= left < (r.value + 1) * MicrosPerSecond
    ensures r.Some? && lastOtpAt.value <= now ==> r.value <= ResendCooldownSeconds
  {
    if lastOtpAt.None? then None
    else
      var elapsed := now - lastOtpAt.value;
      if elapsed < ResendCooldownSeconds * MicrosPerSecond
      then Some((ResendCooldownSeconds * MicrosPerSecond - elapsed) / MicrosPerSecond)
      else None
  }

  // ---------------------------------------------------- handler decisions

  /** The fields `register` reads from its JSON body, as it normalises
      them: the e-mail normalised, the password and invite code stripped, and
      the role defaulted to "user", stripped and lower-cased. */
  datatype RegisterForm = RegisterForm(email: string, password: string, role: string, adminCode: string)

  function ReadRegisterForm(email: Option<string>, password: Option<string>, role: Option<string>,
                            adminCode: Option<string>): (f: RegisterForm)
    ensures f.email == NormalizeEmail(email) && Lower(f.email) == f.email
    ensures f.password == StripField(password) && f.adminCode == StripField(adminCode)
    ensures f.role == Lower(StripField(if Given(role) then role else Some("user")))
    ensures Lower(f.role) == f.role
  {
    var r := StripField(if Given(role) then role else Some("user"));
    LowerIdempotent(r);
    RegisterForm(NormalizeEmail(email), StripField(password), Lower(r), StripField(adminCode))
  }

  /** `register`'s checks on the form, in the handler's order, given the
      server's configured invite code; None when the user is created. */
  function RegisterRefusal(users: seq<User>, f: RegisterForm, serverCode: string): (r: Option<Reply>)
    ensures f.role !in Roles ==> r == Some(Reply(400, "Invalid role", CookieUnchanged))
    ensures f.role in Roles && (f.email == "" || f.password == "") ==>
              r == Some(Reply(400, "Email and password required", CookieUnchanged))
    ensures f.role in Roles && f.email != "" && f.password != "" && FindUserByEmail(users, f.email).Some? ==>
              r == Some(Reply(400, "User already exists", CookieUnchanged))
    ensures f.role == "admin" && f.email != "" && f.password != "" && FindUserByEmail(users, f.email).None? ==>
              r == (if serverCode == "" then Some(Reply(403, "Admin registration is disabled", CookieUnchanged))
                    else if f.adminCode != serverCode then Some(Reply(403, "Invalid admin invite code", CookieUnchanged))
                    else None)
    ensures r.None? <==>
              f.role in Roles && f.email != "" && f.password != "" && FindUserByEmail(users, f.email).None?
              && (f.role == "admin" ==> serverCode != "" && f.adminCode == serverCode)
  {
    if f.role !in Roles then Some(Reply(400, "Invalid role", CookieUnchanged))
    else if f.email == "" || f.password == "" then Some(Reply(400, "Email and password required", CookieUnchanged))
    else if FindUserByEmail(users, f.email).Some? then Some(Reply(400, "User already exists", CookieUnchanged))
    else if f.role == "admin" && serverCode == "" then
      Some(Reply(403, "Admin registration is disabled", CookieUnchanged))
    else if f.role == "admin" && f.adminCode != serverCode then
      Some(Reply(403, "Invalid admin invite code", CookieUnchanged))
    else None
  }

  /** `change_password`'s checks on the stripped current and new passwords,
      in the handler's order; None when the password is changed. */
  function ChangePasswordRefusal(u: User, current: string, newPw: string,
                                 checkpw: (string, string) -> bool): (r: Option<Reply>)
    ensures (current == "" || newPw == "") ==>
              r == Some(Reply(400, "current_password and new_password are required", CookieUnchanged))
    ensures current != "" && newPw != "" && !checkpw(current, u.passwordHash) ==>
              r == Some(Reply(401, "Current password is incorrect", CookieUnchanged))
    ensures current != "" && newPw != "" && checkpw(current, u.passwordHash) && |newPw| < 8 ==>
              r == Some(Reply(400, "New password must be at least 8 characters", CookieUnchanged))
    ensures current != "" && checkpw(current, u.passwordHash) && |newPw| >= 8 && checkpw(newPw, u.passwordHash) ==>
              r == Some(Reply(400, "New password must be different from the current password", CookieUnchanged))
    ensures r.None? <==>
              current != "" && newPw != "" && checkpw(current, u.passwordHash) && |newPw| >= 8 && !checkpw(newPw, u.passwordHash)
  {
    if current == "" || newPw == "" then
      Some(Reply(400, "current_password and new_password are required", CookieUnchanged))
    else if !checkpw(current, u.passwordHash) then Some(Reply(401, "Current password is incorrect", CookieUnchanged))
    else if |newPw| < 8 then Some(Reply(400, "New password must be at least 8 characters", CookieUnchanged))
    else if checkpw(newPw, u.passwordHash) then
      Some(Reply(400, "New password must be different from the current password", CookieUnchanged))
    else None
  }

  /** Some other user (by id) already has the e-mail, compared lower-cased. */
  predicate TakenByOther(users: seq<User>, id: nat, email: string) {
    exists j :: 0 <= j < |users| && users[j].id != id && Lower(users[j].email) == email
  }

  /** `change_email`'s checks, in the handler's order; None when the e-mail is changed. */
  function ChangeEmailRefusal(users: seq<User>, u: User, email: string, current: string,
                              checkpw: (string, string) -> bool): (r: Option<Reply>)
    ensures (email == "" || current == "") ==>
              r == Some(Reply(400, "new_email and current_password are required", CookieUnchanged))
    ensures email != "" && current != "" && !checkpw(current, u.passwordHash) ==>
              r == Some(Reply(401, "Current password is incorrect", CookieUnchanged))
    ensures email != "" && current != "" && checkpw(current, u.passwordHash) && TakenByOther(users, u.id, email) ==>
              r == Some(Reply(409, "Email is already taken", CookieUnchanged))
    ensures r.None? <==>
              email != "" && current != "" && checkpw(current, u.passwordHash) && !TakenByOther(users, u.id, email)
  {
    if email == "" || current == "" then
      Some(Reply(400, "new_email and current_password are required", CookieUnchanged))
    else if !checkpw(current, u.passwordHash) then Some(Reply(401, "Current password is incorrect", CookieUnchanged))
    else if TakenByOther(users, u.id, email) then Some(Reply(409, "Email is already taken", CookieUnchanged))
    else None
  }

  /** `admin_change_role`'s checks on the stripped role and justification, in
      the handler's order (the role is not lower-cased); None when the
      target's role is changed. */
  function ChangeRoleRefusal(users: seq<User>, callerId: nat, targetId: nat, role: string,
                             justification: string): (r: Option<Reply>)
    ensures role !in Roles ==> r == Some(Reply(400, "Invalid role", CookieUnchanged))
    ensures role in Roles && |justification| < 5 ==>
              r == Some(Reply(400, "Justification is required (min 5 chars).", CookieUnchanged))
    ensures role in Roles && |justification| >= 5 && FindUserById(users, Some(targetId)).None? ==>
              r == Some(Reply(404, "User not found", CookieUnchanged))
    ensures role in Roles && |justification| >= 5 && FindUserById(users, Some(targetId)).Some? && targetId == callerId ==>
              r == Some(Reply(400, "Refusing to change own role", CookieUnchanged))
    ensures r.None? <==>
              role in Roles && |justification| >= 5 && FindUserById(users, Some(targetId)).Some? && targetId != callerId
  {
    if role !in Roles then Some(Reply(400, "Invalid role", CookieUnchanged))
    else if justification == "" || |justification| < 5 then
      Some(Reply(400, "Justification is required (min 5 chars).", CookieUnchanged))
    else if FindUserById(users, Some(targetId)).None? then Some(Reply(404, "User not found", CookieUnchanged))
    else if targetId == callerId then Some(Reply(400, "Refusing to change own role", CookieUnchanged))
    else None
  }

  lemma RegisterKeepsUsersValid(users: seq<User>, u: User)
    requires UsersValid(users) && u.id == |users| + 1 && Lower(u.email) == u.email
    requires FindUserByEmail(users, u.email).None?
    ensures UsersValid(users + [u])
  {
  }

  lemma UpdateKeepsUsersValid(users: seq<User>, i: nat, u: User)
    requires UsersValid(users) && i < |users| && u.id == users[i].id && Lower(u.email) == u.email
    requires forall j :: 0 <= j < |users| && j != i ==> users[j].email != u.email
    ensures UsersValid(users[i := u])
  {
  }

  lemma FreeEmailIsFree(users: seq<User>, i: nat, email: string)
    requires UsersValid(users) && i < |users| && !TakenByOther(users, users[i].id, email)
    ensures forall j :: 0 <= j < |users| && j != i ==> users[j].email != email
  {
  }

  // ------------------------------------------------------------- handlers

  /** The `users` and `refresh_tokens` tables and the two activity logs the
      handlers write to. */
  /** The meta `admin_change_role` logs: the target's address and its old and new role. */
  function RoleChangeMeta(target: User, r: string): Json {
    JObj(map["email" := JStr(target.email), "old_role" := JStr(target.role), "new_role" := JStr(r)])
  }

  /** The admin-chain row `admin_change_role` appends (target id hashed as stored text). */
  function RoleChangeRow(p: Primitives, rows: seq<AdminChain.AdminRow>, adminId: int, target: User,
                         r: string, just: string, now: int): AdminChain.AdminRow {
    AdminChain.NewRow(p, rows, adminId, "ADMIN_ROLE_CHANGED", Some("user"), Some(AdminChain.TInt(target.id)),
                      Some(RoleChangeMeta(target, r)), Some(just), now)
  }

  class AuthDb {
    var users: seq<User>
    var tokens: seq<RefreshTokenRow>
    const activity: ActivityChain.ActivityLog
    const adminLog: AdminChain.AdminActivityLog

    ghost predicate Valid()
      reads this, activity, adminLog
    {
      UsersValid(users) && TokensValid(tokens) && activity.Valid() && adminLog.Valid()
    }

    constructor (activity: ActivityChain.ActivityLog, adminLog: AdminChain.AdminActivityLog)
      requires activity.Valid() && adminLog.Valid()
      ensures Valid() && users == [] && tokens == []
      ensures this.activity == activity && this.adminLog == adminLog
    {
      users := [];
      tokens := [];
      this.activity := activity;
      this.adminLog := adminLog;
    }

    /** `register` on the form read from its body, with the bcrypt hash and
        OTP secret it would generate. */
    method Register(f: RegisterForm, serverCode: string, passwordHash: string, otpSecret: string)
      returns (reply: Reply)
      requires Valid() && Lower(f.email) == f.email
      modifies this
      ensures Valid() && tokens == old(tokens)
      ensures var refusal := RegisterRefusal(old(users), f, serverCode);
              (refusal.Some? ==> reply == refusal.value && users == old(users))
              && (refusal.None? ==>
                    reply == Reply(200, "User registered successfully", CookieUnchanged)
                    && users == old(users) + [User(|old(users)| + 1, f.email, passwordHash, otpSecret, None, f.role)])
    {
      var refusal := RegisterRefusal(users, f, serverCode);
      if refusal.Some? {
        return refusal.value;
      }
      var u := User(|users| + 1, f.email, passwordHash, otpSecret, None, f.role);
      RegisterKeepsUsersValid(users, u);
      users := users + [u];
      reply := Reply(200, "User registered successfully", CookieUnchanged);
    }

    /** `refresh`: `newRaw` is the fresh random token a rotation would mint;
        the table's unique hash column means it must not collide. */
    method Refresh(p: Primitives, cookie: Option<string>, now: int, newRaw: string)
      returns (reply: Reply, accessFor: Option<int>)
      requires Valid()
      requires FindToken(tokens, p.sha256(newRaw)).None?
      modifies this
      ensures Valid() && users == old(users)
      ensures !Given(cookie) ==>
                reply == Reply(401, "Missing refresh token", CookieUnchanged) && accessFor.None? && tokens == old(tokens)
      ensures Given(cookie) && !Accepted(old(tokens), p.sha256(cookie.value), now) ==>
                reply == Reply(401, "Invalid refresh", CookieCleared) && accessFor.None? && tokens == old(tokens)
      ensures Given(cookie) && Accepted(old(tokens), p.sha256(cookie.value), now) ==>
                var i := FindToken(old(tokens), p.sha256(cookie.value)).value;
                reply == Reply(200, "", CookieSet(newRaw)) && accessFor == Some(old(tokens)[i].userId)
                && tokens == Rotated(old(tokens), i, p.sha256(newRaw), now)
    {
      if !Given(cookie) {
        return Reply(401, "Missing refresh token", CookieUnchanged), None;
      }
      var hash := p.sha256(cookie.value);
      var found := FindToken(tokens, hash);
      if found.None? || tokens[found.value].revoked || tokens[found.value].expiresAt < now {
        return Reply(401, "Invalid refresh", CookieCleared), None;
      }
      var i := found.value;
      RotationRefusesReplay(tokens, hash, p.sha256(newRaw), now, now);
      accessFor := Some(tokens[i].userId);
      tokens := Rotated(tokens, i, p.sha256(newRaw), now);
      reply := Reply(200, "", CookieSet(newRaw));
    }

    /** `logout`: revokes the presented refresh token if it is known, and
        always answers 200 with the cookie cleared. */
    method Logout(p: Primitives, cookie: Option<string>) returns (reply: Reply)
      requires Valid()
      modifies this
      ensures Valid() && users == old(users)
      ensures reply == Reply(200, "Logged out", CookieCleared)
      ensures Given(cookie) && FindToken(old(tokens), p.sha256(cookie.value)).Some? ==>
                var i := FindToken(old(tokens), p.sha256(cookie.value)).value;
                tokens == old(tokens)[i := old(tokens)[i].(revoked := true)]
      ensures !(Given(cookie) && FindToken(old(tokens), p.sha256(cookie.value)).Some?) ==> tokens == old(tokens)
    {
      if Given(cookie) {
        var found := FindToken(tokens, p.sha256(cookie.value));
        if found.Some? {
          tokens := tokens[found.value := tokens[found.value].(revoked := true)];
        }
      }
      reply := Reply(200, "Logged out", CookieCleared);
    }

    /** The cooldown check and OTP stamp shared by both resend handlers. */
    method StampOtp(i: nat, now: int, okMessage: string) returns (reply: Reply)
      requires Valid() && i < |users|
      modifies this
      ensures Valid() && tokens == old(tokens)
      ensures CooldownWait(old(users)[i].lastOtpAt, now).Some? ==>
                reply == Reply(429, WaitMessage(CooldownWait(old(users)[i].lastOtpAt, now).value), CookieUnchanged)
                && users == old(users)
      ensures CooldownWait(old(users)[i].lastOtpAt, now).None? ==>
                reply == Reply(200, okMessage, CookieUnchanged)
                && users == old(users)[i := old(users)[i].(lastOtpAt := Some(now))]
    {
      var wait := CooldownWait(users[i].lastOtpAt, now);
      if wait.Some? {
        return Reply(429, WaitMessage(wait.value), CookieUnchanged);
      }
      UpdateKeepsUsersValid(users, i, users[i].(lastOtpAt := Some(now)));
      users := users[i := users[i].(lastOtpAt := Some(now))];
      reply := Reply(200, okMessage, CookieUnchanged);
    }

    /** `resend_otp`. */
    method ResendOtp(email: Option<string>, now: int) returns (reply: Reply)
      requires Valid()
      modifies this
      ensures Valid() && tokens == old(tokens)
      ensures var i := FindUserByEmail(old(users), NormalizeEmail(email));
              (i.None? ==> reply == Reply(404, "User not found", CookieUnchanged) && users == old(users))
              && (i.Some? && CooldownWait(old(users)[i.value].lastOtpAt, now).Some? ==>
                    reply == Reply(429, WaitMessage(CooldownWait(old(users)[i.value].lastOtpAt, now).value), CookieUnchanged)
                    && users == old(users))
              && (i.Some? && CooldownWait(old(users)[i.value].lastOtpAt, now).None? ==>
                    reply == Reply(200, "OTP resent", CookieUnchanged)
                    && users == old(users)[i.value := old(users)[i.value].(lastOtpAt := Some(now))])
    {
      var i := FindUserByEmail(users, NormalizeEmail(email));
      if i.None? {
        return Reply(404, "User not found", CookieUnchanged);
      }
      reply := StampOtp(i.value, now, "OTP resent");
    }

    /** `admin_resend_otp`: as `resend_otp`, with a 403 for non-admins before
        the cooldown check. */
    method AdminResendOtp(email: Option<string>, now: int) returns (reply: Reply)
      requires Valid()
      modifies this
      ensures Valid() && tokens == old(tokens)
      ensures var i := FindUserByEmail(old(users), NormalizeEmail(email));
              (i.None? ==> reply == Reply(404, "User not found", CookieUnchanged) && users == old(users))
              && (i.Some? && old(users)[i.value].role != "admin" ==>
                    reply == Reply(403, "Admins only", CookieUnchanged) && users == old(users))
              && (i.Some? && old(users)[i.value].role == "admin"
                  && CooldownWait(old(users)[i.value].lastOtpAt, now).Some? ==>
                    reply == Reply(429, WaitMessage(CooldownWait(old(users)[i.value].lastOtpAt, now).value), CookieUnchanged)
                    && users == old(users))
              && (i.Some? && old(users)[i.value].role == "admin"
                  && CooldownWait(old(users)[i.value].lastOtpAt, now).None? ==>
                    reply == Reply(200, "Admin OTP resent", CookieUnchanged)
                    && users == old(users)[i.value := old(users)[i.value].(lastOtpAt := Some(now))])
    {
      var i := FindUserByEmail(users, NormalizeEmail(email));
      if i.None? {
        return Reply(404, "User not found", CookieUnchanged);
      }
      if users[i.value].role != "admin" {
        return Reply(403, "Admins only", CookieUnchanged);
      }
      reply := StampOtp(i.value, now, "Admin OTP resent");
    }

    /** `change_password` for the authenticated user `users[me]`; `checkpw`
        is bcrypt's check of a plain password against a stored hash and
        `newHash` the hash it would store. On success every live refresh
        token of the user is revoked and the change is logged. */
    method ChangePassword(p: Primitives, me: nat, currentPassword: Option<string>, newPassword: Option<string>,
                          checkpw: (string, string) -> bool, newHash: string, now: int) returns (reply: Reply)
      requires Valid() && me < |users|
      modifies this, activity
      ensures Valid()
      ensures var u := old(users)[me];
              var refusal := ChangePasswordRefusal(u, StripField(currentPassword), StripField(newPassword), checkpw);
              (refusal.Some? ==>
                 reply == refusal.value && users == old(users) && tokens == old(tokens)
                 && activity.rows == old(activity.rows))
              && (refusal.None? ==>
                    reply == Reply(200, "Password updated. Please log in again.", CookieCleared)
                    && users == old(users)[me := u.(passwordHash := newHash)]
                    && tokens == RevokeAllFor(old(tokens), u.id)
                    && activity.rows == old(activity.rows)
                         + [ActivityChain.NewRow(p, old(activity.rows), u.id, "PASSWORD_CHANGED", Some(EmptyObject), now)])
    {
      var u := users[me];
      var refusal := ChangePasswordRefusal(u, StripField(currentPassword), StripField(newPassword), checkpw);
      if refusal.Some? {
        return refusal.value;
      }
      UpdateKeepsUsersValid(users, me, u.(passwordHash := newHash));
      users := users[me := u.(passwordHash := newHash)];
      RevokeAllRefusesUser(tokens, u.id, "", now);
      tokens := RevokeAllFor(tokens, u.id);
      activity.Append(p, u.id, "PASSWORD_CHANGED", Some(EmptyObject), now);
      reply := Reply(200, "Password updated. Please log in again.", CookieCleared);
    }

    /** `change_email` for the authenticated user `users[me]`, given the new
        address as `normalize_email` leaves it and the stripped current
        password; the change is logged with the old and new address. */
    method ChangeEmail(p: Primitives, me: nat, email: string, currentPassword: string,
                       checkpw: (string, string) -> bool, now: int) returns (reply: Reply)
      requires Valid() && me < |users| && Lower(email) == email
      modifies this, activity
      ensures Valid() && tokens == old(tokens)
      ensures var u := old(users)[me];
              var refusal := ChangeEmailRefusal(old(users), u, email, currentPassword, checkpw);
              (refusal.Some? ==> reply == refusal.value && users == old(users) && activity.rows == old(activity.rows))
              && (refusal.None? ==>
                    reply == Reply(200, "Email updated", CookieUnchanged)
                    && users == old(users)[me := u.(email := email)]
                    && activity.rows == old(activity.rows)
                         + [ActivityChain.NewRow(p, old(activity.rows), u.id, "EMAIL_CHANGED",
                                                 Some(JObj(map["old" := JStr(u.email), "new" := JStr(email)])), now)])
    {
      var u := users[me];
      var refusal := ChangeEmailRefusal(users, u, email, currentPassword, checkpw);
      if refusal.Some? {
        return refusal.value;
      }
      FreeEmailIsFree(users, me, email);
      UpdateKeepsUsersValid(users, me, u.(email := email));
      users := users[me := u.(email := email)];
      activity.Append(p, u.id, "EMAIL_CHANGED", Some(JObj(map["old" := JStr(u.email), "new" := JStr(email)])), now);
      reply := Reply(200, "Email updated", CookieUnchanged);
    }

    /** `admin_change_role` by the admin `users[caller]` on the user whose id
        is in the URL; the change is logged in the admin chain with the old
        and new role. */
    method AdminChangeRole(p: Primitives, caller: nat, targetId: nat, role: Option<string>,
                           justification: Option<string>, now: int) returns (reply: Reply)
      requires Valid() && caller < |users|
      modifies this, adminLog
      ensures Valid() && tokens == old(tokens)
      ensures var refusal := ChangeRoleRefusal(old(users), old(users)[caller].id, targetId,
                                               StripField(role), StripField(justification));
              (refusal.Some? ==> reply == refusal.value && users == old(users) && adminLog.rows == old(adminLog.rows))
              && (refusal.None? ==>
                    var t := FindUserById(old(users), Some(targetId)).value;
                    var target := old(users)[t];
                    reply == Reply(200, "Role updated", CookieUnchanged)
                    && users == old(users)[t := target.(role := StripField(role))]
                    && adminLog.rows == old(adminLog.rows)
                         + [RoleChangeRow(p, old(adminLog.rows), old(users)[caller].id, target,
                                          StripField(role), StripField(justification), now)])
    {
      var r := StripField(role);
      var just := StripField(justification);
      var adminId := users[caller].id;
      var refusal := ChangeRoleRefusal(users, adminId, targetId, r, just);
      if refusal.Some? {
        return refusal.value;
      }
      var t := FindUserById(users, Some(targetId)).value;
      SetRole(p, adminId, t, r, just, now);
      reply := Reply(200, "Role updated", CookieUnchanged);
    }

    /** The committing half of `admin_change_role`: the target's role is set
        and the change is appended to the admin chain. */
    method SetRole(p: Primitives, adminId: int, t: nat, r: string, just: string, now: int)
      requires Valid() && t < |users|
      modifies this, adminLog
      ensures Valid() && tokens == old(tokens)
      ensures users == old(users)[t := old(users)[t].(role := r)]
      ensures adminLog.rows == old(adminLog.rows) + [RoleChangeRow(p, old(adminLog.rows), adminId, old(users)[t], r, just, now)]
    {
      var target := users[t];
      UpdateKeepsUsersValid(users, t, target.(role := r));
      users := users[t := target.(role := r)];
      var _ := adminLog.Append(p, adminId, "ADMIN_ROLE_CHANGED", Some("user"), Some(AdminChain.TInt(target.id)),
                               Some(RoleChangeMeta(target, r)), Some(just), now);
    }
  }
}

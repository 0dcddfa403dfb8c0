/**
 * The account controller: registration and login guards and the
 * password-reset token lifecycle. Password hashing and comparison, token
 * signing, the random source, the clock and the mail transport are outside
 * the model: their results arrive as parameters.
 */
module Accounts {
  import opened Wrappers
  import opened Models
  import opened Db
  import Text

  /** JavaScript falsiness of a request string: absent or empty. */
  predicate Blank(s: Option<string>) {
    s.None? || s.value == ""
  }

  /** `User.findOne({where: {email}})` finds a row. */
  ghost predicate EmailTaken(users: map<int, User>, email: string) {
    exists id :: id in users && users[id].email == email
  }

  // ---------------------------------------------------------------------
  // Registration and login

  datatype RegisterOutcome =
    | FieldsRequired   // 400 "Name, email, and password are required"
    | UserExists       // 400 "User already exists"
    | RegisterFailed   // 500: the row breaks a column constraint
    | Registered(id: int) // 201

  /**
   * What `User.create` accepts: an address the email validator passes, an
   * email of at most 255 and a name of at most 100 characters.
   */
  predicate UserRowAcceptable(email: string, name: string, emailWellFormed: bool) {
    emailWellFormed && |email| <= 255 && |name| <= 100
  }

  /**
   * `registerUser`. `passwordHash` is what the create hook's bcrypt makes of
   * the password; `emailWellFormed` is the email validator's verdict.
   */
  method RegisterUser(db: Store, email: Option<string>, password: Option<string>, name: Option<string>,
                      passwordHash: string, emailWellFormed: bool) returns (r: RegisterOutcome)
    requires db.Valid()
    modifies db`users, db`nextUserId
    ensures db.Valid()
    ensures r == FieldsRequired <==> Blank(email) || Blank(password) || Blank(name)
    ensures r == UserExists <==> !Blank(email) && !Blank(password) && !Blank(name) && EmailTaken(old(db.users), email.value)
    ensures r.Registered? <==>
      && !Blank(email) && !Blank(password) && !Blank(name) && !EmailTaken(old(db.users), email.value)
      && UserRowAcceptable(email.value, name.value, emailWellFormed)
    ensures r.Registered? ==>
      && r.id == old(db.nextUserId) && db.nextUserId == r.id + 1
      && db.users == old(db.users)[r.id := User(r.id, name, email.value, passwordHash, "user", None, None)]
    ensures !r.Registered? ==> db.users == old(db.users) && db.nextUserId == old(db.nextUserId)
  {
    if Blank(email) || Blank(password) || Blank(name) {
      return FieldsRequired;
    }
    if exists id :: id in db.users && db.users[id].email == email.value {
      return UserExists;
    }
    if !UserRowAcceptable(email.value, name.value, emailWellFormed) {
      return RegisterFailed;
    }
    var id := db.nextUserId;
    db.users := db.users[id := User(id, name, email.value, passwordHash, "user", None, None)];
    db.nextUserId := id + 1;
    r := Registered(id);
  }

  /** Registration never gives one email two accounts: a taken email is refused. */
  lemma RegisterKeepsEmailsUnique(users: map<int, User>, id: int, u: User)
    requires EmailsUnique(users)
    requires id !in users && !EmailTaken(users, u.email)
    ensures EmailsUnique(users[id := u])
  {
    assert forall k :: k in users ==> users[k].email != u.email;
  }

  datatype LoginOutcome =
    | CredentialsRequired // 400 "Email and password are required"
    | InvalidCredentials  // 401 "Invalid credentials"
    | LoggedIn(id: int)   // 200

  /**
   * `loginUser`. `matches(password, hash)` is bcrypt's comparison. An unknown
   * email and a wrong password get the same answer.
   */
  method LoginUser(db: Store, email: Option<string>, password: Option<string>, matches: (string, string) -> bool)
    returns (r: LoginOutcome)
    requires db.Valid()
    ensures r == CredentialsRequired <==> Blank(email) || Blank(password)
    ensures r.LoggedIn? <==>
      && !Blank(email) && !Blank(password)
      && exists id :: id in db.users && db.users[id].email == email.value && matches(password.value, db.users[id].passwordHash)
    ensures r.LoggedIn? ==> r.id in db.users && db.users[r.id].email == email.value
  {
    if Blank(email) || Blank(password) {
      return CredentialsRequired;
    }
    if !exists id :: id in db.users && db.users[id].email == email.value {
      return InvalidCredentials;
    }
    var id :| id in db.users && db.users[id].email == email.value;
    if !matches(password.value, db.users[id].passwordHash) {
      return InvalidCredentials;
    }
    r := LoggedIn(id);
  }

  // ---------------------------------------------------------------------
  // Password reset

  /** A hexadecimal digit, lower case. */
  function HexDigit(n: nat): (c: char)
    requires n < 16
    ensures HexValue(c) == n
  {
    if n < 10 then ('0' as int + n) as char else ('a' as int + n - 10) as char
  }

  function HexValue(c: char): int {
    if '0' <= c <= '9' then c as int - '0' as int else c as int - 'a' as int + 10
  }

  /** One byte as two lower-case hexadecimal digits. */
  function HexByte(b: bv8): (s: string)
    ensures |s| == 2
    ensures 16 * HexValue(s[0]) + HexValue(s[1]) == b as int
  {
    [HexDigit((b as int) / 16), HexDigit((b as int) % 16)]
  }

  /** `buffer.toString('hex')` */
  function Hex(bytes: seq<bv8>): (s: string)
    ensures |s| == 2 * |bytes|
    ensures forall i :: 0 <= i < |bytes| ==> s[2 * i..2 * i + 2] == HexByte(bytes[i])
  {
    if bytes == [] then []
    else
      var n := |bytes| - 1;
      var p := Hex(bytes[..n]);
      PairsAppend(p, HexByte(bytes[n]), n);
      assert forall i :: 0 <= i < n ==> bytes[..n][i] == bytes[i];
      p + HexByte(bytes[n])
  }

  /** Appending a pair of characters leaves the earlier pairs in place. */
  lemma PairsAppend(p: string, h: string, n: nat)
    requires |p| == 2 * n && |h| == 2
    ensures forall i :: 0 <= i < n ==> (p + h)[2 * i..2 * i + 2] == p[2 * i..2 * i + 2]
    ensures (p + h)[2 * n..2 * n + 2] == h
  {
    forall i | 0 <= i < n
      ensures (p + h)[2 * i..2 * i + 2] == p[2 * i..2 * i + 2]
    {
      assert (p + h)[2 * i] == p[2 * i] && (p + h)[2 * i + 1] == p[2 * i + 1];
    }
  }

  /** Different random bytes give different tokens. */
  lemma HexInjective(a: seq<bv8>, b: seq<bv8>)
    requires |a| == |b| && Hex(a) == Hex(b)
    ensures a == b
  {
    forall i | 0 <= i < |a|
      ensures a[i] == b[i]
    {
      assert Hex(a)[2 * i..2 * i + 2] == Hex(b)[2 * i..2 * i + 2];
      assert HexByte(a[i]) == HexByte(b[i]);
    }
  }

  /** The validity window of a reset token, in milliseconds. */
  const ResetWindowMs := 60 * 60 * 1000

  datatype ResetLinkOutcome =
    | EmailRequired // 400 "Email is required"
    | NoAccount     // 404 "No account found with this email address"
    | EmailFailed   // 500 "Error sending email"; the token stays stored
    | LinkSent      // 200

  /** The user row after the reset token is stored. */
  function WithToken(u: User, token: string, expires: int): (v: User)
    ensures v.resetToken == Some(token) && v.resetExpires == Some(expires)
    ensures v.id == u.id && v.email == u.email && v.passwordHash == u.passwordHash && v.role == u.role
  {
    u.(resetToken := Some(token), resetExpires := Some(expires))
  }

  /**
   * `sendResetLink` at clock reading `now`, with `randomBytes` from the
   * random source and `mailed` the mail transport's verdict. The token is
   * stored before the mail is attempted, so a failed mail still leaves it.
   */
  method SendResetLink(db: Store, email: Option<string>, randomBytes: seq<bv8>, now: int, mailed: bool)
    returns (r: ResetLinkOutcome, token: string)
    requires db.Valid()
    requires |randomBytes| == 32
    modifies db`users
    ensures db.Valid()
    ensures token == Hex(randomBytes) && |token| == 64
    ensures r == EmailRequired <==> Blank(email)
    ensures r == NoAccount <==> !Blank(email) && !EmailTaken(old(db.users), email.value)
    ensures r == EmailFailed <==> !Blank(email) && EmailTaken(old(db.users), email.value) && !mailed
    ensures r == EmailRequired || r == NoAccount ==> db.users == old(db.users)
    ensures r == EmailFailed || r == LinkSent ==>
      exists id :: id in old(db.users) && old(db.users)[id].email == email.value
        && db.users == old(db.users)[id := WithToken(old(db.users)[id], token, now + ResetWindowMs)]
  {
    token := Hex(randomBytes);
    if Blank(email) {
      return EmailRequired, token;
    }
    if !exists id :: id in db.users && db.users[id].email == email.value {
      return NoAccount, token;
    }
    var id :| id in db.users && db.users[id].email == email.value;
    db.users := db.users[id := WithToken(db.users[id], token, now + ResetWindowMs)];
    if !mailed {
      return EmailFailed, token;
    }
    r := LinkSent;
  }

  /** A user whose stored token is `token` and has not expired at `now`. */
  predicate HoldsToken(u: User, token: string, now: int) {
    u.resetToken == Some(token) && u.resetExpires.Some? && u.resetExpires.value > now
  }

  predicate NoHolder(users: map<int, User>, token: string, now: int) {
    forall k :: k in users ==> !HoldsToken(users[k], token, now)
  }

  datatype ResetOutcome =
    | ResetFieldsRequired // 400 "Token and new password are required"
    | PasswordTooShort    // 400 "Password must be at least 6 characters"
    | InvalidToken        // 400 "Invalid or expired reset token"
    | ResetDone(id: int)  // 200

  /** The user row after a successful reset: new hash, token and expiry cleared. */
  function AfterReset(u: User, newHash: string): (v: User)
    ensures v.passwordHash == newHash && v.resetToken.None? && v.resetExpires.None?
    ensures v.id == u.id && v.email == u.email && v.role == u.role && v.name == u.name
  {
    u.(passwordHash := newHash, resetToken := None, resetExpires := None)
  }

  /**
   * `resetPassword` at clock reading `now`; `newHash` is bcrypt's hash of the
   * new password. The length rule is checked before any token lookup.
   */
  method ResetPassword(db: Store, token: Option<string>, newPassword: Option<string>, now: int, newHash: string)
    returns (r: ResetOutcome)
    requires db.Valid()
    modifies db`users
    ensures db.Valid()
    ensures r == ResetFieldsRequired <==> Blank(token) || Blank(newPassword)
    ensures r == PasswordTooShort <==> !Blank(token) && !Blank(newPassword) && Text.Utf16Length(newPassword.value) < 6
    ensures r.ResetDone? <==>
      && !Blank(token) && !Blank(newPassword) && Text.Utf16Length(newPassword.value) >= 6
      && exists id :: id in old(db.users) && HoldsToken(old(db.users)[id], token.value, now)
    ensures r.ResetDone? ==>
      && r.id in old(db.users) && HoldsToken(old(db.users)[r.id], token.value, now)
      && db.users == old(db.users)[r.id := AfterReset(old(db.users)[r.id], newHash)]
    ensures !r.ResetDone? ==> db.users == old(db.users)
  {
    if Blank(token) || Blank(newPassword) {
      return ResetFieldsRequired;
    }
    if Text.Utf16Length(newPassword.value) < 6 {
      return PasswordTooShort;
    }
    if !exists id :: id in db.users && HoldsToken(db.users[id], token.value, now) {
      return InvalidToken;
    }
    var id :| id in db.users && HoldsToken(db.users[id], token.value, now);
    db.users := db.users[id := AfterReset(db.users[id], newHash)];
    r := ResetDone(id);
  }

  /**
   * A token held by one user works once: after the reset no user holds it,
   * so a second attempt, at any time, is refused.
   */
  lemma ResetTokenSingleUse(users: map<int, User>, id: int, token: string, now: int, later: int, newHash: string)
    requires id in users && HoldsToken(users[id], token, now)
    requires forall k :: k in users && k != id ==> users[k].resetToken != Some(token)
    ensures NoHolder(users[id := AfterReset(users[id], newHash)], token, later)
  {
  }

  /**
   * A token stored by `sendResetLink` at `now` opens a reset strictly before
   * `now` plus one hour, and not from then on.
   */
  lemma TokenWindow(u: User, token: string, now: int, t: int)
    ensures HoldsToken(WithToken(u, token, now + ResetWindowMs), token, t) <==> t < now + 3_600_000
  {
  }
}

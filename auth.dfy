/** The request decisions of backend/routes/authRoutes.js: registration,
    login, token refresh, the profile read and the goal and theme updates.
    Password hashing (bcrypt) and token signing (JWT) are foreign and are
    passed in as functions, together with the properties the handlers rely on;
    the clock is a parameter `now` in seconds. */
module Auth {
  import opened JsValues
  import opened Wrappers

  /** The token payload `{ id, email, role }`. */
  datatype Claims = Claims(id: Value, email: Value, role: Value)

  /** bcrypt: `hash(password, salt)` and `compare(password, hash)`. */
  datatype Hasher = Hasher(hash: (string, string) -> string, compare: (string, string) -> bool)

  /** A password always matches its own hash. */
  ghost predicate SoundHasher(h: Hasher)
  {
    forall p, salt :: h.compare(p, h.hash(p, salt))
  }

  /** JWT: `sign(claims, secret, lifetime, issuedAt)` and `verify(token, secret, now)`. */
  datatype Jwt = Jwt(sign: (Claims, string, int, int) -> string, verify: (string, string, int) -> Option<Claims>)

  /** What the handlers rely on for one token: the token signed over `c`
      with `secret`, lifetime `ttl` and issue time `iat` verifies under that
      secret, giving back `c`, exactly before it expires, and never verifies
      under another secret. */
  ghost predicate SoundToken(j: Jwt, c: Claims, secret: string, ttl: int, iat: int)
  {
    forall s, now :: j.verify(j.sign(c, secret, ttl, iat), s, now) == if s == secret && now < iat + ttl then Some(c) else None
  }

  /** A signer for two tokens over `c`, one per secret: the token is the
      secret's name, and it verifies only under that secret and only before
      its expiry. */
  function TwoTokenJwt(c: Claims, access: string, refresh: string, iat: int): Jwt
  {
    Jwt((c': Claims, secret: string, ttl: int, issued: int) => secret,
        (token: string, secret: string, now: int) =>
          if token == secret && secret == access && now < iat + AccessLifetime then Some(c)
          else if token == secret && secret == refresh && now < iat + RefreshLifetime then Some(c)
          else None)
  }

  /** The assumption can be met: with distinct secrets, the access and the
      refresh token of one login can both be sound. */
  lemma SoundTokensExist(c: Claims, access: string, refresh: string, iat: int)
    requires access != refresh
    ensures SoundToken(TwoTokenJwt(c, access, refresh, iat), c, access, AccessLifetime, iat)
    ensures SoundToken(TwoTokenJwt(c, access, refresh, iat), c, refresh, RefreshLifetime, iat)
  {
  }

  /** `expiresIn: "1h"` and `expiresIn: "7d"`, in seconds. */
  const AccessLifetime: int := 60 * 60
  const RefreshLifetime: int := 7 * 24 * 60 * 60
  /** The refresh cookie's `maxAge`, in milliseconds. */
  const RefreshCookieMaxAge: int := 7 * 24 * 60 * 60 * 1000

  /** The cookie lives exactly as long as the refresh token it carries. */
  lemma CookieMatchesRefreshLifetime()
    ensures RefreshCookieMaxAge == RefreshLifetime * 1000
    ensures AccessLifetime < RefreshLifetime
  {
  }

  /** `process.env.X || fallback`: an unset or empty variable gives the fallback. */
  function ConfiguredSecret(env: Option<string>, fallback: string): (s: string)
    ensures env.Some? && env.value != "" ==> s == env.value
    ensures env.None? || env.value == "" ==> s == fallback
  {
    if env.Some? && env.value != "" then env.value else fallback
  }

  datatype Secrets = Secrets(access: string, refresh: string)

  function RouteSecrets(accessEnv: Option<string>, refreshEnv: Option<string>): (s: Secrets)
    ensures accessEnv.None? && refreshEnv.None? ==> s.access != s.refresh
  {
    Secrets(ConfiguredSecret(accessEnv, "your_secret_key"), ConfiguredSecret(refreshEnv, "your_refresh_secret_key"))
  }

  /** A row of `users`. */
  datatype UserRow = UserRow(
    id: nat, name: Value, email: Value, passwordHash: string, mobile: Value,
    locationId: nat, age: Value, role: Value, co2Goal: Value, theme: Value)

  /** A user id as it travels in a token and is bound to `WHERE id = ?`. */
  function IdValue(id: nat): Value
  {
    Number(Finite(id as real))
  }

  /** The first row (in table order) satisfying a condition on the email. */
  function FindByEmail(users: seq<UserRow>, email: Value): (r: Option<nat>)
    ensures r.Some? ==> r.value < |users| && users[r.value].email == email
    ensures r.Some? ==> forall i :: 0 <= i < r.value ==> users[i].email != email
    ensures r.None? ==> forall i :: 0 <= i < |users| ==> users[i].email != email
  {
    if users == [] then None
    else if users[0].email == email then Some(0)
    else
      var r := FindByEmail(users[1..], email);
      if r.Some? then Some(r.value + 1) else None
  }

  /** The row whose id equals the token's `id` claim. */
  function FindById(users: seq<UserRow>, id: Value): (r: Option<nat>)
    ensures r.Some? ==> r.value < |users| && IdValue(users[r.value].id) == id
    ensures r.None? ==> forall i :: 0 <= i < |users| ==> IdValue(users[i].id) != id
  {
    if users == [] then None
    else if IdValue(users[0].id) == id then Some(0)
    else
      var r := FindById(users[1..], id);
      if r.Some? then Some(r.value + 1) else None
  }

  /** The claims signed into both tokens at login. */
  function ClaimsOf(u: UserRow): Claims
  {
    Claims(IdValue(u.id), u.email, u.role)
  }

  datatype LoginResponse =
    | LoginMissingFields
    | UserNotFound
    | InvalidPassword
    | LoginServerError
    | LoggedIn(accessToken: string, refreshToken: string, role: Value, userId: nat)

  /** `/login`: missing fields, then a failed SELECT (500), then an unknown
      email, then a wrong password (a password bcrypt cannot take, i.e. not a
      string, is a server error);
      on success an access and a refresh token over the same claims. */
  function Login(users: seq<UserRow>, email: Value, password: Value, h: Hasher, j: Jwt, secrets: Secrets, now: int,
                 dbFails: bool): (r: LoginResponse)
    ensures r == LoginMissingFields <==> !Truthy(email) || !Truthy(password)
    ensures r == UserNotFound <==> Truthy(email) && Truthy(password) && !dbFails && FindByEmail(users, email).None?
    ensures r == LoginServerError <==>
      Truthy(email) && Truthy(password) && (dbFails || (FindByEmail(users, email).Some? && !password.Str?))
    ensures r == InvalidPassword <==>
      && Truthy(email) && Truthy(password) && !dbFails && password.Str? && FindByEmail(users, email).Some?
      && !h.compare(password.s, users[FindByEmail(users, email).value].passwordHash)
    ensures r.LoggedIn? ==>
      var u := users[FindByEmail(users, email).value];
      && h.compare(password.s, u.passwordHash)
      && r.accessToken == j.sign(ClaimsOf(u), secrets.access, AccessLifetime, now)
      && r.refreshToken == j.sign(ClaimsOf(u), secrets.refresh, RefreshLifetime, now)
      && r.role == u.role && r.userId == u.id
  {
    if !Truthy(email) || !Truthy(password) then LoginMissingFields
    else if dbFails then LoginServerError
    else
      match FindByEmail(users, email)
      case None => UserNotFound
      case Some(i) =>
        var u := users[i];
        if !password.Str? then LoginServerError
        else if !h.compare(password.s, u.passwordHash) then InvalidPassword
        else
          var claims := ClaimsOf(u);
          LoggedIn(j.sign(claims, secrets.access, AccessLifetime, now),
                   j.sign(claims, secrets.refresh, RefreshLifetime, now), u.role, u.id)
  }

  /** Both tokens of a login carry the same claims: the access token verifies
      for an hour, the refresh token for a week, each only under its own secret. */
  lemma LoginTokensShareClaims(users: seq<UserRow>, email: Value, password: Value, h: Hasher, j: Jwt,
                               secrets: Secrets, now: int, later: int)
    requires Login(users, email, password, h, j, secrets, now, false).LoggedIn?
    requires var c := ClaimsOf(users[FindByEmail(users, email).value]);
      SoundToken(j, c, secrets.access, AccessLifetime, now) && SoundToken(j, c, secrets.refresh, RefreshLifetime, now)
    ensures var r := Login(users, email, password, h, j, secrets, now, false);
      var c := ClaimsOf(users[FindByEmail(users, email).value]);
      && j.verify(r.accessToken, secrets.access, later) == (if later < now + AccessLifetime then Some(c) else None)
      && j.verify(r.refreshToken, secrets.refresh, later) == (if later < now + RefreshLifetime then Some(c) else None)
  {
  }

  datatype RefreshResponse = NoRefreshToken | RefreshRejected | Refreshed(accessToken: string)

  /** `/refresh-token`: 401 without the cookie, 403 when it does not verify
      (`jwt.verify` also rejects a non-string), otherwise a new access token
      over the decoded claims. */
  function Refresh(cookie: Value, j: Jwt, secrets: Secrets, now: int): (r: RefreshResponse)
    ensures r == NoRefreshToken <==> !Truthy(cookie)
    ensures r == RefreshRejected <==> Truthy(cookie) && (!cookie.Str? || j.verify(cookie.s, secrets.refresh, now).None?)
    ensures r.Refreshed? ==>
      var c := j.verify(cookie.s, secrets.refresh, now).value;
      r.accessToken == j.sign(Claims(c.id, c.email, c.role), secrets.access, AccessLifetime, now)
  {
    if !Truthy(cookie) then NoRefreshToken
    else if !cookie.Str? then RefreshRejected
    else
      match j.verify(cookie.s, secrets.refresh, now)
      case None => RefreshRejected
      case Some(c) => Refreshed(j.sign(Claims(c.id, c.email, c.role), secrets.access, AccessLifetime, now))
  }

  /** A refresh token from a login, presented within its week, yields an
      access token with the login's id, email and role. */
  lemma RefreshKeepsClaims(users: seq<UserRow>, email: Value, password: Value, h: Hasher, j: Jwt,
                           secrets: Secrets, loginTime: int, now: int, later: int)
    requires Login(users, email, password, h, j, secrets, loginTime, false).LoggedIn?
    requires var c := ClaimsOf(users[FindByEmail(users, email).value]);
      SoundToken(j, c, secrets.refresh, RefreshLifetime, loginTime) && SoundToken(j, c, secrets.access, AccessLifetime, now)
    requires Login(users, email, password, h, j, secrets, loginTime, false).refreshToken != ""
    requires now < loginTime + RefreshLifetime
    ensures var c := ClaimsOf(users[FindByEmail(users, email).value]);
      var r := Refresh(Str(Login(users, email, password, h, j, secrets, loginTime, false).refreshToken), j, secrets, now);
      && r.Refreshed?
      && j.verify(r.accessToken, secrets.access, later) == (if later < now + AccessLifetime then Some(c) else None)
  {
  }

  /** The index of the first `c` in `s`. */
  function IndexOf(s: string, c: char): (i: nat)
    requires c in s
    ensures i < |s| && s[i] == c && c !in s[..i]
  {
    if s[0] == c then 0 else 1 + IndexOf(s[1..], c)
  }

  /** `s.split(sep)`. */
  function Split(s: string, sep: char): (parts: seq<string>)
    ensures |parts| >= 1
    ensures |parts| > 1 <==> sep in s
    ensures sep !in parts[0]
    ensures sep in s ==> parts[0] == s[..IndexOf(s, sep)]
    ensures sep !in s ==> parts == [s]
    decreases |s|
  {
    if sep !in s then [s]
    else
      var i := IndexOf(s, sep);
      [s[..i]] + Split(s[i + 1..], sep)
  }

  /** `req.headers.authorization?.split(" ")[1]`. */
  function BearerToken(header: Option<string>): (token: Value)
    ensures token.Undefined? || token.Str?
    ensures header.None? ==> token.Undefined?
    ensures header.Some? && ' ' !in header.value ==> token.Undefined?
    ensures header.Some? && ' ' in header.value ==>
      var rest := header.value[IndexOf(header.value, ' ') + 1..];
      && token.Str? && ' ' !in token.s
      && |token.s| <= |rest| && rest[..|token.s|] == token.s
      && (|token.s| == |rest| || rest[|token.s|] == ' ')
  {
    match header
    case None => Undefined
    case Some(text) =>
      var parts := Split(text, ' ');
      if |parts| > 1 then Str(parts[1]) else Undefined
  }

  /** A header `scheme token` with no space inside either gives back the token. */
  lemma BearerRoundTrip(scheme: string, token: string)
    requires ' ' !in scheme && ' ' !in token
    ensures BearerToken(Some(scheme + " " + token)) == Str(token)
  {
    var text := scheme + " " + token;
    assert text[|scheme|] == ' ';
    assert text[..|scheme|] == scheme;
    var i := IndexOf(text, ' ');
    assert i == |scheme|;
    assert text[i + 1..] == token;
    assert Split(token, ' ') == [token];
    assert Split(text, ' ') == [scheme, token];
  }

  datatype AuthResult = TokenMissing | TokenInvalid | Authenticated(claims: Claims)

  /** The guard shared by the protected routes: a missing token and a token
      that fails verification are both 401. */
  function Authenticate(header: Option<string>, j: Jwt, secrets: Secrets, now: int): (r: AuthResult)
    ensures r == TokenMissing <==> !Truthy(BearerToken(header))
    ensures r == TokenInvalid <==> Truthy(BearerToken(header)) && j.verify(BearerToken(header).s, secrets.access, now).None?
    ensures r.Authenticated? ==> Some(r.claims) == j.verify(BearerToken(header).s, secrets.access, now)
  {
    var token := BearerToken(header);
    if !Truthy(token) then TokenMissing
    else
      match j.verify(token.s, secrets.access, now)
      case None => TokenInvalid
      case Some(c) => Authenticated(c)
  }

  /** An unexpired access token from a login opens the protected routes with
      the login's claims. */
  lemma AccessTokenAuthenticates(users: seq<UserRow>, email: Value, password: Value, h: Hasher, j: Jwt,
                                 secrets: Secrets, loginTime: int, now: int, scheme: string)
    requires Login(users, email, password, h, j, secrets, loginTime, false).LoggedIn?
    requires SoundToken(j, ClaimsOf(users[FindByEmail(users, email).value]), secrets.access, AccessLifetime, loginTime)
    requires var t := Login(users, email, password, h, j, secrets, loginTime, false).accessToken;
      t != "" && ' ' !in t && ' ' !in scheme
    requires now < loginTime + AccessLifetime
    ensures Authenticate(Some(scheme + " " + Login(users, email, password, h, j, secrets, loginTime, false).accessToken),
                         j, secrets, now)
            == Authenticated(ClaimsOf(users[FindByEmail(users, email).value]))
  {
    BearerRoundTrip(scheme, Login(users, email, password, h, j, secrets, loginTime, false).accessToken);
  }

  /** With distinct secrets a refresh token is never accepted as an access token. */
  lemma RefreshTokenIsNotAccessToken(users: seq<UserRow>, email: Value, password: Value, h: Hasher, j: Jwt,
                                     secrets: Secrets, loginTime: int, now: int, scheme: string)
    requires secrets.access != secrets.refresh
    requires Login(users, email, password, h, j, secrets, loginTime, false).LoggedIn?
    requires SoundToken(j, ClaimsOf(users[FindByEmail(users, email).value]), secrets.refresh, RefreshLifetime, loginTime)
    requires var t := Login(users, email, password, h, j, secrets, loginTime, false).refreshToken;
      t != "" && ' ' !in t && ' ' !in scheme
    ensures Authenticate(Some(scheme + " " + Login(users, email, password, h, j, secrets, loginTime, false).refreshToken),
                         j, secrets, now)
            == TokenInvalid
  {
    BearerRoundTrip(scheme, Login(users, email, password, h, j, secrets, loginTime, false).refreshToken);
  }

  /** The profile row: the user joined with the city of their location. */
  datatype Profile = Profile(
    id: nat, name: Value, email: Value, mobile: Value, age: Value, role: Value,
    location: Value, co2Goal: Value, theme: Value)

  datatype ProfileResponse = ProfileDenied(why: AuthResult) | ProfileServerError | ProfileNotFound | ProfileFound(profile: Profile)

  /** `/profile`: the guard, then the row of the token's user id (500 when the
      SELECT fails, 404 when no row has that id), with `LEFT JOIN locations`
      giving null for an unknown location. */
  function GetProfile(users: seq<UserRow>, cities: map<nat, string>, header: Option<string>, j: Jwt,
                      secrets: Secrets, now: int, dbFails: bool): (r: ProfileResponse)
    ensures r.ProfileDenied? <==> !Authenticate(header, j, secrets, now).Authenticated?
    ensures r.ProfileDenied? ==> r.why == Authenticate(header, j, secrets, now)
    ensures r == ProfileServerError <==> Authenticate(header, j, secrets, now).Authenticated? && dbFails
    ensures r == ProfileNotFound <==>
      Authenticate(header, j, secrets, now).Authenticated? && !dbFails &&
      FindById(users, Authenticate(header, j, secrets, now).claims.id).None?
    ensures r.ProfileFound? ==>
      var u := users[FindById(users, Authenticate(header, j, secrets, now).claims.id).value];
      && IdValue(r.profile.id) == Authenticate(header, j, secrets, now).claims.id
      && r.profile == Profile(u.id, u.name, u.email, u.mobile, u.age, u.role,
                              if u.locationId in cities then Str(cities[u.locationId]) else Null,
                              u.co2Goal, u.theme)
  {
    match Authenticate(header, j, secrets, now)
    case Authenticated(c) =>
      if dbFails then ProfileServerError
      else
        (match FindById(users, c.id)
         case None => ProfileNotFound
         case Some(i) =>
           var u := users[i];
           ProfileFound(Profile(u.id, u.name, u.email, u.mobile, u.age, u.role,
                                if u.locationId in cities then Str(cities[u.locationId]) else Null,
                                u.co2Goal, u.theme)))
    case other => ProfileDenied(other)
  }

  /** `UPDATE users SET co2_goal = ? WHERE id = ?`. */
  function SetGoal(users: seq<UserRow>, id: Value, goal: Value): (r: seq<UserRow>)
    ensures |r| == |users|
    ensures forall i :: 0 <= i < |users| ==>
      r[i] == if IdValue(users[i].id) == id then users[i].(co2Goal := goal) else users[i]
  {
    if users == [] then []
    else [if IdValue(users[0].id) == id then users[0].(co2Goal := goal) else users[0]] + SetGoal(users[1..], id, goal)
  }

  /** `UPDATE users SET theme = ? WHERE id = ?`. */
  function SetTheme(users: seq<UserRow>, id: Value, theme: Value): (r: seq<UserRow>)
    ensures |r| == |users|
    ensures forall i :: 0 <= i < |users| ==>
      r[i] == if IdValue(users[i].id) == id then users[i].(theme := theme) else users[i]
  {
    if users == [] then []
    else [if IdValue(users[0].id) == id then users[0].(theme := theme) else users[0]] + SetTheme(users[1..], id, theme)
  }

  datatype SaveResponse = SaveDenied(why: AuthResult) | ValueRequired | SaveFailed | SavedValue(value: Value)

  datatype RegisterResponse = RegisterMissingFields | RegisterServerError | RegisterFailed | Registered

  /** The six fields registration requires; the location is not among them. */
  predicate RegistrationComplete(name: Value, email: Value, password: Value, mobile: Value, age: Value, role: Value)
  {
    Truthy(name) && Truthy(email) && Truthy(password) && Truthy(mobile) && Truthy(age) && Truthy(role)
  }

  /** Registration always stores location 1, whatever location is sent. */
  const RegisteredLocation: nat := 1

  class UserTable {
    var users: seq<UserRow>
    var nextId: nat

    /** Auto-increment ids, and the unique key on `email`. */
    ghost predicate Valid()
      reads this
    {
      && (forall i :: 0 <= i < |users| ==> users[i].id < nextId)
      && (forall i, k :: 0 <= i < k < |users| ==> users[i].id < users[k].id)
      && (forall i, k :: 0 <= i < k < |users| ==> users[i].email != users[k].email)
    }

    constructor()
      ensures Valid() && users == []
    {
      users := [];
      nextId := 1;
    }

    /** `/register`: the six required fields, then bcrypt (which rejects a
        non-string password), then the INSERT, which the unique email key or a
        database error turns into a 500. */
    method Register(name: Value, email: Value, password: Value, mobile: Value, location: Value, age: Value,
                    role: Value, h: Hasher, salt: string, dbFails: bool)
      returns (r: RegisterResponse)
      requires Valid()
      modifies this
      ensures Valid()
      ensures r == RegisterMissingFields <==> !RegistrationComplete(name, email, password, mobile, age, role)
      ensures r == RegisterServerError <==> RegistrationComplete(name, email, password, mobile, age, role) && !password.Str?
      ensures r == RegisterFailed <==>
        RegistrationComplete(name, email, password, mobile, age, role) && password.Str? &&
        (dbFails || FindByEmail(old(users), email).Some?)
      ensures r != Registered ==> unchanged(this)
      ensures r == Registered ==>
        users == old(users) + [UserRow(old(nextId), name, email, h.hash(password.s, salt), mobile,
                                       RegisteredLocation, age, role, Null, Null)]
    {
      if !RegistrationComplete(name, email, password, mobile, age, role) {
        return RegisterMissingFields;
      }
      if !password.Str? {
        return RegisterServerError;
      }
      var hashed := h.hash(password.s, salt);
      if dbFails || FindByEmail(users, email).Some? {
        return RegisterFailed;
      }
      users := users + [UserRow(nextId, name, email, hashed, mobile, RegisteredLocation, age, role, Null, Null)];
      nextId := nextId + 1;
      r := Registered;
    }

    /** `/save-goal`: the guard, then only an undefined goal is refused (0 and
        "" are saved); the update touches the co2_goal of the token's user and
        answers 200 even when no row has that id. */
    method SaveGoal(header: Option<string>, goal: Value, j: Jwt, secrets: Secrets, now: int, dbFails: bool)
      returns (r: SaveResponse)
      requires Valid()
      modifies this
      ensures Valid()
      ensures !Authenticate(header, j, secrets, now).Authenticated? ==>
        r == SaveDenied(Authenticate(header, j, secrets, now)) && unchanged(this)
      ensures Authenticate(header, j, secrets, now).Authenticated? ==>
        && (r == ValueRequired <==> goal.Undefined?)
        && (r == SaveFailed <==> !goal.Undefined? && dbFails)
        && (r != ValueRequired && r != SaveFailed ==> r == SavedValue(goal))
      ensures r.SavedValue? ==>
        users == SetGoal(old(users), Authenticate(header, j, secrets, now).claims.id, goal) && nextId == old(nextId)
      ensures !r.SavedValue? ==> unchanged(this)
    {
      var auth := Authenticate(header, j, secrets, now);
      if !auth.Authenticated? {
        return SaveDenied(auth);
      }
      if goal.Undefined? {
        return ValueRequired;
      }
      if dbFails {
        return SaveFailed;
      }
      users := SetGoal(users, auth.claims.id, goal);
      r := SavedValue(goal);
    }

    /** `/save-theme`: the guard, then any falsy theme is refused; the update
        touches the theme of the token's user only. */
    method SaveTheme(header: Option<string>, theme: Value, j: Jwt, secrets: Secrets, now: int, dbFails: bool)
      returns (r: SaveResponse)
      requires Valid()
      modifies this
      ensures Valid()
      ensures !Authenticate(header, j, secrets, now).Authenticated? ==>
        r == SaveDenied(Authenticate(header, j, secrets, now)) && unchanged(this)
      ensures Authenticate(header, j, secrets, now).Authenticated? ==>
        && (r == ValueRequired <==> !Truthy(theme))
        && (r == SaveFailed <==> Truthy(theme) && dbFails)
        && (r != ValueRequired && r != SaveFailed ==> r == SavedValue(theme))
      ensures r.SavedValue? ==>
        users == SetTheme(old(users), Authenticate(header, j, secrets, now).claims.id, theme) && nextId == old(nextId)
      ensures !r.SavedValue? ==> unchanged(this)
    {
      var auth := Authenticate(header, j, secrets, now);
      if !auth.Authenticated? {
        return SaveDenied(auth);
      }
      if !Truthy(theme) {
        return ValueRequired;
      }
      if dbFails {
        return SaveFailed;
      }
      users := SetTheme(users, auth.claims.id, theme);
      r := SavedValue(theme);
    }
  }

  /** After a successful registration the same email and password log in, and
      the tokens name the new user. */
  lemma LoginAfterRegister(users: seq<UserRow>, row: UserRow, password: string, salt: string, h: Hasher,
                           j: Jwt, secrets: Secrets, now: int)
    requires SoundHasher(h)
    requires FindByEmail(users, row.email).None? && Truthy(row.email) && password != ""
    requires row.passwordHash == h.hash(password, salt)
    ensures var r := Login(users + [row], row.email, Str(password), h, j, secrets, now, false);
      r.LoggedIn? && r.userId == row.id && r.role == row.role
  {
    var all := users + [row];
    var k := FindByEmail(all, row.email);
    assert all[|users|].email == row.email;
  }

  /** The update changes one column of the rows with the token's id and nothing else. */
  lemma SetGoalTouchesOneColumn(users: seq<UserRow>, id: Value, goal: Value, i: nat)
    requires i < |users|
    ensures var r := SetGoal(users, id, goal);
      && r[i].(co2Goal := users[i].co2Goal) == users[i]
      && (IdValue(users[i].id) != id ==> r[i] == users[i])
      && (IdValue(users[i].id) == id ==> r[i].co2Goal == goal)
  {
  }
}

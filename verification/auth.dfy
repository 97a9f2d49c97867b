/** Registration and login against the user table, and the claims a login
    puts in its token. Password hashing and token signing stay abstract: the
    hash is a parameter with the one property the code relies on, and the token
    is its claims record. */
module Auth {
  import opened Basics
  import opened Store
  import opened Replies

  datatype RegisterDto = RegisterDto(username: string, password: string, role: string)

  datatype LoginDto = LoginDto(username: string, password: string)

  /** The random salt BCrypt draws for every new hash. */
  type Salt = nat

  /** A password hasher: `hash` salts and hashes, `verify` checks a password
      against a stored hash. */
  datatype Hasher = Hasher(hash: (string, Salt) -> string, verify: (string, string) -> bool)

  /** The one promise of the hasher: a password verifies against every hash of itself. */
  ghost predicate Sound(h: Hasher)
  {
    forall p, s :: h.verify(p, h.hash(p, s))
  }

  // ---------------------------------------------------------------------------
  // Tokens

  /** The claim types the login issues. */
  datatype ClaimKind = SubClaim | NameClaim | RoleClaim | JtiClaim {
    /** The claim type as written into the token. */
    function Uri(): string
    {
      match this
      case SubClaim => "sub"
      case NameClaim => "http://schemas.xmlsoap.org/ws/2005/05/identity/claims/name"
      case RoleClaim => "http://schemas.microsoft.com/ws/2008/06/identity/claims/role"
      case JtiClaim => "jti"
    }
  }

  /** No two claim kinds share a claim type, so a lookup by kind is a lookup
      by the type string the token carries. */
  lemma ClaimTypesDistinct(a: ClaimKind, b: ClaimKind)
    ensures a.Uri() == b.Uri() <==> a == b
  {
    if a != b {
      assert |a.Uri()| != |b.Uri()| || a.Uri()[0] != b.Uri()[0];
    }
  }

  datatype Claim = Claim(kind: ClaimKind, value: string)

  /** Issuer and audience read from the configuration. */
  datatype JwtSettings = JwtSettings(issuer: string, audience: string)

  /** A token as its claims; the signature is not modelled. */
  datatype Token = Token(claims: seq<Claim>, issuer: string, audience: string, expires: Time)

  /** The value of the first claim of kind `kind`, if any. */
  function ClaimValue(claims: seq<Claim>, kind: ClaimKind): (r: Option<string>)
    ensures r.None? <==> forall i :: 0 <= i < |claims| ==> claims[i].kind != kind
    ensures r.Some? ==> exists i :: 0 <= i < |claims| && claims[i] == Claim(kind, r.value)
  {
    if claims == [] then None
    else if claims[0].kind == kind then Some(claims[0].value)
    else ClaimValue(claims[1..], kind)
  }

  /** Looking a kind up in a list skips a first claim of another kind. */
  lemma ClaimValueCons(c: Claim, rest: seq<Claim>, kind: ClaimKind)
    ensures ClaimValue([c] + rest, kind) == if c.kind == kind then Some(c.value) else ClaimValue(rest, kind)
  {
    assert ([c] + rest)[1..] == rest;
  }

  /** Looking up each kind in the login's four claims finds its own value. */
  /** The value of the first claim whose type string is `claimType`: how a
      token reader looks a claim up. */
  function ClaimValueByType(claims: seq<Claim>, claimType: string): (r: Option<string>)
  {
    if claims == [] then None
    else if claims[0].kind.Uri() == claimType then Some(claims[0].value)
    else ClaimValueByType(claims[1..], claimType)
  }

  /** Looking a claim up by its type string finds what looking it up by kind finds. */
  lemma {:induction false} LookupByTypeIsLookupByKind(claims: seq<Claim>, kind: ClaimKind)
    ensures ClaimValueByType(claims, kind.Uri()) == ClaimValue(claims, kind)
  {
    if claims != [] {
      ClaimTypesDistinct(claims[0].kind, kind);
      LookupByTypeIsLookupByKind(claims[1..], kind);
    }
  }

  lemma LoginClaimsLookup(username: string, role: string, jti: string)
    ensures var claims := [Claim(SubClaim, username), Claim(NameClaim, username),
                           Claim(RoleClaim, role), Claim(JtiClaim, jti)];
            && ClaimValue(claims, SubClaim) == Some(username)
            && ClaimValue(claims, NameClaim) == Some(username)
            && ClaimValue(claims, RoleClaim) == Some(role)
            && ClaimValue(claims, JtiClaim) == Some(jti)
  {
    var last := [Claim(JtiClaim, jti)];
    var tail2 := [Claim(RoleClaim, role)] + last;
    var tail1 := [Claim(NameClaim, username)] + tail2;
    var claims := [Claim(SubClaim, username)] + tail1;
    ClaimValueCons(Claim(JtiClaim, jti), [], JtiClaim);
    ClaimValueCons(Claim(RoleClaim, role), last, JtiClaim);
    ClaimValueCons(Claim(RoleClaim, role), last, RoleClaim);
    ClaimValueCons(Claim(NameClaim, username), tail2, JtiClaim);
    ClaimValueCons(Claim(NameClaim, username), tail2, RoleClaim);
    ClaimValueCons(Claim(NameClaim, username), tail2, NameClaim);
    ClaimValueCons(Claim(SubClaim, username), tail1, JtiClaim);
    ClaimValueCons(Claim(SubClaim, username), tail1, RoleClaim);
    ClaimValueCons(Claim(SubClaim, username), tail1, NameClaim);
    ClaimValueCons(Claim(SubClaim, username), tail1, SubClaim);
    assert claims == [Claim(SubClaim, username), Claim(NameClaim, username),
                      Claim(RoleClaim, role), Claim(JtiClaim, jti)];
  }

  /** Of four claims whose only role claim is the third, every role claim
      carries the third one's value. */
  lemma SingleRoleClaim(claims: seq<Claim>)
    requires |claims| == 4 && claims[0].kind != RoleClaim && claims[1].kind != RoleClaim && claims[3].kind != RoleClaim
    ensures forall i :: 0 <= i < |claims| && claims[i].kind == RoleClaim ==> claims[i].value == claims[2].value
  {
  }

  /** The token issued to `user` at time `now`; `jti` is the fresh GUID. */
  function GenerateToken(user: User, settings: JwtSettings, jti: string, now: Time): (t: Token)
    ensures ClaimValue(t.claims, SubClaim) == Some(user.username)
    ensures ClaimValue(t.claims, NameClaim) == Some(user.username)
    ensures ClaimValue(t.claims, RoleClaim) == Some(user.role)
    ensures ClaimValue(t.claims, JtiClaim) == Some(jti)
    ensures |t.claims| == 4
    ensures forall i :: 0 <= i < |t.claims| && t.claims[i].kind == RoleClaim ==> t.claims[i].value == user.role
    ensures t.expires == now + SecondsPerHour
    ensures t.issuer == settings.issuer && t.audience == settings.audience
  {
    var claims := [
      Claim(SubClaim, user.username),
      Claim(NameClaim, user.username),
      Claim(RoleClaim, user.role),
      Claim(JtiClaim, jti)
    ];
    LoginClaimsLookup(user.username, user.role, jti);
    SingleRoleClaim(claims);
    Token(claims, settings.issuer, settings.audience, now + SecondsPerHour)
  }

  /** A reader of an issued token who looks up the role claim's type string
      gets the stored role, and the name claim's type string the username. */
  lemma IssuedTokenByType(user: User, settings: JwtSettings, jti: string, now: Time)
    ensures var t := GenerateToken(user, settings, jti, now);
            && ClaimValueByType(t.claims, RoleClaim.Uri()) == Some(user.role)
            && ClaimValueByType(t.claims, NameClaim.Uri()) == Some(user.username)
            && ClaimValueByType(t.claims, SubClaim.Uri()) == Some(user.username)
            && ClaimValueByType(t.claims, JtiClaim.Uri()) == Some(jti)
  {
    var t := GenerateToken(user, settings, jti, now);
    LookupByTypeIsLookupByKind(t.claims, RoleClaim);
    LookupByTypeIsLookupByKind(t.claims, NameClaim);
    LookupByTypeIsLookupByKind(t.claims, SubClaim);
    LookupByTypeIsLookupByKind(t.claims, JtiClaim);
  }

  // ---------------------------------------------------------------------------
  // Register

  const UsernameTaken := "Username already exists."
  const Registered := "User registered successfully"

  predicate UsernameInUse(users: map<Id, User>, username: string)
  {
    exists id :: id in users && users[id].username == username
  }

  /** The row a registration stores: no full name, e-mail or phone, active,
      created now. */
  function NewUser(dto: RegisterDto, h: Hasher, salt: Salt, now: Time): User
  {
    User(None, dto.username, h.hash(dto.password, salt), None, None, dto.role, true, now)
  }

  function Register(db: Db, h: Hasher, salt: Salt, now: Time, dto: RegisterDto): (r: Step)
    requires db.Valid()
    ensures r.db.Valid()
    ensures r.reply.BadRequest? <==> exists id :: id in db.users.rows && db.users.rows[id].username == dto.username
    ensures r.reply.BadRequest? ==> r.reply.reason == UsernameTaken && r.db == db
    ensures !r.reply.BadRequest? ==>
              var id := db.users.next;
              && r.reply == Ok(Registered)
              && id !in db.users.rows
              && r.db.users.rows.Keys == db.users.rows.Keys + {id}
              && (forall k :: k in db.users.rows ==> r.db.users.rows[k] == db.users.rows[k])
              // no full name, e-mail or phone; active; stamped with the request time
              && r.db.users.rows[id] == User(None, dto.username, h.hash(dto.password, salt), None, None, dto.role, true, now)
              && r.db.(users := db.users) == db
  {
    if UsernameInUse(db.users.rows, dto.username) then
      Step(BadRequest(UsernameTaken), db)
    else
      Step(Ok(Registered), db.(users := db.users.Insert(NewUser(dto, h, salt, now))))
  }

  // ---------------------------------------------------------------------------
  // Login

  const InvalidCredentials := "Invalid credentials"

  /** A login either yields a token, is refused, or fails on the server: the
      single-row lookup throws when two users share the name. */
  datatype LoginReply = LoginOk(token: Token) | Unauthorized(message: string) | ServerError

  function UsersNamed(users: map<Id, User>, username: string): (ids: set<Id>)
    ensures forall id :: id in ids <==> id in users && users[id].username == username
  {
    set id | id in users && users[id].username == username
  }

  /** A set of one element holds that element only. */
  lemma SingletonElement(s: set<Id>)
    requires |s| == 1
    ensures exists x :: x in s
    ensures forall a, b :: a in s && b in s ==> a == b
  {
    EmptyOrInhabited(s);
    var x :| x in s;
    assert |s - {x}| == 0;
    EmptyOrInhabited(s - {x});
  }

  function Login(db: Db, h: Hasher, settings: JwtSettings, jti: string, now: Time, dto: LoginDto): (r: LoginReply)
    ensures r.ServerError? <==> |UsersNamed(db.users.rows, dto.username)| > 1
    ensures r.Unauthorized? ==> r.message == InvalidCredentials
    ensures !UsernameInUse(db.users.rows, dto.username) ==> r == Unauthorized(InvalidCredentials)
    ensures r.LoginOk? ==>
              exists id :: id in db.users.rows && db.users.rows[id].username == dto.username
                && h.verify(dto.password, db.users.rows[id].passwordHash)
                && r.token == GenerateToken(db.users.rows[id], settings, jti, now)
    ensures forall id :: id in db.users.rows && UsersNamed(db.users.rows, dto.username) == {id} ==>
              (r.LoginOk? <==> h.verify(dto.password, db.users.rows[id].passwordHash))
  {
    var ids := UsersNamed(db.users.rows, dto.username);
    EmptyOrInhabited(ids);
    if |ids| > 1 then ServerError
    else if |ids| == 0 then
      Unauthorized(InvalidCredentials)
    else
      SingletonElement(ids);
      var id :| id in ids;
      var user := db.users.rows[id];
      if !h.verify(dto.password, user.passwordHash) then Unauthorized(InvalidCredentials)
      else LoginOk(GenerateToken(user, settings, jti, now))
  }
}

/** Properties of the credential store that relate several calls. */
module AuthProperties {
  import opened Basics
  import opened Store
  import opened Replies
  import opened Auth

  /** With unique usernames the single-row lookup never throws, so login never
      fails on the server. */
  lemma LoginNeverFailsOnValidStore(db: Db, h: Hasher, settings: JwtSettings, jti: string, now: Time, dto: LoginDto)
    requires db.Valid()
    ensures !Login(db, h, settings, jti, now, dto).ServerError?
  {
    var ids := UsersNamed(db.users.rows, dto.username);
    EmptyOrInhabited(ids);
    if ids != {} {
      var x :| x in ids;
      forall e | e in ids ensures e == x {
        assert db.users.rows[e].username == db.users.rows[x].username;
      }
      assert ids == {x};
    }
  }

  /** An unknown username and a wrong password get the very same answer, so a
      caller cannot tell which check failed. */
  lemma UnknownUserLooksLikeWrongPassword(
    db1: Db, db2: Db, h: Hasher, settings: JwtSettings, jti: string, now: Time,
    username: string, password1: string, password2: string, id: Id)
    requires !UsernameInUse(db1.users.rows, username)
    requires db2.Valid()
    requires id in db2.users.rows && db2.users.rows[id].username == username
    requires !h.verify(password2, db2.users.rows[id].passwordHash)
    ensures Login(db1, h, settings, jti, now, LoginDto(username, password1))
         == Login(db2, h, settings, jti, now, LoginDto(username, password2))
         == Unauthorized(InvalidCredentials)
  {
    var ids := UsersNamed(db2.users.rows, username);
    forall e | e in ids ensures e == id {
      assert db2.users.rows[e].username == db2.users.rows[id].username;
    }
    assert ids == {id};
  }

  /** Whoever registers can log in straight away with the same name and
      password, and the token carries the registered name and role. */
  lemma RegisterThenLogin(
    db: Db, h: Hasher, salt: Salt, now: Time, dto: RegisterDto,
    settings: JwtSettings, jti: string, later: Time)
    requires db.Valid() && Sound(h)
    requires !UsernameInUse(db.users.rows, dto.username)
    ensures var r := Register(db, h, salt, now, dto);
            var reply := Login(r.db, h, settings, jti, later, LoginDto(dto.username, dto.password));
            && r.reply == Ok(Registered)
            && reply.LoginOk?
            && ClaimValue(reply.token.claims, SubClaim) == Some(dto.username)
            && ClaimValue(reply.token.claims, NameClaim) == Some(dto.username)
            && ClaimValue(reply.token.claims, RoleClaim) == Some(dto.role)
            && reply.token.expires == later + SecondsPerHour
  {
    var r := Register(db, h, salt, now, dto);
    var id := db.users.next;
    var ids := UsersNamed(r.db.users.rows, dto.username);
    forall e | e in ids ensures e == id {
      assert r.db.users.rows[e].username == r.db.users.rows[id].username;
    }
    assert ids == {id};
    assert h.verify(dto.password, h.hash(dto.password, salt));
  }
}

/**
 * The node's HTTP authentication: the table of live HTTP sessions, keyed by
 * the user id of their owner, and the classification of the Authorization
 * header into HTTP Basic credentials (section 2 of RFC 7617) and Bearer tokens
 * (section 2.1 of RFC 6750).
 *
 * Foreign collaborators are parameters: the clock (`now`, in milliseconds),
 * the JWT parser (`parse`), `UUID.fromString` (`parseUuid`), the Base64
 * decoder followed by UTF-8 decoding (`decode`), and the permission store
 * (`Permissions`).
 */
module HttpAuthentication {
  import opened Wrappers
  import opened LoginResults

  /** The string form of a java.util.UUID. */
  type Uuid = string

  datatype PermissionUser = PermissionUser(uniqueId: Uuid, name: string)

  /**
   * The permission store as seen from here: users by unique id (what a session's
   * `user()` looks up), users by name, in the store's order, and the password check.
   */
  datatype Permissions = Permissions(
    users: map<Uuid, PermissionUser>,
    usersByName: string -> seq<PermissionUser>,
    checkPassword: (PermissionUser, string) -> bool)

  /** The store hands out, for an id, a user carrying that id. */
  ghost predicate Consistent(perms: Permissions)
  {
    forall id :: id in perms.users ==> perms.users[id].uniqueId == id
  }

  /** An HTTP session: when it expires, whose it is, and its own id (the JWT id). */
  datatype HttpSession = HttpSession(expireTime: int, userId: Uuid, uniqueId: string)

  /** The session table, keyed by the owner's user id. */
  type Table = map<Uuid, HttpSession>

  /** The claims put into a JWT for a session (signing and the issue date are not modelled). */
  datatype Jwt = Jwt(subject: string, id: string, uniqueId: Uuid, expiration: int)

  /** What the JWT parser makes of a compact token. */
  datatype JwtParse =
    | Claims(id: string, uniqueIdClaim: string)
    | Expired(message: string)    // ExpiredJwtException
    | Premature(message: string)  // PrematureJwtException
    | Rejected                    // any other JwtException or IllegalArgumentException

  const BearerLoginFailed: LoginResult<HttpSession> := Failure(Some("Unable to process bearer login"))
  const BearerLoginUserGone: LoginResult<HttpSession> := Failure(Some("Unable to process bearer login: user gone"))
  const BasicLoginFailed: LoginResult<PermissionUser> := Failure(Some("No matching user for provided basic login credentials"))

  // ---------------------------------------------------------------------------
  // The session table

  /**
   * The table invariant: each session is filed under its owner's user id, and
   * no two sessions share a session id (session ids are random UUIDs).
   */
  ghost predicate WellKeyed(s: Table)
  {
    && (forall k :: k in s ==> s[k].userId == k)
    && (forall k1, k2 :: k1 in s && k2 in s && s[k1].uniqueId == s[k2].uniqueId ==> k1 == k2)
  }

  /** The table after `cleanup`: the entries whose expiry is still ahead of `now`. */
  function Live(s: Table, now: int): (r: Table)
    ensures forall k :: k in r ==> k in s && r[k] == s[k] && r[k].expireTime > now
    ensures forall k :: k in s && s[k].expireTime > now ==> k in r
    ensures WellKeyed(s) ==> WellKeyed(r)
  {
    map k | k in s && s[k].expireTime > now :: s[k]
  }

  /** The session with session id `id`, if the table holds one. */
  ghost function SessionWithId(s: Table, id: string): (r: Option<HttpSession>)
    requires WellKeyed(s)
    ensures r.None? <==> forall k :: k in s ==> s[k].uniqueId != id
    ensures r.Some? ==> r.value.userId in s && s[r.value.userId] == r.value && r.value.uniqueId == id
  {
    if exists k :: k in s && s[k].uniqueId == id then
      var k :| k in s && s[k].uniqueId == id;
      Some(s[k])
    else
      None
  }

  const LongMin: int := -0x8000_0000_0000_0000
  const LongMax: int := 0x7fff_ffff_ffff_ffff

  /** Java's `long` addition: the sum wrapped into 64-bit two's complement. */
  function AddLong(a: int, b: int): (r: int)
    ensures LongMin <= r <= LongMax
    ensures (a + b - r) % 0x1_0000_0000_0000_0000 == 0
    ensures LongMin <= a + b <= LongMax ==> r == a + b
  {
    (a + b - LongMin) % 0x1_0000_0000_0000_0000 + LongMin
  }

  /**
   * The table after `createJwt`: cleaned up, then `computeIfAbsent` under the
   * subject's id with a new session expiring `sessionTime` after `now`, the
   * sum taken as a `long`.
   */
  function Created(s: Table, userId: Uuid, now: int, sessionTime: int, sessionId: string): Table
  {
    var live := Live(s, now);
    if userId in live then live else live[userId := HttpSession(AddLong(now, sessionTime), userId, sessionId)]
  }

  function GenerateJwt(subject: PermissionUser, session: HttpSession): Jwt
  {
    Jwt(subject.name, session.uniqueId, subject.uniqueId, session.expireTime)
  }

  // ---------------------------------------------------------------------------
  // The Authorization header

  predicate IsBasicTokenChar(c: char)
  {
    'a' <= c <= 'z' || 'A' <= c <= 'Z' || '0' <= c <= '9' || c == '='
  }

  predicate IsBearerTokenChar(c: char)
  {
    'a' <= c <= 'z' || 'A' <= c <= 'Z' || '0' <= c <= '9' || c == '-' || c == '_' || c == '.'
  }

  function AllOf(s: string, allowed: char -> bool): (b: bool)
    ensures b <==> forall i :: 0 <= i < |s| ==> allowed(s[i])
  {
    if s == [] then true
    else
      var rest := AllOf(s[1..], allowed);
      assert forall i :: 1 <= i < |s| ==> s[i] == s[1..][i - 1];
      allowed(s[0]) && rest
  }

  /**
   * The capturing group of the pattern `<scheme>([allowed]+)$`, when the whole
   * header matches it.
   */
  function MatchScheme(header: string, scheme: string, allowed: char -> bool): (token: Option<string>)
    ensures token.Some? <==> |header| > |scheme| && header[..|scheme|] == scheme
                             && forall i :: |scheme| <= i < |header| ==> allowed(header[i])
    ensures token.Some? ==> token.value != [] && header == scheme + token.value
  {
    if |header| > |scheme| && header[..|scheme|] == scheme && AllOf(header[|scheme|..], allowed) then
      assert forall i :: |scheme| <= i < |header| ==> header[i] == header[|scheme|..][i - |scheme|];
      Some(header[|scheme|..])
    else
      assert |header| > |scheme| && header[..|scheme|] == scheme ==>
        forall i :: 0 <= i < |header| - |scheme| ==> header[|scheme|..][i] == header[|scheme| + i];
      None
  }

  /** `Basic ([a-zA-Z\d=]+)$`, matched against the whole header. */
  function BasicToken(header: string): Option<string>
  {
    MatchScheme(header, "Basic ", IsBasicTokenChar)
  }

  /** `Bearer ([a-zA-Z\d-_.]+)$`, matched against the whole header. */
  function BearerToken(header: string): Option<string>
  {
    MatchScheme(header, "Bearer ", IsBearerTokenChar)
  }

  /** `split(":", 2)` when it yields two parts: the text before the first colon and the rest. */
  function SplitAtFirstColon(s: string): (r: Option<(string, string)>)
    ensures r.None? <==> ':' !in s
    ensures r.Some? ==> s == r.value.0 + ":" + r.value.1 && ':' !in r.value.0
  {
    if s == [] then None
    else if s[0] == ':' then Some(([], s[1..]))
    else match SplitAtFirstColon(s[1..])
      case None => None
      case Some((user, password)) => Some(([s[0]] + user, password))
  }

  /** The first user, in the store's order, whose password check accepts `password`. */
  function FirstAccepted(users: seq<PermissionUser>, password: string, check: (PermissionUser, string) -> bool)
    : (r: Option<PermissionUser>)
    ensures r.None? <==> forall i :: 0 <= i < |users| ==> !check(users[i], password)
    ensures r.Some? ==> exists i :: 0 <= i < |users| && users[i] == r.value && check(users[i], password)
                                   && forall j :: 0 <= j < i ==> !check(users[j], password)
  {
    if users == [] then None
    else if check(users[0], password) then Some(users[0])
    else
      var r := FirstAccepted(users[1..], password, check);
      assert forall i :: 1 <= i < |users| ==> users[i] == users[1..][i - 1];
      r
  }

  /** What `handleBasicLoginRequest` does; the decoder's exception is not caught. */
  datatype BasicOutcome = Returned(login: LoginResult<PermissionUser>) | DecoderThrew

  function BasicLogin(header: Option<string>, perms: Permissions, decode: string -> Option<string>): BasicOutcome
  {
    if header.None? then Returned(UndefinedFailure())
    else match BasicToken(header.value)
      case None => Returned(UndefinedFailure())
      case Some(token) =>
        match decode(token)
        case None => DecoderThrew
        case Some(credentials) =>
          match SplitAtFirstColon(credentials)
          case None => Returned(BasicLoginFailed)
          case Some((name, password)) =>
            match FirstAccepted(perms.usersByName(name), password, perms.checkPassword)
            case None => Returned(BasicLoginFailed)
            case Some(user) => Returned(Success(user))
  }

  /** A bearer login's result and the session table it leaves behind. */
  datatype BearerStep = BearerStep(login: LoginResult<HttpSession>, table: Table)

  /** What `handleBearerLoginRequest` does to a table `s` at time `now`. */
  ghost function BearerLogin(s: Table, header: Option<string>, parse: string -> JwtParse,
                             parseUuid: string -> Option<Uuid>, perms: Permissions, now: int): BearerStep
    requires WellKeyed(s)
  {
    if header.None? then BearerStep(UndefinedFailure(), s)
    else match BearerToken(header.value)
      case None => BearerStep(UndefinedFailure(), s)
      case Some(token) =>
        match parse(token)
        case Expired(message) => BearerStep(Failure(Some(message)), s)
        case Premature(message) => BearerStep(Failure(Some(message)), s)
        case Rejected => BearerStep(BearerLoginFailed, s)
        case Claims(id, uniqueIdClaim) =>
          var live := Live(s, now);
          match SessionWithId(live, id)
          case None => BearerStep(BearerLoginFailed, live)
          case Some(session) =>
            if session.userId !in perms.users then
              BearerStep(BearerLoginUserGone, live - {session.userId})
            else match parseUuid(uniqueIdClaim)
              case None => BearerStep(BearerLoginFailed, live)
              case Some(claimed) =>
                if perms.users[session.userId].uniqueId == claimed then BearerStep(Success(session), live)
                else BearerStep(BearerLoginFailed, live)
  }

  // ---------------------------------------------------------------------------
  // The authentication service

  class V2HttpAuthentication {
    var sessions: Table

    ghost predicate Valid()
      reads this
    {
      WellKeyed(sessions)
    }

    constructor ()
      ensures Valid() && sessions == map[]
    {
      sessions := map[];
    }

    /** Removes every session whose expiry is not after `now`. */
    method Cleanup(now: int)
      requires Valid()
      modifies this
      ensures Valid()
      ensures sessions == Live(old(sessions), now)
    {
      var pending := sessions.Keys;
      while pending != {}
        invariant pending <= old(sessions).Keys
        invariant sessions == map k | k in old(sessions) && (k in pending || old(sessions)[k].expireTime > now) :: old(sessions)[k]
        decreases pending
      {
        var k :| k in pending;
        if sessions[k].expireTime <= now {
          sessions := sessions - {k};
        }
        pending := pending - {k};
      }
    }

    /** `sessions()`: the table, cleaned up first. */
    method Sessions(now: int) returns (table: Table)
      requires Valid()
      modifies this
      ensures Valid()
      ensures sessions == Live(old(sessions), now) && table == sessions
    {
      Cleanup(now);
      table := sessions;
    }

    /** Opens a session for `subject` unless a live one exists, and issues a JWT for it. */
    method CreateJwt(subject: PermissionUser, sessionTimeMillis: int, now: int, newSessionId: string) returns (jwt: Jwt)
      requires Valid()
      requires forall k :: k in sessions ==> sessions[k].uniqueId != newSessionId
      modifies this
      ensures Valid()
      ensures sessions == Created(old(sessions), subject.uniqueId, now, sessionTimeMillis, newSessionId)
      ensures subject.uniqueId in sessions && jwt == GenerateJwt(subject, sessions[subject.uniqueId])
    {
      var table := Sessions(now);
      var key := subject.uniqueId;
      if key !in table {
        sessions := sessions[key := HttpSession(AddLong(now, sessionTimeMillis), key, newSessionId)];
      }
      jwt := GenerateJwt(subject, sessions[key]);
    }

    /** The live session whose session id is `id`. */
    method SessionById(id: string, now: int) returns (r: Option<HttpSession>)
      requires Valid()
      modifies this
      ensures Valid()
      ensures sessions == Live(old(sessions), now) && r == SessionWithId(sessions, id)
      ensures r.Some? ==> r.value.uniqueId == id && r.value.expireTime > now
    {
      var table := Sessions(now);
      var pending := table.Keys;
      while pending != {}
        invariant pending <= table.Keys
        invariant forall k :: k in table && k !in pending ==> table[k].uniqueId != id
        decreases pending
      {
        var k :| k in pending;
        if table[k].uniqueId == id {
          return Some(table[k]);
        }
        pending := pending - {k};
      }
      r := None;
    }

    /** `handleBasicLoginRequest`: reads the permission store only. */
    method HandleBasicLogin(header: Option<string>, perms: Permissions, decode: string -> Option<string>)
      returns (out: BasicOutcome)
      ensures out == BasicLogin(header, perms, decode)
    {
      if header.None? {
        return Returned(UndefinedFailure());
      }
      var token := BasicToken(header.value);
      if token.None? {
        return Returned(UndefinedFailure());
      }
      var credentials := decode(token.value);
      if credentials.None? {
        return DecoderThrew;
      }
      var auth := SplitAtFirstColon(credentials.value);
      if auth.Some? {
        var (name, password) := auth.value;
        var users := perms.usersByName(name);
        for i := 0 to |users|
          invariant forall j :: 0 <= j < i ==> !perms.checkPassword(users[j], password)
        {
          if perms.checkPassword(users[i], password) {
            FirstAcceptedIs(users, password, perms.checkPassword, i);
            return Returned(Success(users[i]));
          }
        }
      }
      out := Returned(BasicLoginFailed);
    }

    /** `handleBearerLoginRequest`. */
    method HandleBearerLogin(header: Option<string>, parse: string -> JwtParse, parseUuid: string -> Option<Uuid>,
                             perms: Permissions, now: int) returns (login: LoginResult<HttpSession>)
      requires Valid()
      modifies this
      ensures Valid()
      ensures var step := BearerLogin(old(sessions), header, parse, parseUuid, perms, now);
        login == step.login && sessions == step.table
    {
      if header.None? {
        return UndefinedFailure();
      }
      var token := BearerToken(header.value);
      if token.None? {
        return UndefinedFailure();
      }
      match parse(token.value)
      case Expired(message) =>
        login := Failure(Some(message));
      case Premature(message) =>
        login := Failure(Some(message));
      case Rejected =>
        login := BearerLoginFailed;
      case Claims(id, uniqueIdClaim) =>
        var session := SessionById(id, now);
        if session.None? {
          return BearerLoginFailed;
        }
        var userId := session.value.userId;
        if userId !in perms.users {
          // the session outlived its owner: drop it
          sessions := sessions - {userId};
          return BearerLoginUserGone;
        }
        // the uniqueId claim must name the session owner
        var claimed := parseUuid(uniqueIdClaim);
        if claimed.Some? && perms.users[userId].uniqueId == claimed.value {
          login := Success(session.value);
        } else {
          login := BearerLoginFailed;
        }
    }

    /**
     * `expireSession(session)`: removes the entry of the session's user. `None`
     * is the NullPointerException of `session.user()` when that user is gone;
     * the table is then untouched.
     */
    method ExpireSession(session: HttpSession, perms: Permissions) returns (removed: Option<bool>)
      requires Valid()
      modifies this
      ensures Valid()
      ensures session.userId !in perms.users ==> removed.None? && sessions == old(sessions)
      ensures session.userId in perms.users ==>
        var key := perms.users[session.userId].uniqueId;
        removed == Some(key in old(sessions)) && sessions == old(sessions) - {key}
    {
      if session.userId !in perms.users {
        return None;
      }
      var key := perms.users[session.userId].uniqueId;
      removed := Some(key in sessions);
      sessions := sessions - {key};
    }

    /** `expireSession(request)`: expires the session of a successful bearer login, else returns false. */
    method ExpireSessionOf(header: Option<string>, parse: string -> JwtParse, parseUuid: string -> Option<Uuid>,
                           perms: Permissions, now: int) returns (removed: bool)
      requires Valid()
      modifies this
      ensures Valid()
      ensures var step := BearerLogin(old(sessions), header, parse, parseUuid, perms, now);
        if step.login.Succeeded() then
          var key := perms.users[step.login.result.value.userId].uniqueId;
          removed == (key in step.table) && sessions == step.table - {key}
        else
          !removed && sessions == step.table
    {
      var login := HandleBearerLogin(header, parse, parseUuid, perms, now);
      if login.Succeeded() {
        BearerSuccessMeans(old(sessions), header, parse, parseUuid, perms, now);
        var outcome := ExpireSession(login.result.value, perms);
        removed := outcome.value;
      } else {
        removed := false;
      }
    }

    /**
     * `refreshJwt(session, lifetime)`: `session.refreshFor(lifetime)` sets the
     * expiry to `refreshedExpireTime`; the table sees the change when it holds
     * that session. Then issues a JWT for the refreshed session, or (`None`)
     * throws the NullPointerException of `session.user()` when that user is
     * gone, after the refresh has already happened.
     */
    method RefreshJwt(session: HttpSession, perms: Permissions, refreshedExpireTime: int) returns (jwt: Option<Jwt>)
      requires Valid()
      modifies this
      ensures Valid()
      ensures var refreshed := session.(expireTime := refreshedExpireTime);
        && sessions == (if session.userId in old(sessions) && old(sessions)[session.userId] == session
                        then old(sessions)[session.userId := refreshed] else old(sessions))
        && (jwt.None? <==> session.userId !in perms.users)
        && (jwt.Some? ==> jwt.value == GenerateJwt(perms.users[session.userId], refreshed))
    {
      var refreshed := session.(expireTime := refreshedExpireTime);
      if session.userId in sessions && sessions[session.userId] == session {
        sessions := sessions[session.userId := refreshed];
      }
      if session.userId !in perms.users {
        return None;
      }
      jwt := Some(GenerateJwt(perms.users[session.userId], refreshed));
    }

    /** `refreshJwt(request, lifetime)`: refreshes the session of a successful bearer login. */
    method RefreshJwtOf(header: Option<string>, parse: string -> JwtParse, parseUuid: string -> Option<Uuid>,
                        perms: Permissions, now: int, refreshedExpireTime: int)
      returns (r: LoginResult<(HttpSession, Jwt)>)
      requires Valid()
      modifies this
      ensures Valid()
      ensures var step := BearerLogin(old(sessions), header, parse, parseUuid, perms, now);
        if step.login.Succeeded() then
          var session := step.login.result.value;
          var refreshed := session.(expireTime := refreshedExpireTime);
          && session.userId in perms.users
          && sessions == step.table[session.userId := refreshed]
          && r == Success((refreshed, GenerateJwt(perms.users[session.userId], refreshed)))
        else
          r == UndefinedFailure() && sessions == step.table
    {
      var login := HandleBearerLogin(header, parse, parseUuid, perms, now);
      if login.Succeeded() {
        BearerSuccessMeans(old(sessions), header, parse, parseUuid, perms, now);
        var session := login.result.value;
        var jwt := RefreshJwt(session, perms, refreshedExpireTime);
        r := Success((session.(expireTime := refreshedExpireTime), jwt.value));
      } else {
        r := UndefinedFailure();
      }
    }
  }

  // ---------------------------------------------------------------------------
  // Lemmas

  lemma FirstAcceptedIs(users: seq<PermissionUser>, password: string, check: (PermissionUser, string) -> bool, i: nat)
    requires i < |users| && check(users[i], password)
    requires forall j :: 0 <= j < i ==> !check(users[j], password)
    ensures FirstAccepted(users, password, check) == Some(users[i])
  {
  }

  /** A successful bearer login names a live session, of an existing user, that stays in the table under its user id. */
  lemma BearerSuccessMeans(s: Table, header: Option<string>, parse: string -> JwtParse,
                           parseUuid: string -> Option<Uuid>, perms: Permissions, now: int)
    requires WellKeyed(s)
    ensures var step := BearerLogin(s, header, parse, parseUuid, perms, now);
      step.login.Succeeded() ==>
        var session := step.login.result.value;
        && header.Some? && BearerToken(header.value).Some?
        && parse(BearerToken(header.value).value) == Claims(session.uniqueId, parse(BearerToken(header.value).value).uniqueIdClaim)
        && step.table == Live(s, now)
        && session.userId in step.table && step.table[session.userId] == session
        && session.expireTime > now
        && session.userId in perms.users
        && parseUuid(parse(BearerToken(header.value).value).uniqueIdClaim) == Some(perms.users[session.userId].uniqueId)
  {
  }

  /** Splitting undoes joining with a colon, as long as the user id holds no colon (section 2 of RFC 7617). */
  lemma {:induction false} SplitJoin(user: string, password: string)
    requires ':' !in user
    ensures SplitAtFirstColon(user + ":" + password) == Some((user, password))
  {
    if user != [] {
      SplitJoin(user[1..], password);
      assert (user + ":" + password)[1..] == user[1..] + ":" + password;
      assert [user[0]] + user[1..] == user;
    } else {
      assert (user + ":" + password)[1..] == password;
    }
  }

  /** A header is accepted exactly when it is the scheme followed by a non-empty run of allowed characters. */
  lemma SchemeRoundTrip(scheme: string, token: string, allowed: char -> bool)
    ensures MatchScheme(scheme + token, scheme, allowed)
         == if token != [] && forall i :: 0 <= i < |token| ==> allowed(token[i]) then Some(token) else None
  {
  }

  /**
   * The Basic pattern admits letters, digits and '=' only, so a payload that
   * uses the '+' or '/' of the Base64 alphabet (section 4 of RFC 4648) is
   * refused as if the header were not a Basic header at all.
   */
  lemma BasicRefusesPlusAndSlash(token: string)
    requires '+' in token || '/' in token
    ensures BasicToken("Basic " + token).None?
  {
  }

  /** No header is both a Basic and a Bearer header. */
  lemma SchemesExclusive(header: string)
    ensures BasicToken(header).Some? ==> BearerToken(header).None?
  {
  }

  /** Credentials without a colon never log in, whoever the users are. */
  lemma BasicWithoutColonFails(token: string, perms: Permissions, decode: string -> Option<string>)
    requires BasicToken("Basic " + token).Some?
    requires decode(token).Some? && ':' !in decode(token).value
    ensures BasicLogin(Some("Basic " + token), perms, decode) == Returned(BasicLoginFailed)
  {
  }

  /**
   * A successful Basic login decodes to `name:password`, split at the first
   * colon, and returns the first user of that name whose password check
   * accepts the password.
   */
  lemma BasicSuccessMeans(header: Option<string>, perms: Permissions, decode: string -> Option<string>)
    requires BasicLogin(header, perms, decode).Returned?
    requires BasicLogin(header, perms, decode).login.Succeeded()
    ensures var user := BasicLogin(header, perms, decode).login.result.value;
      exists token, name, password ::
        && header == Some("Basic " + token)
        && decode(token) == Some(name + ":" + password)
        && ':' !in name
        && exists i :: 0 <= i < |perms.usersByName(name)| && perms.usersByName(name)[i] == user
                       && perms.checkPassword(user, password)
                       && forall j :: 0 <= j < i ==> !perms.checkPassword(perms.usersByName(name)[j], password)
  {
  }

  /** Cleaning up twice at the same time changes nothing more; a later cleanup subsumes an earlier one. */
  lemma LiveTwice(s: Table, earlier: int, later: int)
    requires earlier <= later
    ensures Live(Live(s, earlier), later) == Live(s, later)
    ensures Live(Live(s, later), later) == Live(s, later)
  {
  }

  /** `createJwt` keeps the table invariant when the new session id is not in use. */
  lemma CreatedWellKeyed(s: Table, userId: Uuid, now: int, sessionTime: int, sessionId: string)
    requires WellKeyed(s)
    requires forall k :: k in s ==> s[k].uniqueId != sessionId
    ensures var t := Created(s, userId, now, sessionTime, sessionId);
      WellKeyed(t) && userId in t && t.Keys == Live(s, now).Keys + {userId}
  {
  }

  /**
   * A user with a live session keeps it: `createJwt` changes nothing beyond the
   * cleanup and issues the JWT for the existing session.
   */
  lemma CreatedReusesLive(s: Table, userId: Uuid, now: int, sessionTime: int, sessionId: string)
    requires userId in Live(s, now)
    ensures Created(s, userId, now, sessionTime, sessionId) == Live(s, now)
  {
  }

  /**
   * A session time that carries the `long` sum past its maximum issues a
   * session that has already expired: its expiry is negative, the JWT carries
   * that expiry, and the next cleanup at the same time removes the session.
   */
  lemma OverflowingSessionIsBornExpired(s: Table, subject: PermissionUser, now: int, sessionTime: int, sessionId: string)
    requires 0 <= now <= LongMax && 0 <= sessionTime <= LongMax
    requires now + sessionTime > LongMax
    requires subject.uniqueId !in Live(s, now)
    ensures var t := Created(s, subject.uniqueId, now, sessionTime, sessionId);
      && t[subject.uniqueId].expireTime < 0
      && GenerateJwt(subject, t[subject.uniqueId]).expiration < 0
      && subject.uniqueId !in Live(t, now)
  {
    var r := AddLong(now, sessionTime);
    assert r == now + sessionTime - 0x1_0000_0000_0000_0000;
  }

  /**
   * Two `createJwt` calls for the same user, the second before the first
   * session expires: the second leaves the table as the cleanup left it and
   * reuses the first session.
   */
  lemma CreatedTwice(s: Table, userId: Uuid, now: int, later: int, sessionTime: int, sessionTime': int,
                     sessionId: string, sessionId': string)
    requires now <= later
    requires var t := Created(s, userId, now, sessionTime, sessionId); later < t[userId].expireTime
    ensures var t := Created(s, userId, now, sessionTime, sessionId);
      var t' := Created(t, userId, later, sessionTime', sessionId');
      t' == Live(t, later) && t'[userId] == t[userId]
  {
  }

  /**
   * A token issued by `createJwt` logs its user in by Bearer authentication,
   * with the same session, as long as the session has not expired, the user
   * still exists, and the parser hands back the token's claims.
   */
  lemma IssuedTokenAccepted(s: Table, subject: PermissionUser, now: int, sessionTime: int, sessionId: string,
                            token: string, parse: string -> JwtParse, parseUuid: string -> Option<Uuid>,
                            perms: Permissions, later: int)
    requires WellKeyed(s)
    requires forall k :: k in s ==> s[k].uniqueId != sessionId
    requires var t := Created(s, subject.uniqueId, now, sessionTime, sessionId);
      var jwt := GenerateJwt(subject, t[subject.uniqueId]);
      && BearerToken("Bearer " + token) == Some(token)
      && parse(token) == Claims(jwt.id, jwt.uniqueId)
      && parseUuid(jwt.uniqueId) == Some(subject.uniqueId)
      && later < t[subject.uniqueId].expireTime
    requires Consistent(perms) && subject.uniqueId in perms.users
    ensures var t := Created(s, subject.uniqueId, now, sessionTime, sessionId);
      WellKeyed(t) &&
      BearerLogin(t, Some("Bearer " + token), parse, parseUuid, perms, later) == BearerStep(Success(t[subject.uniqueId]), Live(t, later))
  {
  }

  /**
   * With a consistent store, `expireSession(request)` returns true exactly when
   * the bearer login succeeds: the session it expires is always in the table.
   */
  lemma ExpireOfRemovesIffLogin(s: Table, header: Option<string>, parse: string -> JwtParse,
                                parseUuid: string -> Option<Uuid>, perms: Permissions, now: int)
    requires WellKeyed(s) && Consistent(perms)
    ensures var step := BearerLogin(s, header, parse, parseUuid, perms, now);
      step.login.Succeeded() ==>
        step.login.result.value.userId in perms.users &&
        perms.users[step.login.result.value.userId].uniqueId in step.table
  {
  }

  /**
   * A bearer login leaves the table as it was or as the cleanup left it,
   * except that it may drop the one live session whose user is gone.
   */
  lemma BearerOnlyDropsGoneUsers(s: Table, header: Option<string>, parse: string -> JwtParse,
                                 parseUuid: string -> Option<Uuid>, perms: Permissions, now: int)
    requires WellKeyed(s)
    ensures var step := BearerLogin(s, header, parse, parseUuid, perms, now);
      || step.table == s
      || step.table == Live(s, now)
      || (step.login == BearerLoginUserGone &&
          exists userId :: userId in Live(s, now) && userId !in perms.users && step.table == Live(s, now) - {userId})
  {
  }

  /** The ways a Basic login fails before the user search. */
  lemma BasicFailureModes(header: Option<string>, perms: Permissions, decode: string -> Option<string>)
    ensures header.None? ==> BasicLogin(header, perms, decode) == Returned(UndefinedFailure())
    ensures header.Some? && BasicToken(header.value).None? ==> BasicLogin(header, perms, decode) == Returned(UndefinedFailure())
    ensures BasicLogin(header, perms, decode) == DecoderThrew <==>
      header.Some? && BasicToken(header.value).Some? && decode(BasicToken(header.value).value).None?
  {
  }

  /** The ways a bearer login fails, and the table each leaves behind. */
  lemma BearerFailureModes(s: Table, header: Option<string>, parse: string -> JwtParse,
                           parseUuid: string -> Option<Uuid>, perms: Permissions, now: int)
    requires WellKeyed(s)
    ensures var step := BearerLogin(s, header, parse, parseUuid, perms, now);
      && (header.None? || BearerToken(header.value).None? ==> step == BearerStep(UndefinedFailure(), s))
      && (header.Some? && BearerToken(header.value).Some? ==>
            var parsed := parse(BearerToken(header.value).value);
            && (parsed.Expired? || parsed.Premature? ==> step == BearerStep(Failure(Some(parsed.message)), s))
            && (parsed.Rejected? ==> step == BearerStep(BearerLoginFailed, s))
            && (parsed.Claims? && SessionWithId(Live(s, now), parsed.id).None? ==>
                  step == BearerStep(BearerLoginFailed, Live(s, now)))
            && (parsed.Claims? && SessionWithId(Live(s, now), parsed.id).Some? ==>
                  var session := SessionWithId(Live(s, now), parsed.id).value;
                  && (session.userId !in perms.users ==>
                        step == BearerStep(BearerLoginUserGone, Live(s, now) - {session.userId}))
                  && (session.userId in perms.users && parseUuid(parsed.uniqueIdClaim) != Some(perms.users[session.userId].uniqueId) ==>
                        step == BearerStep(BearerLoginFailed, Live(s, now)))))
  {
  }
}

// Token lifecycle of internal/service/auth_service.go over the expiring blacklist of
// internal/pubsub/pubsub.go. Times are nanoseconds; `exp` is in whole seconds (section 4.1.4
// of RFC 7519). Signing is the set of tokens the private key has signed.
module Tokens {
  import opened Prelude

  datatype Kind = Access | Refresh

  datatype Audience = Missing | One(name: string) | Many(names: seq<string>)

  datatype Token = Token(kind: Kind, jti: string, sub: string, exp: int, iss: string, aud: Audience)

  datatype Pair = Pair(access: Token, refresh: Token)

  datatype Error = TokenExpired | InvalidToken | InvalidTokenType | InvalidCredentials

  datatype Result<+T> = Ok(value: T) | Err(error: Error)

  datatype Config = Config(accessTTL: int, refreshTTL: int, issuer: string, audience: seq<string>)

  /** What the service can see: known users, signed tokens, and blacklist entries with their lapse. */
  datatype Auth = Auth(users: set<string>, signed: set<Token>, blacklist: map<string, int>)

  function TTL(c: Config, kind: Kind): int {
    if kind == Access then c.accessTTL else c.refreshTTL
  }

  function ExpiresAt(t: Token): int { t.exp * 1_000_000_000 }

  function Mint(c: Config, kind: Kind, jti: string, sub: string, now: int): Token {
    Token(kind, jti, sub, (now + TTL(c, kind)) / 1_000_000_000, c.issuer, Many(c.audience))
  }

  predicate AudienceAllowed(c: Config, aud: Audience) {
    c.audience == [] ||
    match aud
    case Missing => false
    case One(name) => name in c.audience
    case Many(names) => exists name | name in names :: name in c.audience
  }

  predicate Blacklisted(a: Auth, jti: string, now: int) {
    jti in a.blacklist && now < a.blacklist[jti]
  }

  /** jwt.Parse: signature, then expiry, then issuer. */
  function Parse(c: Config, a: Auth, t: Token, now: int): Result<Token> {
    if t !in a.signed then Err(InvalidToken)
    else if ExpiresAt(t) <= now then Err(TokenExpired)
    else if t.iss != c.issuer then Err(InvalidToken)
    else Ok(t)
  }

  function Validate(c: Config, a: Auth, t: Token, expected: Kind, now: int): Result<string> {
    var parsed := Parse(c, a, t, now);
    if parsed.Err? then Err(parsed.error)
    else if !AudienceAllowed(c, t.aud) then Err(InvalidToken)
    else if t.kind != expected then Err(InvalidTokenType)
    else if t.jti != "" && Blacklisted(a, t.jti, now) then Err(InvalidToken)
    else if t.sub !in a.users then Err(InvalidToken)
    else Ok(t.sub)
  }

  /** The checks of RefreshToken, which looks at the type before the audience. */
  function CheckRefresh(c: Config, a: Auth, t: Token, now: int): Result<string> {
    var parsed := Parse(c, a, t, now);
    if parsed.Err? then Err(parsed.error)
    else if t.kind != Refresh then Err(InvalidTokenType)
    else if !AudienceAllowed(c, t.aud) then Err(InvalidToken)
    else if t.jti != "" && Blacklisted(a, t.jti, now) then Err(InvalidToken)
    else if t.sub !in a.users then Err(InvalidToken)
    else Ok(t.sub)
  }

  function NewPair(c: Config, sub: string, now: int, accessJti: string, refreshJti: string): Pair {
    Pair(Mint(c, Access, accessJti, sub, now), Mint(c, Refresh, refreshJti, sub, now))
  }

  function Sign(a: Auth, p: Pair): Auth {
    a.(signed := a.signed + {p.access, p.refresh})
  }

  /** Writing an entry replaces whatever lapse the key had. */
  function Invalidate(a: Auth, jti: string, lapse: int): Auth {
    if jti == "" then a else a.(blacklist := a.blacklist[jti := lapse])
  }

  function LoggedOut(c: Config, a: Auth, access: Option<Token>, refresh: Option<Token>, now: int): Auth {
    var a1 := if access.Some? then Invalidate(a, access.value.jti, now + c.accessTTL) else a;
    if refresh.Some? then Invalidate(a1, refresh.value.jti, now + c.refreshTTL) else a1
  }

  function Refreshed(c: Config, a: Auth, t: Token, now: int, accessJti: string, refreshJti: string): Auth {
    if CheckRefresh(c, a, t, now).Err? then a
    else Invalidate(Sign(a, NewPair(c, t.sub, now, accessJti, refreshJti)), t.jti, now + c.refreshTTL)
  }

  class AuthService {
    const config: Config
    var users: set<string>
    var signed: set<Token>
    var blacklist: map<string, int>

    ghost function Abs(): Auth
      reads this
    {
      Auth(users, signed, blacklist)
    }

    constructor (config: Config, users: set<string>)
      ensures this.config == config && Abs() == Auth(users, {}, map[])
    {
      this.config := config;
      this.users, signed, blacklist := users, {}, map[];
    }

    /** `credentials` is the user whose e-mail and password matched, if any. */
    method Login(credentials: Option<string>, now: int, accessJti: string, refreshJti: string)
      returns (r: Result<Pair>)
      modifies this`signed
      ensures credentials.None? ==> r == Err(InvalidCredentials) && Abs() == old(Abs())
      ensures credentials.Some? ==>
                var p := NewPair(config, credentials.value, now, accessJti, refreshJti);
                r == Ok(p) && Abs() == Sign(old(Abs()), p)
    {
      if credentials.None? { return Err(InvalidCredentials); }
      var access := Generate(Access, credentials.value, now, accessJti);
      var refresh := Generate(Refresh, credentials.value, now, refreshJti);
      return Ok(Pair(access, refresh));
    }

    method Generate(kind: Kind, sub: string, now: int, jti: string) returns (t: Token)
      modifies this`signed
      ensures t == Mint(config, kind, jti, sub, now)
      ensures signed == old(signed) + {t}
    {
      var ttl := if kind == Access then config.accessTTL else config.refreshTTL;
      t := Token(kind, jti, sub, (now + ttl) / 1_000_000_000, config.issuer, Many(config.audience));
      signed := signed + {t};
    }

    method ValidateAudience(aud: Audience) returns (ok: bool)
      ensures ok <==> AudienceAllowed(config, aud)
    {
      if |config.audience| == 0 { return true; }
      match aud
      case Missing => return false;
      case One(name) => return name in config.audience;
      case Many(names) =>
        var i := 0;
        while i < |names|
          invariant 0 <= i <= |names|
          invariant forall j | 0 <= j < i :: names[j] !in config.audience
        {
          if names[i] in config.audience { return true; }
          i := i + 1;
        }
        return false;
    }

    method ValidateToken(t: Token, expected: Kind, now: int) returns (r: Result<string>)
      ensures r == Validate(config, Abs(), t, expected, now)
    {
      if t !in signed { return Err(InvalidToken); }
      if t.exp * 1_000_000_000 <= now { return Err(TokenExpired); }
      if t.iss != config.issuer { return Err(InvalidToken); }
      var allowed := ValidateAudience(t.aud);
      if !allowed { return Err(InvalidToken); }
      if t.kind != expected { return Err(InvalidTokenType); }
      if t.jti != "" && t.jti in blacklist && now < blacklist[t.jti] { return Err(InvalidToken); }
      if t.sub !in users { return Err(InvalidToken); }
      return Ok(t.sub);
    }

    method RefreshToken(t: Token, now: int, accessJti: string, refreshJti: string) returns (r: Result<Pair>)
      modifies this`signed, this`blacklist
      ensures Abs() == Refreshed(config, old(Abs()), t, now, accessJti, refreshJti)
      ensures var checked := CheckRefresh(config, old(Abs()), t, now);
              r == if checked.Err? then Err(checked.error)
                   else Ok(NewPair(config, t.sub, now, accessJti, refreshJti))
    {
      if t !in signed { return Err(InvalidToken); }
      if t.exp * 1_000_000_000 <= now { return Err(TokenExpired); }
      if t.iss != config.issuer { return Err(InvalidToken); }
      if t.kind != Refresh { return Err(InvalidTokenType); }
      var allowed := ValidateAudience(t.aud);
      if !allowed { return Err(InvalidToken); }
      if t.jti != "" && t.jti in blacklist && now < blacklist[t.jti] { return Err(InvalidToken); }
      if t.sub !in users { return Err(InvalidToken); }
      var access := Generate(Access, t.sub, now, accessJti);
      var refresh := Generate(Refresh, t.sub, now, refreshJti);
      if t.jti != "" { InvalidateToken(t.jti, config.refreshTTL, now); }
      return Ok(Pair(access, refresh));
    }

    /** Neither signature nor type of the presented tokens is looked at. */
    method Logout(access: Option<Token>, refresh: Option<Token>, now: int)
      modifies this`blacklist
      ensures Abs() == LoggedOut(config, old(Abs()), access, refresh, now)
    {
      if access.Some? && access.value.jti != "" {
        InvalidateToken(access.value.jti, config.accessTTL, now);
      }
      if refresh.Some? && refresh.value.jti != "" {
        InvalidateToken(refresh.value.jti, config.refreshTTL, now);
      }
    }

    /** The route: the access token must be valid before the service sees it. */
    method HandleLogout(access: Token, refresh: Option<Token>, now: int) returns (ok: bool)
      modifies this`blacklist
      ensures ok <==> Validate(config, old(Abs()), access, Access, now).Ok?
      ensures Abs() == if ok then LoggedOut(config, old(Abs()), Some(access), refresh, now) else old(Abs())
    {
      var user := ValidateToken(access, Access, now);
      ok := user.Ok?;
      if ok { Logout(Some(access), refresh, now); }
    }

    method InvalidateToken(jti: string, ttl: int, now: int)
      modifies this`blacklist
      ensures blacklist == old(blacklist)[jti := now + ttl]
    {
      blacklist := blacklist[jti := now + ttl];
    }
  }

  // ---------- Runs ----------

  datatype Step =
    | LoginStep(user: string, accessJti: string, refreshJti: string)
    | RefreshStep(token: Token, accessJti: string, refreshJti: string)
    | LogoutStep(access: Option<Token>, refresh: Option<Token>)

  datatype Event = Event(now: int, step: Step)

  datatype World = World(
    auth: Auth,
    clock: int,
    heads: seq<string>,       // the newest refresh jti of each login, in login order
    chain: map<string, int>,  // the login each refresh jti descends from
    consumed: set<string>)    // jtis handed to Logout or exchanged by RefreshToken

  function Start(users: set<string>): World {
    World(Auth(users, {}, map[]), 0, [], map[], {})
  }

  ghost predicate Unused(a: Auth, jti: string) {
    jti != "" && jti !in a.blacklist && forall t | t in a.signed :: t.jti != jti
  }

  /** Fresh ids are what uuid.New gives; time never runs backwards. */
  ghost predicate Enabled(w: World, e: Event) {
    w.clock <= e.now &&
    match e.step
    case LoginStep(_, a, r) => Unused(w.auth, a) && Unused(w.auth, r) && a != r
    case RefreshStep(_, a, r) => Unused(w.auth, a) && Unused(w.auth, r) && a != r
    case LogoutStep(_, _) => true
  }

  function Presented(access: Option<Token>, refresh: Option<Token>): set<string> {
    (if access.Some? then {access.value.jti} else {}) + (if refresh.Some? then {refresh.value.jti} else {})
  }

  ghost function Next(c: Config, w: World, e: Event): World {
    if !Enabled(w, e) then w
    else
      match e.step
      case LoginStep(user, a, r) =>
        w.(auth := Sign(w.auth, NewPair(c, user, e.now, a, r)), clock := e.now,
           heads := w.heads + [r], chain := w.chain[r := |w.heads|])
      case RefreshStep(t, a, r) =>
        var w' := w.(auth := Refreshed(c, w.auth, t, e.now, a, r), clock := e.now);
        if CheckRefresh(c, w.auth, t, e.now).Err? || t.jti !in w.chain || !(0 <= w.chain[t.jti] < |w.heads|) then w'
        else
          var login := w.chain[t.jti];
          w'.(heads := w.heads[login := r], chain := w.chain[r := login], consumed := w.consumed + {t.jti})
      case LogoutStep(access, refresh) =>
        w.(auth := LoggedOut(c, w.auth, access, refresh, e.now), clock := e.now,
           consumed := w.consumed + Presented(access, refresh))
  }

  ghost function Run(c: Config, users: set<string>, events: seq<Event>): World {
    if events == [] then Start(users)
    else Next(c, Run(c, users, events[..|events| - 1]), events[|events| - 1])
  }

  // ---------- What every run keeps ----------

  ghost predicate SignedOk(c: Config, a: Auth, clock: int) {
    && (forall t | t in a.signed ::
          && t.jti != "" && ExpiresAt(t) <= clock + TTL(c, t.kind)
          && t.iss == c.issuer && t.aud == Many(c.audience))
    && (forall t, u | t in a.signed && u in a.signed && t.jti == u.jti :: t == u)
  }

  /** Every refresh token descends from one login. */
  ghost predicate ChainOk(w: World) {
    && (forall t | t in w.auth.signed && t.kind == Refresh :: t.jti in w.chain && 0 <= w.chain[t.jti] < |w.heads|)
    && (forall j | j in w.chain :: exists t | t in w.auth.signed :: t.jti == j)
  }

  /** The blacklist names exactly the consumed jtis. */
  ghost predicate ListedOk(a: Auth, consumed: set<string>) {
    forall j :: j in a.blacklist <==> j in consumed && j != ""
  }

  ghost predicate Sound(c: Config, w: World) {
    SignedOk(c, w.auth, w.clock) && ChainOk(w) && ListedOk(w.auth, w.consumed)
  }

  lemma SignKeeps(c: Config, a: Auth, clock: int, now: int, sub: string, accessJti: string, refreshJti: string)
    requires SignedOk(c, a, clock) && clock <= now
    requires Unused(a, accessJti) && Unused(a, refreshJti) && accessJti != refreshJti
    ensures SignedOk(c, Sign(a, NewPair(c, sub, now, accessJti, refreshJti)), now)
  {
    var p := NewPair(c, sub, now, accessJti, refreshJti);
    var a' := Sign(a, p);
    forall t | t in a'.signed ensures t == p.access || t == p.refresh || t in a.signed {}
    assert ExpiresAt(p.access) <= now + c.accessTTL && ExpiresAt(p.refresh) <= now + c.refreshTTL;
  }

  /** A new pair extends the chain of one login. */
  lemma ChainGrows(w: World, w': World, p: Pair, login: int)
    requires ChainOk(w) && p.access.kind == Access
    requires w'.auth.signed == w.auth.signed + {p.access, p.refresh}
    requires w'.chain == w.chain[p.refresh.jti := login] && 0 <= login < |w'.heads| && |w.heads| <= |w'.heads|
    ensures ChainOk(w')
  {
    assert p.refresh in w'.auth.signed;
    forall j | j in w'.chain ensures exists t | t in w'.auth.signed :: t.jti == j {
      if j != p.refresh.jti {
        var t :| t in w.auth.signed && t.jti == j;
        assert t in w'.auth.signed;
      }
    }
  }

  lemma LoginSound(c: Config, w: World, e: Event)
    requires Sound(c, w) && Enabled(w, e) && e.step.LoginStep?
    ensures Sound(c, Next(c, w, e))
  {
    var s := e.step;
    SignKeeps(c, w.auth, w.clock, e.now, s.user, s.accessJti, s.refreshJti);
    ChainGrows(w, Next(c, w, e), NewPair(c, s.user, e.now, s.accessJti, s.refreshJti), |w.heads|);
  }

  /** What a successful refresh does to the chain of the token it consumes. */
  lemma RefreshedWorld(c: Config, w: World, e: Event)
    requires Sound(c, w) && Enabled(w, e) && e.step.RefreshStep?
    requires CheckRefresh(c, w.auth, e.step.token, e.now).Ok?
    ensures var t, w' := e.step.token, Next(c, w, e);
            && t in w.auth.signed && t.kind == Refresh && t.jti != "" && t.sub in w.auth.users
            && t.jti in w.chain && 0 <= w.chain[t.jti] < |w.heads|
            && w'.auth == Refreshed(c, w.auth, t, e.now, e.step.accessJti, e.step.refreshJti)
            && w'.heads == w.heads[w.chain[t.jti] := e.step.refreshJti]
            && w'.chain == w.chain[e.step.refreshJti := w.chain[t.jti]]
            && w'.consumed == w.consumed + {t.jti} && w'.clock == e.now
  {
  }

  lemma RefreshSound(c: Config, w: World, e: Event)
    requires Sound(c, w) && Enabled(w, e) && e.step.RefreshStep?
    ensures Sound(c, Next(c, w, e))
  {
    var t := e.step.token;
    if CheckRefresh(c, w.auth, t, e.now).Ok? {
      RefreshedWorld(c, w, e);
      SignKeeps(c, w.auth, w.clock, e.now, t.sub, e.step.accessJti, e.step.refreshJti);
      ChainGrows(w, Next(c, w, e), NewPair(c, t.sub, e.now, e.step.accessJti, e.step.refreshJti), w.chain[t.jti]);
    }
  }

  lemma NextSound(c: Config, w: World, e: Event)
    requires Sound(c, w)
    ensures Sound(c, Next(c, w, e)) && Next(c, w, e).auth.users == w.auth.users
  {
    if Enabled(w, e) {
      match e.step
      case LoginStep(_, _, _) => LoginSound(c, w, e);
      case RefreshStep(_, _, _) => RefreshSound(c, w, e);
      case LogoutStep(_, _) =>
    }
  }

  lemma {:induction false} RunSound(c: Config, users: set<string>, events: seq<Event>)
    ensures Sound(c, Run(c, users, events)) && Run(c, users, events).auth.users == users
  {
    if events != [] {
      var before, e := events[..|events| - 1], events[|events| - 1];
      RunSound(c, users, before);
      NextSound(c, Run(c, users, before), e);
    }
  }

  ghost predicate Consumes(c: Config, w: World, e: Event, jti: string) {
    Enabled(w, e) &&
    match e.step
    case LoginStep(_, _, _) => false
    case RefreshStep(t, _, _) => jti == t.jti && CheckRefresh(c, w.auth, t, e.now).Ok?
    case LogoutStep(a, r) => jti in Presented(a, r)
  }

  /** Every logout and every successful refresh consume what they were given, for good. */
  lemma {:induction false} ConsumedForGood(c: Config, users: set<string>, events: seq<Event>, k: nat, jti: string)
    requires k < |events| && Consumes(c, Run(c, users, events[..k]), events[k], jti)
    ensures jti in Run(c, users, events).consumed
    decreases |events|
  {
    var before, e := events[..|events| - 1], events[|events| - 1];
    var w := Run(c, users, before);
    assert Run(c, users, events) == Next(c, w, e);
    if k == |before| {
      RunSound(c, users, before);
      assert events[..k] == before;
      if e.step.RefreshStep? {
        RefreshedWorld(c, w, e);
      }
    } else {
      assert before[..k] == events[..k];
      ConsumedForGood(c, users, before, k, jti);
      assert w.consumed <= Next(c, w, e).consumed;
    }
  }

  // ---------- Revocation and rotation ----------

  predicate Accepted(c: Config, a: Auth, t: Token, now: int) {
    Validate(c, a, t, Access, now).Ok? || Validate(c, a, t, Refresh, now).Ok? || CheckRefresh(c, a, t, now).Ok?
  }

  /** Revocation: a consumed token is dead. Rotation: of a login's refresh tokens all but the newest are. */
  datatype Law = Revocation | Rotation

  predicate Superseded(w: World, t: Token) {
    t in w.auth.signed && t.kind == Refresh && t.jti in w.chain && 0 <= w.chain[t.jti] < |w.heads| &&
    w.heads[w.chain[t.jti]] != t.jti
  }

  predicate Dead(law: Law, w: World, t: Token) {
    if law.Revocation? then t.jti in w.consumed else Superseded(w, t)
  }

  ghost predicate NeverAccepted(c: Config, a: Auth, t: Token, from: int) {
    forall now | from <= now :: !Accepted(c, a, t, now)
  }

  ghost predicate StayDead(law: Law, c: Config, w: World) {
    forall t | Dead(law, w, t) :: NeverAccepted(c, w.auth, t, w.clock)
  }

  /** After each step of the run, at no later time is a dead token accepted. */
  ghost predicate Upheld(law: Law, c: Config, users: set<string>, events: seq<Event>) {
    forall n | 0 <= n <= |events| :: StayDead(law, c, Run(c, users, events[..n]))
  }

  /** The TTL of the entry a logout leaves for `jti`, if it leaves one: the refresh slot is written last. */
  function SlotTTL(c: Config, s: Step, jti: string): Option<int> {
    if !s.LogoutStep? then None
    else if s.refresh.Some? && s.refresh.value.jti == jti then Some(c.refreshTTL)
    else if s.access.Some? && s.access.value.jti == jti then Some(c.accessTTL)
    else None
  }

  predicate Covers(c: Config, e: Event, t: Token) {
    var ttl := SlotTTL(c, e.step, t.jti);
    ttl.Some? ==> ExpiresAt(t) <= e.now + ttl.value
  }

  /** Each entry that the event writes covers the signed tokens of known users it is for; rotation
      asks this of superseded refresh tokens only. */
  predicate CoversAll(law: Law, c: Config, w: World, e: Event) {
    forall t | t in w.auth.signed && t.sub in w.auth.users && (law.Rotation? ==> Superseded(w, t)) :: Covers(c, e, t)
  }

  ghost predicate RunCovered(law: Law, c: Config, users: set<string>, events: seq<Event>) {
    forall k | 0 <= k < |events| && Enabled(Run(c, users, events[..k]), events[k]) ::
      CoversAll(law, c, Run(c, users, events[..k]), events[k])
  }

  predicate Blocked(a: Auth, t: Token) { t.jti in a.blacklist && ExpiresAt(t) <= a.blacklist[t.jti] }

  ghost predicate DeadAreBlocked(law: Law, w: World) {
    forall t | t in w.auth.signed && t.sub in w.auth.users && Dead(law, w, t) :: Blocked(w.auth, t)
  }

  /** While an entry stands, it rejects its token at all times exactly when it lapses no earlier than `exp`. */
  lemma EntryCoversTokenIff(c: Config, a: Auth, t: Token, from: int)
    requires t in a.signed && t.jti != "" && t.iss == c.issuer && t.sub in a.users && t.aud == Many(c.audience)
    requires t.jti in a.blacklist && from <= a.blacklist[t.jti]
    ensures NeverAccepted(c, a, t, from) <==> Blocked(a, t)
  {
    var lapse := a.blacklist[t.jti];
    if ExpiresAt(t) > lapse {
      assert c.audience != [] ==> c.audience[0] in c.audience;
      assert Validate(c, a, t, t.kind, lapse).Ok?;
      assert Accepted(c, a, t, lapse);
    }
  }

  lemma LogoutEntries(c: Config, a: Auth, s: Step, now: int, jti: string)
    requires s.LogoutStep? && jti != ""
    ensures var a' := LoggedOut(c, a, s.access, s.refresh, now);
            match SlotTTL(c, s, jti)
            case Some(ttl) => jti in a'.blacklist && a'.blacklist[jti] == now + ttl
            case None => (jti in a'.blacklist <==> jti in a.blacklist) &&
                         (jti in a.blacklist ==> a'.blacklist[jti] == a.blacklist[jti])
  {
  }

  lemma LogoutBlocks(law: Law, c: Config, w: World, e: Event)
    requires Sound(c, w) && DeadAreBlocked(law, w) && Enabled(w, e) && e.step.LogoutStep?
    requires CoversAll(law, c, w, e)
    ensures DeadAreBlocked(law, Next(c, w, e))
  {
    var w' := Next(c, w, e);
    forall t | t in w'.auth.signed && t.sub in w'.auth.users && Dead(law, w', t) ensures Blocked(w'.auth, t) {
      LogoutEntries(c, w.auth, e.step, e.now, t.jti);
      assert Covers(c, e, t);
    }
  }

  lemma LoginBlocks(law: Law, c: Config, w: World, e: Event)
    requires Sound(c, w) && DeadAreBlocked(law, w) && Enabled(w, e) && e.step.LoginStep?
    ensures DeadAreBlocked(law, Next(c, w, e))
  {
    var w' := Next(c, w, e);
    forall t | t in w'.auth.signed && t.sub in w'.auth.users && Dead(law, w', t) ensures Blocked(w'.auth, t) {
      assert t in w.auth.signed ==> t.jti != e.step.refreshJti;
      assert Dead(law, w, t) && t in w.auth.signed;
    }
  }

  /** Only the newest refresh token of a login is ever accepted, so it is the one superseded. */
  lemma RefreshBlocks(law: Law, c: Config, w: World, e: Event)
    requires Sound(c, w) && DeadAreBlocked(law, w) && Enabled(w, e) && e.step.RefreshStep?
    ensures DeadAreBlocked(law, Next(c, w, e))
  {
    var spent := e.step.token;
    if CheckRefresh(c, w.auth, spent, e.now).Ok? {
      RefreshedWorld(c, w, e);
      var w' := Next(c, w, e);
      assert !Blocked(w.auth, spent);
      assert ExpiresAt(spent) <= e.now + c.refreshTTL;
      forall t | t in w'.auth.signed && t.sub in w'.auth.users && Dead(law, w', t) ensures Blocked(w'.auth, t) {
        if t in w.auth.signed && t != spent {
          assert t.jti != spent.jti && t.jti != e.step.refreshJti;
          assert Dead(law, w, t);
        }
      }
    }
  }

  lemma NextBlocks(law: Law, c: Config, w: World, e: Event)
    requires Sound(c, w) && DeadAreBlocked(law, w) && (Enabled(w, e) ==> CoversAll(law, c, w, e))
    ensures DeadAreBlocked(law, Next(c, w, e))
  {
    if Enabled(w, e) {
      match e.step
      case LoginStep(_, _, _) => LoginBlocks(law, c, w, e);
      case RefreshStep(_, _, _) => RefreshBlocks(law, c, w, e);
      case LogoutStep(_, _) => LogoutBlocks(law, c, w, e);
    }
  }

  lemma CoveredPrefix(law: Law, c: Config, users: set<string>, events: seq<Event>, n: nat)
    requires n <= |events| && RunCovered(law, c, users, events)
    ensures RunCovered(law, c, users, events[..n])
  {
    forall k | 0 <= k < n ensures events[..n][..k] == events[..k] {}
  }

  lemma CoveredLast(law: Law, c: Config, users: set<string>, events: seq<Event>)
    requires RunCovered(law, c, users, events) && events != []
    ensures var w, e := Run(c, users, events[..|events| - 1]), events[|events| - 1];
            Enabled(w, e) ==> CoversAll(law, c, w, e)
  {
  }

  lemma {:induction false} RunBlocks(law: Law, c: Config, users: set<string>, events: seq<Event>)
    requires RunCovered(law, c, users, events)
    ensures DeadAreBlocked(law, Run(c, users, events))
  {
    if events != [] {
      var before, e := events[..|events| - 1], events[|events| - 1];
      CoveredPrefix(law, c, users, events, |before|);
      RunBlocks(law, c, users, before);
      RunSound(c, users, before);
      CoveredLast(law, c, users, events);
      NextBlocks(law, c, Run(c, users, before), e);
    }
  }

  lemma BlockedStayDead(law: Law, c: Config, w: World)
    requires Sound(c, w) && DeadAreBlocked(law, w)
    ensures StayDead(law, c, w)
  {
    forall t | Dead(law, w, t) ensures NeverAccepted(c, w.auth, t, w.clock) {
      if t in w.auth.signed && t.sub in w.auth.users {
        assert Blocked(w.auth, t);
      }
    }
  }

  /** A logout whose entry lapses before its token makes a dead token acceptable. */
  lemma UncoveredRevives(law: Law, c: Config, w: World, e: Event)
    requires c.accessTTL >= 0 && c.refreshTTL >= 0
    requires Sound(c, w) && Enabled(w, e) && !CoversAll(law, c, w, e)
    ensures !StayDead(law, c, Next(c, w, e))
  {
    var t :| t in w.auth.signed && t.sub in w.auth.users && (law.Rotation? ==> Superseded(w, t)) && !Covers(c, e, t);
    var w' := Next(c, w, e);
    LogoutEntries(c, w.auth, e.step, e.now, t.jti);
    assert Dead(law, w', t);
    EntryCoversTokenIff(c, w'.auth, t, w'.clock);
  }

  /** A law holds throughout a run exactly when every logout's entries cover what they are for. */
  lemma UpheldIffCovered(law: Law, c: Config, users: set<string>, events: seq<Event>)
    requires c.accessTTL >= 0 && c.refreshTTL >= 0
    ensures Upheld(law, c, users, events) <==> RunCovered(law, c, users, events)
  {
    if RunCovered(law, c, users, events) {
      CoveredIsUpheld(law, c, users, events);
    } else {
      var k :| 0 <= k < |events| && Enabled(Run(c, users, events[..k]), events[k]) &&
               !CoversAll(law, c, Run(c, users, events[..k]), events[k]);
      UncoveredAt(law, c, users, events, k);
    }
  }

  lemma UncoveredAt(law: Law, c: Config, users: set<string>, events: seq<Event>, k: nat)
    requires c.accessTTL >= 0 && c.refreshTTL >= 0
    requires k < |events| && Enabled(Run(c, users, events[..k]), events[k])
    requires !CoversAll(law, c, Run(c, users, events[..k]), events[k])
    ensures !StayDead(law, c, Run(c, users, events[..k + 1]))
  {
    RunSound(c, users, events[..k]);
    UncoveredRevives(law, c, Run(c, users, events[..k]), events[k]);
    assert events[..k + 1][..k] == events[..k];
  }

  lemma CoveredIsUpheld(law: Law, c: Config, users: set<string>, events: seq<Event>)
    requires RunCovered(law, c, users, events)
    ensures Upheld(law, c, users, events)
  {
    forall n | 0 <= n <= |events| ensures StayDead(law, c, Run(c, users, events[..n])) {
      CoveredPrefix(law, c, users, events, n);
      RunBlocks(law, c, users, events[..n]);
      RunSound(c, users, events[..n]);
      BlockedStayDead(law, c, Run(c, users, events[..n]));
    }
  }

  /** Once consumed, a token is never accepted again, at any later step and any later time, exactly in
      the runs whose logouts leave no entry that lapses before its token. */
  lemma RevocationOutlivesToken(c: Config, users: set<string>, events: seq<Event>)
    requires c.accessTTL >= 0 && c.refreshTTL >= 0
    ensures (forall n, t: Token, now |
               0 <= n <= |events| && t.jti in Run(c, users, events[..n]).consumed &&
               Run(c, users, events[..n]).clock <= now ::
                 !Accepted(c, Run(c, users, events[..n]).auth, t, now))
            <==> RunCovered(Revocation, c, users, events)
  {
    UpheldIffCovered(Revocation, c, users, events);
    if Upheld(Revocation, c, users, events) {
      forall n, t: Token, now |
        0 <= n <= |events| && t.jti in Run(c, users, events[..n]).consumed && Run(c, users, events[..n]).clock <= now
        ensures !Accepted(c, Run(c, users, events[..n]).auth, t, now)
      {
        assert StayDead(Revocation, c, Run(c, users, events[..n])) && Dead(Revocation, Run(c, users, events[..n]), t);
      }
    } else {
      var n :| 0 <= n <= |events| && !StayDead(Revocation, c, Run(c, users, events[..n]));
      var w := Run(c, users, events[..n]);
      var t :| Dead(Revocation, w, t) && !NeverAccepted(c, w.auth, t, w.clock);
      var now :| w.clock <= now && Accepted(c, w.auth, t, now);
      assert t.jti in Run(c, users, events[..n]).consumed;
    }
  }

  /** A signed token of a known user is accepted exactly until it is consumed or expires. */
  lemma AcceptedIff(c: Config, users: set<string>, events: seq<Event>, t: Token, now: int)
    requires RunCovered(Revocation, c, users, events) && Run(c, users, events).clock <= now
    requires t in Run(c, users, events).auth.signed
    ensures var w := Run(c, users, events);
            Accepted(c, w.auth, t, now) <==> t.jti !in w.consumed && now < ExpiresAt(t) && t.sub in w.auth.users
  {
    RunSound(c, users, events);
    RunBlocks(Revocation, c, users, events);
    assert c.audience != [] ==> c.audience[0] in c.audience;
    var w := Run(c, users, events);
    if t.jti !in w.consumed && now < ExpiresAt(t) && t.sub in w.auth.users {
      assert Validate(c, w.auth, t, t.kind, now).Ok?;
    }
  }

  // ---------- Whom a token stands for ----------

  /** What an id was issued for: the user of the login it goes back to, the type, and the time. */
  datatype Issue = Issue(user: string, kind: Kind, at: int)

  ghost function IssueOf(c: Config, users: set<string>, events: seq<Event>, jti: string): Option<Issue> {
    if events == [] then None
    else
      var before, e := events[..|events| - 1], events[|events| - 1];
      var w := Run(c, users, before);
      var earlier := IssueOf(c, users, before, jti);
      if !Enabled(w, e) || e.step.LogoutStep? || !(jti == e.step.accessJti || jti == e.step.refreshJti) then earlier
      else
        var kind := if jti == e.step.accessJti then Access else Refresh;
        match e.step
        case LoginStep(user, _, _) => Some(Issue(user, kind, e.now))
        case RefreshStep(t, _, _) =>
          if CheckRefresh(c, w.auth, t, e.now).Err? then earlier
          else
            var parent := IssueOf(c, users, before, t.jti);
            if parent.None? then None else Some(Issue(parent.value.user, kind, e.now))
  }

  /** Subject and type as asked, and a life of the configured length cut to a whole second. */
  predicate AsIssued(c: Config, t: Token, i: Option<Issue>) {
    i.Some? && t.sub == i.value.user && t.kind == i.value.kind &&
    var end := i.value.at + (if i.value.kind.Access? then c.accessTTL else c.refreshTTL);
    end - 1_000_000_000 < ExpiresAt(t) <= end
  }

  ghost predicate AllAsIssued(c: Config, users: set<string>, events: seq<Event>) {
    && (forall t | t in Run(c, users, events).auth.signed :: AsIssued(c, t, IssueOf(c, users, events, t.jti)))
    && (forall j | IssueOf(c, users, events, j).Some? :: exists t | t in Run(c, users, events).auth.signed :: t.jti == j)
  }

  lemma MintedAsIssued(c: Config, kind: Kind, jti: string, sub: string, now: int)
    ensures AsIssued(c, Mint(c, kind, jti, sub, now), Some(Issue(sub, kind, now)))
  {
  }

  lemma SignedStays(c: Config, w: World, e: Event)
    ensures w.auth.signed <= Next(c, w, e).auth.signed
  {
  }

  /** The tokens an event adds: those of its pair, if it issues one. */
  lemma NewlySigned(c: Config, users: set<string>, before: seq<Event>, e: Event, t: Token)
    requires AllAsIssued(c, users, before)
    requires var w := Run(c, users, before); t in Next(c, w, e).auth.signed
    ensures AsIssued(c, t, IssueOf(c, users, before + [e], t.jti))
  {
    var w := Run(c, users, before);
    assert (before + [e])[..|before|] == before;
    if t !in w.auth.signed {
      match e.step
      case LoginStep(user, a, r) =>
        MintedAsIssued(c, Access, a, user, e.now);
        MintedAsIssued(c, Refresh, r, user, e.now);
      case RefreshStep(parent, a, r) =>
        assert AsIssued(c, parent, IssueOf(c, users, before, parent.jti));
        MintedAsIssued(c, Access, a, parent.sub, e.now);
        MintedAsIssued(c, Refresh, r, parent.sub, e.now);
    } else {
      assert Enabled(w, e) && !e.step.LogoutStep? ==> t.jti != e.step.accessJti && t.jti != e.step.refreshJti;
    }
  }

  lemma NewIssuesAreSigned(c: Config, users: set<string>, before: seq<Event>, e: Event, j: string)
    requires AllAsIssued(c, users, before) && IssueOf(c, users, before + [e], j).Some?
    ensures exists t | t in Next(c, Run(c, users, before), e).auth.signed :: t.jti == j
  {
    var w := Run(c, users, before);
    assert (before + [e])[..|before|] == before;
    SignedStays(c, w, e);
    if IssueOf(c, users, before, j).Some? {
      var t :| t in w.auth.signed && t.jti == j;
      assert t in Next(c, w, e).auth.signed;
    } else {
      var sub := if e.step.LoginStep? then e.step.user else e.step.token.sub;
      var p := NewPair(c, sub, e.now, e.step.accessJti, e.step.refreshJti);
      assert p.access in Next(c, w, e).auth.signed && p.refresh in Next(c, w, e).auth.signed;
    }
  }

  lemma {:induction false} RunAsIssued(c: Config, users: set<string>, events: seq<Event>)
    ensures AllAsIssued(c, users, events)
  {
    if events != [] {
      var before, e := events[..|events| - 1], events[|events| - 1];
      RunAsIssued(c, users, before);
      assert events == before + [e];
      forall t | t in Run(c, users, events).auth.signed ensures AsIssued(c, t, IssueOf(c, users, events, t.jti)) {
        NewlySigned(c, users, before, e, t);
      }
      forall j | IssueOf(c, users, events, j).Some? ensures exists t | t in Run(c, users, events).auth.signed :: t.jti == j {
        NewIssuesAreSigned(c, users, before, e, j);
      }
    }
  }

  /** In every run, whatever the logouts: a token that validates stands for the user of the login it goes back to. */
  lemma ValidatesToItsLogin(c: Config, users: set<string>, events: seq<Event>, t: Token, kind: Kind, now: int)
    requires Validate(c, Run(c, users, events).auth, t, kind, now).Ok?
    ensures var i := IssueOf(c, users, events, t.jti);
            i.Some? && i.value.kind == kind && i.value.user in users &&
            Validate(c, Run(c, users, events).auth, t, kind, now) == Ok(i.value.user)
  {
    RunAsIssued(c, users, events);
    RunSound(c, users, events);
    assert AsIssued(c, t, IssueOf(c, users, events, t.jti));
  }

  /** The whole life of a token of a known user, where revocation holds: it validates, as its own type
      only, to the user of its login until it is consumed or its time is over, and then it is expired. */
  lemma LifeOfAToken(c: Config, users: set<string>, events: seq<Event>, jti: string, now: int)
    requires RunCovered(Revocation, c, users, events) && Run(c, users, events).clock <= now
    requires IssueOf(c, users, events, jti).Some? && IssueOf(c, users, events, jti).value.user in users
    ensures var i := IssueOf(c, users, events, jti).value;
            var end := i.at + (if i.kind.Access? then c.accessTTL else c.refreshTTL);
            var a, other := Run(c, users, events).auth, if i.kind.Access? then Refresh else Access;
            exists t | t in a.signed && t.jti == jti ::
              && (now <= end - 1_000_000_000 && jti !in Run(c, users, events).consumed ==>
                    Validate(c, a, t, i.kind, now) == Ok(i.user))
              && (now <= end - 1_000_000_000 ==> Validate(c, a, t, other, now) == Err(InvalidTokenType))
              && (jti in Run(c, users, events).consumed ==> !Accepted(c, a, t, now))
              && (now >= end ==> Validate(c, a, t, i.kind, now) == Err(TokenExpired))
  {
    RunAsIssued(c, users, events);
    RunSound(c, users, events);
    RunBlocks(Revocation, c, users, events);
    var a := Run(c, users, events).auth;
    var t :| t in a.signed && t.jti == jti;
    assert AsIssued(c, t, IssueOf(c, users, events, jti));
    assert c.audience != [] ==> c.audience[0] in c.audience;
    AcceptedIff(c, users, events, t, now);
  }

  predicate Allowed(c: Config, name: string) { name in c.audience }

  /** Exactly which tokens validate, field by field. */
  lemma ValidatesIff(c: Config, a: Auth, t: Token, kind: Kind, now: int, user: string)
    ensures Validate(c, a, t, kind, now) == Ok(user) <==>
            && user == t.sub && user in a.users && t in a.signed && t.kind == kind && t.iss == c.issuer
            && now < t.exp * 1_000_000_000
            && !(t.jti != "" && t.jti in a.blacklist && now < a.blacklist[t.jti])
            && (c.audience == []
                || (t.aud.One? && Allowed(c, t.aud.name))
                || (t.aud.Many? && exists name | name in t.aud.names :: Allowed(c, name)))
  {
  }

  /** Exactly which refusals are called expired: those of tokens this service signed, past their time. */
  lemma ExpiredIff(c: Config, a: Auth, t: Token, kind: Kind, now: int)
    ensures Validate(c, a, t, kind, now) == Err(TokenExpired) <==> t in a.signed && t.exp * 1_000_000_000 <= now
    ensures CheckRefresh(c, a, t, now) == Err(TokenExpired) <==> t in a.signed && t.exp * 1_000_000_000 <= now
  {
  }

  /** A refresh asks for the same things as validation as a refresh token. */
  lemma RefreshChecksAsValidation(c: Config, a: Auth, t: Token, now: int)
    ensures CheckRefresh(c, a, t, now).Ok? <==> Validate(c, a, t, Refresh, now).Ok?
    ensures CheckRefresh(c, a, t, now).Ok? ==> CheckRefresh(c, a, t, now) == Validate(c, a, t, Refresh, now)
  {
  }

  // ---------- Logout through its route ----------

  /** The route's middleware lets a logout through only with a valid access token in the access slot. */
  predicate Routed(c: Config, w: World, e: Event) {
    e.step.LogoutStep? ==> e.step.access.Some? && Validate(c, w.auth, e.step.access.value, Access, e.now).Ok?
  }

  ghost predicate RunRouted(c: Config, users: set<string>, events: seq<Event>) {
    forall k | 0 <= k < |events| && Enabled(Run(c, users, events[..k]), events[k]) ::
      Routed(c, Run(c, users, events[..k]), events[k])
  }

  lemma RoutedCovers(law: Law, c: Config, w: World, e: Event)
    requires Sound(c, w) && Enabled(w, e) && Routed(c, w, e)
    requires law.Revocation? ==> c.accessTTL <= c.refreshTTL
    ensures CoversAll(law, c, w, e)
  {
    forall t | t in w.auth.signed && t.sub in w.auth.users && (law.Rotation? ==> Superseded(w, t))
      ensures Covers(c, e, t)
    {
      if e.step.LogoutStep? && t.jti == e.step.access.value.jti {
        assert t == e.step.access.value;
      }
    }
  }

  lemma RoutedRunCovered(law: Law, c: Config, users: set<string>, events: seq<Event>)
    requires RunRouted(c, users, events) && (law.Revocation? ==> c.accessTTL <= c.refreshTTL)
    ensures RunCovered(law, c, users, events)
  {
    forall k | 0 <= k < |events| && Enabled(Run(c, users, events[..k]), events[k])
      ensures CoversAll(law, c, Run(c, users, events[..k]), events[k])
    {
      RunSound(c, users, events[..k]);
      RoutedCovers(law, c, Run(c, users, events[..k]), events[k]);
    }
  }

  /** An access token handed in as both tokens of a logout gets the entry of the refresh slot. */
  lemma ShortRefreshTTLRevives(c: Config, user: string)
    requires 0 <= c.refreshTTL < c.accessTTL
    ensures exists events :: RunRouted(c, {user}, events) && !Upheld(Revocation, c, {user}, events)
  {
    var at := (1_000_000_000 - c.accessTTL % 1_000_000_000) % 1_000_000_000;
    var pair := NewPair(c, user, at, "a", "r");
    var login := Event(at, LoginStep(user, "a", "r"));
    var logout := Event(at, LogoutStep(Some(pair.access), Some(pair.access)));
    var events := [login, logout];
    var w := Next(c, Start({user}), login);
    assert events[..0] == [] && events[..1] == [login] && [login][..0] == [];
    assert Run(c, {user}, events[..1]) == w;
    assert ExpiresAt(pair.access) == at + c.accessTTL;
    assert c.audience != [] ==> c.audience[0] in c.audience;
    assert pair.access in w.auth.signed && Routed(c, w, logout);
    assert !Covers(c, logout, pair.access);
    assert !CoversAll(Revocation, c, w, logout);
    assert RunRouted(c, {user}, events);
    UpheldIffCovered(Revocation, c, {user}, events);
  }

  /** Through the route, revocation holds in every run exactly when refresh tokens live at least as long. */
  lemma RoutedRevocationIff(c: Config)
    requires c.accessTTL >= 0 && c.refreshTTL >= 0
    ensures (forall users, events | RunRouted(c, users, events) :: Upheld(Revocation, c, users, events))
            <==> c.accessTTL <= c.refreshTTL
  {
    if c.accessTTL <= c.refreshTTL {
      forall users, events | RunRouted(c, users, events) ensures Upheld(Revocation, c, users, events) {
        RoutedRunCovered(Revocation, c, users, events);
        CoveredIsUpheld(Revocation, c, users, events);
      }
    } else {
      ShortRefreshTTLRevives(c, "u");
    }
  }

  // ---------- A logout past the route ----------

  /** The service method itself takes a refresh token in the access slot, and then the token that a
      proper logout had revoked is accepted again. */
  lemma SwappedSlotsReviveAToken(c: Config, user: string)
    requires c.accessTTL == 900_000_000_000 && c.refreshTTL == 604_800_000_000_000
    ensures var pair := NewPair(c, user, 0, "a", "r");
            var events := [Event(0, LoginStep(user, "a", "r")),
                           Event(1, LogoutStep(Some(pair.access), Some(pair.refresh))),
                           Event(2, LogoutStep(Some(pair.refresh), None))];
            && pair.refresh.jti in Run(c, {user}, events).consumed
            && Accepted(c, Run(c, {user}, events).auth, pair.refresh, 900_000_000_002)
  {
    var pair := NewPair(c, user, 0, "a", "r");
    var e0, e1, e2 := Event(0, LoginStep(user, "a", "r")),
                      Event(1, LogoutStep(Some(pair.access), Some(pair.refresh))),
                      Event(2, LogoutStep(Some(pair.refresh), None));
    var events := [e0, e1, e2];
    assert events[..2] == [e0, e1] && [e0, e1][..1] == [e0] && [e0][..0] == [];
    var w1 := Next(c, Start({user}), e0);
    assert Run(c, {user}, [e0]) == w1;
    var w2 := Next(c, w1, e1);
    assert Run(c, {user}, [e0, e1]) == w2;
    var w3 := Next(c, w2, e2);
    assert Run(c, {user}, events) == w3;
    assert pair.refresh in w1.auth.signed;
    assert w3.auth.blacklist["r"] == 900_000_000_002;
    assert c.audience != [] ==> c.audience[0] in c.audience;
    assert CheckRefresh(c, w3.auth, pair.refresh, 900_000_000_002).Ok?;
  }

  // ---------- Refresh conservation ----------

  ghost function UsableRefresh(c: Config, a: Auth, now: int): set<Token> {
    set t | t in a.signed && CheckRefresh(c, a, t, now).Ok?
  }

  lemma OnlyNewestUsable(c: Config, users: set<string>, events: seq<Event>, now: int, t: Token)
    requires RunCovered(Rotation, c, users, events)
    requires t in UsableRefresh(c, Run(c, users, events).auth, now)
    ensures var w := Run(c, users, events);
            t.jti in w.chain && 0 <= w.chain[t.jti] < |w.heads| && w.heads[w.chain[t.jti]] == t.jti
  {
    RunSound(c, users, events);
    RunBlocks(Rotation, c, users, events);
  }

  /** Only the newest refresh token of each login is ever accepted, exactly in the runs where no
      logout cuts short the entry of a superseded one. */
  lemma RotationIff(c: Config, users: set<string>, events: seq<Event>)
    requires c.accessTTL >= 0 && c.refreshTTL >= 0
    ensures Upheld(Rotation, c, users, events) <==> RunCovered(Rotation, c, users, events)
  {
    UpheldIffCovered(Rotation, c, users, events);
  }

  /** Two usable refresh tokens of one login are the same token. */
  lemma OneUsablePerLogin(c: Config, users: set<string>, events: seq<Event>, now: int, t: Token, u: Token)
    requires RunCovered(Rotation, c, users, events) && Run(c, users, events).clock <= now
    requires var w := Run(c, users, events);
             && t in UsableRefresh(c, w.auth, now) && u in UsableRefresh(c, w.auth, now)
             && t.jti in w.chain && u.jti in w.chain && w.chain[t.jti] == w.chain[u.jti]
    ensures t == u
  {
    RunSound(c, users, events);
    OnlyNewestUsable(c, users, events, now, t);
    OnlyNewestUsable(c, users, events, now, u);
  }

  lemma {:induction false} JtisAreFew(tokens: set<Token>, heads: seq<string>)
    requires forall t | t in tokens :: t.jti in heads
    requires forall t, u | t in tokens && u in tokens && t.jti == u.jti :: t == u
    ensures |tokens| <= |heads|
    decreases |heads|
  {
    if heads == [] {
      assert tokens == {};
    } else {
      var last := heads[|heads| - 1];
      var others := set t | t in tokens && t.jti != last;
      JtisAreFew(others, heads[..|heads| - 1]);
      if t :| t in tokens && t.jti == last {
        assert tokens == others + {t};
      } else {
        assert tokens == others;
      }
    }
  }

  /** Usable refresh tokens never outnumber successful logins. */
  lemma UsableAtMostLogins(c: Config, users: set<string>, events: seq<Event>, now: int)
    requires RunCovered(Rotation, c, users, events) && Run(c, users, events).clock <= now
    ensures |UsableRefresh(c, Run(c, users, events).auth, now)| <= |Run(c, users, events).heads|
    ensures |Run(c, users, events).heads| == SuccessfulLogins(c, users, events)
  {
    RunSound(c, users, events);
    var w := Run(c, users, events);
    forall t | t in UsableRefresh(c, w.auth, now) ensures t.jti in w.heads {
      OnlyNewestUsable(c, users, events, now, t);
    }
    JtisAreFew(UsableRefresh(c, w.auth, now), w.heads);
    HeadsCountLogins(c, users, events);
  }

  /** Through the route both bounds hold in every run, whatever the TTLs. */
  lemma RoutedConservation(c: Config, users: set<string>, events: seq<Event>, now: int)
    requires RunRouted(c, users, events) && Run(c, users, events).clock <= now
    ensures var w := Run(c, users, events);
            var usable := UsableRefresh(c, w.auth, now);
            && |usable| <= SuccessfulLogins(c, users, events)
            && (forall t, u | t in usable && u in usable ::
                  t.jti in w.chain && u.jti in w.chain && (w.chain[t.jti] == w.chain[u.jti] ==> t == u))
  {
    RoutedRunCovered(Rotation, c, users, events);
    UsableAtMostLogins(c, users, events, now);
    var w := Run(c, users, events);
    forall t, u | t in UsableRefresh(c, w.auth, now) && u in UsableRefresh(c, w.auth, now)
      ensures t.jti in w.chain && u.jti in w.chain && (w.chain[t.jti] == w.chain[u.jti] ==> t == u)
    {
      OnlyNewestUsable(c, users, events, now, t);
      OnlyNewestUsable(c, users, events, now, u);
      if w.chain[t.jti] == w.chain[u.jti] {
        OneUsablePerLogin(c, users, events, now, t, u);
      }
    }
  }

  /** Past the route, a superseded refresh token in the access slot leaves one login with two usable ones. */
  lemma SwappedSlotsForkALogin(c: Config, user: string)
    requires c.accessTTL == 900_000_000_000 && c.refreshTTL == 604_800_000_000_000
    ensures var first := Mint(c, Refresh, "r", user, 0);
            var events := [Event(0, LoginStep(user, "a", "r")),
                           Event(1, RefreshStep(first, "b", "s")),
                           Event(2, LogoutStep(Some(first), None))];
            var usable := UsableRefresh(c, Run(c, {user}, events).auth, 900_000_000_002);
            first in usable && Mint(c, Refresh, "s", user, 1) in usable && SuccessfulLogins(c, {user}, events) == 1
  {
    var t, u := Mint(c, Refresh, "r", user, 0), Mint(c, Refresh, "s", user, 1);
    var e0, e1, e2 := Event(0, LoginStep(user, "a", "r")), Event(1, RefreshStep(t, "b", "s")),
                      Event(2, LogoutStep(Some(t), None));
    var events := [e0, e1, e2];
    assert events[..2] == [e0, e1] && [e0, e1][..1] == [e0] && [e0][..0] == [];
    assert c.audience != [] ==> c.audience[0] in c.audience;
    var w1 := Next(c, Start({user}), e0);
    assert Run(c, {user}, [e0]) == w1;
    assert CheckRefresh(c, w1.auth, t, 1).Ok?;
    var w2 := Next(c, w1, e1);
    assert Run(c, {user}, [e0, e1]) == w2;
    var w3 := Next(c, w2, e2);
    assert Run(c, {user}, events) == w3;
    assert w3.auth.blacklist["r"] == 900_000_000_002;
    assert SuccessfulLogins(c, {user}, [e0]) == 1 by { assert SuccessfulLogins(c, {user}, []) == 0; }
    assert SuccessfulLogins(c, {user}, [e0, e1]) == 1;
  }

  ghost function SuccessfulLogins(c: Config, users: set<string>, events: seq<Event>): nat {
    if events == [] then 0
    else
      var before, e := events[..|events| - 1], events[|events| - 1];
      SuccessfulLogins(c, users, before) +
      (if e.step.LoginStep? && Enabled(Run(c, users, before), e) then 1 else 0)
  }

  lemma {:induction false} HeadsCountLogins(c: Config, users: set<string>, events: seq<Event>)
    ensures |Run(c, users, events).heads| == SuccessfulLogins(c, users, events)
  {
    if events != [] {
      HeadsCountLogins(c, users, events[..|events| - 1]);
    }
  }
}

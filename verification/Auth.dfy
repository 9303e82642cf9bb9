/**
 Refresh-token rotation with replay detection.

 The database is three tables: users by id, and session and token rows in the order they were
 inserted. A JWT is the record of its claims; `issued` holds every token the server ever signed,
 so "the signature verifies" is "the claims are in `issued`". Ids and clock readings are drawn by
 the environment and arrive with each operation.
 */
module AuthModel {
  import opened Wrappers

  type UserId = nat
  type SessionId = nat
  type FamilyId = nat
  type Jti = nat

  datatype UserStatus = UserActive | UserDisabled | UserDeleted
  datatype SessionStatus = SessionActive | SessionRevoked | SessionCompromised
  datatype TokenStatus = TokenActive | TokenUsed | TokenRevoked

  datatype User = User(email: string, password: string, studentNo: string, phone: Option<string>,
                       status: UserStatus, deleted: bool)
  datatype Session = Session(id: SessionId, user: UserId, family: FamilyId, version: nat, status: SessionStatus)
  datatype Token = Token(jti: Jti, session: SessionId, user: UserId, family: FamilyId, status: TokenStatus,
                         expiresAt: int)
  datatype Db = Db(users: map<UserId, User>, sessions: seq<Session>, tokens: seq<Token>)

  /** What a signed JWT says. `exp` is in whole seconds, clock readings are in microseconds. */
  datatype Claims =
    | AccessClaims(user: UserId, jti: Jti, exp: int)
    | RefreshClaims(user: UserId, family: FamilyId, session: SessionId, jti: Jti, exp: int)

  datatype World = World(db: Db, issued: set<Claims>)

  datatype Settings = Settings(refreshTtl: nat, accessTtl: nat)

  /** The fresh identifiers one successful login draws. */
  datatype Draw = Draw(session: SessionId, family: FamilyId, jti: Jti, accessJti: Jti)

  datatype Op =
    | Register(userId: UserId, email: string, password: string, studentNo: string, phone: Option<string>,
               strong: bool, draw: Draw, now: int)
    | Login(email: string, password: string, draw: Draw, now: int)
    | Refresh(claims: Claims, decodeAt: int, now: int, jti: Jti, accessJti: Jti)
    | Logout(claims: Claims, decodeAt: int)
    | DeleteAccount(user: UserId)
    | SetStatus(user: UserId, status: UserStatus)

  datatype Outcome =
    | Issued(refresh: Claims, access: Claims, version: nat)
    | Done
    | WeakPassword
    | UserExists
    | ConstraintViolation
    | InvalidCredentials
    | InvalidToken
    | Replayed
    | Revoked
    | Expired
    | SessionInactive
    | UserNotFound

  const MICROS := 1_000_000

  // ---------------------------------------------------------------- lookups

  function TokenIndex(tokens: seq<Token>, jti: Jti): (r: Option<nat>)
    ensures r.Some? ==> r.value < |tokens| && tokens[r.value].jti == jti
    ensures r.None? ==> forall i :: 0 <= i < |tokens| ==> tokens[i].jti != jti
  {
    if |tokens| == 0 then None
    else if tokens[|tokens| - 1].jti == jti then Some(|tokens| - 1)
    else TokenIndex(tokens[..|tokens| - 1], jti)
  }

  function SessionIndex(sessions: seq<Session>, id: SessionId): (r: Option<nat>)
    ensures r.Some? ==> r.value < |sessions| && sessions[r.value].id == id
    ensures r.None? ==> forall i :: 0 <= i < |sessions| ==> sessions[i].id != id
  {
    if |sessions| == 0 then None
    else if sessions[|sessions| - 1].id == id then Some(|sessions| - 1)
    else SessionIndex(sessions[..|sessions| - 1], id)
  }

  /** A soft-deleted user is not found by id. */
  function UserById(db: Db, id: UserId): Option<User> {
    if id in db.users && !db.users[id].deleted then Some(db.users[id]) else None
  }

  ghost predicate EmailOf(db: Db, id: UserId, email: string) {
    id in db.users && db.users[id].email == email
  }

  predicate Barred(u: User) {
    u.status == UserDisabled || u.status == UserDeleted
  }

  // ---------------------------------------------------------------- revocation

  function Restatus(tokens: seq<Token>, g: Token -> TokenStatus): (r: seq<Token>)
    ensures |r| == |tokens|
    ensures forall i :: 0 <= i < |r| ==> r[i] == tokens[i].(status := g(tokens[i]))
  {
    seq(|tokens|, i requires 0 <= i < |tokens| => tokens[i].(status := g(tokens[i])))
  }

  function RevokedStatus(families: set<FamilyId>): Token -> TokenStatus {
    (t: Token) => if t.family in families && t.status != TokenUsed then TokenRevoked else t.status
  }

  function MarkSessions(sessions: seq<Session>, families: set<FamilyId>, status: SessionStatus): (r: seq<Session>)
    ensures |r| == |sessions|
    ensures forall i :: 0 <= i < |r| ==>
      r[i] == if sessions[i].family in families then sessions[i].(status := status) else sessions[i]
  {
    seq(|sessions|, i requires 0 <= i < |sessions| =>
      if sessions[i].family in families then sessions[i].(status := status) else sessions[i])
  }

  function RevokeFamilies(db: Db, families: set<FamilyId>, status: SessionStatus): Db {
    db.(tokens := Restatus(db.tokens, RevokedStatus(families)),
        sessions := MarkSessions(db.sessions, families, status))
  }

  /** The families of the user's sessions that are active now. */
  function ActiveFamilies(sessions: seq<Session>, user: UserId): (r: set<FamilyId>)
    ensures forall i :: (0 <= i < |sessions| && sessions[i].user == user && sessions[i].status == SessionActive
                         ==> sessions[i].family in r)
    ensures forall f :: f in r ==>
      exists i :: 0 <= i < |sessions| && sessions[i].user == user && sessions[i].status == SessionActive
                  && sessions[i].family == f
  {
    set i | 0 <= i < |sessions| && sessions[i].user == user && sessions[i].status == SessionActive
      :: sessions[i].family
  }

  // ---------------------------------------------------------------- operations

  function SignRefresh(user: UserId, draw: Draw, now: int, cfg: Settings): Claims {
    RefreshClaims(user, draw.family, draw.session, draw.jti, (now + cfg.refreshTtl) / MICROS)
  }

  function SignAccess(user: UserId, jti: Jti, now: int, cfg: Settings): Claims {
    AccessClaims(user, jti, (now + cfg.accessTtl) / MICROS)
  }

  /** A new session with its first refresh token, committed and handed out. */
  function OpenSession(w: World, user: UserId, draw: Draw, now: int, cfg: Settings): (World, Outcome) {
    var refresh := SignRefresh(user, draw, now, cfg);
    var access := SignAccess(user, draw.accessJti, now, cfg);
    var db := w.db.(
      sessions := w.db.sessions + [Session(draw.session, user, draw.family, 1, SessionActive)],
      tokens := w.db.tokens
        + [Token(draw.jti, draw.session, user, draw.family, TokenActive, now + cfg.refreshTtl)]);
    (World(db, w.issued + {refresh, access}), Issued(refresh, access, 1))
  }

  predicate Taken(db: Db, email: string, studentNo: string, phone: Option<string>) {
    exists id :: id in db.users &&
      (db.users[id].email == email
       || db.users[id].studentNo == studentNo
       || (phone.Some? && phone.value != "" && db.users[id].phone == phone))
  }

  /** A blank phone number skips the uniqueness check, and the unique column then refuses the second one. */
  predicate BlankPhoneClash(db: Db, phone: Option<string>) {
    phone == Some("") && exists id :: id in db.users && db.users[id].phone == phone
  }

  function RegisterStep(w: World, op: Op, cfg: Settings): (World, Outcome)
    requires op.Register?
  {
    if !op.strong then (w, WeakPassword)
    else if Taken(w.db, op.email, op.studentNo, op.phone) then (w, UserExists)
    else if BlankPhoneClash(w.db, op.phone) then (w, ConstraintViolation)
    else
      var user := User(op.email, op.password, op.studentNo, op.phone, UserActive, false);
      var db := w.db.(users := w.db.users[op.userId := user]);
      OpenSession(w.(db := db), op.userId, op.draw, op.now, cfg)
  }

  ghost function LoginStep(w: World, op: Op, cfg: Settings): (World, Outcome)
    requires op.Login?
  {
    if exists id :: EmailOf(w.db, id, op.email) then
      var id :| EmailOf(w.db, id, op.email);
      if w.db.users[id].password != op.password || Barred(w.db.users[id]) then (w, InvalidCredentials)
      else OpenSession(w, id, op.draw, op.now, cfg)
    else (w, InvalidCredentials)
  }

  /** Signature and expiry: the JWT library refuses a token from the second its `exp` names. */
  predicate Decodes(w: World, c: Claims, at: int) {
    c in w.issued && at < c.exp * MICROS
  }

  function RefreshStep(w: World, op: Op, cfg: Settings): (World, Outcome)
    requires op.Refresh?
  {
    var c := op.claims;
    if !Decodes(w, c, op.decodeAt) || !c.RefreshClaims? then (w, InvalidToken)
    else
      var found := TokenIndex(w.db.tokens, c.jti);
      if found.None? then (w, InvalidToken)
      else
        var stored := w.db.tokens[found.value];
        if stored.status == TokenUsed then
          (w.(db := RevokeFamilies(w.db, {c.family}, SessionCompromised)), Replayed)
        else if stored.status == TokenRevoked then (w, Revoked)
        else if stored.expiresAt < op.now then (w, Expired)
        else
          var sid := SessionIndex(w.db.sessions, c.session);
          if sid.None? || w.db.sessions[sid.value].status != SessionActive then (w, SessionInactive)
          else
            var user := UserById(w.db, c.user);
            if user.None? || Barred(user.value) then (w, InvalidToken)
            else
              Rotate(w, found.value, sid.value, c, op.now, op.jti, op.accessJti, cfg)
  }

  /** Spends token row `k`, bumps session row `s` and hands out the next link of the chain. */
  function Rotate(w: World, k: nat, s: nat, c: Claims, now: int, jti: Jti, accessJti: Jti, cfg: Settings)
    : (r: (World, Outcome))
    requires k < |w.db.tokens| && s < |w.db.sessions| && c.RefreshClaims?
    ensures r.1.Issued?
  {
    var row := w.db.sessions[s];
    var refresh := SignRefresh(c.user, Draw(row.id, c.family, jti, accessJti), now, cfg);
    var access := SignAccess(c.user, accessJti, now, cfg);
    var db := w.db.(
      sessions := w.db.sessions[s := row.(version := row.version + 1)],
      tokens := w.db.tokens[k := w.db.tokens[k].(status := TokenUsed)]
        + [Token(jti, row.id, c.user, c.family, TokenActive, now + cfg.refreshTtl)]);
    (World(db, w.issued + {refresh, access}), Issued(refresh, access, row.version + 1))
  }

  function LogoutStep(w: World, op: Op): (World, Outcome)
    requires op.Logout?
  {
    var c := op.claims;
    if !Decodes(w, c, op.decodeAt) || !c.AccessClaims? || UserById(w.db, c.user).None? then (w, InvalidToken)
    else (w.(db := RevokeFamilies(w.db, ActiveFamilies(w.db.sessions, c.user), SessionRevoked)), Done)
  }

  function DeleteStep(w: World, op: Op): (World, Outcome)
    requires op.DeleteAccount?
  {
    if UserById(w.db, op.user).None? then (w, UserNotFound)
    else
      var db := w.db.(users := w.db.users[op.user := w.db.users[op.user].(status := UserDeleted, deleted := true)]);
      (w.(db := RevokeFamilies(db, ActiveFamilies(db.sessions, op.user), SessionRevoked)), Done)
  }

  ghost function Step(w: World, op: Op, cfg: Settings): (World, Outcome) {
    match op
    case Register(_, _, _, _, _, _, _, _) => RegisterStep(w, op, cfg)
    case Login(_, _, _, _) => LoginStep(w, op, cfg)
    case Refresh(_, _, _, _, _) => RefreshStep(w, op, cfg)
    case Logout(_, _) => LogoutStep(w, op)
    case DeleteAccount(_) => DeleteStep(w, op)
    case SetStatus(u, status) =>
      if u in w.db.users then (w.(db := w.db.(users := w.db.users[u := w.db.users[u].(status := status)])), Done)
      else (w, UserNotFound)
  }

  // ---------------------------------------------------------------- the invariant

  /** The tokens of one family, in issue order. */
  function Family(tokens: seq<Token>, f: FamilyId): seq<Token> {
    if |tokens| == 0 then []
    else
      var init, last := tokens[..|tokens| - 1], tokens[|tokens| - 1];
      if last.family == f then Family(init, f) + [last] else Family(init, f)
  }

  /** A family is a chain of used tokens ending in the one token that is live while its session is. */
  ghost predicate Chain(c: seq<Token>, s: Session) {
    && |c| == s.version
    && |c| > 0
    && (forall i :: 0 <= i < |c| ==> c[i].session == s.id && c[i].user == s.user)
    && (forall i :: 0 <= i < |c| - 1 ==> c[i].status == TokenUsed)
    && c[|c| - 1].status == if s.status == SessionActive then TokenActive else TokenRevoked
  }

  ghost predicate DistinctJtis(tokens: seq<Token>) {
    forall i, j :: 0 <= i < j < |tokens| ==> tokens[i].jti != tokens[j].jti
  }

  ghost predicate DistinctSessions(sessions: seq<Session>) {
    forall i, j :: 0 <= i < j < |sessions| ==>
      sessions[i].id != sessions[j].id && sessions[i].family != sessions[j].family
  }

  ghost predicate HasSession(sessions: seq<Session>, f: FamilyId) {
    exists i :: 0 <= i < |sessions| && sessions[i].family == f
  }

  ghost predicate DistinctEmails(users: map<UserId, User>) {
    forall a, b :: a in users && b in users && users[a].email == users[b].email ==> a == b
  }

  /** A signed refresh token is backed by exactly the row its claims describe. */
  ghost predicate Backed(tokens: seq<Token>, c: Claims)
    requires c.RefreshClaims?
  {
    exists i :: 0 <= i < |tokens| && Describes(tokens[i], c)
  }

  ghost predicate Describes(t: Token, c: Claims)
    requires c.RefreshClaims?
  {
    t.jti == c.jti && t.family == c.family && t.session == c.session && t.user == c.user
    && t.expiresAt / MICROS == c.exp
  }

  /** Every session's family is a chain that agrees with the session. */
  ghost predicate Chained(db: Db) {
    forall i :: 0 <= i < |db.sessions| ==> ChainAt(db.tokens, db.sessions[i])
  }

  ghost predicate ChainAt(tokens: seq<Token>, s: Session) {
    Chain(Family(tokens, s.family), s)
  }

  /** No token belongs to a family without a session. */
  ghost predicate Homed(db: Db) {
    forall i :: 0 <= i < |db.tokens| ==> HasSession(db.sessions, db.tokens[i].family)
  }

  ghost predicate Owned(db: Db) {
    forall i :: 0 <= i < |db.sessions| ==> db.sessions[i].user in db.users
  }

  ghost predicate AllBacked(tokens: seq<Token>, issued: set<Claims>) {
    forall c :: c in issued && c.RefreshClaims? ==> Backed(tokens, c)
  }

  ghost predicate Inv(w: World) {
    && DistinctJtis(w.db.tokens)
    && DistinctSessions(w.db.sessions)
    && DistinctEmails(w.db.users)
    && Owned(w.db)
    && Chained(w.db)
    && Homed(w.db)
    && AllBacked(w.db.tokens, w.issued)
  }

  const EMPTY := World(Db(map[], [], []), {})

  /** The identifiers an operation draws have never been drawn before. */
  ghost predicate FreshDraws(w: World, op: Op) {
    match op
    case Register(u, _, _, _, _, _, d, _) => u !in w.db.users && FreshDraw(w.db, d)
    case Login(_, _, d, _) => FreshDraw(w.db, d)
    case Refresh(_, _, _, jti, _) => forall i :: 0 <= i < |w.db.tokens| ==> w.db.tokens[i].jti != jti
    case _ => true
  }

  ghost predicate FreshDraw(db: Db, d: Draw) {
    && (forall i :: 0 <= i < |db.tokens| ==> db.tokens[i].jti != d.jti)
    && (forall i :: 0 <= i < |db.sessions| ==> db.sessions[i].id != d.session && db.sessions[i].family != d.family)
  }

  /** A run: `ops[i]` takes `states[i]` to `states[i + 1]` and answers `outs[i]`. */
  datatype Trace = Trace(states: seq<World>, ops: seq<Op>, outs: seq<Outcome>)

  ghost predicate Link(tr: Trace, cfg: Settings, i: nat)
    requires i < |tr.ops| == |tr.outs| && |tr.states| == |tr.ops| + 1
  {
    FreshDraws(tr.states[i], tr.ops[i])
    && (tr.states[i + 1], tr.outs[i]) == Step(tr.states[i], tr.ops[i], cfg)
  }

  /** A run from the empty database in which every operation draws fresh identifiers. */
  ghost predicate Run(tr: Trace, cfg: Settings) {
    && |tr.ops| == |tr.outs| && |tr.states| == |tr.ops| + 1
    && tr.states[0] == EMPTY
    && forall i :: 0 <= i < |tr.ops| ==> Link(tr, cfg, i)
  }
}

/**
 What each operation of the token-family protocol answers and changes, stated over the rows and claims
 before and after it.
 */
module AuthEffects {
  import opened Wrappers
  import opened AuthModel
  import opened AuthTheorems

  // ---------------------------------------------------------------- the tokens handed out

  /** The answer hands out a new refresh token and a new access token of this user, on this session and family. */
  ghost predicate Handed(w: World, out: Outcome, user: UserId, draw: Draw, now: int, cfg: Settings) {
    && out.Issued? && out.refresh in w.issued && out.access in w.issued
    && out.refresh == RefreshClaims(user, draw.family, draw.session, draw.jti, (now + cfg.refreshTtl) / MICROS)
    && out.access == AccessClaims(user, draw.accessJti, (now + cfg.accessTtl) / MICROS)
    && LiveLink(w, out.refresh)
  }

  lemma OpenHandsOut(w: World, user: UserId, draw: Draw, now: int, cfg: Settings)
    requires Inv(w) && FreshDraw(w.db, draw)
    ensures var (w', out) := OpenSession(w, user, draw, now, cfg);
      Handed(w', out, user, draw, now, cfg)
  {
    var w' := OpenSession(w, user, draw, now, cfg).0;
    var t := w'.db.tokens[|w.db.tokens|];
    forall i | 0 <= i < |w.db.tokens| ensures w.db.tokens[i].family != draw.family {
      var k := SessionOf(w, i);
    }
    FamilyEmpty(w.db.tokens, draw.family);
    FamilyAppend(w.db.tokens, t, draw.family);
    var s := w'.db.sessions[|w.db.sessions|];
    assert s in w'.db.sessions;
    hide Family, Inv;
  }

  lemma RegisterHandsOut(w: World, op: Op, cfg: Settings)
    requires Inv(w) && op.Register? && FreshDraws(w, op) && RegisterStep(w, op, cfg).1.Issued?
    ensures var (w', out) := RegisterStep(w, op, cfg);
      Handed(w', out, op.userId, op.draw, op.now, cfg)
  {
    hide Inv, OpenSession, Handed;
    var users := w.db.users[op.userId := User(op.email, op.password, op.studentNo, op.phone, UserActive, false)];
    assert DistinctEmails(users) by { NewEmail(w, op); }
    UsersChangeKeepsInv(w, users);
    OpenHandsOut(w.(db := w.db.(users := users)), op.userId, op.draw, op.now, cfg);
  }

  lemma NewEmail(w: World, op: Op)
    requires Inv(w) && op.Register? && !Taken(w.db, op.email, op.studentNo, op.phone)
    ensures DistinctEmails(w.db.users[op.userId :=
      User(op.email, op.password, op.studentNo, op.phone, UserActive, false)])
  {
  }

  lemma LoginHandsOut(w: World, op: Op, cfg: Settings, id: UserId)
    requires Inv(w) && op.Login? && FreshDraws(w, op) && LoginStep(w, op, cfg).1.Issued? && EmailOf(w.db, id, op.email)
    ensures var (w', out) := LoginStep(w, op, cfg);
      Handed(w', out, id, op.draw, op.now, cfg)
  {
    assert DistinctEmails(w.db.users);
    hide Inv, OpenSession, Handed;
    OpenHandsOut(w, id, op.draw, op.now, cfg);
  }

  /** A rotation hands out the new row's token, never the one presented. */
  lemma RefreshHandsOut(w: World, op: Op, cfg: Settings)
    requires Inv(w) && op.Refresh? && FreshDraws(w, op) && RefreshStep(w, op, cfg).1.Issued?
    ensures var (w', out) := RefreshStep(w, op, cfg);
      && op.claims.RefreshClaims? && out.refresh != op.claims
      && Handed(w', out, op.claims.user, Draw(op.claims.session, op.claims.family, op.jti, op.accessJti), op.now, cfg)
  {
    var c := op.claims;
    var k, s := Presented(w, c);
    ActiveIffLiveLink(w, c, k, s);
    var w' := RefreshStep(w, op, cfg).0;
    var t := w'.db.tokens[|w.db.tokens|];
    var spent := w.db.tokens[k := w.db.tokens[k].(status := TokenUsed)];
    FamilyAppend(spent, t, c.family);
    assert w'.db.tokens == spent + [t];
    assert w'.db.sessions[s] in w'.db.sessions;
    hide Family, Inv;
  }

  /** What is handed out works: refreshing with it before its expiry, with the user not barred, succeeds. */
  lemma HandedWorks(w: World, out: Outcome, user: UserId, draw: Draw, now: int, cfg: Settings, next: Op)
    requires Inv(w) && Handed(w, out, user, draw, now, cfg)
    requires next.Refresh? && next.claims == out.refresh
    requires next.decodeAt < out.refresh.exp * MICROS && next.now < out.refresh.exp * MICROS
    requires UserById(w.db, user).Some? && !Barred(UserById(w.db, user).value)
    ensures RefreshStep(w, next, cfg).1.Issued?
  {
    var k, s := Presented(w, out.refresh);
    RefreshSucceedsIff(w, next, cfg);
    hide Inv, Family, RefreshStep;
  }

  /** The user an operation that may hand out tokens is about. */
  ghost predicate About(w: World, op: Op, user: UserId) {
    match op
    case Register(id, _, _, _, _, _, _, _) => user == id
    case Login(email, _, _, _) => EmailOf(w.db, user, email)
    case Refresh(c, _, _, _, _) => user == c.user
    case _ => false
  }

  lemma StepHandsOut(w: World, op: Op, cfg: Settings, user: UserId) returns (draw: Draw, now: int)
    requires Inv(w) && FreshDraws(w, op) && Step(w, op, cfg).1.Issued? && About(w, op, user)
    ensures var (w', out) := Step(w, op, cfg);
      Handed(w', out, user, draw, now, cfg)
    ensures now == op.now
  {
    hide Inv, RefreshStep, RegisterStep, LoginStep, Handed, FreshDraws;
    match op
    case Register(_, _, _, _, _, _, d, t) =>
      RegisterHandsOut(w, op, cfg);
      draw, now := d, t;
    case Login(_, _, d, t) =>
      LoginHandsOut(w, op, cfg, user);
      draw, now := d, t;
    case Refresh(c, _, t, jti, accessJti) =>
      RefreshHandsOut(w, op, cfg);
      draw, now := Draw(c.session, c.family, jti, accessJti), t;
  }

  /** Main result 1: whatever register, login or refresh handed out the token, refreshing with it straight after,
      before its expiry and with the user not barred, is answered with the next pair. */
  lemma NextRefreshSucceeds(w: World, op: Op, cfg: Settings, user: UserId, next: Op)
    requires Inv(w) && FreshDraws(w, op) && Step(w, op, cfg).1.Issued? && About(w, op, user)
    requires var (w', out) := Step(w, op, cfg);
      && next.Refresh? && next.claims == out.refresh && out.refresh.RefreshClaims?
      && next.decodeAt < out.refresh.exp * MICROS && next.now < out.refresh.exp * MICROS
      && UserById(w'.db, user).Some? && !Barred(UserById(w'.db, user).value)
    ensures RefreshStep(Step(w, op, cfg).0, next, cfg).1.Issued?
  {
    hide *;
    var draw, now := StepHandsOut(w, op, cfg, user);
    StepKeepsInv(w, op, cfg);
    HandedWorks(Step(w, op, cfg).0, Step(w, op, cfg).1, user, draw, now, cfg, next);
  }

  // ---------------------------------------------------------------- login and register

  /** One session with one active token was added for the user; every older row is as it was. */
  ghost predicate OneSessionAdded(db: Db, db': Db, user: UserId, draw: Draw, expiresAt: int) {
    && |db'.sessions| == |db.sessions| + 1 && |db'.tokens| == |db.tokens| + 1
    && (forall i :: 0 <= i < |db.sessions| ==> db'.sessions[i] == db.sessions[i])
    && (forall i :: 0 <= i < |db.tokens| ==> db'.tokens[i] == db.tokens[i])
    && db'.sessions[|db.sessions|] == Session(draw.session, user, draw.family, 1, SessionActive)
    && db'.tokens[|db.tokens|] == Token(draw.jti, draw.session, user, draw.family, TokenActive, expiresAt)
  }

  /** The credentials name a user who may log in. */
  ghost predicate MayLogIn(db: Db, id: UserId, email: string, password: string) {
    && id in db.users && db.users[id].email == email && db.users[id].password == password
    && db.users[id].status != UserDisabled && db.users[id].status != UserDeleted
  }

  /** Main result 2: a login succeeds exactly for a user with that email, that password and a status neither disabled
      nor deleted, and then adds one session for that user; otherwise it changes nothing and says only that the
      credentials are invalid. */
  lemma LoginSucceedsIff(w: World, op: Op, cfg: Settings)
    requires Inv(w) && op.Login?
    ensures var (w', out) := LoginStep(w, op, cfg);
      && (out.Issued? <==> exists id :: MayLogIn(w.db, id, op.email, op.password))
      && (!out.Issued? ==> w' == w && out == InvalidCredentials)
      && w'.db.users == w.db.users
      && forall id :: MayLogIn(w.db, id, op.email, op.password) ==>
           out.version == 1 && OneSessionAdded(w.db, w'.db, id, op.draw, op.now + cfg.refreshTtl)
  {
    assert DistinctEmails(w.db.users);
    hide Inv;
    forall id | MayLogIn(w.db, id, op.email, op.password) ensures EmailOf(w.db, id, op.email) {}
    if id :| EmailOf(w.db, id, op.email) {
      assert LoginStep(w, op, cfg).1.Issued? ==> MayLogIn(w.db, id, op.email, op.password);
    }
  }

  /** Some account has the email, the student number, or a phone number like this one. */
  ghost predicate InUse(db: Db, email: string, studentNo: string, phone: Option<string>) {
    exists id :: id in db.users && (db.users[id].email == email || db.users[id].studentNo == studentNo
      || (phone.Some? && db.users[id].phone == phone))
  }

  /** One active account was added. */
  ghost predicate AccountAdded(db: Db, db': Db, id: UserId, email: string, password: string) {
    && db'.users.Keys == db.users.Keys + {id} && MayLogIn(db', id, email, password)
    && forall other :: other in db.users ==> db'.users[other] == db.users[other]
  }

  /** Main result 3: a registration succeeds exactly with a strong password and nothing in use, and then adds one
      active account with one session; otherwise it changes nothing. */
  lemma RegisterSucceedsIff(w: World, op: Op, cfg: Settings)
    requires op.Register? && op.userId !in w.db.users
    ensures var (w', out) := RegisterStep(w, op, cfg);
      && (out.Issued? <==> op.strong && !InUse(w.db, op.email, op.studentNo, op.phone))
      && (out == WeakPassword <==> !op.strong)
      && (!out.Issued? && op.strong ==> out in {UserExists, ConstraintViolation})
      && (out == ConstraintViolation ==> op.phone == Some(""))
      && (!out.Issued? ==> w' == w)
      && (out.Issued? ==> out.version == 1 && OneSessionAdded(w.db, w'.db, op.userId, op.draw, op.now + cfg.refreshTtl))
      && (out.Issued? ==> AccountAdded(w.db, w'.db, op.userId, op.email, op.password))
  {
  }

  // ---------------------------------------------------------------- refresh errors

  /** What a presented token is answered, from the status of its row. */
  ghost predicate AnsweredByRow(t: Token, out: Outcome, now: int) {
    && (out == Replayed <==> t.status == TokenUsed)
    && (out == Revoked <==> t.status == TokenRevoked)
    && (out == Expired <==> t.status == TokenActive && t.expiresAt < now)
  }

  /** Main result 4: a token that does not decode as a refresh token is invalid; one that does has a row, and the
      row's status and expiry decide between replay, revocation and expiry. */
  lemma RefreshAnswers(w: World, op: Op, cfg: Settings) returns (k: nat)
    requires Inv(w) && op.Refresh?
    ensures var out := RefreshStep(w, op, cfg).1;
      if Decodes(w, op.claims, op.decodeAt) && op.claims.RefreshClaims? then
        k < |w.db.tokens| && w.db.tokens[k].jti == op.claims.jti && AnsweredByRow(w.db.tokens[k], out, op.now)
      else out == InvalidToken
  {
    k := 0;
    if Decodes(w, op.claims, op.decodeAt) && op.claims.RefreshClaims? {
      var s;
      k, s := Presented(w, op.claims);
      ActiveIffLiveLink(w, op.claims, k, s);
      hide *;
      AnswerFromRows(w, op, cfg, k, s);
    }
  }

  lemma AnswerFromRows(w: World, op: Op, cfg: Settings, k: nat, s: nat)
    requires op.Refresh? && Decodes(w, op.claims, op.decodeAt) && op.claims.RefreshClaims?
    requires k < |w.db.tokens| && TokenIndex(w.db.tokens, op.claims.jti) == Some(k)
    requires s < |w.db.sessions| && SessionIndex(w.db.sessions, op.claims.session) == Some(s)
    requires w.db.tokens[k].status == TokenActive ==> w.db.sessions[s].status == SessionActive
    ensures AnsweredByRow(w.db.tokens[k], RefreshStep(w, op, cfg).1, op.now)
  {
    hide Rotate, RevokeFamilies, TokenIndex, SessionIndex;
  }

  /** The family's sessions are compromised, its tokens that were not used are revoked, and nothing else changed. */
  ghost predicate FamilyCompromised(w: World, w': World, f: FamilyId) {
    && w'.db.users == w.db.users && w'.issued == w.issued
    && |w'.db.tokens| == |w.db.tokens| && |w'.db.sessions| == |w.db.sessions|
    && (forall i :: 0 <= i < |w.db.tokens| ==> TokenCompromised(w.db.tokens[i], w'.db.tokens[i], f))
    && (forall i :: 0 <= i < |w.db.sessions| ==> SessionCompromise(w.db.sessions[i], w'.db.sessions[i], f))
  }

  ghost predicate TokenCompromised(t: Token, t': Token, f: FamilyId) {
    t' == if t.family == f && t.status != TokenUsed then t.(status := TokenRevoked) else t
  }

  ghost predicate SessionCompromise(s: Session, s': Session, f: FamilyId) {
    s' == if s.family == f then s.(status := SessionCompromised) else s
  }

  /** A replay compromises the family presented; every other rejection changes nothing. */
  lemma RejectedRefreshChanges(w: World, op: Op, cfg: Settings)
    requires op.Refresh? && !RefreshStep(w, op, cfg).1.Issued?
    ensures var (w', out) := RefreshStep(w, op, cfg);
      if out == Replayed then op.claims.RefreshClaims? && FamilyCompromised(w, w', op.claims.family) else w' == w
  {
    if RefreshStep(w, op, cfg).1 == Replayed { ReplayRevokes(w, op, cfg); }
  }

  // ---------------------------------------------------------------- logout and deletion

  /** Exactly the user's active sessions and active tokens were revoked. */
  ghost predicate SignedOut(db: Db, db': Db, user: UserId) {
    && |db'.tokens| == |db.tokens| && |db'.sessions| == |db.sessions|
    && (forall i :: 0 <= i < |db.sessions| ==> SessionSignedOut(db.sessions[i], db'.sessions[i], user))
    && (forall i :: 0 <= i < |db.tokens| ==> TokenSignedOut(db.tokens[i], db'.tokens[i], user))
  }

  ghost predicate SessionSignedOut(s: Session, s': Session, user: UserId) {
    s' == if s.user == user && s.status == SessionActive then s.(status := SessionRevoked) else s
  }

  ghost predicate TokenSignedOut(t: Token, t': Token, user: UserId) {
    t' == if t.user == user && t.status == TokenActive then t.(status := TokenRevoked) else t
  }

  /** The session a token row belongs to, and how their statuses go together. */
  lemma TokenWithSession(w: World, i: nat) returns (k: nat)
    requires Inv(w) && i < |w.db.tokens|
    ensures k < |w.db.sessions| && w.db.sessions[k].family == w.db.tokens[i].family
    ensures w.db.sessions[k].user == w.db.tokens[i].user
    ensures w.db.tokens[i].status == TokenActive ==> w.db.sessions[k].status == SessionActive
    ensures w.db.tokens[i].status == TokenRevoked ==> w.db.sessions[k].status != SessionActive
  {
    k := SessionOf(w, i);
    assert ChainAt(w.db.tokens, w.db.sessions[k]);
    var chain := Family(w.db.tokens, w.db.tokens[i].family);
    FamilyMembers(w.db.tokens, w.db.tokens[i].family);
    assert w.db.tokens[i] in chain;
    hide Family, Inv;
    var p :| 0 <= p < |chain| && chain[p] == w.db.tokens[i];
  }

  lemma FamilyActiveIff(w: World, user: UserId, k: nat)
    requires Inv(w) && k < |w.db.sessions|
    ensures w.db.sessions[k].family in ActiveFamilies(w.db.sessions, user) <==>
      w.db.sessions[k].user == user && w.db.sessions[k].status == SessionActive
  {
    assert DistinctSessions(w.db.sessions);
    hide Inv, ActiveFamilies;
    if w.db.sessions[k].family in ActiveFamilies(w.db.sessions, user) {
      var i :| 0 <= i < |w.db.sessions| && w.db.sessions[i].user == user && w.db.sessions[i].status == SessionActive
        && w.db.sessions[i].family == w.db.sessions[k].family;
      assert i == k;
    }
  }

  lemma RevokeSignsOut(w: World, user: UserId)
    requires Inv(w)
    ensures var db' := RevokeFamilies(w.db, ActiveFamilies(w.db.sessions, user), SessionRevoked);
      SignedOut(w.db, db', user) && db'.users == w.db.users
  {
    var families := ActiveFamilies(w.db.sessions, user);
    var db' := RevokeFamilies(w.db, families, SessionRevoked);
    hide Inv, ActiveFamilies;
    forall i | 0 <= i < |w.db.sessions| ensures SessionSignedOut(w.db.sessions[i], db'.sessions[i], user) {
      FamilyActiveIff(w, user, i);
    }
    forall i | 0 <= i < |w.db.tokens| ensures TokenSignedOut(w.db.tokens[i], db'.tokens[i], user) {
      var k := TokenWithSession(w, i);
      FamilyActiveIff(w, user, k);
    }
  }

  /** Main result 5: a logout is done exactly for a live access token of an account that is not deleted, and then
      revokes exactly that user's active sessions and tokens; every other user's stay as they are. */
  lemma LogoutSignsOut(w: World, op: Op)
    requires Inv(w) && op.Logout?
    ensures var (w', out) := LogoutStep(w, op);
      && (out == Done <==> (
            && Decodes(w, op.claims, op.decodeAt) && op.claims.AccessClaims?
            && op.claims.user in w.db.users && !w.db.users[op.claims.user].deleted))
      && (out != Done ==> out == InvalidToken && w' == w)
      && (out == Done ==> SignedOut(w.db, w'.db, op.claims.user) && w'.db.users == w.db.users && w'.issued == w.issued)
  {
    hide Inv, RevokeFamilies, ActiveFamilies, SignedOut;
    RevokeSignsOut(w, op.claims.user);
  }

  /** Nobody logs in with the account or finds it by its id, and the other accounts are as they were. */
  ghost predicate AccountGone(db: Db, db': Db, user: UserId) {
    && UserById(db', user).None? && (forall email, password :: !MayLogIn(db', user, email, password))
    && db'.users.Keys == db.users.Keys
    && forall id :: id in db.users && id != user ==> db'.users[id] == db.users[id]
  }

  /** Main result 6: deleting an account marks it, so that nobody logs in with it or is found by its id, and revokes
      exactly its active sessions and tokens. */
  lemma DeletionSignsOut(w: World, op: Op)
    requires Inv(w) && op.DeleteAccount?
    ensures var (w', out) := DeleteStep(w, op);
      && (out == Done <==> op.user in w.db.users && !w.db.users[op.user].deleted)
      && (out != Done ==> out == UserNotFound && w' == w)
      && (out == Done ==> SignedOut(w.db, w'.db, op.user) && w'.issued == w.issued)
      && (out == Done ==> AccountGone(w.db, w'.db, op.user))
  {
    if UserById(w.db, op.user).Some? {
      var users := w.db.users[op.user := w.db.users[op.user].(status := UserDeleted, deleted := true)];
      UsersChangeKeepsInv(w, users);
      hide Inv, RevokeFamilies, ActiveFamilies;
      RevokeSignsOut(w.(db := w.db.(users := users)), op.user);
    }
  }
}

/**
 What the token-family protocol keeps over every run of register, login, refresh, logout,
 account deletion and status changes.
 */
module AuthTheorems {
  import opened Wrappers
  import opened AuthModel

  // ---------------------------------------------------------------- families under table updates

  lemma FamilyAppend(tokens: seq<Token>, t: Token, f: FamilyId)
    ensures Family(tokens + [t], f) == if t.family == f then Family(tokens, f) + [t] else Family(tokens, f)
  {
    assert (tokens + [t])[..|tokens|] == tokens;
  }

  lemma {:induction false} FamilyRestatus(tokens: seq<Token>, g: Token -> TokenStatus, f: FamilyId)
    ensures Family(Restatus(tokens, g), f) == Restatus(Family(tokens, f), g)
  {
    if |tokens| == 0 {
    } else {
      var init := tokens[..|tokens| - 1];
      FamilyRestatus(init, g, f);
      assert Restatus(tokens, g)[..|tokens| - 1] == Restatus(init, g);
    }
  }

  lemma {:induction false} FamilyMembers(tokens: seq<Token>, f: FamilyId)
    ensures forall t :: t in Family(tokens, f) <==> t in tokens && t.family == f
  {
    if |tokens| == 0 {
    } else {
      var init, last := tokens[..|tokens| - 1], tokens[|tokens| - 1];
      FamilyMembers(init, f);
      assert tokens == init + [last];
    }
  }

  lemma {:induction false} FamilyEmpty(tokens: seq<Token>, f: FamilyId)
    requires forall i :: 0 <= i < |tokens| ==> tokens[i].family != f
    ensures Family(tokens, f) == []
  {
    if |tokens| > 0 {
      FamilyEmpty(tokens[..|tokens| - 1], f);
    }
  }

  /** Under unique jtis, spending one row is a change of status decided row by row. */
  lemma SpendIsRestatus(tokens: seq<Token>, k: nat)
    requires k < |tokens| && DistinctJtis(tokens)
    ensures tokens[k := tokens[k].(status := TokenUsed)] == Restatus(tokens, Spend(tokens[k].jti))
  {
    var a, b := tokens[k := tokens[k].(status := TokenUsed)], Restatus(tokens, Spend(tokens[k].jti));
    forall i | 0 <= i < |a| ensures a[i] == b[i] {
      if i < k { assert tokens[i].jti != tokens[k].jti; }
      if k < i { assert tokens[k].jti != tokens[i].jti; }
    }
  }

  function Spend(jti: Jti): Token -> TokenStatus {
    (t: Token) => if t.jti == jti then TokenUsed else t.status
  }

  // ---------------------------------------------------------------- the invariant is inductive

  lemma BackedByRestatus(tokens: seq<Token>, g: Token -> TokenStatus, c: Claims)
    requires c.RefreshClaims? && Backed(tokens, c)
    ensures Backed(Restatus(tokens, g), c)
  {
    var i :| 0 <= i < |tokens| && Describes(tokens[i], c);
    assert Describes(Restatus(tokens, g)[i], c);
  }

  lemma BackedByAppend(tokens: seq<Token>, t: Token, c: Claims)
    requires c.RefreshClaims?
    ensures Backed(tokens, c) || Describes(t, c) ==> Backed(tokens + [t], c)
  {
    if Backed(tokens, c) {
      var i :| 0 <= i < |tokens| && Describes(tokens[i], c);
      assert Describes((tokens + [t])[i], c);
    } else if Describes(t, c) {
      assert Describes((tokens + [t])[|tokens|], c);
    }
  }

  lemma RevokeKeepsChain(tokens: seq<Token>, s: Session, families: set<FamilyId>, status: SessionStatus)
    requires ChainAt(tokens, s) && status != SessionActive
    ensures ChainAt(Restatus(tokens, RevokedStatus(families)),
                    if s.family in families then s.(status := status) else s)
  {
    var c := Family(tokens, s.family);
    FamilyRestatus(tokens, RevokedStatus(families), s.family);
    FamilyMembers(tokens, s.family);
    assert forall k :: 0 <= k < |c| ==> c[k] in c;
  }

  lemma HomedKept(db: Db, db': Db)
    requires Homed(db) && |db.sessions| <= |db'.sessions|
    requires forall i :: 0 <= i < |db.sessions| ==> db'.sessions[i].family == db.sessions[i].family
    requires forall i :: 0 <= i < |db'.tokens| ==>
      (i < |db.tokens| && db'.tokens[i].family == db.tokens[i].family) || HasSession(db'.sessions, db'.tokens[i].family)
    ensures Homed(db')
  {
    forall i | 0 <= i < |db'.tokens| ensures HasSession(db'.sessions, db'.tokens[i].family) {
      if i < |db.tokens| && HasSession(db.sessions, db'.tokens[i].family) {
        var k :| 0 <= k < |db.sessions| && db.sessions[k].family == db'.tokens[i].family;
        assert db'.sessions[k].family == db'.tokens[i].family;
      }
    }
  }

  lemma RevokeKeepsChained(db: Db, families: set<FamilyId>, status: SessionStatus)
    requires Chained(db) && status != SessionActive
    ensures Chained(RevokeFamilies(db, families, status))
  {
    var db' := RevokeFamilies(db, families, status);
    forall i | 0 <= i < |db'.sessions| ensures ChainAt(db'.tokens, db'.sessions[i]) {
      RevokeKeepsChain(db.tokens, db.sessions[i], families, status);
    }
  }

  lemma RestatusKeepsBacking(tokens: seq<Token>, g: Token -> TokenStatus, issued: set<Claims>)
    requires AllBacked(tokens, issued)
    ensures AllBacked(Restatus(tokens, g), issued)
  {
    forall c | c in issued && c.RefreshClaims? ensures Backed(Restatus(tokens, g), c) {
      BackedByRestatus(tokens, g, c);
    }
  }

  lemma RevokeKeepsInv(w: World, families: set<FamilyId>, status: SessionStatus)
    requires Inv(w) && status != SessionActive
    ensures Inv(w.(db := RevokeFamilies(w.db, families, status)))
  {
    hide Chained, Homed, AllBacked;
    RevokeKeepsChained(w.db, families, status);
    HomedKept(w.db, RevokeFamilies(w.db, families, status));
    RestatusKeepsBacking(w.db.tokens, RevokedStatus(families), w.issued);
  }

  lemma SessionOf(w: World, i: nat) returns (k: nat)
    requires Homed(w.db) && i < |w.db.tokens|
    ensures k < |w.db.sessions| && w.db.sessions[k].family == w.db.tokens[i].family
  {
    assert HasSession(w.db.sessions, w.db.tokens[i].family);
    k :| 0 <= k < |w.db.sessions| && w.db.sessions[k].family == w.db.tokens[i].family;
  }

  lemma OpenKeepsChained(w: World, user: UserId, draw: Draw, now: int, cfg: Settings)
    requires Chained(w.db) && Homed(w.db) && FreshDraw(w.db, draw)
    ensures Chained(OpenSession(w, user, draw, now, cfg).0.db)
  {
    var db' := OpenSession(w, user, draw, now, cfg).0.db;
    var t := db'.tokens[|w.db.tokens|];
    forall i | 0 <= i < |w.db.tokens| ensures w.db.tokens[i].family != draw.family {
      var k := SessionOf(w, i);
    }
    FamilyEmpty(w.db.tokens, draw.family);
    forall i | 0 <= i < |db'.sessions| ensures ChainAt(db'.tokens, db'.sessions[i]) {
      FamilyAppend(w.db.tokens, t, db'.sessions[i].family);
      if i < |w.db.sessions| { assert ChainAt(w.db.tokens, w.db.sessions[i]); }
    }
  }

  lemma OpenKeepsInv(w: World, user: UserId, draw: Draw, now: int, cfg: Settings)
    requires Inv(w) && FreshDraw(w.db, draw) && user in w.db.users
    ensures Inv(OpenSession(w, user, draw, now, cfg).0)
  {
    var w' := OpenSession(w, user, draw, now, cfg).0;
    var t := w'.db.tokens[|w.db.tokens|];
    assert w'.db.sessions[|w.db.sessions|].family == t.family;
    HomedKept(w.db, w'.db);
    hide Chained, Homed, AllBacked;
    OpenKeepsChained(w, user, draw, now, cfg);
    AppendKeepsBacking(w.db.tokens, t, w.issued, w'.issued, SignRefresh(user, draw, now, cfg));
  }

  lemma AppendKeepsBacking(tokens: seq<Token>, t: Token, issued: set<Claims>, issued': set<Claims>, refresh: Claims)
    requires AllBacked(tokens, issued)
    requires refresh.RefreshClaims? && Describes(t, refresh)
    requires forall c :: c in issued' && c.RefreshClaims? ==> c in issued || c == refresh
    ensures AllBacked(tokens + [t], issued')
  {
    forall c | c in issued' && c.RefreshClaims? ensures Backed(tokens + [t], c) {
      BackedByAppend(tokens, t, c);
    }
  }

  /** The facts a presented, decodable refresh token gives about the tables. */
  lemma Presented(w: World, c: Claims) returns (k: nat, s: nat)
    requires Inv(w) && c in w.issued && c.RefreshClaims?
    ensures k < |w.db.tokens| && TokenIndex(w.db.tokens, c.jti) == Some(k) && Describes(w.db.tokens[k], c)
    ensures s < |w.db.sessions| && SessionIndex(w.db.sessions, c.session) == Some(s)
    ensures w.db.sessions[s].family == c.family && w.db.sessions[s].user == c.user
    ensures w.db.tokens[k] in Family(w.db.tokens, c.family)
  {
    var i :| 0 <= i < |w.db.tokens| && Describes(w.db.tokens[i], c);
    k := TokenIndex(w.db.tokens, c.jti).value;
    assert k == i;
    FamilyMembers(w.db.tokens, c.family);
    assert HasSession(w.db.sessions, w.db.tokens[i].family);
    var j :| 0 <= j < |w.db.sessions| && w.db.sessions[j].family == w.db.tokens[i].family;
    var c' := Family(w.db.tokens, c.family);
    var p :| 0 <= p < |c'| && c'[p] == w.db.tokens[k];
    assert ChainAt(w.db.tokens, w.db.sessions[j]);
    assert w.db.sessions[j].id == c.session;
    s := SessionIndex(w.db.sessions, c.session).value;
    assert s == j;
  }

  /** The active token of a chain is its last, and spending it makes room for one more link. */
  lemma ChainGrows(c: seq<Token>, s: Session, active: Token, t: Token)
    requires Chain(c, s) && s.status == SessionActive && active in c && active.status == TokenActive
    requires t.family == s.family && t.status == TokenActive && t.session == s.id && t.user == s.user
    ensures Chain(Restatus(c, Spend(active.jti)) + [t], s.(version := s.version + 1))
  {
    var p :| 0 <= p < |c| && c[p] == active;
    assert p == |c| - 1;
  }

  /** One rotation extends its own chain by a link. */
  lemma RotationExtendsChain(tokens: seq<Token>, s: Session, k: nat, t: Token)
    requires ChainAt(tokens, s) && s.status == SessionActive
    requires k < |tokens| && tokens[k].family == s.family && tokens[k].status == TokenActive
    requires t.family == s.family && t.status == TokenActive && t.session == s.id && t.user == s.user
    ensures ChainAt(Restatus(tokens, Spend(tokens[k].jti)) + [t], s.(version := s.version + 1))
  {
    hide Family, Chain, Restatus, Spend;
    var g := Spend(tokens[k].jti);
    FamilyRestatus(tokens, g, s.family);
    FamilyAppend(Restatus(tokens, g), t, s.family);
    FamilyMembers(tokens, s.family);
    assert tokens[k] in Family(tokens, s.family);
    ChainGrows(Family(tokens, s.family), s, tokens[k], t);
  }

  /** One rotation leaves every other chain alone. */
  lemma RotationKeepsOtherChain(tokens: seq<Token>, s: Session, k: nat, t: Token)
    requires ChainAt(tokens, s) && DistinctJtis(tokens)
    requires k < |tokens| && tokens[k].family != s.family && t.family != s.family
    ensures ChainAt(Restatus(tokens, Spend(tokens[k].jti)) + [t], s)
  {
    var g := Spend(tokens[k].jti);
    var c := Family(tokens, s.family);
    FamilyRestatus(tokens, g, s.family);
    FamilyAppend(Restatus(tokens, g), t, s.family);
    FamilyMembers(tokens, s.family);
    forall p | 0 <= p < |c| ensures c[p].jti != tokens[k].jti {
      assert c[p] in c;
      var q :| 0 <= q < |tokens| && tokens[q] == c[p];
    }
    assert Restatus(c, g) == c;
  }

  lemma RotateKeepsChained(w: World, k: nat, sid: nat, c: Claims, now: int, jti: Jti, accessJti: Jti, cfg: Settings)
    requires Chained(w.db) && DistinctJtis(w.db.tokens) && DistinctSessions(w.db.sessions)
    requires k < |w.db.tokens| && sid < |w.db.sessions| && c.RefreshClaims?
    requires w.db.tokens[k].family == w.db.sessions[sid].family == c.family
    requires w.db.tokens[k].status == TokenActive
    requires w.db.sessions[sid].status == SessionActive && w.db.sessions[sid].user == c.user
    ensures Chained(Rotate(w, k, sid, c, now, jti, accessJti, cfg).0.db)
  {
    var db' := Rotate(w, k, sid, c, now, jti, accessJti, cfg).0.db;
    var t := db'.tokens[|w.db.tokens|];
    SpendIsRestatus(w.db.tokens, k);
    forall i | 0 <= i < |db'.sessions| ensures ChainAt(db'.tokens, db'.sessions[i]) {
      assert ChainAt(w.db.tokens, w.db.sessions[i]);
      if i == sid {
        RotationExtendsChain(w.db.tokens, w.db.sessions[i], k, t);
      } else {
        assert w.db.sessions[i].family != w.db.sessions[sid].family;
        RotationKeepsOtherChain(w.db.tokens, w.db.sessions[i], k, t);
      }
    }
  }

  lemma RotateKeepsInv(w: World, k: nat, sid: nat, c: Claims, now: int, jti: Jti, accessJti: Jti, cfg: Settings)
    requires Inv(w) && k < |w.db.tokens| && sid < |w.db.sessions| && c.RefreshClaims?
    requires w.db.tokens[k].family == w.db.sessions[sid].family == c.family
    requires w.db.tokens[k].status == TokenActive
    requires w.db.sessions[sid].status == SessionActive && w.db.sessions[sid].user == c.user
    requires forall i :: 0 <= i < |w.db.tokens| ==> w.db.tokens[i].jti != jti
    ensures Inv(Rotate(w, k, sid, c, now, jti, accessJti, cfg).0)
  {
    hide Chained, Homed, AllBacked;
    var w' := Rotate(w, k, sid, c, now, jti, accessJti, cfg).0;
    RotateKeepsChained(w, k, sid, c, now, jti, accessJti, cfg);
    assert w'.db.sessions[sid].family == w'.db.tokens[|w.db.tokens|].family;
    HomedKept(w.db, w'.db);
    SpendIsRestatus(w.db.tokens, k);
    RestatusKeepsBacking(w.db.tokens, Spend(w.db.tokens[k].jti), w.issued);
    AppendKeepsBacking(Restatus(w.db.tokens, Spend(w.db.tokens[k].jti)), w'.db.tokens[|w.db.tokens|],
      w.issued, w'.issued, SignRefresh(c.user, Draw(w.db.sessions[sid].id, c.family, jti, accessJti), now, cfg));
  }

  lemma RefreshKeepsInv(w: World, op: Op, cfg: Settings)
    requires op.Refresh? && Inv(w) && FreshDraws(w, op)
    ensures Inv(RefreshStep(w, op, cfg).0)
  {
    hide Inv, Rotate, RevokeFamilies, HasSession;
    var c := op.claims;
    var out := RefreshStep(w, op, cfg).1;
    if out == Replayed {
      RevokeKeepsInv(w, {c.family}, SessionCompromised);
    } else if out.Issued? {
      var k, sid := Presented(w, c);
      RotateKeepsInv(w, k, sid, c, op.now, op.jti, op.accessJti, cfg);
    }
  }

  lemma UsersChangeKeepsInv(w: World, users: map<UserId, User>)
    requires Inv(w) && DistinctEmails(users) && w.db.users.Keys <= users.Keys
    ensures Inv(w.(db := w.db.(users := users)))
  {
  }

  lemma StepKeepsInv(w: World, op: Op, cfg: Settings)
    requires Inv(w) && FreshDraws(w, op)
    ensures Inv(Step(w, op, cfg).0)
  {
    match op
    case Register(u, _, _, _, _, _, d, now) =>
      if Step(w, op, cfg).1.Issued? {
        var users := w.db.users[u := User(op.email, op.password, op.studentNo, op.phone, UserActive, false)];
        UsersChangeKeepsInv(w, users);
        OpenKeepsInv(w.(db := w.db.(users := users)), u, d, now, cfg);
      }
    case Login(_, _, d, now) =>
      if Step(w, op, cfg).1.Issued? {
        var id :| EmailOf(w.db, id, op.email);
        OpenKeepsInv(w, id, d, now, cfg);
      }
    case Refresh(_, _, _, _, _) => RefreshKeepsInv(w, op, cfg);
    case Logout(c, _) => RevokeKeepsInv(w, ActiveFamilies(w.db.sessions, c.user), SessionRevoked);
    case DeleteAccount(u) =>
      if UserById(w.db, u).Some? {
        var users := w.db.users[u := w.db.users[u].(status := UserDeleted, deleted := true)];
        UsersChangeKeepsInv(w, users);
        RevokeKeepsInv(w.(db := w.db.(users := users)), ActiveFamilies(w.db.sessions, u), SessionRevoked);
      }
    case SetStatus(u, status) =>
      if u in w.db.users {
        UsersChangeKeepsInv(w, w.db.users[u := w.db.users[u].(status := status)]);
      }
  }

  lemma EmptyInv()
    ensures Inv(EMPTY)
  {
  }

  /** Main result 1: every reachable state is a set of chains, one per session. */
  lemma {:induction false} ReachableInv(tr: Trace, cfg: Settings, n: nat)
    requires Run(tr, cfg) && n < |tr.states|
    ensures Inv(tr.states[n])
  {
    if n == 0 {
      EmptyInv();
    } else {
      ReachableInv(tr, cfg, n - 1);
      assert Link(tr, cfg, n - 1);
      StepKeepsInv(tr.states[n - 1], tr.ops[n - 1], cfg);
    }
  }

  // ---------------------------------------------------------------- monotone rows

  function Rank(s: SessionStatus): nat {
    match s
    case SessionActive => 0
    case SessionRevoked => 1
    case SessionCompromised => 2
  }

  ghost predicate TokenLater(t: Token, t': Token) {
    t' == t.(status := t'.status) && (t.status != TokenActive ==> t'.status == t.status)
  }

  ghost predicate SessionLater(s: Session, s': Session) {
    && s' == s.(status := s'.status, version := s'.version)
    && Rank(s.status) <= Rank(s'.status)
    && (s'.version == s.version || (s.status == SessionActive && s.version < s'.version))
  }

  /** Rows are never removed; a spent or revoked token keeps its status and sessions only move towards compromise. */
  ghost predicate Later(w: World, w': World) {
    && |w.db.tokens| <= |w'.db.tokens| && |w.db.sessions| <= |w'.db.sessions|
    && (forall i :: 0 <= i < |w.db.tokens| ==> TokenLater(w.db.tokens[i], w'.db.tokens[i]))
    && (forall i :: 0 <= i < |w.db.sessions| ==> SessionLater(w.db.sessions[i], w'.db.sessions[i]))
    && w.issued <= w'.issued
  }

  lemma RevokeIsLater(w: World, families: set<FamilyId>, status: SessionStatus)
    requires forall i :: 0 <= i < |w.db.sessions| ==>
      w.db.sessions[i].family in families ==> Rank(w.db.sessions[i].status) <= Rank(status)
    ensures Later(w, w.(db := RevokeFamilies(w.db, families, status)))
  {
  }

  /** What a replay leaves behind. */
  lemma ReplayRevokes(w: World, op: Op, cfg: Settings)
    requires op.Refresh? && RefreshStep(w, op, cfg).1 == Replayed
    ensures op.claims.RefreshClaims?
    ensures RefreshStep(w, op, cfg).0 == w.(db := RevokeFamilies(w.db, {op.claims.family}, SessionCompromised))
  {
    hide RevokeFamilies;
  }

  lemma RefreshIsLater(w: World, op: Op, cfg: Settings)
    requires op.Refresh? && Inv(w)
    ensures Later(w, RefreshStep(w, op, cfg).0)
  {
    hide Inv, Rotate;
    var c, out := op.claims, RefreshStep(w, op, cfg).1;
    if out == Replayed {
      ReplayRevokes(w, op, cfg);
      RevokeIsLater(w, {c.family}, SessionCompromised);
    } else if out.Issued? {
      var k, sid := Presented(w, c);
      RotateIsLater(w, k, sid, c, op.now, op.jti, op.accessJti, cfg);
    }
  }

  lemma RotateIsLater(w: World, k: nat, sid: nat, c: Claims, now: int, jti: Jti, accessJti: Jti, cfg: Settings)
    requires k < |w.db.tokens| && sid < |w.db.sessions| && c.RefreshClaims?
    requires w.db.tokens[k].status == TokenActive && w.db.sessions[sid].status == SessionActive
    ensures Later(w, Rotate(w, k, sid, c, now, jti, accessJti, cfg).0)
  {
  }

  lemma StepIsLater(w: World, op: Op, cfg: Settings)
    requires Inv(w)
    ensures Later(w, Step(w, op, cfg).0)
  {
    assert DistinctSessions(w.db.sessions);
    hide Inv, RefreshStep, RevokeFamilies;
    match op
    case Refresh(c, _, _, _, _) => RefreshIsLater(w, op, cfg);
    case Logout(c, _) => RevokeActiveIsLater(w, c.user);
    case DeleteAccount(u) =>
      if UserById(w.db, u).Some? {
        var users := w.db.users[u := w.db.users[u].(status := UserDeleted, deleted := true)];
        RevokeActiveIsLater(w.(db := w.db.(users := users)), u);
      }
    case _ =>
  }

  /** The families of active sessions hold no session that is already past revocation. */
  lemma RevokeActiveIsLater(w: World, user: UserId)
    requires DistinctSessions(w.db.sessions)
    ensures Later(w, w.(db := RevokeFamilies(w.db, ActiveFamilies(w.db.sessions, user), SessionRevoked)))
  {
    var families := ActiveFamilies(w.db.sessions, user);
    forall i | 0 <= i < |w.db.sessions| && w.db.sessions[i].family in families
      ensures w.db.sessions[i].status == SessionActive
    {
      var k :| 0 <= k < |w.db.sessions| && w.db.sessions[k].user == user
               && w.db.sessions[k].status == SessionActive && w.db.sessions[k].family == w.db.sessions[i].family;
      assert k == i;
    }
    RevokeIsLater(w, families, SessionRevoked);
  }

  /** Main result 2: statuses only ever move forward, from any point of a run to any later one. */
  lemma {:induction false} RunIsLater(tr: Trace, cfg: Settings, i: nat, j: nat)
    requires Run(tr, cfg) && i <= j < |tr.states|
    ensures Later(tr.states[i], tr.states[j])
    decreases j
  {
    hide Inv, Step, FreshDraws;
    if i < j {
      RunIsLater(tr, cfg, i, j - 1);
      ReachableInv(tr, cfg, j - 1);
      assert Link(tr, cfg, j - 1);
      StepIsLater(tr.states[j - 1], tr.ops[j - 1], cfg);
      LaterIsTransitive(tr.states[i], tr.states[j - 1], tr.states[j]);
    }
  }

  lemma LaterIsTransitive(a: World, b: World, c: World)
    requires Later(a, b) && Later(b, c)
    ensures Later(a, c)
  {
    forall i | 0 <= i < |a.db.tokens| ensures TokenLater(a.db.tokens[i], c.db.tokens[i]) {
      assert TokenLater(a.db.tokens[i], b.db.tokens[i]) && TokenLater(b.db.tokens[i], c.db.tokens[i]);
    }
    forall i | 0 <= i < |a.db.sessions| ensures SessionLater(a.db.sessions[i], c.db.sessions[i]) {
      assert SessionLater(a.db.sessions[i], b.db.sessions[i]) && SessionLater(b.db.sessions[i], c.db.sessions[i]);
    }
  }

  // ---------------------------------------------------------------- when a refresh succeeds

  /** The presented token is the newest of its family and the family's session is active. */
  ghost predicate LiveLink(w: World, c: Claims)
    requires c.RefreshClaims?
  {
    var chain := Family(w.db.tokens, c.family);
    |chain| > 0 && chain[|chain| - 1].jti == c.jti
    && exists s :: s in w.db.sessions && s.family == c.family && s.status == SessionActive
  }

  /** In a consistent state a stored row is active exactly when it is the live link of its family. */
  lemma ActiveIffLiveLink(w: World, c: Claims, k: nat, s: nat)
    requires Inv(w) && c.RefreshClaims? && k < |w.db.tokens| && s < |w.db.sessions|
    requires w.db.tokens[k].jti == c.jti && w.db.tokens[k].family == w.db.sessions[s].family == c.family
    ensures w.db.tokens[k].status == TokenActive <==> LiveLink(w, c)
    ensures w.db.tokens[k].status == TokenActive ==> w.db.sessions[s].status == SessionActive
  {
    assert ChainAt(w.db.tokens, w.db.sessions[s]);
    var chain := Family(w.db.tokens, c.family);
    FamilyMembers(w.db.tokens, c.family);
    assert w.db.tokens[k] in chain;
    var last := chain[|chain| - 1];
    assert last in chain;
    var q :| 0 <= q < |w.db.tokens| && w.db.tokens[q] == last;
    if last.jti == c.jti { assert q == k; }
    assert forall x :: x in w.db.sessions && x.family == c.family ==> x == w.db.sessions[s];
  }

  /** Main result 3: exactly when a presented token buys a new pair. */
  lemma RefreshSucceedsIff(w: World, op: Op, cfg: Settings)
    requires Inv(w) && op.Refresh?
    ensures RefreshStep(w, op, cfg).1.Issued? <==>
      && Decodes(w, op.claims, op.decodeAt) && op.claims.RefreshClaims?
      && LiveLink(w, op.claims)
      && op.now <= w.db.tokens[TokenIndex(w.db.tokens, op.claims.jti).value].expiresAt
      && UserById(w.db, op.claims.user).Some? && !Barred(UserById(w.db, op.claims.user).value)
  {
    if Decodes(w, op.claims, op.decodeAt) && op.claims.RefreshClaims? {
      var k, s := Presented(w, op.claims);
      ActiveIffLiveLink(w, op.claims, k, s);
    }
  }

  /** The rejection for a missing or inactive session is dead code: the token's own status decides first. */
  lemma InactiveSessionUnreachable(w: World, op: Op, cfg: Settings)
    requires Inv(w) && op.Refresh?
    ensures RefreshStep(w, op, cfg).1 != SessionInactive
  {
    if Decodes(w, op.claims, op.decodeAt) && op.claims.RefreshClaims? {
      var k, s := Presented(w, op.claims);
      ActiveIffLiveLink(w, op.claims, k, s);
    }
  }

  /** The stored expiry can only reject a token when the clock crossed it after the JWT was decoded. */
  lemma StoredExpiryNeedsARace(w: World, op: Op, cfg: Settings)
    requires Inv(w) && op.Refresh? && RefreshStep(w, op, cfg).1 == Expired
    ensures op.decodeAt < op.now
    ensures op.decodeAt < op.claims.exp * MICROS
            <= w.db.tokens[TokenIndex(w.db.tokens, op.claims.jti).value].expiresAt < op.now
  {
    var k, s := Presented(w, op.claims);
  }

  /** The version handed back counts the tokens the family has ever had. */
  lemma VersionCountsTokens(w: World, op: Op, cfg: Settings)
    requires Inv(w) && op.Refresh? && FreshDraws(w, op) && RefreshStep(w, op, cfg).1.Issued?
    ensures var (w', out) := RefreshStep(w, op, cfg);
      out.version == |Family(w'.db.tokens, op.claims.family)| == |Family(w.db.tokens, op.claims.family)| + 1
  {
    var w' := RefreshStep(w, op, cfg).0;
    var k, s := Presented(w, op.claims);
    RefreshKeepsInv(w, op, cfg);
    assert ChainAt(w.db.tokens, w.db.sessions[s]) && ChainAt(w'.db.tokens, w'.db.sessions[s]);
  }

  /** Whatever a refresh answers, the rows of every other family and every user stay as they were. */
  lemma RefreshTouchesOneFamily(w: World, op: Op, cfg: Settings, f: FamilyId)
    requires Inv(w) && op.Refresh?
    requires op.claims.RefreshClaims? ==> f != op.claims.family
    ensures var w' := RefreshStep(w, op, cfg).0;
      && w'.db.users == w.db.users
      && Family(w'.db.tokens, f) == Family(w.db.tokens, f)
      && |w'.db.sessions| == |w.db.sessions|
      && forall i :: 0 <= i < |w.db.sessions| && w.db.sessions[i].family == f
           ==> w'.db.sessions[i] == w.db.sessions[i]
  {
    hide Family, Chained, Homed, AllBacked, RevokedStatus;
    var c, out := op.claims, RefreshStep(w, op, cfg).1;
    if out == Replayed {
      ReplayRevokes(w, op, cfg);
      RevokeMissesFamily(w.db.tokens, c.family, f);
    } else if out.Issued? {
      var k, sid := Presented(w, c);
      RotateMissesFamily(w, k, sid, c, op.now, op.jti, op.accessJti, cfg, f);
    }
  }

  lemma RevokeMissesFamily(tokens: seq<Token>, g: FamilyId, f: FamilyId)
    requires f != g
    ensures Family(Restatus(tokens, RevokedStatus({g})), f) == Family(tokens, f)
  {
    var chain := Family(tokens, f);
    FamilyMembers(tokens, f);
    FamilyRestatus(tokens, RevokedStatus({g}), f);
    assert forall p :: 0 <= p < |chain| ==> chain[p] in chain;
    assert Restatus(chain, RevokedStatus({g})) == chain;
  }

  lemma RotateMissesFamily(w: World, k: nat, s: nat, c: Claims, now: int, jti: Jti, accessJti: Jti, cfg: Settings,
                           f: FamilyId)
    requires k < |w.db.tokens| && s < |w.db.sessions| && c.RefreshClaims? && f != c.family
    requires DistinctJtis(w.db.tokens) && w.db.tokens[k].family == c.family
    ensures Family(Rotate(w, k, s, c, now, jti, accessJti, cfg).0.db.tokens, f) == Family(w.db.tokens, f)
  {
    var tokens, jti0 := w.db.tokens, w.db.tokens[k].jti;
    SpendIsRestatus(tokens, k);
    FamilyRestatus(tokens, Spend(jti0), f);
    FamilyAppend(Restatus(tokens, Spend(jti0)), Rotate(w, k, s, c, now, jti, accessJti, cfg).0.db.tokens[|tokens|], f);
    SpendMissesFamily(tokens, k, f);
  }

  lemma SpendMissesFamily(tokens: seq<Token>, k: nat, f: FamilyId)
    requires k < |tokens| && DistinctJtis(tokens) && tokens[k].family != f
    ensures Restatus(Family(tokens, f), Spend(tokens[k].jti)) == Family(tokens, f)
  {
    var chain := Family(tokens, f);
    FamilyMembers(tokens, f);
    forall p | 0 <= p < |chain| ensures chain[p].jti != tokens[k].jti {
      assert chain[p] in chain;
      var q :| 0 <= q < |tokens| && tokens[q] == chain[p];
    }
  }

  // ---------------------------------------------------------------- whole runs

  lemma Unfold(tr: Trace, cfg: Settings, i: nat)
    requires Run(tr, cfg) && i < |tr.ops|
    ensures tr.ops[i].Refresh? ==> (tr.states[i + 1], tr.outs[i]) == RefreshStep(tr.states[i], tr.ops[i], cfg)
    ensures tr.ops[i].Logout? ==> (tr.states[i + 1], tr.outs[i]) == LogoutStep(tr.states[i], tr.ops[i])
  {
    hide RefreshStep, LogoutStep, LoginStep, RegisterStep, DeleteStep;
    assert Link(tr, cfg, i);
  }

  /** A token that has been spent is answered as a replay for as long as it decodes. */
  lemma SpentIsReplay(w: World, op: Op, cfg: Settings, k: nat)
    requires Inv(w) && op.Refresh? && op.claims.RefreshClaims?
    requires k < |w.db.tokens| && w.db.tokens[k].jti == op.claims.jti && w.db.tokens[k].status == TokenUsed
    ensures RefreshStep(w, op, cfg).1 == if Decodes(w, op.claims, op.decodeAt) then Replayed else InvalidToken
  {
    if Decodes(w, op.claims, op.decodeAt) {
      var k2, s2 := Presented(w, op.claims);
      assert k2 == k;
    }
  }

  lemma SuccessSpends(w: World, op: Op, cfg: Settings) returns (k: nat)
    requires Inv(w) && op.Refresh? && RefreshStep(w, op, cfg).1.Issued?
    ensures op.claims.RefreshClaims?
    ensures var w' := RefreshStep(w, op, cfg).0;
      k < |w'.db.tokens| && w'.db.tokens[k].jti == op.claims.jti && w'.db.tokens[k].status == TokenUsed
  {
    var s;
    k, s := Presented(w, op.claims);
  }

  /** Main result 4: a refresh token is exchanged at most once, and a second try within its life is a replay. */
  lemma ExchangedAtMostOnce(tr: Trace, cfg: Settings, i: nat, j: nat)
    requires Run(tr, cfg) && i < j < |tr.ops|
    requires tr.ops[i].Refresh? && tr.ops[j].Refresh? && tr.ops[i].claims == tr.ops[j].claims
    requires tr.outs[i].Issued?
    ensures tr.outs[j] ==
      if Decodes(tr.states[j], tr.ops[j].claims, tr.ops[j].decodeAt) then Replayed else InvalidToken
  {
    hide Inv, RefreshStep;
    ReachableInv(tr, cfg, i);
    ReachableInv(tr, cfg, j);
    RunIsLater(tr, cfg, i + 1, j);
    Unfold(tr, cfg, i);
    Unfold(tr, cfg, j);
    var k := SuccessSpends(tr.states[i], tr.ops[i], cfg);
    assert TokenLater(tr.states[i + 1].db.tokens[k], tr.states[j].db.tokens[k]);
    SpentIsReplay(tr.states[j], tr.ops[j], cfg, k);
  }

  /** A family whose session is not active buys nothing. */
  lemma DeadFamilyRefuses(w: World, op: Op, cfg: Settings, s: nat)
    requires Inv(w) && op.Refresh? && op.claims.RefreshClaims?
    requires s < |w.db.sessions| && w.db.sessions[s].family == op.claims.family
    requires w.db.sessions[s].status != SessionActive
    ensures RefreshStep(w, op, cfg).1 in {InvalidToken, Replayed, Revoked}
  {
    if Decodes(w, op.claims, op.decodeAt) {
      var k2, s2 := Presented(w, op.claims);
      ActiveIffLiveLink(w, op.claims, k2, s2);
    }
  }

  /** Once a family's session is not active, no later refresh in the family succeeds. */
  lemma DeadFamilyStaysDead(tr: Trace, cfg: Settings, i: nat, s: nat, j: nat)
    requires Run(tr, cfg) && i <= j < |tr.ops|
    requires s < |tr.states[i].db.sessions| && tr.states[i].db.sessions[s].status != SessionActive
    requires tr.ops[j].Refresh? && tr.ops[j].claims.RefreshClaims?
    requires tr.ops[j].claims.family == tr.states[i].db.sessions[s].family
    ensures tr.outs[j] in {InvalidToken, Replayed, Revoked}
  {
    hide Inv, RefreshStep;
    ReachableInv(tr, cfg, j);
    RunIsLater(tr, cfg, i, j);
    Unfold(tr, cfg, j);
    assert SessionLater(tr.states[i].db.sessions[s], tr.states[j].db.sessions[s]);
    DeadFamilyRefuses(tr.states[j], tr.ops[j], cfg, s);
  }

  lemma ReplayDeactivates(w: World, op: Op, cfg: Settings) returns (s: nat)
    requires Inv(w) && op.Refresh? && RefreshStep(w, op, cfg).1 == Replayed
    ensures var sessions := RefreshStep(w, op, cfg).0.db.sessions;
      op.claims.RefreshClaims? && s < |sessions|
      && sessions[s].family == op.claims.family && sessions[s].status == SessionCompromised
  {
    var k;
    ReplayRevokes(w, op, cfg);
    k, s := Presented(w, op.claims);
  }

  /** Main result 5: presenting a used token ends its family for good. */
  lemma ReplayEndsFamily(tr: Trace, cfg: Settings, i: nat, j: nat)
    requires Run(tr, cfg) && i < j < |tr.ops|
    requires tr.ops[i].Refresh? && tr.outs[i] == Replayed
    requires tr.ops[i].claims.RefreshClaims?
    requires tr.ops[j].Refresh? && tr.ops[j].claims.RefreshClaims?
    requires tr.ops[j].claims.family == tr.ops[i].claims.family
    ensures tr.outs[j] in {InvalidToken, Replayed, Revoked}
  {
    hide Inv, RefreshStep;
    ReachableInv(tr, cfg, i);
    Unfold(tr, cfg, i);
    var s := ReplayDeactivates(tr.states[i], tr.ops[i], cfg);
    DeadFamilyStaysDead(tr, cfg, i + 1, s, j);
  }

  lemma LogoutDeactivates(w: World, op: Op, c: Claims) returns (s: nat)
    requires Inv(w) && op.Logout? && LogoutStep(w, op).1 == Done
    requires c in w.issued && c.RefreshClaims? && c.user == op.claims.user
    ensures var sessions := LogoutStep(w, op).0.db.sessions;
      s < |sessions| && sessions[s].family == c.family && sessions[s].status != SessionActive
  {
    var k;
    k, s := Presented(w, c);
  }

  /** Main result 6: logout ends every session the user had, for every token issued before it. */
  lemma LogoutEndsSessions(tr: Trace, cfg: Settings, i: nat, j: nat)
    requires Run(tr, cfg) && i < j < |tr.ops|
    requires tr.ops[i].Logout? && tr.outs[i] == Done
    requires tr.ops[j].Refresh? && tr.ops[j].claims.RefreshClaims?
    requires tr.ops[j].claims in tr.states[i].issued && tr.ops[j].claims.user == tr.ops[i].claims.user
    ensures tr.outs[j] in {InvalidToken, Replayed, Revoked}
  {
    hide Inv, LogoutStep;
    ReachableInv(tr, cfg, i);
    Unfold(tr, cfg, i);
    var s := LogoutDeactivates(tr.states[i], tr.ops[i], tr.ops[j].claims);
    DeadFamilyStaysDead(tr, cfg, i + 1, s, j);
  }
}

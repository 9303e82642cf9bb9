/**
 The service methods, updating rows in place inside a transaction that either commits or is
 rolled back when the request fails.
 */
module AuthServiceModel {
  import opened Wrappers
  import opened AuthModel

  class AuthService {
    var users: map<UserId, User>
    var sessions: seq<Session>
    var tokens: seq<Token>
    var committed: Db
    var issued: set<Claims>

    function Working(): Db
      reads this
    {
      Db(users, sessions, tokens)
    }

    /** No transaction is open. */
    predicate Clean()
      reads this
    {
      Working() == committed
    }

    function State(): World
      reads this
    {
      World(committed, issued)
    }

    constructor ()
      ensures Clean() && State() == EMPTY
    {
      users, sessions, tokens := map[], [], [];
      committed, issued := Db(map[], [], []), {};
    }

    method Commit()
      modifies this`committed
      ensures committed == Working()
    {
      committed := Working();
    }

    /** What the request scope does with an exception raised before the commit. */
    method Rollback()
      modifies this
      ensures Clean() && committed == old(committed) && issued == old(issued)
    {
      users, sessions, tokens := committed.users, committed.sessions, committed.tokens;
    }

    method RevokeFamily(family: FamilyId, markCompromised: bool)
      modifies this`tokens, this`sessions
      ensures Working() == RevokeFamilies(old(Working()), {family},
                                          if markCompromised then SessionCompromised else SessionRevoked)
    {
      var g := RevokedStatus({family});
      for i := 0 to |tokens|
        invariant |tokens| == |old(tokens)| && sessions == old(sessions)
        invariant forall k :: 0 <= k < i ==> tokens[k] == old(tokens)[k].(status := g(old(tokens)[k]))
        invariant forall k :: i <= k < |tokens| ==> tokens[k] == old(tokens)[k]
      {
        if tokens[i].family == family && tokens[i].status != TokenUsed {
          tokens := tokens[i := tokens[i].(status := TokenRevoked)];
        }
      }
      assert tokens == Restatus(old(tokens), g);
      var status := if markCompromised then SessionCompromised else SessionRevoked;
      for i := 0 to |sessions|
        invariant |sessions| == |old(sessions)| && tokens == Restatus(old(tokens), g)
        invariant forall k :: 0 <= k < i ==> sessions[k] == MarkSessions(old(sessions), {family}, status)[k]
        invariant forall k :: i <= k < |sessions| ==> sessions[k] == old(sessions)[k]
      {
        if sessions[i].family == family {
          sessions := sessions[i := sessions[i].(status := status)];
        }
      }
      assert sessions == MarkSessions(old(sessions), {family}, status);
    }

    /** Revokes the user's active sessions one by one, each with its family. */
    method RevokeActive(user: UserId)
      modifies this`tokens, this`sessions
      ensures Working() == RevokeFamilies(old(Working()), ActiveFamilies(old(sessions), user), SessionRevoked)
    {
      var before := Working();
      var done: set<FamilyId> := {};
      RevokeNothing(before);
      for i := 0 to |before.sessions|
        invariant users == old(users) && before == old(Working())
        invariant done == set k | 0 <= k < i && before.sessions[k].user == user
                                    && before.sessions[k].status == SessionActive :: before.sessions[k].family
        invariant Working() == RevokeFamilies(before, done, SessionRevoked)
      {
        var s := before.sessions[i];
        if s.user == user && s.status == SessionActive {
          sessions := sessions[i := sessions[i].(status := SessionRevoked)];
          RevokeFamily(s.family, false);
          done := done + {s.family};
          assert tokens == RevokeFamilies(before, done, SessionRevoked).tokens;
          assert sessions == RevokeFamilies(before, done, SessionRevoked).sessions;
        }
      }
      assert done == ActiveFamilies(before.sessions, user);
    }

    method Open(user: UserId, draw: Draw, now: int, cfg: Settings) returns (out: Outcome)
      modifies this
      ensures Clean() && (State(), out) == OpenSession(World(old(Working()), old(issued)), user, draw, now, cfg)
    {
      sessions := sessions + [Session(draw.session, user, draw.family, 1, SessionActive)];
      tokens := tokens + [Token(draw.jti, draw.session, user, draw.family, TokenActive, now + cfg.refreshTtl)];
      Commit();
      var refresh, access := SignRefresh(user, draw, now, cfg), SignAccess(user, draw.accessJti, now, cfg);
      issued := issued + {refresh, access};
      out := Issued(refresh, access, 1);
    }

    method Register(userId: UserId, email: string, password: string, studentNo: string, phone: Option<string>,
                    strong: bool, draw: Draw, now: int, cfg: Settings) returns (out: Outcome)
      requires Clean()
      modifies this
      ensures Clean()
      ensures (State(), out)
           == RegisterStep(old(State()),
                AuthModel.Register(userId, email, password, studentNo, phone, strong, draw, now), cfg)
    {
      if !strong { return WeakPassword; }
      if Taken(Working(), email, studentNo, phone) { return UserExists; }
      var clash := BlankPhoneClash(Working(), phone);
      users := users[userId := User(email, password, studentNo, phone, UserActive, false)];
      if clash {
        Rollback();
        return ConstraintViolation;
      }
      out := Open(userId, draw, now, cfg);
    }

    method Login(email: string, password: string, draw: Draw, now: int, cfg: Settings) returns (out: Outcome)
      requires Clean() && DistinctEmails(users)
      modifies this
      ensures Clean()
      ensures (State(), out) == LoginStep(old(State()), AuthModel.Login(email, password, draw, now), cfg)
    {
      if id :| id in users && users[id].email == email {
        assert EmailOf(committed, id, email);
        if users[id].password != password || Barred(users[id]) { return InvalidCredentials; }
        out := Open(id, draw, now, cfg);
      } else {
        assert !exists id :: EmailOf(committed, id, email);
        out := InvalidCredentials;
      }
    }

    method Refresh(c: Claims, decodeAt: int, now: int, jti: Jti, accessJti: Jti, cfg: Settings)
      returns (out: Outcome)
      requires Clean()
      modifies this
      ensures Clean()
      ensures (State(), out) == RefreshStep(old(State()), AuthModel.Refresh(c, decodeAt, now, jti, accessJti), cfg)
    {
      if !Decodes(State(), c, decodeAt) || !c.RefreshClaims? { return InvalidToken; }
      var found := TokenIndex(tokens, c.jti);
      if found.None? { return InvalidToken; }
      var k := found.value;
      if tokens[k].status == TokenUsed {
        RevokeFamily(c.family, true);
        Commit();
        return Replayed;
      }
      if tokens[k].status == TokenRevoked { return Revoked; }
      if tokens[k].expiresAt < now { return Expired; }
      tokens := tokens[k := tokens[k].(status := TokenUsed)];
      var found' := SessionIndex(sessions, c.session);
      if found'.None? || sessions[found'.value].status != SessionActive {
        Rollback();
        return SessionInactive;
      }
      var s := found'.value;
      sessions := sessions[s := sessions[s].(version := sessions[s].version + 1)];
      var user := UserById(Working(), c.user);
      if user.None? || Barred(user.value) {
        Rollback();
        return InvalidToken;
      }
      var refresh := SignRefresh(c.user, Draw(sessions[s].id, c.family, jti, accessJti), now, cfg);
      tokens := tokens + [Token(jti, sessions[s].id, c.user, c.family, TokenActive, now + cfg.refreshTtl)];
      Commit();
      var access := SignAccess(c.user, accessJti, now, cfg);
      issued := issued + {refresh, access};
      out := Issued(refresh, access, sessions[s].version);
    }

    method Logout(c: Claims, decodeAt: int) returns (out: Outcome)
      requires Clean()
      modifies this
      ensures Clean()
      ensures (State(), out) == LogoutStep(old(State()), AuthModel.Logout(c, decodeAt))
    {
      if !Decodes(State(), c, decodeAt) || !c.AccessClaims? || UserById(Working(), c.user).None? {
        return InvalidToken;
      }
      RevokeActive(c.user);
      Commit();
      out := Done;
    }

    method DeleteAccount(user: UserId) returns (out: Outcome)
      requires Clean()
      modifies this
      ensures Clean()
      ensures (State(), out) == DeleteStep(old(State()), AuthModel.DeleteAccount(user))
    {
      if UserById(Working(), user).None? { return UserNotFound; }
      users := users[user := users[user].(status := UserDeleted, deleted := true)];
      RevokeActive(user);
      Commit();
      out := Done;
    }
  }

  lemma RevokeNothing(db: Db)
    ensures RevokeFamilies(db, {}, SessionRevoked) == db
  {
    assert Restatus(db.tokens, RevokedStatus({})) == db.tokens;
    assert MarkSessions(db.sessions, {}, SessionRevoked) == db.sessions;
  }
}

/** Refresh-token rotation with concurrent requests, revocations and logins, one database statement or
    transaction per step (internal/app/auth/session.go, internal/domain/authsec). */
module RefreshProtocol {
  import opened Prelude

  datatype Reason = Rotated | ReuseDetected | Logout | UserRevoked | Admin | PastExpiry | UserDeactivated

  datatype Revocation = Revocation(at: int, reason: Reason)

  datatype Token = Token(
    user: nat, family: nat, expires: int, revoked: Option<Revocation>, replacedBy: Option<nat>)

  datatype Session = Session(user: nat, absolute: int, idle: int, revoked: Option<Revocation>) {
    predicate Active(now: int) { revoked.None? && now < absolute && now < idle }
  }

  datatype Config = Config(idleWindow: int, absoluteWindow: int, grace: int)

  datatype Verdict = Rotate | Reused | Expired | Ended | Grace

  /** Reuse wins over expiry, except inside the grace window of an active session. */
  function Evaluate(t: Token, s: Session, now: int, grace: int): Verdict {
    if t.revoked.Some? then
      if t.revoked.value.reason.Rotated? && grace > 0 && now - t.revoked.value.at < grace && s.Active(now)
      then Grace else Reused
    else if s.revoked.Some? then Ended
    else if t.expires <= now || s.absolute <= now || s.idle <= now then Expired
    else Rotate
  }

  function SuccessorExpiry(now: int, idle: int, absolute: int): int {
    if now + idle < absolute then now + idle else absolute
  }

  datatype Outcome = Issued | Rejected | RacedTwice

  datatype Phase =
    | Start
    | HasToken(rec: Token)
    | HasSession(rec: Token, sess: Session)
    | Ending(reason: Reason)                                        // about to end the session
    | Proceeding(rec: Token, sess: Session, verdict: Verdict, at: int) // about to run the transaction
    | Finished(outcome: Outcome)

  /** A Refresh call presenting `token`; `attempt` counts its refreshOnce calls. */
  datatype Call = Call(token: nat, attempt: nat, phase: Phase)

  /** One committed refresh, judged at `at` on a session whose idle limit was read as `idle`. */
  datatype Issue = Issue(token: nat, session: nat, successor: nat, byGrace: bool, at: int, idle: int)

  datatype State = State(
    now: int,
    tokens: map<nat, Token>,
    sessions: map<nat, Session>,
    inactive: set<nat>,
    calls: seq<Call>,
    history: seq<Issue>
  )

  function At(s: State, c: nat, p: Phase): State
    requires c < |s.calls|
  {
    s.(calls := s.calls[c := s.calls[c].(phase := p)])
  }

  /** Revoking a session revokes its live refresh tokens in the same statement. */
  function Revoke(s: State, sids: set<nat>, reason: Reason): State {
    var r := Some(Revocation(s.now, reason));
    s.(sessions := map sid | sid in s.sessions ::
         var x := s.sessions[sid]; if sid in sids && x.revoked.None? then x.(revoked := r) else x,
       tokens := map t | t in s.tokens ::
         var x := s.tokens[t]; if x.family in sids && x.revoked.None? then x.(revoked := r) else x)
  }

  // ---------- steps ----------

  ghost predicate Tick(s: State, s': State) { s.now <= s'.now && s' == s.(now := s'.now) }

  ghost predicate Arrive(s: State, s': State, t: nat) { s' == s.(calls := s.calls + [Call(t, 1, Start)]) }

  ghost predicate Deactivate(s: State, s': State, u: nat) { s' == s.(inactive := s.inactive + {u}) }

  /** completeLogin: a session and its first token. */
  ghost predicate Login(s: State, s': State, cfg: Config, u: nat, sid: nat, t: nat) {
    var absolute := s.now + cfg.absoluteWindow;
    var idle := SuccessorExpiry(s.now, cfg.idleWindow, absolute);
    && sid !in s.sessions && t !in s.tokens
    && s' == s.(sessions := s.sessions[sid := Session(u, absolute, idle, None)],
                tokens := s.tokens[t := Token(u, sid, idle, None, None)])
  }

  /** Logout, user, admin and sweep revocations. */
  ghost predicate RevokeSessions(s: State, s': State, sids: set<nat>, reason: Reason) {
    !reason.Rotated? && s' == Revoke(s, sids, reason)
  }

  ghost predicate ReadToken(s: State, s': State, c: nat)
    requires c < |s.calls|
  {
    var call := s.calls[c];
    && call.phase.Start?
    && s' == At(s, c, if call.token in s.tokens then HasToken(s.tokens[call.token]) else Finished(Rejected))
  }

  ghost predicate ReadSession(s: State, s': State, c: nat)
    requires c < |s.calls|
  {
    var p := s.calls[c].phase;
    && p.HasToken?
    && s' == At(s, c,
         if p.rec.family in s.sessions && s.sessions[p.rec.family].user == p.rec.user
         then HasSession(p.rec, s.sessions[p.rec.family]) else Finished(Rejected))
  }

  ghost predicate Judge(s: State, s': State, cfg: Config, c: nat)
    requires c < |s.calls|
  {
    var p := s.calls[c].phase;
    && p.HasSession?
    && var v := Evaluate(p.rec, p.sess, s.now, cfg.grace);
       s' == At(s, c, match v
         case Reused => Ending(ReuseDetected)
         case Expired => Ending(PastExpiry)
         case Ended => Finished(Rejected)
         case _ => if p.rec.user in s.inactive then Ending(UserDeactivated) else Proceeding(p.rec, p.sess, v, s.now))
  }

  ghost predicate EndSession(s: State, s': State, c: nat)
    requires c < |s.calls|
  {
    var call := s.calls[c];
    && call.phase.Ending? && call.token in s.tokens
    && s' == At(Revoke(s, {s.tokens[call.token].family}, call.phase.reason), c, Finished(Rejected))
  }

  predicate InTransaction(s: State, c: nat, newId: nat) {
    && c < |s.calls| && s.calls[c].phase.Proceeding? && newId !in s.tokens
    && s.calls[c].token in s.tokens && s.calls[c].phase.rec.family in s.sessions
  }

  /** The committed transaction: a successor, the presented token marked rotated, the session touched. */
  function Refreshed(s: State, cfg: Config, c: nat, newId: nat): State
    requires InTransaction(s, c, newId)
  {
    var t, p := s.calls[c].token, s.calls[c].phase;
    var sid := p.rec.family;
    var expires := SuccessorExpiry(p.at, cfg.idleWindow, p.sess.absolute);
    var presented := s.tokens[t];
    var marked := if p.verdict.Rotate?
                  then presented.(revoked := Some(Revocation(p.at, Rotated)), replacedBy := Some(newId))
                  else presented;
    At(s.(tokens := s.tokens[t := marked][newId := Token(p.rec.user, sid, expires, None, None)],
          sessions := s.sessions[sid := s.sessions[sid].(idle := expires)],
          history := s.history + [Issue(t, sid, newId, p.verdict.Grace?, p.at, p.sess.idle)]),
       c, Finished(Issued))
  }

  predicate Raced(s: State, c: nat)
    requires c < |s.calls| && s.calls[c].phase.Proceeding? && s.calls[c].token in s.tokens
  {
    s.calls[c].phase.verdict.Rotate? && s.tokens[s.calls[c].token].revoked.Some?
  }

  /** Marks the token only if still active and touches the session only if still live; otherwise nothing is
      written and the call is retried once or rejected. */
  ghost predicate Transact(s: State, s': State, cfg: Config, c: nat, newId: nat)
    requires c < |s.calls|
  {
    var call := s.calls[c];
    && InTransaction(s, c, newId)
    && if Raced(s, c) then
         s' == if call.attempt == 1 then s.(calls := s.calls[c := Call(call.token, 2, Start)])
               else At(s, c, Finished(RacedTwice))
       else if s.sessions[call.phase.rec.family].revoked.Some? then
         s' == At(s, c, Finished(Rejected))
       else s' == Refreshed(s, cfg, c, newId)
  }

  ghost predicate CallStep(s: State, s': State, cfg: Config, c: nat)
    requires c < |s.calls|
  {
    || ReadToken(s, s', c) || ReadSession(s, s', c) || Judge(s, s', cfg, c) || EndSession(s, s', c)
    || exists newId: nat :: Transact(s, s', cfg, c, newId)
  }

  ghost predicate EnvStep(s: State, s': State, cfg: Config) {
    || Tick(s, s')
    || (exists t: nat :: Arrive(s, s', t))
    || (exists u: nat :: Deactivate(s, s', u))
    || (exists u: nat, sid: nat, t: nat :: Login(s, s', cfg, u, sid, t))
    || (exists sids: set<nat>, reason: Reason :: RevokeSessions(s, s', sids, reason))
  }

  ghost predicate Next(s: State, s': State, cfg: Config) {
    EnvStep(s, s', cfg) || exists c: nat :: c < |s.calls| && CallStep(s, s', cfg, c)
  }

  // ---------- invariant ----------

  /** `rec` is what the token looked like when it was read: identity and any revocation still stand. */
  predicate Snapshot(rec: Token, t: Token) {
    && rec.user == t.user && rec.family == t.family && rec.expires == t.expires
    && (rec.revoked.Some? ==> t.revoked == rec.revoked)
  }

  /** What entitles a call to issue tokens: a session within both limits and either an unrevoked token that has not
      expired, or one rotated less than the grace window ago. */
  predicate MayProceed(rec: Token, sess: Session, verdict: Verdict, at: int, grace: int) {
    && sess.revoked.None? && at < sess.absolute && at < sess.idle
    && match verdict
       case Rotate => rec.revoked.None? && at < rec.expires
       case Grace => rec.revoked.Some? && rec.revoked.value.reason.Rotated? && at - rec.revoked.value.at < grace
       case _ => false
  }

  ghost predicate CallOk(s: State, cfg: Config, call: Call) {
    && 1 <= call.attempt <= 2
    // A second attempt exists only because the token was consumed.
    && (call.attempt == 2 ==> call.token in s.tokens && s.tokens[call.token].revoked.Some?)
    && call.phase != Finished(RacedTwice)
    && (call.phase.Ending? ==> call.token in s.tokens && !call.phase.reason.Rotated?)
    && ((call.phase.HasToken? || call.phase.HasSession? || call.phase.Proceeding?) ==>
          && call.token in s.tokens && Snapshot(call.phase.rec, s.tokens[call.token])
          && (call.attempt == 2 ==> call.phase.rec.revoked.Some?))
    && ((call.phase.HasSession? || call.phase.Proceeding?) ==>
          && call.phase.rec.family in s.sessions
          && s.sessions[call.phase.rec.family].absolute == call.phase.sess.absolute
          && s.sessions[call.phase.rec.family].user == call.phase.rec.user)
    && (call.phase.Proceeding? ==>
          MayProceed(call.phase.rec, call.phase.sess, call.phase.verdict, call.phase.at, cfg.grace))
  }

  /** Tokens live in an existing session of the same user and never outlive it. */
  ghost predicate TokensOk(s: State) {
    && (forall t :: t in s.tokens ==>
          var x := s.tokens[t];
          && x.family in s.sessions && s.sessions[x.family].user == x.user
          && x.expires <= s.sessions[x.family].absolute
          && (x.replacedBy.Some? ==> x.replacedBy.value in s.tokens && s.tokens[x.replacedBy.value].family == x.family))
    && forall sid :: sid in s.sessions ==> s.sessions[sid].idle <= s.sessions[sid].absolute
  }

  /** A committed refresh either rotated its token before that expired, or used one rotated less than the grace window
      before; its session was within both limits, and the successor lasts for the idle window or up to the absolute
      limit. */
  ghost predicate IssueOk(s: State, cfg: Config, e: Issue) {
    && e.token in s.tokens && s.tokens[e.token].family == e.session
    && s.tokens[e.token].revoked.Some? && s.tokens[e.token].revoked.value.reason.Rotated?
    && (if e.byGrace then e.at - s.tokens[e.token].revoked.value.at < cfg.grace
        else
          && s.tokens[e.token].revoked.value.at == e.at && s.tokens[e.token].replacedBy == Some(e.successor)
          && e.at < s.tokens[e.token].expires)
    && e.session in s.sessions && e.at < s.sessions[e.session].absolute && e.at < e.idle
    && e.successor in s.tokens && s.tokens[e.successor].family == e.session
    && s.tokens[e.successor].user == s.tokens[e.token].user
    && Earlier(s.tokens[e.successor].expires, e.at + cfg.idleWindow, s.sessions[e.session].absolute)
  }

  /** x is the earlier of a and b. */
  predicate Earlier(x: int, a: int, b: int) { x <= a && x <= b && (x == a || x == b) }

  ghost predicate HistoryOk(s: State, cfg: Config) {
    && (forall i :: 0 <= i < |s.history| ==> IssueOk(s, cfg, s.history[i]))
    && (forall i, j :: 0 <= i < j < |s.history| && !s.history[i].byGrace && !s.history[j].byGrace ==>
          s.history[i].token != s.history[j].token)
  }

  ghost predicate Inv(s: State, cfg: Config) {
    && TokensOk(s)
    && HistoryOk(s, cfg)
    && forall c :: 0 <= c < |s.calls| ==> CallOk(s, cfg, s.calls[c])
  }

  /** What no step ever undoes. */
  ghost predicate Grows(s: State, s': State) {
    && (forall t :: t in s.tokens ==> t in s'.tokens && Snapshot(s.tokens[t], s'.tokens[t]))
    && (forall t :: t in s.tokens && s.tokens[t].revoked.Some? ==> s'.tokens[t] == s.tokens[t])
    && (forall sid :: sid in s.sessions ==>
          && sid in s'.sessions && s'.sessions[sid].user == s.sessions[sid].user
          && s'.sessions[sid].absolute == s.sessions[sid].absolute
          && (s.sessions[sid].revoked.Some? ==> s'.sessions[sid].revoked == s.sessions[sid].revoked))
  }

  /** Calls that did not move stay sound while the store only grows. */
  lemma GrowsKeepsCall(s: State, s': State, cfg: Config, call: Call)
    requires Grows(s, s') && CallOk(s, cfg, call)
    ensures CallOk(s', cfg, call)
  {}

  lemma GrowsKeepsHistory(s: State, s': State, cfg: Config)
    requires Grows(s, s') && HistoryOk(s, cfg) && s'.history == s.history
    ensures HistoryOk(s', cfg)
  {}

  lemma RevokeKeeps(s: State, cfg: Config, sids: set<nat>, reason: Reason)
    requires Inv(s, cfg) && !reason.Rotated?
    ensures Grows(s, Revoke(s, sids, reason)) && Inv(Revoke(s, sids, reason), cfg)
  {
    var s' := Revoke(s, sids, reason);
    GrowsKeepsHistory(s, s', cfg);
    forall c | 0 <= c < |s.calls|
      ensures CallOk(s', cfg, s'.calls[c])
    {
      GrowsKeepsCall(s, s', cfg, s.calls[c]);
    }
  }

  /** Calls other than `c` stay sound while the store only grows. */
  lemma OthersKept(s: State, s': State, cfg: Config, c: nat)
    requires Inv(s, cfg) && Grows(s, s') && |s'.calls| == |s.calls|
    requires forall i :: 0 <= i < |s.calls| && i != c ==> s'.calls[i] == s.calls[i]
    ensures forall i :: 0 <= i < |s.calls| && i != c ==> CallOk(s', cfg, s'.calls[i])
  {
    forall i | 0 <= i < |s.calls| && i != c
      ensures CallOk(s', cfg, s'.calls[i])
    {
      GrowsKeepsCall(s, s', cfg, s.calls[i]);
    }
  }

  lemma LoginKeeps(s: State, s': State, cfg: Config, u: nat, sid: nat, t: nat)
    requires Inv(s, cfg) && Login(s, s', cfg, u, sid, t)
    ensures Grows(s, s') && Inv(s', cfg)
  {
    GrowsKeepsHistory(s, s', cfg);
    OthersKept(s, s', cfg, |s.calls|);
  }

  lemma EnvKeeps(s: State, s': State, cfg: Config)
    requires Inv(s, cfg) && EnvStep(s, s', cfg)
    ensures Grows(s, s') && Inv(s', cfg)
  {
    if sids: set<nat>, reason: Reason :| RevokeSessions(s, s', sids, reason) {
      RevokeKeeps(s, cfg, sids, reason);
    } else if u: nat, sid: nat, t: nat :| Login(s, s', cfg, u, sid, t) {
      LoginKeeps(s, s', cfg, u, sid, t);
    } else {
      assert s'.tokens == s.tokens && s'.sessions == s.sessions && s'.history == s.history;
      GrowsKeepsHistory(s, s', cfg);
      forall c | 0 <= c < |s.calls|
        ensures CallOk(s', cfg, s'.calls[c])
      {
        GrowsKeepsCall(s, s', cfg, s.calls[c]);
      }
    }
  }

  ghost predicate Commits(s: State, cfg: Config, c: nat, newId: nat) {
    && Inv(s, cfg) && InTransaction(s, c, newId) && !Raced(s, c)
    && s.sessions[s.calls[c].phase.rec.family].revoked.None?
  }

  lemma RefreshedGrows(s: State, cfg: Config, c: nat, newId: nat)
    requires Commits(s, cfg, c, newId)
    ensures Grows(s, Refreshed(s, cfg, c, newId)) && TokensOk(Refreshed(s, cfg, c, newId))
  {
    assert CallOk(s, cfg, s.calls[c]);
  }

  lemma RefreshedHistory(s: State, cfg: Config, c: nat, newId: nat)
    requires Commits(s, cfg, c, newId)
    ensures HistoryOk(Refreshed(s, cfg, c, newId), cfg)
  {
    var s' := Refreshed(s, cfg, c, newId);
    assert CallOk(s, cfg, s.calls[c]);
    RefreshedGrows(s, cfg, c, newId);
    assert IssueOk(s', cfg, s'.history[|s.history|]);
    forall i | 0 <= i < |s.history|
      ensures IssueOk(s', cfg, s'.history[i])
      ensures !s.history[i].byGrace && !s'.history[|s.history|].byGrace ==> s.history[i].token != s.calls[c].token
    {
      assert IssueOk(s, cfg, s.history[i]);
    }
  }

  /** A refresh transaction keeps the invariant, and a second attempt never ends raced. */
  lemma TransactKeeps(s: State, s': State, cfg: Config, c: nat, newId: nat)
    requires Inv(s, cfg) && c < |s.calls| && Transact(s, s', cfg, c, newId)
    ensures Grows(s, s') && Inv(s', cfg)
  {
    assert CallOk(s, cfg, s.calls[c]);
    if s'.history == s.history {
      GrowsKeepsHistory(s, s', cfg);
    } else {
      RefreshedGrows(s, cfg, c, newId);
      RefreshedHistory(s, cfg, c, newId);
    }
    OthersKept(s, s', cfg, c);
  }

  lemma ReadKeeps(s: State, s': State, cfg: Config, c: nat)
    requires Inv(s, cfg) && c < |s.calls| && (ReadToken(s, s', c) || ReadSession(s, s', c) || Judge(s, s', cfg, c))
    ensures Grows(s, s') && Inv(s', cfg)
  {
    assert CallOk(s, cfg, s.calls[c]);
    GrowsKeepsHistory(s, s', cfg);
    OthersKept(s, s', cfg, c);
  }

  lemma EndKeeps(s: State, s': State, cfg: Config, c: nat)
    requires Inv(s, cfg) && c < |s.calls| && EndSession(s, s', c)
    ensures Grows(s, s') && Inv(s', cfg)
  {
    assert CallOk(s, cfg, s.calls[c]);
    RevokeKeeps(s, cfg, {s.tokens[s.calls[c].token].family}, s.calls[c].phase.reason);
  }

  lemma CallKeeps(s: State, s': State, cfg: Config, c: nat)
    requires Inv(s, cfg) && c < |s.calls| && CallStep(s, s', cfg, c)
    ensures Grows(s, s') && Inv(s', cfg)
  {
    if newId: nat :| Transact(s, s', cfg, c, newId) {
      TransactKeeps(s, s', cfg, c, newId);
    } else if EndSession(s, s', c) {
      EndKeeps(s, s', cfg, c);
    } else {
      ReadKeeps(s, s', cfg, c);
    }
  }

  lemma NextKeeps(s: State, s': State, cfg: Config)
    requires Inv(s, cfg) && Next(s, s', cfg)
    ensures Grows(s, s') && Inv(s', cfg)
  {
    if EnvStep(s, s', cfg) {
      EnvKeeps(s, s', cfg);
    } else {
      var c: nat :| c < |s.calls| && CallStep(s, s', cfg, c);
      CallKeeps(s, s', cfg, c);
    }
  }

  // ---------- runs ----------

  ghost predicate Initial(s: State) {
    s.tokens == map[] && s.sessions == map[] && s.calls == [] && s.history == []
  }

  ghost predicate IsRun(run: seq<State>, cfg: Config) {
    && |run| > 0 && Initial(run[0])
    && forall i :: 0 < i < |run| ==> Next(run[i - 1], run[i], cfg)
  }

  lemma {:induction false} RunKeepsInv(run: seq<State>, cfg: Config, i: nat)
    requires IsRun(run, cfg) && i < |run|
    ensures Inv(run[i], cfg)
  {
    if i > 0 {
      RunKeepsInv(run, cfg, i - 1);
      NextKeeps(run[i - 1], run[i], cfg);
    }
  }

  /** MAIN: on every interleaving a refresh token is rotated at most once. */
  lemma RotatedAtMostOnce(run: seq<State>, cfg: Config, i: nat, x: nat, y: nat)
    requires IsRun(run, cfg) && i < |run|
    requires x < |run[i].history| && y < |run[i].history|
    requires !run[i].history[x].byGrace && !run[i].history[y].byGrace
    requires run[i].history[x].token == run[i].history[y].token
    ensures x == y
  {
    RunKeepsInv(run, cfg, i);
  }

  /** MAIN: the second refreshOnce of a call never races, so the last branch of Refresh is dead. */
  lemma SecondAttemptNeverRaces(run: seq<State>, cfg: Config, i: nat, c: nat)
    requires IsRun(run, cfg) && i < |run| && c < |run[i].calls|
    ensures run[i].calls[c].phase != Finished(RacedTwice)
    ensures run[i].calls[c].attempt == 2 && run[i].calls[c].phase.Proceeding? ==> run[i].calls[c].phase.verdict.Grace?
  {
    RunKeepsInv(run, cfg, i);
    assert CallOk(run[i], cfg, run[i].calls[c]);
  }

  function IssuesFor(h: seq<Issue>, sid: nat): nat {
    if h == [] then 0 else IssuesFor(h[..|h| - 1], sid) + if h[|h| - 1].session == sid then 1 else 0
  }

  predicate RevokedIn(s: State, sid: nat) { sid in s.sessions && s.sessions[sid].revoked.Some? }

  /** The session stays revoked for the reason first recorded, and no token was issued for it in between. */
  predicate DeadBetween(s: State, s': State, sid: nat)
    requires RevokedIn(s, sid)
  {
    && sid in s'.sessions && s'.sessions[sid].revoked == s.sessions[sid].revoked
    && IssuesFor(s'.history, sid) == IssuesFor(s.history, sid)
  }

  lemma NoIssueWhenRevoked(s: State, s': State, cfg: Config, sid: nat)
    requires Inv(s, cfg) && Next(s, s', cfg) && RevokedIn(s, sid)
    ensures DeadBetween(s, s', sid)
  {
    NextKeeps(s, s', cfg);
    IssueNeedsLiveSession(s, s', cfg, sid);
  }

  /** A step adds at most one issue, and never one of a revoked session. */
  lemma IssueNeedsLiveSession(s: State, s': State, cfg: Config, sid: nat)
    requires Next(s, s', cfg) && RevokedIn(s, sid)
    ensures s'.history == s.history || exists e :: s'.history == s.history + [e] && e.session != sid
    ensures IssuesFor(s'.history, sid) == IssuesFor(s.history, sid)
  {
    if !EnvStep(s, s', cfg) {
      var c: nat :| c < |s.calls| && CallStep(s, s', cfg, c);
      if newId: nat :| Transact(s, s', cfg, c, newId) && s'.history != s.history {
        var e := s'.history[|s.history|];
        assert s'.history == s.history + [e] && e.session != sid;
        assert (s.history + [e])[..|s.history|] == s.history;
      }
    }
  }

  lemma NextRevokedStaysDead(run: seq<State>, cfg: Config, j: nat, sid: nat)
    requires IsRun(run, cfg) && 0 < j < |run|
    requires RevokedIn(run[j - 1], sid)
    ensures DeadBetween(run[j - 1], run[j], sid)
  {
    RunKeepsInv(run, cfg, j - 1);
    NoIssueWhenRevoked(run[j - 1], run[j], cfg, sid);
  }

  /** MAIN: once a session is revoked, no refresh of it ever commits again. */
  lemma {:induction false} RevokedStaysDead(run: seq<State>, cfg: Config, i: nat, j: nat, sid: nat)
    requires IsRun(run, cfg) && i <= j < |run|
    requires RevokedIn(run[i], sid)
    ensures DeadBetween(run[i], run[j], sid)
  {
    if i < j {
      RevokedStaysDead(run, cfg, i, j - 1, sid);
      NextRevokedStaysDead(run, cfg, j, sid);
    }
  }

  /** MAIN: what a call does with the token and session it has read, case by case. */
  lemma JudgedExactly(s: State, s': State, cfg: Config, c: nat)
    requires c < |s.calls| && Judge(s, s', cfg, c)
    ensures var (rec, sess, next) := (s.calls[c].phase.rec, s.calls[c].phase.sess, s'.calls[c].phase);
      var within := s.now < sess.absolute && s.now < sess.idle;
      var graced := rec.revoked.Some? && rec.revoked.value.reason.Rotated? && cfg.grace > 0 &&
                    s.now - rec.revoked.value.at < cfg.grace && sess.revoked.None? && within;
      var rotates := rec.revoked.None? && sess.revoked.None? && within && s.now < rec.expires;
      var active := rec.user !in s.inactive;
      && (next == Proceeding(rec, sess, Rotate, s.now) <==> rotates && active)
      && (next == Proceeding(rec, sess, Grace, s.now) <==> graced && active)
      && (next == Ending(UserDeactivated) <==> (rotates || graced) && !active)
      && (next == Ending(ReuseDetected) <==> rec.revoked.Some? && !graced)
      && (next == Ending(PastExpiry) <==>
            rec.revoked.None? && sess.revoked.None? && !(within && s.now < rec.expires))
      && (next == Finished(Rejected) <==> rec.revoked.None? && sess.revoked.Some?)
  {}

  /** A login starts a session that ends after the absolute window, with a token for the idle window at most. */
  lemma LoginStarts(s: State, s': State, cfg: Config, u: nat, sid: nat, t: nat)
    requires Login(s, s', cfg, u, sid, t)
    ensures sid in s'.sessions && t in s'.tokens && s'.tokens[t].family == sid && s'.tokens[t].user == u
    ensures var x := s'.sessions[sid];
      && x.user == u && x.revoked.None? && x.absolute == s.now + cfg.absoluteWindow
      && x.idle == s'.tokens[t].expires && Earlier(x.idle, s.now + cfg.idleWindow, x.absolute)
    ensures s'.tokens[t].revoked.None?
  {}

  /** Revoking marks exactly the live sessions named and their live tokens, with the reason and the moment. */
  lemma RevokeMarks(s: State, sids: set<nat>, reason: Reason, sid: nat, t: nat)
    ensures var s' := Revoke(s, sids, reason);
      && s'.sessions.Keys == s.sessions.Keys && s'.tokens.Keys == s.tokens.Keys
      && (sid in s.sessions ==>
            if sid in sids && s.sessions[sid].revoked.None?
            then s'.sessions[sid] == s.sessions[sid].(revoked := Some(Revocation(s.now, reason)))
            else s'.sessions[sid] == s.sessions[sid])
      && (t in s.tokens ==>
            if s.tokens[t].family in sids && s.tokens[t].revoked.None?
            then s'.tokens[t] == s.tokens[t].(revoked := Some(Revocation(s.now, reason)))
            else s'.tokens[t] == s.tokens[t])
  {}

  /** A committed refresh extends the session's idle limit to the successor's expiry and changes no other session. */
  lemma RefreshTouches(s: State, cfg: Config, c: nat, newId: nat)
    requires InTransaction(s, c, newId)
    ensures var (s', sid) := (Refreshed(s, cfg, c, newId), s.calls[c].phase.rec.family);
      && newId in s'.tokens && s'.tokens[newId].revoked.None?
      && s'.sessions == s.sessions[sid := s.sessions[sid].(idle := s'.tokens[newId].expires)]
      && s'.calls[c].phase == Finished(Issued)
  {}

  /** MAIN: every token was issued for an unexpired token, or inside the grace window of a rotation in the same session,
      on a session within its absolute limit and the idle limit that was read; and no session or token outlives the
      absolute limit. */
  lemma GraceAndLimitsHold(run: seq<State>, cfg: Config, i: nat)
    requires IsRun(run, cfg) && i < |run|
    ensures TokensOk(run[i])
    ensures forall k :: 0 <= k < |run[i].history| ==> IssueOk(run[i], cfg, run[i].history[k])
  {
    RunKeepsInv(run, cfg, i);
  }
}

/** Revocable sessions (auth.py): issuing with a limit, revoking, pruning, and what a token is worth over a whole run.
    Signatures are not modelled; a token is the claims it carries. */
module AuthSessions {
  import opened Prelude

  type Time = int
  type UserId = nat
  type SessionId = nat

  const DAY: int := 86400

  datatype User = User(authVersion: nat, active: bool)
  datatype Session = Session(user: UserId, createdAt: Time, expiresAt: Time, revokedAt: Option<Time>)
  datatype Token = Token(sub: UserId, ver: nat, sid: Option<SessionId>, exp: Time)

  /** AUTH_MAX_ACTIVE_SESSIONS and AUTH_REQUIRE_SESSION_ID. */
  datatype Settings = Settings(maxActive: nat, requireSession: bool)

  type Users = map<UserId, User>
  type Sessions = map<SessionId, Session>
  datatype Db = Db(users: Users, sessions: Sessions)

  /** The test in get_current_user, together with the expiry check of the token itself. */
  predicate Accepts(db: Db, settings: Settings, token: Token, now: Time) {
    && now < token.exp
    && token.sub in db.users && db.users[token.sub].active
    && token.ver == db.users[token.sub].authVersion
    && (if token.sid.None? then !settings.requireSession
        else
          && token.sid.value in db.sessions
          && db.sessions[token.sid.value].user == token.sub
          && db.sessions[token.sid.value].revokedAt.None?
          && db.sessions[token.sid.value].expiresAt > now)
  }

  // ---------------------------------------------------------------- the session limit

  function Live(sessions: Sessions, u: UserId, now: Time): set<SessionId> {
    set s | s in sessions && sessions[s].user == u && sessions[s].revokedAt.None? && sessions[s].expiresAt > now
  }

  /** ORDER BY created_at DESC, id. */
  predicate Precedes(sessions: Sessions, a: SessionId, b: SessionId)
    requires a in sessions && b in sessions
  {
    sessions[a].createdAt > sessions[b].createdAt || (sessions[a].createdAt == sessions[b].createdAt && a < b)
  }

  function Ahead(sessions: Sessions, live: set<SessionId>, s: SessionId): set<SessionId>
    requires live <= sessions.Keys && s in sessions
  {
    set t | t in live && Precedes(sessions, t, s)
  }

  /** The live sessions that at least `limit` newer ones precede. */
  function Overflow(sessions: Sessions, live: set<SessionId>, limit: nat): set<SessionId>
    requires live <= sessions.Keys
  {
    set s | s in live && |Ahead(sessions, live, s)| >= limit
  }

  predicate Ranked(sessions: Sessions, order: seq<SessionId>) {
    && (forall i :: 0 <= i < |order| ==> order[i] in sessions)
    && forall i, j :: 0 <= i < j < |order| ==> Precedes(sessions, order[i], order[j])
  }

  function Elements(order: seq<SessionId>): set<SessionId> {
    set s | s in order
  }

  lemma {:induction false} ElementsCount(order: seq<SessionId>)
    requires forall i, j :: 0 <= i < j < |order| ==> order[i] != order[j]
    ensures |Elements(order)| == |order|
  {
    if order != [] {
      var init, last := order[..|order| - 1], order[|order| - 1];
      ElementsCount(init);
      assert order == init + [last];
      assert Elements(order) == Elements(init) + {last} && last !in Elements(init);
    }
  }

  /** In the ranked order, the i-th session is preceded by exactly i others. */
  lemma RankIsIndex(sessions: Sessions, order: seq<SessionId>, i: nat)
    requires Ranked(sessions, order) && i < |order|
    ensures Elements(order) <= sessions.Keys
    ensures |Ahead(sessions, Elements(order), order[i])| == i
  {
    assert Ahead(sessions, Elements(order), order[i]) == Elements(order[..i]);
    ElementsCount(order[..i]);
  }

  lemma OverflowIsTail(sessions: Sessions, order: seq<SessionId>, limit: nat)
    requires Ranked(sessions, order)
    ensures Elements(order) <= sessions.Keys
    ensures Overflow(sessions, Elements(order), limit) == Elements(if |order| <= limit then [] else order[limit..])
  {
    var tail := if |order| <= limit then [] else order[limit..];
    forall i | 0 <= i < |order|
      ensures order[i] in Overflow(sessions, Elements(order), limit) <==> i >= limit
    {
      RankIsIndex(sessions, order, i);
    }
    assert forall i :: limit <= i < |order| ==> tail[i - limit] == order[i];
  }

  predicate IsFirst(sessions: Sessions, rest: set<SessionId>, s: SessionId)
    requires rest <= sessions.Keys
  {
    s in rest && forall t :: t in rest && t != s ==> Precedes(sessions, s, t)
  }

  lemma {:induction false} FirstExists(sessions: Sessions, rest: set<SessionId>)
    requires rest <= sessions.Keys && rest != {}
    ensures exists s :: IsFirst(sessions, rest, s)
  {
    var s :| s in rest;
    if rest == {s} {
      assert IsFirst(sessions, rest, s);
    } else {
      FirstExists(sessions, rest - {s});
      var f :| IsFirst(sessions, rest - {s}, f);
      if Precedes(sessions, s, f) {
        assert forall t :: t in rest && t != s ==> t == f || Precedes(sessions, f, t);
        assert IsFirst(sessions, rest, s);
      } else {
        assert IsFirst(sessions, rest, f);
      }
    }
  }

  lemma ElementsConcat(a: seq<SessionId>, b: seq<SessionId>)
    ensures Elements(a + b) == Elements(a) + Elements(b)
    ensures forall s :: Elements([s]) == {s}
  {
  }

  method RankLive(sessions: Sessions, live: set<SessionId>) returns (order: seq<SessionId>)
    requires live <= sessions.Keys
    ensures Ranked(sessions, order) && Elements(order) == live
  {
    order := [];
    var rest := live;
    while rest != {}
      invariant rest <= live && Ranked(sessions, order) && Elements(order) == live - rest
      invariant forall a, b :: a in order && b in rest ==> Precedes(sessions, a, b)
    {
      FirstExists(sessions, rest);
      var f :| f in rest && IsFirst(sessions, rest, f);
      ElementsConcat(order, [f]);
      order := order + [f];
      rest := rest - {f};
    }
  }

  /** At most `limit` of the live sessions are kept, and every one kept precedes every one revoked. */
  lemma KeptSessions(sessions: Sessions, live: set<SessionId>, limit: nat)
    requires live <= sessions.Keys
    ensures |live - Overflow(sessions, live, limit)| <= limit
    ensures forall a, b :: a in live - Overflow(sessions, live, limit) && b in Overflow(sessions, live, limit) ==>
              Precedes(sessions, a, b)
  {
    var order := RankedOrder(sessions, live);
    var n := if |order| <= limit then |order| else limit;
    OverflowIsTail(sessions, order, limit);
    SplitOrder(sessions, order, n);
  }

  /** Cutting a ranked order cuts its elements in two, all of the first part ahead of all of the second. */
  lemma SplitOrder(sessions: Sessions, order: seq<SessionId>, n: nat)
    requires Ranked(sessions, order) && n <= |order|
    ensures Elements(order[n..]) <= Elements(order) <= sessions.Keys
    ensures |Elements(order) - Elements(order[n..])| == n
    ensures forall a, b :: a in Elements(order) - Elements(order[n..]) && b in Elements(order[n..]) ==>
              Precedes(sessions, a, b)
  {
    assert order == order[..n] + order[n..];
    ElementsConcat(order[..n], order[n..]);
    ElementsCount(order[..n]);
    assert Elements(order[..n]) !! Elements(order[n..]);
    assert Elements(order) - Elements(order[n..]) == Elements(order[..n]);
  }

  lemma {:induction false} RankedOrder(sessions: Sessions, live: set<SessionId>) returns (order: seq<SessionId>)
    requires live <= sessions.Keys
    ensures Ranked(sessions, order) && Elements(order) == live
  {
    if live == {} {
      order := [];
    } else {
      FirstExists(sessions, live);
      var f :| IsFirst(sessions, live, f);
      var rest := RankedOrder(sessions, live - {f});
      ElementsConcat([f], rest);
      order := [f] + rest;
    }
  }

  // ---------------------------------------------------------------- operations

  function RevokeSet(sessions: Sessions, which: set<SessionId>, now: Time): Sessions {
    map s | s in sessions :: if s in which then sessions[s].(revokedAt := Some(now)) else sessions[s]
  }

  predicate Stale(s: Session, cutoff: Time) {
    s.expiresAt < cutoff || (s.revokedAt.Some? && s.revokedAt.value < cutoff)
  }

  function WithNew(db: Db, u: UserId, sid: SessionId, now: Time, ttl: int): Sessions {
    db.sessions[sid := Session(u, now, now + ttl, None)]
  }

  /** Without the long-dead rows of the user. */
  function Pruned(sessions: Sessions, u: UserId, now: Time): Sessions {
    map s | s in sessions && !(sessions[s].user == u && Stale(sessions[s], now - DAY)) :: sessions[s]
  }

  function Issue(db: Db, settings: Settings, u: UserId, sid: SessionId, now: Time, ttl: int): Db {
    var pruned := Pruned(WithNew(db, u, sid, now, ttl), u, now);
    db.(sessions := RevokeSet(pruned, Overflow(pruned, Live(pruned, u, now), settings.maxActive), now))
  }

  function Unrevoked(sessions: Sessions, u: UserId): set<SessionId> {
    set s | s in sessions && sessions[s].user == u && sessions[s].revokedAt.None?
  }

  function Revoke(db: Db, sid: SessionId, u: UserId, now: Time): Db {
    db.(sessions := RevokeSet(db.sessions, Unrevoked(db.sessions, u) * {sid}, now))
  }

  function RevokeAll(db: Db, u: UserId, version: nat, now: Time): Db
    requires u in db.users
  {
    Db(db.users[u := db.users[u].(authVersion := version)], RevokeSet(db.sessions, Unrevoked(db.sessions, u), now))
  }

  function Purge(db: Db, now: Time, days: nat): Db {
    db.(sessions := map s | s in db.sessions && !Stale(db.sessions[s], now - days * DAY) :: db.sessions[s])
  }

  // ---------------------------------------------------------------- what each operation does, row by row

  /** A row dead for more than the given time: expired or revoked before. */
  predicate DeadSince(row: Session, before: Time) {
    row.expiresAt < before || (row.revokedAt.Some? && row.revokedAt.value < before)
  }

  /** A session of the user that is neither revoked nor expired. */
  predicate IsLive(all: Sessions, u: UserId, now: Time, s: SessionId) {
    s in all && all[s].user == u && all[s].revokedAt.None? && all[s].expiresAt > now
  }

  /** The live sessions of the user before `s`: created later, or at the same time under a smaller id. */
  function NewerLive(all: Sessions, u: UserId, now: Time, s: SessionId): set<SessionId>
    requires s in all
  {
    set t | t in all && IsLive(all, u, now, t)
            && (all[t].createdAt > all[s].createdAt || (all[t].createdAt == all[s].createdAt && t < s))
  }

  /** `all` are the rows with the new one. Of the user's rows, those dead for more than a day are gone, and those live
      that at least `limit` newer ones come before are revoked now; everything else is as it was. */
  ghost predicate IssueKept(all: Sessions, u: UserId, now: Time, limit: nat, after: Sessions) {
    && (forall s :: s in after <==> s in all && !(all[s].user == u && DeadSince(all[s], now - 86400)))
    && forall s :: s in after ==>
         after[s] == if IsLive(all, u, now, s) && |NewerLive(all, u, now, s)| >= limit
                     then all[s].(revokedAt := Some(now)) else all[s]
  }

  /** Pruning removes no live session, so it changes no rank. */
  lemma PruningKeepsRank(all: Sessions, u: UserId, now: Time, s: SessionId)
    requires s in Pruned(all, u, now)
    ensures Live(Pruned(all, u, now), u, now) == set t | t in all && IsLive(all, u, now, t)
    ensures Ahead(Pruned(all, u, now), Live(Pruned(all, u, now), u, now), s) == NewerLive(all, u, now, s)
  {
  }

  /** Issuing a session does just that to the rows. */
  lemma IssueIsKept(db: Db, settings: Settings, u: UserId, sid: SessionId, now: Time, ttl: int)
    ensures IssueKept(db.sessions[sid := Session(u, now, now + ttl, None)], u, now, settings.maxActive,
                      Issue(db, settings, u, sid, now, ttl).sessions)
  {
    var all, after := WithNew(db, u, sid, now, ttl), Issue(db, settings, u, sid, now, ttl).sessions;
    forall s | s in after
      ensures after[s] == if IsLive(all, u, now, s) && |NewerLive(all, u, now, s)| >= settings.maxActive
                          then all[s].(revokedAt := Some(now)) else all[s]
    {
      PruningKeepsRank(all, u, now, s);
    }
  }

  /** Every token of the user that was good for the old version, or whose session is in the table, is refused; nothing
      changes for anyone else. */
  ghost predicate AllRevoked(before: Db, settings: Settings, u: UserId, after: Db)
    requires u in before.users
  {
    && (forall token: Token, t: Time {:trigger Accepts(after, settings, token, t)} ::
          token.sub == u && (token.ver <= before.users[u].authVersion
                             || (token.sid.Some? && token.sid.value in before.sessions)) ==>
            !Accepts(after, settings, token, t))
    && forall token: Token, t: Time {:trigger Accepts(after, settings, token, t)} ::
         token.sub != u ==> (Accepts(after, settings, token, t) <==> Accepts(before, settings, token, t))
  }

  /** Tokens for session `sid` are refused; nothing changes for any other token. */
  ghost predicate OneRevoked(before: Db, settings: Settings, sid: SessionId, after: Db) {
    && (forall token: Token, t: Time {:trigger Accepts(after, settings, token, t)} ::
          token.sid == Some(sid) ==> !Accepts(after, settings, token, t))
    && forall token: Token, t: Time {:trigger Accepts(after, settings, token, t)} ::
         token.sid != Some(sid) ==> (Accepts(after, settings, token, t) <==> Accepts(before, settings, token, t))
  }

  /** What an issue has decided when it has counted, and not committed yet: the live sessions it keeps and revokes, the
      rows it deletes; and the sessions of the user that others have issued since. */
  datatype Draft = Draft(u: UserId, sid: SessionId, now: Time, ttl: int, ver: nat,
                         kept: set<SessionId>, evicted: set<SessionId>, pruned: set<SessionId>, since: set<SessionId>)

  function Count(db: Db, settings: Settings, u: UserId, sid: SessionId, now: Time, ttl: int): Draft
    requires u in db.users
  {
    var all := WithNew(db, u, sid, now, ttl);
    var pruned := Pruned(all, u, now);
    var live := Live(pruned, u, now);
    var evicted := Overflow(pruned, live, settings.maxActive);
    Draft(u, sid, now, ttl, db.users[u].authVersion, live - evicted, evicted, all.Keys - pruned.Keys, {})
  }

  function Commit(db: Db, d: Draft): Db {
    db.(sessions := RevokeSet(WithNew(db, d.u, d.sid, d.now, d.ttl) - d.pruned, d.evicted, d.now))
  }

  /** Committing right after counting is issuing. */
  lemma CountThenCommitIsIssue(db: Db, settings: Settings, u: UserId, sid: SessionId, now: Time, ttl: int)
    requires u in db.users
    ensures Commit(db, Count(db, settings, u, sid, now, ttl)) == Issue(db, settings, u, sid, now, ttl)
  {
    var all := WithNew(db, u, sid, now, ttl);
    assert all - (all.Keys - Pruned(all, u, now).Keys) == Pruned(all, u, now);
  }

  class AuthStore {
    const settings: Settings
    var users: Users
    var sessions: Sessions

    constructor (settings: Settings)
      ensures this.settings == settings && View() == Db(map[], map[])
    {
      this.settings, users, sessions := settings, map[], map[];
    }

    function View(): Db
      reads this
    {
      Db(users, sessions)
    }

    /** get_current_user: the user a token stands for, or none if it is refused. */
    method GetCurrentUser(token: Token, now: Time) returns (user: Option<UserId>)
      ensures user == if Accepts(View(), settings, token, now) then Some(token.sub) else None
      ensures user.Some? <==>
                && now < token.exp
                && token.sub in users && users[token.sub].active && users[token.sub].authVersion == token.ver
                && match token.sid
                   case None => !settings.requireSession
                   case Some(sid) => IsLive(sessions, token.sub, now, sid)
    {
      if now >= token.exp {
        return None;
      }
      if token.sub !in users || !users[token.sub].active {
        return None;
      }
      if token.ver != users[token.sub].authVersion {
        return None;
      }
      if token.sid.None? {
        return if settings.requireSession then None else Some(token.sub);
      }
      var sid := token.sid.value;
      if sid !in sessions || sessions[sid].user != token.sub || sessions[sid].revokedAt.Some?
         || sessions[sid].expiresAt <= now {
        return None;
      }
      return Some(token.sub);
    }

    method MarkRevoked(which: set<SessionId>, now: Time)
      requires which <= sessions.Keys
      modifies this`sessions
      ensures sessions == RevokeSet(old(sessions), which, now)
    {
      var rest := which;
      ghost var before := sessions;
      while rest != {}
        invariant rest <= which && sessions.Keys == before.Keys
        invariant forall s :: s in sessions ==>
                    sessions[s] == if s in which - rest then before[s].(revokedAt := Some(now)) else before[s]
      {
        var s :| s in rest;
        sessions := sessions[s := sessions[s].(revokedAt := Some(now))];
        rest := rest - {s};
      }
    }

    method IssueSessionToken(u: UserId, sid: SessionId, now: Time, ttl: int) returns (token: Token)
      requires u in users && sid !in sessions
      modifies this`sessions
      ensures View() == Issue(old(View()), settings, u, sid, now, ttl)
      ensures token == Token(u, users[u].authVersion, Some(sid), now + ttl) && users == old(users)
    {
      sessions := sessions[sid := Session(u, now, now + ttl, None)];
      sessions := map s | s in sessions && !(sessions[s].user == u && Stale(sessions[s], now - DAY)) :: sessions[s];
      var order := RankLive(sessions, Live(sessions, u, now));
      OverflowIsTail(sessions, order, settings.maxActive);
      if |order| > settings.maxActive {
        MarkRevoked(Elements(order[settings.maxActive..]), now);
      } else {
        assert sessions == RevokeSet(sessions, {}, now);
      }
      return Token(u, users[u].authVersion, Some(sid), now + ttl);
    }

    method RevokeSession(sid: Option<SessionId>, u: UserId, now: Time) returns (revoked: bool)
      modifies this`sessions
      ensures View() == if sid.Some? then Revoke(old(View()), sid.value, u, now) else old(View())
      ensures revoked <==> sid.Some? && sid.value in old(sessions) && old(sessions)[sid.value].user == u
                           && old(sessions)[sid.value].revokedAt.None?
      ensures if revoked then OneRevoked(old(View()), settings, sid.value, View()) else View() == old(View())
    {
      if sid.None? {
        return false;
      }
      var which := Unrevoked(sessions, u) * {sid.value};
      revoked := sid.value in which;
      MarkRevoked(which, now);
      assert !revoked ==> sessions == old(sessions);
    }

    method RevokeAllSessions(u: UserId, now: Time)
      requires u in users
      modifies this
      ensures View() == RevokeAll(old(View()), u, old(users)[u].authVersion + 1, now)
      ensures AllRevoked(old(View()), settings, u, View())
    {
      users := users[u := users[u].(authVersion := users[u].authVersion + 1)];
      MarkRevoked(Unrevoked(sessions, u), now);
    }

    method PurgeDeadSessions(now: Time, days: nat) returns (deleted: nat)
      modifies this`sessions
      ensures View() == Purge(old(View()), now, days)
      ensures deleted == |old(sessions)| - |sessions| && users == old(users)
      ensures forall s :: s in sessions <==> s in old(sessions) && !DeadSince(old(sessions)[s], now - days * 86400)
      ensures forall s :: s in sessions ==> sessions[s] == old(sessions)[s]
    {
      var cutoff := now - days * DAY;
      var dead := set s | s in sessions && Stale(sessions[s], cutoff);
      WithoutDead(sessions, dead);
      sessions := sessions - dead;
      deleted := |dead|;
    }
  }

  lemma WithoutDead(sessions: Sessions, dead: set<SessionId>)
    requires dead <= sessions.Keys
    ensures sessions - dead == map s | s in sessions && s !in dead :: sessions[s]
    ensures |dead| == |sessions| - |sessions - dead|
  {
    assert sessions.Keys == (sessions - dead).Keys + dead && (sessions - dead).Keys !! dead;
  }

  // ---------------------------------------------------------------- runs

  type Worker = nat

  /** Issuing is two steps, since nothing locks the user between the count and the commit; and a revoke-all writes a
      version computed from one that may have been read earlier. */
  datatype Step =
    | CountStep(worker: Worker, u: UserId, sid: SessionId, now: Time, ttl: int)
    | CommitStep(worker: Worker)
    | AbortStep(worker: Worker)
    | RevokeStep(sid: SessionId, u: UserId, now: Time)
    | RevokeAllStep(u: UserId, version: nat, now: Time)
    | PurgeStep(now: Time, days: nat)
    | SignUpStep(u: UserId)
    | DeactivateStep(u: UserId)

  /** The database, the issues in progress, every id ever handed out, and the clock. */
  datatype World = World(db: Db, drafts: map<Worker, Draft>, usedSessions: set<SessionId>, usedUsers: set<UserId>,
                         clock: Time)

  function TimeOf(step: Step, clock: Time): Time {
    match step
    case CountStep(_, _, _, now, _) => now
    case RevokeStep(_, _, now) => now
    case RevokeAllStep(_, _, now) => now
    case PurgeStep(now, _) => now
    case _ => clock
  }

  predicate Enabled(w: World, step: Step) {
    && TimeOf(step, w.clock) >= w.clock
    && match step
       case CountStep(worker, u, sid, _, _) => worker !in w.drafts && u in w.db.users && sid !in w.usedSessions
       case CommitStep(worker) => worker in w.drafts
       case RevokeAllStep(u, _, _) => u in w.db.users
       case SignUpStep(u) => u !in w.usedUsers
       case DeactivateStep(u) => u in w.db.users
       case _ => true
  }

  /** The issues still in progress after `d` is committed: those of the same user have missed its session. */
  function Missing(drafts: map<Worker, Draft>, worker: Worker, d: Draft): map<Worker, Draft> {
    map k | k in drafts && k != worker ::
      if drafts[k].u == d.u then drafts[k].(since := drafts[k].since + {d.sid}) else drafts[k]
  }

  function Next(w: World, settings: Settings, step: Step): World
    requires Enabled(w, step)
  {
    var clock := TimeOf(step, w.clock);
    match step
    case CountStep(worker, u, sid, now, ttl) =>
      w.(drafts := w.drafts[worker := Count(w.db, settings, u, sid, now, ttl)], usedSessions := w.usedSessions + {sid},
         clock := clock)
    case CommitStep(worker) =>
      w.(db := Commit(w.db, w.drafts[worker]), drafts := Missing(w.drafts, worker, w.drafts[worker]))
    case AbortStep(worker) => w.(drafts := w.drafts - {worker})
    case RevokeStep(sid, u, now) => w.(db := Revoke(w.db, sid, u, now), clock := clock)
    case RevokeAllStep(u, version, now) => w.(db := RevokeAll(w.db, u, version, now), clock := clock)
    case PurgeStep(now, days) => w.(db := Purge(w.db, now, days), clock := clock)
    case SignUpStep(u) => w.(db := w.db.(users := w.db.users[u := User(0, true)]), usedUsers := w.usedUsers + {u})
    case DeactivateStep(u) => w.(db := w.db.(users := w.db.users[u := w.db.users[u].(active := false)]))
  }

  predicate Follows(w: World, settings: Settings, step: Step, w': World) {
    Enabled(w, step) && w' == Next(w, settings, step)
  }

  predicate Run(worlds: seq<World>, settings: Settings, steps: seq<Step>) {
    && |worlds| == |steps| + 1
    && worlds[0].db == Db(map[], map[]) && worlds[0].drafts == map[]
    && worlds[0].usedSessions == {} && worlds[0].usedUsers == {}
    && forall k :: 0 <= k < |steps| ==> Follows(worlds[k], settings, steps[k], worlds[k + 1])
  }

  /** What is true of an issue in progress: every live session of the user was counted or has been issued since. */
  ghost predicate DraftOk(w: World, settings: Settings, d: Draft) {
    && d.u in w.db.users && d.now <= w.clock
    && d.sid in w.usedSessions && d.sid !in w.db.sessions
    && |d.kept| <= settings.maxActive && (d.ttl > 0 ==> d.sid in d.kept + d.evicted)
    && forall t :: t >= w.clock ==> Live(w.db.sessions, d.u, t) <= d.kept + d.evicted + d.since
  }

  predicate OwnId(drafts: map<Worker, Draft>, k: Worker, sid: SessionId) {
    k in drafts && drafts[k].sid == sid
  }

  ghost predicate Inv(w: World, settings: Settings) {
    && w.db.sessions.Keys <= w.usedSessions && w.db.users.Keys <= w.usedUsers
    && (forall k :: k in w.drafts ==> DraftOk(w, settings, w.drafts[k]))
    && (forall j, k, sid :: OwnId(w.drafts, j, sid) && OwnId(w.drafts, k, sid) ==> j == k)
  }

  lemma CountIsOk(w: World, settings: Settings, step: Step)
    requires Inv(w, settings) && step.CountStep? && Enabled(w, step)
    ensures DraftOk(Next(w, settings, step), settings, Count(w.db, settings, step.u, step.sid, step.now, step.ttl))
  {
    var all := WithNew(w.db, step.u, step.sid, step.now, step.ttl);
    var pruned := Pruned(all, step.u, step.now);
    KeptSessions(pruned, Live(pruned, step.u, step.now), settings.maxActive);
  }

  /** No step but a commit makes a session live, and a commit only its own. */
  lemma StepOnLive(w: World, settings: Settings, step: Step, u: UserId, t: Time)
    requires Inv(w, settings) && Enabled(w, step) && t >= Next(w, settings, step).clock
    ensures var own := if step.CommitStep? && w.drafts[step.worker].u == u then {w.drafts[step.worker].sid} else {};
            Live(Next(w, settings, step).db.sessions, u, t) <= Live(w.db.sessions, u, t) + own
  {
  }

  /** An issue in progress stays as described while other steps are taken. */
  lemma StepKeepsDraft(w: World, settings: Settings, step: Step, k: Worker)
    requires Inv(w, settings) && Enabled(w, step) && k in w.drafts && k in Next(w, settings, step).drafts
    requires step.CountStep? ==> step.worker != k
    ensures DraftOk(Next(w, settings, step), settings, Next(w, settings, step).drafts[k])
  {
    var w', d := Next(w, settings, step), w.drafts[k];
    assert DraftOk(w, settings, d);
    if step.CommitStep? {
      assert OwnId(w.drafts, k, d.sid) && OwnId(w.drafts, step.worker, w.drafts[step.worker].sid);
    }
    forall t | t >= w'.clock
      ensures Live(w'.db.sessions, d.u, t) <= d.kept + d.evicted + w'.drafts[k].since
    {
      StepOnLive(w, settings, step, d.u, t);
    }
  }

  lemma StepKeepsInv(w: World, settings: Settings, step: Step)
    requires Inv(w, settings) && Enabled(w, step)
    ensures Inv(Next(w, settings, step), settings)
  {
    var w' := Next(w, settings, step);
    forall k | k in w'.drafts
      ensures DraftOk(w', settings, w'.drafts[k])
    {
      if step.CountStep? && step.worker == k {
        CountIsOk(w, settings, step);
      } else {
        StepKeepsDraft(w, settings, step, k);
      }
    }
    StepKeepsOwnIds(w, settings, step);
  }

  lemma StepKeepsOwnIds(w: World, settings: Settings, step: Step)
    requires Inv(w, settings) && Enabled(w, step)
    ensures var drafts := Next(w, settings, step).drafts;
            forall j, k, sid :: OwnId(drafts, j, sid) && OwnId(drafts, k, sid) ==> j == k
  {
    var drafts := Next(w, settings, step).drafts;
    forall j, k, sid | OwnId(drafts, j, sid) && OwnId(drafts, k, sid)
      ensures j == k
    {
      if step.CountStep? && (j == step.worker || k == step.worker) {
        assert forall m :: m in w.drafts ==> DraftOk(w, settings, w.drafts[m]);
      } else {
        assert OwnId(w.drafts, j, sid) && OwnId(w.drafts, k, sid);
      }
    }
  }

  lemma {:induction false} ReachableInv(worlds: seq<World>, settings: Settings, steps: seq<Step>, k: nat)
    requires Run(worlds, settings, steps) && k < |worlds|
    ensures Inv(worlds[k], settings)
  {
    if k > 0 {
      ReachableInv(worlds, settings, steps, k - 1);
      assert Follows(worlds[k - 1], settings, steps[k - 1], worlds[k - 1 + 1]);
      StepKeepsInv(worlds[k - 1], settings, steps[k - 1]);
    }
  }

  // ---------------------------------------------------------------- the limit

  lemma FewerLive(a: Sessions, b: Sessions, u: UserId, t: Time)
    requires Live(b, u, t) <= Live(a, u, t)
    ensures |Live(b, u, t)| <= |Live(a, u, t)|
  {
    Subset(Live(b, u, t), Live(a, u, t));
  }

  /** After a commit exactly those sessions are live that were, with the new one, and that it did not evict; of these,
      at most the limit were kept when it counted, and all others were issued since. */
  lemma LiveAfterCommit(w: World, settings: Settings, worker: Worker, t: Time)
    requires Inv(w, settings) && worker in w.drafts && t >= w.clock
    ensures var d := w.drafts[worker];
            var (all, after) := (WithNew(w.db, d.u, d.sid, d.now, d.ttl), Commit(w.db, d).sessions);
            && Live(after, d.u, t) == Live(all, d.u, t) - d.evicted - d.pruned
            && Live(after, d.u, t) <= d.kept + d.since
            && |d.kept| <= settings.maxActive
  {
    var d := w.drafts[worker];
    assert DraftOk(w, settings, d);
    var all, after := WithNew(w.db, d.u, d.sid, d.now, d.ttl), Commit(w.db, d).sessions;
    assert Live(w.db.sessions, d.u, t) <= d.kept + d.evicted + d.since;
    assert Live(all, d.u, t) <= Live(w.db.sessions, d.u, t) + {d.sid};
    assert Live(after, d.u, t) == Live(all, d.u, t) - d.evicted - d.pruned;
  }

  /** How many sessions of the user were issued between the count and the commit. */
  function Overlap(w: World, step: Step, u: UserId): nat {
    if step.CommitStep? && step.worker in w.drafts && w.drafts[step.worker].u == u then
      |w.drafts[step.worker].since|
    else 0
  }

  lemma StepKeepsLimit(w: World, settings: Settings, step: Step, u: UserId, n: nat, t: Time)
    requires Inv(w, settings) && Enabled(w, step) && Overlap(w, step, u) <= n && t >= Next(w, settings, step).clock
    requires |Live(w.db.sessions, u, t)| <= settings.maxActive + n
    ensures |Live(Next(w, settings, step).db.sessions, u, t)| <= settings.maxActive + n
  {
    var after := Next(w, settings, step).db.sessions;
    if step.CommitStep? && w.drafts[step.worker].u == u {
      var d := w.drafts[step.worker];
      LiveAfterCommit(w, settings, step.worker, t);
      Subset(Live(after, u, t), d.kept + d.since);
    } else {
      StepOnLive(w, settings, step, u, t);
      FewerLive(w.db.sessions, after, u, t);
    }
  }

  /** No session of the user is issued while at most `n` others are in between the count and the commit of its issue. */
  predicate OverlapsAtMost(worlds: seq<World>, steps: seq<Step>, u: UserId, n: nat) {
    |worlds| == |steps| + 1 && forall k :: 0 <= k < |steps| ==> Overlap(worlds[k], steps[k], u) <= n
  }

  /** If at most `n` issues of the user ever overlap with one of theirs, they never have more live sessions than the
      limit and `n`; so never more than the limit if none do. */
  lemma {:induction false} SessionLimitHolds(
      worlds: seq<World>, settings: Settings, steps: seq<Step>, k: nat, u: UserId, n: nat, t: Time)
    requires Run(worlds, settings, steps) && OverlapsAtMost(worlds, steps, u, n)
    requires k < |worlds| && t >= worlds[k].clock
    ensures |Live(worlds[k].db.sessions, u, t)| <= settings.maxActive + n
  {
    if k == 0 {
      assert Live(worlds[0].db.sessions, u, t) == {};
    } else {
      ReachableInv(worlds, settings, steps, k - 1);
      assert Follows(worlds[k - 1], settings, steps[k - 1], worlds[k - 1 + 1]);
      SessionLimitHolds(worlds, settings, steps, k - 1, u, n, t);
      StepKeepsLimit(worlds[k - 1], settings, steps[k - 1], u, n, t);
    }
  }

  // ---------------------------------------------------------------- two issues that miss each other

  lemma NothingToEvict(sessions: Sessions, live: set<SessionId>, limit: nat)
    requires live <= sessions.Keys && |live| <= limit
    ensures Overflow(sessions, live, limit) == {}
  {
    forall s | s in live
      ensures |Ahead(sessions, live, s)| < limit
    {
      Subset(Ahead(sessions, live, s), live - {s});
    }
  }

  function Issuing(sid: SessionId): Session {
    Session(0, 10 * sid, 10 * sid + 1000, None)
  }

  /** A draft for session `sid` that evicts and deletes nothing. */
  predicate Adds(d: Draft, sid: SessionId) {
    d.u == 0 && d.sid == sid && d.now == 10 * sid && d.ttl == 1000 && d.evicted == {} && d.pruned == {}
  }

  lemma AddedOnly(db: Db, d: Draft, sid: SessionId)
    requires Adds(d, sid)
    ensures Commit(db, d) == db.(sessions := db.sessions[sid := Issuing(sid)])
  {
    assert Commit(db, d).sessions == db.sessions[sid := Issuing(sid)];
  }

  /** An issue that finds at most one other live session, under a limit of two, evicts nothing. */
  lemma SecondFits(db: Db, sid: SessionId)
    requires 0 in db.users && 0 < sid < 10 && db.sessions.Keys <= {1} - {sid}
    requires 1 in db.sessions ==> db.sessions[1] == Issuing(1)
    ensures Adds(Count(db, Settings(2, true), 0, sid, 10 * sid, 1000), sid)
  {
    var all := WithNew(db, 0, sid, 10 * sid, 1000);
    assert Pruned(all, 0, 10 * sid) == all;
    var live := Live(all, 0, 10 * sid);
    Subset(live, {1, sid});
    NothingToEvict(all, live, 2);
  }

  lemma Extend(worlds: seq<World>, settings: Settings, steps: seq<Step>, step: Step, w: World)
    returns (worlds': seq<World>, steps': seq<Step>)
    requires Run(worlds, settings, steps) && Follows(worlds[|steps|], settings, step, w)
    ensures worlds' == worlds + [w] && steps' == steps + [step] && Run(worlds', settings, steps')
  {
    worlds', steps' := worlds + [w], steps + [step];
  }

  lemma FirstIssue(w: World) returns (w1: World, w2: World)
    requires w == World(Db(map[0 := User(0, true)], map[]), map[], {}, {0}, 0)
    ensures Follows(w, Settings(2, true), CountStep(1, 0, 1, 10, 1000), w1)
    ensures Follows(w1, Settings(2, true), CommitStep(1), w2)
    ensures w2 == World(Db(map[0 := User(0, true)], map[1 := Issuing(1)]), map[], {1}, {0}, 10)
  {
    SecondFits(w.db, 1);
    w1 := Next(w, Settings(2, true), CountStep(1, 0, 1, 10, 1000));
    AddedOnly(w1.db, w1.drafts[1], 1);
    w2 := Next(w1, Settings(2, true), CommitStep(1));
  }

  /** Signing up and a first session. */
  lemma OneSession() returns (worlds: seq<World>, steps: seq<Step>)
    ensures Run(worlds, Settings(2, true), steps) && |steps| == 3
    ensures worlds[3] == World(Db(map[0 := User(0, true)], map[1 := Issuing(1)]), map[], {1}, {0}, 10)
  {
    var w0 := World(Db(map[], map[]), map[], {}, {}, 0);
    var w1 := Next(w0, Settings(2, true), SignUpStep(0));
    var w2, w3 := FirstIssue(w1);
    worlds, steps := [w0], [];
    worlds, steps := Extend(worlds, Settings(2, true), steps, SignUpStep(0), w1);
    worlds, steps := Extend(worlds, Settings(2, true), steps, CountStep(1, 0, 1, 10, 1000), w2);
    worlds, steps := Extend(worlds, Settings(2, true), steps, CommitStep(1), w3);
  }

  lemma BothCount(w: World) returns (w1: World, w2: World)
    requires w == World(Db(map[0 := User(0, true)], map[1 := Issuing(1)]), map[], {1}, {0}, 10)
    ensures Follows(w, Settings(2, true), CountStep(1, 0, 2, 20, 1000), w1)
    ensures Follows(w1, Settings(2, true), CountStep(2, 0, 3, 30, 1000), w2)
    ensures w2.db == w.db && w2.clock == 30
    ensures w2.drafts.Keys == {1, 2} && Adds(w2.drafts[1], 2) && Adds(w2.drafts[2], 3)
  {
    SecondFits(w.db, 2);
    SecondFits(w.db, 3);
    w1 := Next(w, Settings(2, true), CountStep(1, 0, 2, 20, 1000));
    w2 := Next(w1, Settings(2, true), CountStep(2, 0, 3, 30, 1000));
  }

  lemma BothCommit(w: World) returns (w1: World, w2: World)
    requires w.drafts.Keys == {1, 2} && Adds(w.drafts[1], 2) && Adds(w.drafts[2], 3)
    requires w.db.sessions == map[1 := Issuing(1)] && w.clock == 30
    ensures Follows(w, Settings(2, true), CommitStep(1), w1) && Follows(w1, Settings(2, true), CommitStep(2), w2)
    ensures w2.clock == 30 && Live(w2.db.sessions, 0, 30) == {1, 2, 3}
  {
    AddedOnly(w.db, w.drafts[1], 2);
    w1 := Next(w, Settings(2, true), CommitStep(1));
    AddedOnly(w1.db, w1.drafts[2], 3);
    w2 := Next(w1, Settings(2, true), CommitStep(2));
    assert w2.db.sessions == map[1 := Issuing(1), 2 := Issuing(2), 3 := Issuing(3)];
  }

  /** A limit of two, one live session, two issues each of which counts before the other commits: neither evicts
      anything, and three sessions are live. */
  lemma OverlapExceedsLimit() returns (worlds: seq<World>, steps: seq<Step>)
    ensures Run(worlds, Settings(2, true), steps) && |steps| == 7
    ensures Live(worlds[3].db.sessions, 0, worlds[3].clock) == {1}
    ensures Live(worlds[7].db.sessions, 0, worlds[7].clock) == {1, 2, 3}
  {
    worlds, steps := OneSession();
    var w4, w5 := BothCount(worlds[3]);
    var w6, w7 := BothCommit(w5);
    worlds, steps := Extend(worlds, Settings(2, true), steps, CountStep(1, 0, 2, 20, 1000), w4);
    worlds, steps := Extend(worlds, Settings(2, true), steps, CountStep(2, 0, 3, 30, 1000), w5);
    worlds, steps := Extend(worlds, Settings(2, true), steps, CommitStep(1), w6);
    worlds, steps := Extend(worlds, Settings(2, true), steps, CommitStep(2), w7);
  }

  // ---------------------------------------------------------------- refusal is permanent

  /** A token that has been issued: its ids have been handed out and its issue is committed, or it is an old one without
      a session whose version is not ahead of the user's. */
  ghost predicate Issued(w: World, token: Token) {
    && token.sub in w.usedUsers
    && if token.sid.Some? then token.sid.value in w.usedSessions && forall k :: !OwnId(w.drafts, k, token.sid.value)
       else token.sub in w.db.users ==> token.ver <= w.db.users[token.sub].authVersion
  }

  /** No revoke-all writes a version below the one it finds, as it might if its own was computed long before. */
  predicate KeepsVersion(w: World, step: Step) {
    step.RevokeAllStep? && step.u in w.db.users ==> step.version >= w.db.users[step.u].authVersion
  }

  lemma StepKeepsRefusal(w: World, settings: Settings, step: Step, token: Token, t: Time, t': Time)
    requires Inv(w, settings) && Enabled(w, step) && Issued(w, token) && t <= t'
    requires token.sid.Some? || KeepsVersion(w, step)
    ensures Issued(Next(w, settings, step), token)
    ensures !Accepts(w.db, settings, token, t) ==> !Accepts(Next(w, settings, step).db, settings, token, t')
  {
    if step.CommitStep? {
      assert OwnId(w.drafts, step.worker, w.drafts[step.worker].sid);
    }
    if token.sid.Some? {
      var drafts := Next(w, settings, step).drafts;
      assert forall k :: OwnId(drafts, k, token.sid.value) ==> OwnId(w.drafts, k, token.sid.value);
    }
  }

  /** Every token with a session, and every one at all as long as no version goes down. */
  predicate Lasting(worlds: seq<World>, steps: seq<Step>, token: Token) {
    token.sid.Some? || (|worlds| == |steps| + 1 && forall k :: 0 <= k < |steps| ==> KeepsVersion(worlds[k], steps[k]))
  }

  lemma RefusalLasts(worlds: seq<World>, settings: Settings, steps: seq<Step>, k: nat, token: Token, t: Time, t': Time)
    requires Run(worlds, settings, steps) && k < |steps| && Issued(worlds[k], token) && t <= t'
    requires Lasting(worlds, steps, token)
    ensures Issued(worlds[k + 1], token)
    ensures !Accepts(worlds[k].db, settings, token, t) ==> !Accepts(worlds[k + 1].db, settings, token, t')
  {
    ReachableInv(worlds, settings, steps, k);
    assert Follows(worlds[k], settings, steps[k], worlds[k + 1]);
    StepKeepsRefusal(worlds[k], settings, steps[k], token, t, t');
  }

  /** Rejection is permanent: an issued token that is refused once is refused ever after. */
  lemma {:induction false} RefusalIsPermanent(
      worlds: seq<World>, settings: Settings, steps: seq<Step>, i: nat, j: nat, token: Token, t: Time, t': Time)
    requires Run(worlds, settings, steps) && i <= j < |worlds| && Issued(worlds[i], token) && t <= t'
    requires Lasting(worlds, steps, token)
    ensures Issued(worlds[j], token)
    ensures !Accepts(worlds[i].db, settings, token, t) ==> !Accepts(worlds[j].db, settings, token, t')
  {
    if i < j {
      RefusalIsPermanent(worlds, settings, steps, i, j - 1, token, t, t);
      RefusalLasts(worlds, settings, steps, j - 1, token, t, t');
    }
  }

  /** The token that a commit hands out. */
  function TokenOf(w: World, step: Step): Token
    requires step.CommitStep? && step.worker in w.drafts
  {
    var d := w.drafts[step.worker]; Token(d.u, d.ver, Some(d.sid), d.now + d.ttl)
  }

  lemma CommitHandsOutToken(w: World, settings: Settings, step: Step)
    requires Inv(w, settings) && step.CommitStep? && Enabled(w, step)
    ensures Issued(Next(w, settings, step), TokenOf(w, step))
  {
    var d := w.drafts[step.worker];
    assert DraftOk(w, settings, d) && OwnId(w.drafts, step.worker, d.sid);
    assert forall k :: OwnId(Next(w, settings, step).drafts, k, d.sid) ==> OwnId(w.drafts, k, d.sid);
  }

  /** So every token a run hands out, once refused, is refused ever after. */
  lemma HandedOutTokenStaysRefused(
      worlds: seq<World>, settings: Settings, steps: seq<Step>, m: nat, i: nat, j: nat, t: Time, t': Time)
    requires Run(worlds, settings, steps) && m < i <= j < |worlds| && steps[m].CommitStep? && t <= t'
    requires steps[m].worker in worlds[m].drafts
    requires !Accepts(worlds[i].db, settings, TokenOf(worlds[m], steps[m]), t)
    ensures !Accepts(worlds[j].db, settings, TokenOf(worlds[m], steps[m]), t')
  {
    ReachableInv(worlds, settings, steps, m);
    assert Follows(worlds[m], settings, steps[m], worlds[m + 1]);
    CommitHandsOutToken(worlds[m], settings, steps[m]);
    RefusalIsPermanent(worlds, settings, steps, m + 1, i, TokenOf(worlds[m], steps[m]), t, t);
    RefusalIsPermanent(worlds, settings, steps, i, j, TokenOf(worlds[m], steps[m]), t, t');
  }

  /** Purging changes no token's acceptance, now or later. */
  lemma PurgeChangesNoAcceptance(db: Db, settings: Settings, now: Time, days: nat, token: Token, t: Time)
    requires t >= now
    ensures Accepts(Purge(db, now, days), settings, token, t) <==> Accepts(db, settings, token, t)
  {
  }

  /** Issuing affects only the new session and the oldest live sessions over the limit; pruning affects nobody. */
  lemma IssueChangesNoOtherAcceptance(db: Db, settings: Settings, u: UserId, sid: SessionId, now: Time, ttl: int,
                                      token: Token, t: Time)
    requires t >= now && sid !in db.sessions && token.sid != Some(sid)
    ensures var pruned := Pruned(WithNew(db, u, sid, now, ttl), u, now);
            var evicted := Overflow(pruned, Live(pruned, u, now), settings.maxActive);
            Accepts(Issue(db, settings, u, sid, now, ttl), settings, token, t) <==>
              Accepts(db, settings, token, t) && (token.sid.None? || token.sid.value !in evicted)
  {
  }

  /** A new token is accepted at once if and only if fewer than the limit of the user's other live sessions come before
      it: those created later, or at the same time with a smaller id. */
  lemma NewTokenAccepted(db: Db, settings: Settings, u: UserId, sid: SessionId, now: Time, ttl: int)
    requires u in db.users && db.users[u].active && sid !in db.sessions && ttl > 0
    ensures var token := Token(u, db.users[u].authVersion, Some(sid), now + ttl);
            Accepts(Issue(db, settings, u, sid, now, ttl), settings, token, now) <==>
              |Ahead(WithNew(db, u, sid, now, ttl), Live(db.sessions, u, now), sid)| < settings.maxActive
  {
    var all := WithNew(db, u, sid, now, ttl);
    var pruned := Pruned(all, u, now);
    assert Live(pruned, u, now) == Live(db.sessions, u, now) + {sid};
    assert Ahead(pruned, Live(pruned, u, now), sid) == Ahead(all, Live(db.sessions, u, now), sid);
  }

  /** So with a limit of at least one it always is, when every other live session is older. */
  lemma NewestTokenAccepted(db: Db, settings: Settings, u: UserId, sid: SessionId, now: Time, ttl: int)
    requires u in db.users && db.users[u].active && sid !in db.sessions && ttl > 0 && settings.maxActive >= 1
    requires forall s :: s in Live(db.sessions, u, now) ==> db.sessions[s].createdAt < now
    ensures var token := Token(u, db.users[u].authVersion, Some(sid), now + ttl);
            Accepts(Issue(db, settings, u, sid, now, ttl), settings, token, now)
  {
    NewTokenAccepted(db, settings, u, sid, now, ttl);
    assert Ahead(WithNew(db, u, sid, now, ttl), Live(db.sessions, u, now), sid) == {};
  }
}

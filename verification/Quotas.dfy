/** Session and dataset quotas of one user (quotas.py): the dataset quota under the owner lock with transactions and
    ingestion workers interleaved, and session creation with reclaiming. */
module Quotas {
  import opened Prelude

  type Time = int
  type SessionId = nat
  type JobId = nat

  const PENDING_WINDOW: int := 3600

  /** A workspace session; `bytes` is absent for no dataset and for the shared sample database. */
  datatype Session = Session(path: Option<nat>, bytes: Option<nat>, updatedAt: Time)
  datatype JobStatus = Queued | Running | Retrying | Succeeded | Failed
  /** An ingestion job. */
  datatype Job = Job(session: SessionId, status: JobStatus, createdAt: Time)

  type Sessions = map<SessionId, Session>
  type Jobs = map<JobId, Job>

  // ---------------------------------------------------------------- what counts

  predicate HoldsDataset(s: Session) {
    s.path.Some? && s.bytes.Some?
  }

  function Holding(sessions: Sessions): set<SessionId> {
    set x | x in sessions && HoldsDataset(sessions[x])
  }

  /** The datasets counted: one per path, the target session's own left out. */
  function CountedPaths(sessions: Sessions, target: SessionId): set<nat> {
    set x | x in Holding(sessions) && x != target :: sessions[x].path.value
  }

  predicate Pending(j: Job) {
    j.status == Queued || j.status == Running
  }

  function CountedJobs(jobs: Jobs, target: SessionId, now: Time): set<JobId> {
    set j | j in jobs && Pending(jobs[j]) && jobs[j].createdAt >= now - PENDING_WINDOW && jobs[j].session != target
  }

  /** The ingestion may still attach a dataset. */
  predicate Due(j: Job) {
    Pending(j) || j.status == Retrying
  }

  function Ingesting(jobs: Jobs): set<SessionId> {
    set j | j in jobs && Due(jobs[j]) :: jobs[j].session
  }

  /** The sessions the quota is about: those that hold a dataset or have one coming. */
  function InUse(sessions: Sessions, jobs: Jobs): set<SessionId> {
    Holding(sessions) + Ingesting(jobs)
  }

  // ---------------------------------------------------------------- reservations, step by step

  /** An upload transaction: lock, read the datasets, read the pending jobs, then insert and commit or give up.
      `counted` are the sessions whose datasets the first read saw, `paths` how many distinct ones it counted. */
  datatype Phase =
    | Waiting
    | Locked
    | DatasetsRead(counted: set<SessionId>, paths: nat)
    | Counted(used: nat)
    | Reserved
    | Refused

  datatype Upload = Upload(target: SessionId, phase: Phase)

  datatype State = State(max: nat, sessions: Sessions, jobs: Jobs, uploads: seq<Upload>, owner: Option<nat>,
                         clock: Time)

  datatype Step =
    | Lock(u: nat)
    | ReadDatasets(u: nat)
    | ReadPending(u: nat)
    | Decide(u: nat, job: JobId)
    | GiveUp(u: nat)
    | StartJob(job: JobId)
    | Attach(job: JobId, path: nat, bytes: nat)
    | EndJob(job: JobId, success: bool)
    | Retry(job: JobId)
    | ConnectSample(session: SessionId, path: nat)
    | Flush(session: SessionId)
    | DeleteSession(session: SessionId)
    | CreateSession(session: SessionId)
    | Wait(until: Time)

  predicate Holds(phase: Phase) {
    phase.Locked? || phase.DatasetsRead? || phase.Counted?
  }

  predicate Enabled(s: State, step: Step) {
    match step
    case Lock(u) => u < |s.uploads| && s.uploads[u].phase == Waiting && s.owner.None?
    case ReadDatasets(u) => u < |s.uploads| && s.uploads[u].phase == Locked
    case ReadPending(u) => u < |s.uploads| && s.uploads[u].phase.DatasetsRead?
    case Decide(u, job) => u < |s.uploads| && s.uploads[u].phase.Counted? && job !in s.jobs
    case GiveUp(u) => u < |s.uploads| && Holds(s.uploads[u].phase)
    case StartJob(job) => job in s.jobs && s.jobs[job].status == Queued
    case Attach(job, _, _) =>
      job in s.jobs && s.jobs[job].status in {Running, Retrying} && s.jobs[job].session in s.sessions
    case EndJob(job, _) => job in s.jobs && Due(s.jobs[job])
    case Retry(job) => job in s.jobs && s.jobs[job].status == Running
    case ConnectSample(x, _) => x in s.sessions
    case Flush(x) => x in s.sessions
    case DeleteSession(x) => x in s.sessions
    case CreateSession(x) => x !in s.sessions
    case Wait(until) => until >= s.clock
  }

  function NextSessions(s: State, step: Step): Sessions
    requires Enabled(s, step)
  {
    match step
    case Attach(job, path, bytes) => s.sessions[s.jobs[job].session := Session(Some(path), Some(bytes), s.clock)]
    case ConnectSample(x, path) => s.sessions[x := Session(Some(path), None, s.clock)]
    case Flush(x) => s.sessions[x := Session(None, None, s.clock)]
    case DeleteSession(x) => s.sessions - {x}
    case CreateSession(x) => s.sessions[x := Session(None, None, s.clock)]
    case _ => s.sessions
  }

  /** Does this decision reserve? */
  predicate Reserves(s: State, step: Step)
    requires Enabled(s, step)
  {
    step.Decide? && s.uploads[step.u].phase.used + 1 <= s.max
  }

  function NextJobs(s: State, step: Step): Jobs
    requires Enabled(s, step)
  {
    match step
    case Decide(u, job) =>
      if Reserves(s, step) then s.jobs[job := Job(s.uploads[u].target, Queued, s.clock)] else s.jobs
    case StartJob(job) => s.jobs[job := s.jobs[job].(status := Running)]
    case EndJob(job, success) => s.jobs[job := s.jobs[job].(status := if success then Succeeded else Failed)]
    case Retry(job) => s.jobs[job := s.jobs[job].(status := Retrying)]
    case _ => s.jobs
  }

  function NextPhase(s: State, step: Step, u: nat): Phase
    requires Enabled(s, step) && u < |s.uploads|
  {
    match step
    case Lock(v) => if v == u then Locked else s.uploads[u].phase
    case ReadDatasets(v) =>
      if v == u then
        DatasetsRead(Holding(s.sessions) - {s.uploads[u].target}, |CountedPaths(s.sessions, s.uploads[u].target)|)
      else s.uploads[u].phase
    case ReadPending(v) =>
      if v == u then Counted(s.uploads[u].phase.paths + |CountedJobs(s.jobs, s.uploads[u].target, s.clock)|)
      else s.uploads[u].phase
    case Decide(v, _) => if v != u then s.uploads[u].phase else if Reserves(s, step) then Reserved else Refused
    case GiveUp(v) => if v == u then Refused else s.uploads[u].phase
    case _ => s.uploads[u].phase
  }

  function NextUploads(s: State, step: Step): seq<Upload>
    requires Enabled(s, step)
  {
    seq(|s.uploads|, u requires 0 <= u < |s.uploads| => s.uploads[u].(phase := NextPhase(s, step, u)))
  }

  function NextOwner(s: State, step: Step): Option<nat>
    requires Enabled(s, step)
  {
    match step
    case Lock(u) => Some(u)
    case Decide(_, _) => None
    case GiveUp(_) => None
    case _ => s.owner
  }

  function Next(s: State, step: Step): State
    requires Enabled(s, step)
  {
    State(s.max, NextSessions(s, step), NextJobs(s, step), NextUploads(s, step), NextOwner(s, step),
          if step.Wait? then step.until else s.clock)
  }

  // ---------------------------------------------------------------- the conditions, and the quota under them

  predicate StepsTo(s: State, step: Step, next: State) {
    Enabled(s, step) && next == Next(s, step)
  }

  /** No two sessions but the target hold the same dataset. */
  predicate Unshared(sessions: Sessions, target: SessionId) {
    forall x, y ::
      x in Holding(sessions) - {target} && y in Holding(sessions) - {target} && sessions[x].path == sessions[y].path ==>
        x == y
  }

  /** The sessions that an upload between its reads and its count has seen or is about to see. */
  function Seen(s: State, u: nat): set<SessionId>
    requires u < |s.uploads| && s.uploads[u].phase.DatasetsRead?
  {
    s.uploads[u].phase.counted + set j | j in CountedJobs(s.jobs, s.uploads[u].target, s.clock) :: s.jobs[j].session
  }

  /** No ingestion has attached its dataset after the first read and ended before the second, leaving its session in
      neither. */
  predicate FinishedSeen(s: State, u: nat)
    requires u < |s.uploads| && s.uploads[u].phase.DatasetsRead?
  {
    forall x :: x in Holding(s.sessions) && x != s.uploads[u].target ==> x in Seen(s, u)
  }

  /** Every session with an ingestion that is being retried is seen for another reason. */
  predicate RetriesSeen(s: State, u: nat)
    requires u < |s.uploads| && s.uploads[u].phase.DatasetsRead?
  {
    forall j :: j in s.jobs && s.jobs[j].status == Retrying && s.jobs[j].session != s.uploads[u].target ==>
      s.jobs[j].session in Seen(s, u)
  }

  /** So is every session with an ingestion that has outlived the window in which it is counted. */
  predicate OverdueSeen(s: State, u: nat)
    requires u < |s.uploads| && s.uploads[u].phase.DatasetsRead?
  {
    forall j :: j in s.jobs && Pending(s.jobs[j]) && s.jobs[j].createdAt < s.clock - PENDING_WINDOW
                && s.jobs[j].session != s.uploads[u].target ==>
      s.jobs[j].session in Seen(s, u)
  }

  /** The four ways in which a count may fall short. */
  datatype Flaw = SharedDataset | Finished | Retried | Overdue

  /** What the two reads of a count must find for the quota to hold, but for the flaws allowed; every other step is
      free. */
  predicate RespectfulBut(s: State, step: Step, flaws: set<Flaw>) {
    && Enabled(s, step)
    && match step
       case ReadDatasets(u) => SharedDataset in flaws || Unshared(s.sessions, s.uploads[u].target)
       case ReadPending(u) =>
         && (Finished in flaws || FinishedSeen(s, u))
         && (Retried in flaws || RetriesSeen(s, u))
         && (Overdue in flaws || OverdueSeen(s, u))
       case _ => true
  }

  predicate Respectful(s: State, step: Step) {
    RespectfulBut(s, step, {})
  }

  /** An upload with nobody in between: it is granted if and only if the different datasets of the user's other
      sessions, the queued and running ingestions of the last hour for other sessions, and the new one are within the
      quota. A grant leaves the ingestion queued for the upload's session, a refusal leaves everything as it was. */
  lemma UploadIsGrantedExactly(s: State, u: nat, job: JobId)
    requires s.owner.None? && u < |s.uploads| && s.uploads[u].phase == Waiting && job !in s.jobs
    ensures Enabled(s, Lock(u))
    ensures var s1 := Next(s, Lock(u));
            && Enabled(s1, ReadDatasets(u))
            && var s2 := Next(s1, ReadDatasets(u));
            && Enabled(s2, ReadPending(u))
            && var s3 := Next(s2, ReadPending(u));
            && Enabled(s3, Decide(u, job))
            && var (after, target) := (Next(s3, Decide(u, job)), s.uploads[u].target);
            var full := set x | x in s.sessions && s.sessions[x].path.Some? && s.sessions[x].bytes.Some?;
            var datasets := set x | x in full && x != target :: s.sessions[x].path.value;
            var pending := set j | j in s.jobs && s.jobs[j].session != target
                                   && (s.jobs[j].status == Queued || s.jobs[j].status == Running)
                                   && s.jobs[j].createdAt >= s.clock - 3600;
            && |after.uploads| == |s.uploads|
            && (after.uploads[u].phase == Reserved <==> |datasets| + |pending| + 1 <= s.max)
            && after.jobs == (if after.uploads[u].phase == Reserved then s.jobs[job := Job(target, Queued, s.clock)]
                              else s.jobs)
            && after.sessions == s.sessions && after.owner.None?
            && (after.uploads[u].phase == Reserved || after.uploads[u].phase == Refused)
  {
    var target := s.uploads[u].target;
    var full := set x | x in s.sessions && s.sessions[x].path.Some? && s.sessions[x].bytes.Some?;
    assert CountedPaths(s.sessions, target) == set x | x in full && x != target :: s.sessions[x].path.value;
    assert CountedJobs(s.jobs, target, s.clock)
        == set j | j in s.jobs && s.jobs[j].session != target
                   && (s.jobs[j].status == Queued || s.jobs[j].status == Running)
                   && s.jobs[j].createdAt >= s.clock - 3600;
  }

  /** A state to start from: no upload under way, the quota respected. */
  predicate Start(s: State) {
    && s.owner.None? && (forall u :: 0 <= u < |s.uploads| ==> s.uploads[u].phase == Waiting)
    && |InUse(s.sessions, s.jobs)| <= s.max
  }

  ghost predicate Run(states: seq<State>, steps: seq<Step>) {
    && |states| == |steps| + 1
    && Start(states[0])
    && forall k :: 0 <= k < |steps| ==> StepsTo(states[k], steps[k], states[k + 1])
  }

  ghost predicate RunBut(states: seq<State>, steps: seq<Step>, flaws: set<Flaw>) {
    Run(states, steps) && forall k :: 0 <= k < |steps| ==> RespectfulBut(states[k], steps[k], flaws)
  }

  ghost predicate RespectfulRun(states: seq<State>, steps: seq<Step>) {
    RunBut(states, steps, {})
  }

  predicate LockOk(uploads: seq<Upload>, owner: Option<nat>) {
    forall u :: 0 <= u < |uploads| && Holds(uploads[u].phase) ==> owner == Some(u)
  }

  /** A finished count covers every other session in use. */
  predicate CountOk(upload: Upload, inUse: set<SessionId>) {
    upload.phase.Counted? ==> |inUse - {upload.target}| <= upload.phase.used
  }

  predicate CountsOk(uploads: seq<Upload>, inUse: set<SessionId>) {
    forall u :: 0 <= u < |uploads| ==> CountOk(uploads[u], inUse)
  }

  /** The first read has counted one dataset for each session it saw. */
  predicate PathOk(phase: Phase) {
    phase.DatasetsRead? ==> phase.paths == |phase.counted|
  }

  predicate PathsOk(uploads: seq<Upload>) {
    forall u :: 0 <= u < |uploads| ==> PathOk(uploads[u].phase)
  }

  predicate Inv(s: State) {
    && LockOk(s.uploads, s.owner) && PathsOk(s.uploads) && CountsOk(s.uploads, InUse(s.sessions, s.jobs))
    && |InUse(s.sessions, s.jobs)| <= s.max
  }

  // ---------------------------------------------------------------- what a count covers, exactly

  /** The two reads see every other session in use if and only if no ingestion slipped between them, and none that is
      retried or overdue goes unseen. */
  lemma SeesAllExactly(s: State, u: nat)
    requires u < |s.uploads| && s.uploads[u].phase.DatasetsRead?
    ensures InUse(s.sessions, s.jobs) - {s.uploads[u].target} <= Seen(s, u) <==>
              FinishedSeen(s, u) && RetriesSeen(s, u) && OverdueSeen(s, u)
  {
    var target := s.uploads[u].target;
    if FinishedSeen(s, u) && RetriesSeen(s, u) && OverdueSeen(s, u) {
      forall x | x in InUse(s.sessions, s.jobs) - {target}
        ensures x in Seen(s, u)
      {
        if x !in Holding(s.sessions) {
          var j :| j in s.jobs && Due(s.jobs[j]) && s.jobs[j].session == x;
          assert Pending(s.jobs[j]) && s.jobs[j].createdAt >= s.clock - PENDING_WINDOW ==>
              j in CountedJobs(s.jobs, target, s.clock);
        }
      }
    }
    if InUse(s.sessions, s.jobs) - {target} <= Seen(s, u) {
      assert forall j :: j in s.jobs && Due(s.jobs[j]) ==> s.jobs[j].session in Ingesting(s.jobs);
    }
  }

  /** A set of jobs stands for at most as many sessions. */
  lemma {:induction false} SessionsOfJobs(jobs: Jobs, js: set<JobId>)
    requires js <= jobs.Keys
    ensures |set j | j in js :: jobs[j].session| <= |js|
  {
    if js != {} {
      var j :| j in js;
      SessionsOfJobs(jobs, js - {j});
      assert (set i | i in js :: jobs[i].session) == (set i | i in js - {j} :: jobs[i].session) + {jobs[j].session};
    }
  }

  lemma {:induction false} PathsAtMost(sessions: Sessions, some: set<SessionId>)
    requires some <= Holding(sessions)
    ensures |set x | x in some :: sessions[x].path.value| <= |some|
  {
    if some != {} {
      var x :| x in some;
      PathsAtMost(sessions, some - {x});
      var rest := set y | y in some - {x} :: sessions[y].path.value;
      assert (set y | y in some :: sessions[y].path.value) == rest + {sessions[x].path.value};
    }
  }

  lemma {:induction false} PathsAreSessions(sessions: Sessions, target: SessionId, some: set<SessionId>)
    requires Unshared(sessions, target) && some <= Holding(sessions) - {target}
    ensures |set x | x in some :: sessions[x].path.value| == |some|
  {
    if some != {} {
      var x :| x in some;
      PathsAreSessions(sessions, target, some - {x});
      var rest := set y | y in some - {x} :: sessions[y].path.value;
      assert (set y | y in some :: sessions[y].path.value) == rest + {sessions[x].path.value};
    }
  }

  /** Counting distinct paths is counting sessions if and only if no two of them share a dataset. */
  lemma PathsCountSessionsExactly(sessions: Sessions, target: SessionId)
    ensures |CountedPaths(sessions, target)| == |Holding(sessions) - {target}| <==> Unshared(sessions, target)
  {
    var others := Holding(sessions) - {target};
    assert CountedPaths(sessions, target) == set x | x in others :: sessions[x].path.value;
    if Unshared(sessions, target) {
      PathsAreSessions(sessions, target, others);
    } else {
      var x, y :| x in others && y in others && x != y && sessions[x].path == sessions[y].path;
      PathsAtMost(sessions, others - {x});
      assert y in others - {x};
      assert (set z | z in others :: sessions[z].path.value) == set z | z in others - {x} :: sessions[z].path.value;
    }
  }

  /** A complete count is at least the number of the other sessions in use. */
  lemma CountCovers(s: State, u: nat)
    requires Inv(s) && u < |s.uploads| && s.uploads[u].phase.DatasetsRead?
    requires FinishedSeen(s, u) && RetriesSeen(s, u) && OverdueSeen(s, u)
    ensures |InUse(s.sessions, s.jobs) - {s.uploads[u].target}|
            <= s.uploads[u].phase.paths + |CountedJobs(s.jobs, s.uploads[u].target, s.clock)|
  {
    var js := CountedJobs(s.jobs, s.uploads[u].target, s.clock);
    SeesAllExactly(s, u);
    SessionsOfJobs(s.jobs, js);
    Subset(InUse(s.sessions, s.jobs) - {s.uploads[u].target}, Seen(s, u));
  }

  /** If the quota is respected, it is respected after the step. */
  predicate KeepsQuota(s: State, step: Step) {
    Enabled(s, step) && |InUse(s.sessions, s.jobs)| <= s.max ==>
      |InUse(NextSessions(s, step), NextJobs(s, step))| <= s.max
  }

  /** A reservation adds its target to the sessions in use. */
  lemma ReservationAdds(s: State, target: SessionId, job: JobId)
    requires job !in s.jobs
    ensures InUse(s.sessions, s.jobs[job := Job(target, Queued, s.clock)]) == InUse(s.sessions, s.jobs) + {target}
  {
    var reserved := s.jobs[job := Job(target, Queued, s.clock)];
    assert reserved[job].session == target;
    forall x | x in Ingesting(reserved)
      ensures x in Ingesting(s.jobs) + {target}
    {
      var j :| j in reserved && Due(reserved[j]) && reserved[j].session == x;
      assert j != job ==> j in s.jobs;
    }
    forall x | x in Ingesting(s.jobs)
      ensures x in Ingesting(reserved)
    {
      var j :| j in s.jobs && Due(s.jobs[j]) && s.jobs[j].session == x;
      assert reserved[j] == s.jobs[j];
    }
  }

  lemma DecisionAt(s: State, u: nat, job: JobId)
    requires Enabled(s, Decide(u, job)) && s.uploads[u].target !in InUse(s.sessions, s.jobs)
    ensures var n := |InUse(s.sessions, s.jobs)|;
            KeepsQuota(s, Decide(u, job)) <==> (n <= s.max && s.uploads[u].phase.used + 1 <= s.max ==> n + 1 <= s.max)
  {
    ReservationAdds(s, s.uploads[u].target, job);
  }

  /** A decision that adds a session is right for every quota if and only if the count is at least the number of
      sessions in use. */
  lemma DecisionIsRightExactly(s: State, u: nat, job: JobId)
    requires Enabled(s, Decide(u, job)) && s.uploads[u].target !in InUse(s.sessions, s.jobs)
    ensures (forall max: nat :: KeepsQuota(s.(max := max), Decide(u, job))) <==>
              |InUse(s.sessions, s.jobs)| <= s.uploads[u].phase.used
  {
    var n := |InUse(s.sessions, s.jobs)|;
    forall max: nat
      ensures KeepsQuota(s.(max := max), Decide(u, job)) <==>
                (n <= max && s.uploads[u].phase.used + 1 <= max ==> n + 1 <= max)
    {
      DecisionAt(s.(max := max), u, job);
    }
    if n > s.uploads[u].phase.used {
      assert !KeepsQuota(s.(max := n), Decide(u, job));
    }
  }

  // ---------------------------------------------------------------- what every respectful step keeps

  /** Only a reservation makes a session count that did not count before. */
  lemma HoldingGrows(s: State, step: Step)
    requires Enabled(s, step)
    ensures var attached := if step.Attach? then {s.jobs[step.job].session} else {};
            Holding(NextSessions(s, step)) <= Holding(s.sessions) + attached
  {
  }

  lemma IngestingGrows(s: State, step: Step)
    requires Enabled(s, step)
    ensures var reserved := if Reserves(s, step) then {s.uploads[step.u].target} else {};
            Ingesting(NextJobs(s, step)) <= Ingesting(s.jobs) + reserved
  {
    forall x | x in Ingesting(NextJobs(s, step))
      ensures x in Ingesting(s.jobs) || (Reserves(s, step) && x == s.uploads[step.u].target)
    {
      var j :| j in NextJobs(s, step) && Due(NextJobs(s, step)[j]) && NextJobs(s, step)[j].session == x;
      assert j in s.jobs ==> s.jobs[j].session == x;
    }
  }

  lemma OnlyReservationAdds(s: State, step: Step)
    requires Inv(s) && Enabled(s, step)
    ensures InUse(NextSessions(s, step), NextJobs(s, step))
            <= InUse(s.sessions, s.jobs) + (if Reserves(s, step) then {s.uploads[step.u].target} else {})
  {
    HoldingGrows(s, step);
    IngestingGrows(s, step);
    if step.Attach? {
      assert Due(s.jobs[step.job]) && s.jobs[step.job].session in Ingesting(s.jobs);
    }
  }

  lemma StepKeepsBound(s: State, step: Step)
    requires Inv(s) && Enabled(s, step)
    ensures |InUse(NextSessions(s, step), NextJobs(s, step))| <= s.max
  {
    var before, after := InUse(s.sessions, s.jobs), InUse(NextSessions(s, step), NextJobs(s, step));
    OnlyReservationAdds(s, step);
    if Reserves(s, step) {
      var target := s.uploads[step.u].target;
      Subset(after, (before - {target}) + {target});
    } else {
      Subset(after, before);
    }
  }

  lemma OthersKeepCount(s: State, step: Step, u: nat)
    requires Inv(s) && Enabled(s, step) && u < |s.uploads|
    requires NextPhase(s, step, u).Counted? && NextPhase(s, step, u) == s.uploads[u].phase
    ensures CountOk(s.uploads[u], InUse(NextSessions(s, step), NextJobs(s, step)))
  {
    assert CountOk(s.uploads[u], InUse(s.sessions, s.jobs));
    OnlyReservationAdds(s, step);
    assert !Reserves(s, step);
    Subset(InUse(NextSessions(s, step), NextJobs(s, step)) - {s.uploads[u].target},
           InUse(s.sessions, s.jobs) - {s.uploads[u].target});
  }

  lemma StepKeepsCount(s: State, step: Step, u: nat)
    requires Inv(s) && Respectful(s, step) && u < |s.uploads|
    ensures CountOk(s.uploads[u].(phase := NextPhase(s, step, u)), InUse(NextSessions(s, step), NextJobs(s, step)))
  {
    if step.ReadPending? && step.u == u {
      CountCovers(s, u);
    } else if NextPhase(s, step, u).Counted? {
      OthersKeepCount(s, step, u);
    }
  }

  lemma StepKeepsCounts(s: State, step: Step)
    requires Inv(s) && Respectful(s, step)
    ensures CountsOk(NextUploads(s, step), InUse(NextSessions(s, step), NextJobs(s, step)))
  {
    forall u | 0 <= u < |NextUploads(s, step)|
      ensures CountOk(NextUploads(s, step)[u], InUse(NextSessions(s, step), NextJobs(s, step)))
    {
      StepKeepsCount(s, step, u);
    }
  }

  lemma StepKeepsPath(s: State, step: Step, u: nat)
    requires Inv(s) && Respectful(s, step) && u < |s.uploads|
    ensures PathOk(NextPhase(s, step, u))
  {
    assert PathOk(s.uploads[u].phase);
    if step.ReadDatasets? && step.u == u {
      PathsCountSessionsExactly(s.sessions, s.uploads[u].target);
    }
  }

  lemma StepKeepsPaths(s: State, step: Step)
    requires Inv(s) && Respectful(s, step)
    ensures PathsOk(NextUploads(s, step))
  {
    forall u | 0 <= u < |NextUploads(s, step)|
      ensures PathOk(NextUploads(s, step)[u].phase)
    {
      StepKeepsPath(s, step, u);
    }
  }

  lemma StepKeepsLock(s: State, step: Step)
    requires Inv(s) && Enabled(s, step)
    ensures LockOk(NextUploads(s, step), NextOwner(s, step))
  {
  }

  lemma StepKeepsInv(s: State, step: Step)
    requires Inv(s) && Respectful(s, step)
    ensures Inv(Next(s, step))
  {
    StepKeepsBound(s, step);
    StepKeepsPaths(s, step);
    StepKeepsCounts(s, step);
    StepKeepsLock(s, step);
  }

  lemma RunStartsWell(states: seq<State>, steps: seq<Step>)
    requires Run(states, steps)
    ensures Inv(states[0])
  {
  }

  lemma RunStepKeepsInv(states: seq<State>, steps: seq<Step>, k: nat)
    requires RespectfulRun(states, steps) && 0 < k < |states| && Inv(states[k - 1])
    ensures Inv(states[k])
  {
    assert StepsTo(states[k - 1], steps[k - 1], states[k - 1 + 1]) && RespectfulBut(states[k - 1], steps[k - 1], {});
    StepKeepsInv(states[k - 1], steps[k - 1]);
  }

  lemma {:induction false} ReachableInv(states: seq<State>, steps: seq<Step>, k: nat)
    requires RespectfulRun(states, steps) && k < |states|
    ensures Inv(states[k])
  {
    if k == 0 {
      RunStartsWell(states, steps);
    } else {
      ReachableInv(states, steps, k - 1);
      RunStepKeepsInv(states, steps, k);
    }
  }

  /** Sessions that hold a dataset or have one coming never exceed the quota, whatever the interleaving, as long as the
      reads of each count find what they must. */
  lemma QuotaHolds(states: seq<State>, steps: seq<Step>, k: nat)
    requires RespectfulRun(states, steps) && k < |states|
    ensures |InUse(states[k].sessions, states[k].jobs)| <= states[k].max
  {
    ReachableInv(states, steps, k);
  }

  /** No two sessions hold the same dataset. */
  predicate AllUnshared(sessions: Sessions) {
    forall x, y :: x in Holding(sessions) && y in Holding(sessions) && sessions[x].path == sessions[y].path ==> x == y
  }

  /** An ingestion attaches a dataset that no other session holds, because it stores a fresh one or, when retried, its
      own. */
  predicate AttachesOwn(s: State, step: Step) {
    step.Attach? && step.job in s.jobs ==>
      forall x :: x in Holding(s.sessions) && x != s.jobs[step.job].session ==> s.sessions[x].path != Some(step.path)
  }

  lemma StepKeepsUnshared(s: State, step: Step)
    requires Enabled(s, step) && AttachesOwn(s, step) && AllUnshared(s.sessions)
    ensures AllUnshared(Next(s, step).sessions)
  {
    var next := Next(s, step).sessions;
    assert forall x :: x in Holding(next) ==>
        (step.Attach? && x == s.jobs[step.job].session) || x in Holding(s.sessions);
  }

  /** So datasets are never shared unless they were to begin with: the first of the four flaws needs data that the
      program does not write itself. */
  lemma {:induction false} UnsharedStays(states: seq<State>, steps: seq<Step>, k: nat, target: SessionId)
    requires Run(states, steps) && AllUnshared(states[0].sessions) && k < |states|
    requires forall i :: 0 <= i < |steps| ==> AttachesOwn(states[i], steps[i])
    ensures AllUnshared(states[k].sessions) && Unshared(states[k].sessions, target)
  {
    if k > 0 {
      UnsharedStays(states, steps, k - 1, target);
      assert StepsTo(states[k - 1], steps[k - 1], states[k - 1 + 1]);
      StepKeepsUnshared(states[k - 1], steps[k - 1]);
    }
  }

  // ---------------------------------------------------------------- without the conditions, one by one

  const FREE := Session(None, None, 0)
  const FULL := Session(Some(100), Some(10), 0)
  const LATE: int := PENDING_WINDOW + 1

  /** Session 1 is fed by job 7, session 2 is the target of the one upload, and there is room for one dataset. */
  function Stage(first: Session, jobs: Jobs, phase: Phase, clock: Time): State {
    State(1, map[1 := first, 2 := FREE], jobs, [Upload(2, phase)], if Holds(phase) then Some(0) else None, clock)
  }

  function Feeding(status: JobStatus): Jobs {
    map[7 := Job(1, status, 0)]
  }

  function WithReserved(status: JobStatus, clock: Time): Jobs {
    map[7 := Job(1, status, 0), 8 := Job(2, Queued, clock)]
  }

  lemma StageStart()
    ensures Start(Stage(FREE, Feeding(Running), Waiting, 0))
  {
    var s := Stage(FREE, Feeding(Running), Waiting, 0);
    assert s.jobs[7].session == 1;
    assert InUse(s.sessions, s.jobs) == {1};
  }

  /** The upload locks and counts no dataset. */
  lemma LockAndRead(first: Session, jobs: Jobs, clock: Time)
    requires !HoldsDataset(first)
    ensures StepsTo(Stage(first, jobs, Waiting, clock), Lock(0), Stage(first, jobs, Locked, clock))
    ensures StepsTo(Stage(first, jobs, Locked, clock), ReadDatasets(0), Stage(first, jobs, DatasetsRead({}, 0), clock))
    ensures Unshared(Stage(first, jobs, Locked, clock).sessions, 2)
  {
    var s := Stage(first, jobs, Locked, clock);
    assert Holding(s.sessions) - {2} == {} && CountedPaths(s.sessions, 2) == {};
  }

  /** It counts no ingestion either, and reserves. */
  lemma ReadAndReserve(first: Session, jobs: Jobs, clock: Time)
    requires 8 !in jobs && CountedJobs(jobs, 2, clock) == {}
    ensures StepsTo(Stage(first, jobs, DatasetsRead({}, 0), clock), ReadPending(0),
              Stage(first, jobs, Counted(0), clock))
    ensures StepsTo(Stage(first, jobs, Counted(0), clock), Decide(0, 8),
              Stage(first, jobs[8 := Job(2, Queued, clock)], Reserved, clock))
  {
  }

  lemma JobSteps(jobs: Jobs, phase: Phase)
    requires 7 in jobs && jobs[7].session == 1 && jobs[7].status in {Running, Retrying}
    ensures StepsTo(Stage(FREE, jobs, phase, 0), Attach(7, 100, 10), Stage(FULL, jobs, phase, 0))
    ensures StepsTo(Stage(FULL, jobs, phase, 0), EndJob(7, true),
              Stage(FULL, jobs[7 := jobs[7].(status := Succeeded)], phase, 0))
    ensures jobs[7].status == Running ==>
              StepsTo(Stage(FREE, jobs, phase, 0), Retry(7),
                  Stage(FREE, jobs[7 := jobs[7].(status := Retrying)], phase, 0))
  {
  }

  lemma BothInUse(first: Session, jobs: Jobs, phase: Phase, clock: Time)
    requires 8 in jobs && jobs[8] == Job(2, Queued, clock)
    requires HoldsDataset(first) || (7 in jobs && jobs[7].session == 1 && Due(jobs[7]))
    ensures |InUse(Stage(first, jobs, phase, clock).sessions, jobs)| >= 2
  {
    assert jobs[8].session == 2;
    Subset({1, 2}, InUse(Stage(first, jobs, phase, clock).sessions, jobs));
  }

  function FinishStates(): seq<State> {
    [Stage(FREE, Feeding(Running), Waiting, 0), Stage(FREE, Feeding(Running), Locked, 0),
     Stage(FREE, Feeding(Running), DatasetsRead({}, 0), 0), Stage(FULL, Feeding(Running), DatasetsRead({}, 0), 0),
     Stage(FULL, Feeding(Succeeded), DatasetsRead({}, 0), 0), Stage(FULL, Feeding(Succeeded), Counted(0), 0),
     Stage(FULL, WithReserved(Succeeded, 0), Reserved, 0)]
  }

  const FINISH_STEPS := [Lock(0), ReadDatasets(0), Attach(7, 100, 10), EndJob(7, true), ReadPending(0), Decide(0, 8)]

  lemma FinishEarly(k: nat)
    requires k <= 1
    ensures StepsTo(FinishStates()[k], FINISH_STEPS[k], FinishStates()[k + 1])
    ensures RespectfulBut(FinishStates()[k], FINISH_STEPS[k], {Finished})
  {
    LockAndRead(FREE, Feeding(Running), 0);
  }

  lemma FinishMiddle(k: nat)
    requires 2 <= k <= 3
    ensures StepsTo(FinishStates()[k], FINISH_STEPS[k], FinishStates()[k + 1])
    ensures RespectfulBut(FinishStates()[k], FINISH_STEPS[k], {Finished})
  {
    JobSteps(Feeding(Running), DatasetsRead({}, 0));
    assert Feeding(Running)[7 := Job(1, Succeeded, 0)] == Feeding(Succeeded);
  }

  lemma FinishLate(k: nat)
    requires 4 <= k < 6
    ensures StepsTo(FinishStates()[k], FINISH_STEPS[k], FinishStates()[k + 1])
    ensures RespectfulBut(FinishStates()[k], FINISH_STEPS[k], {Finished})
  {
    ReadAndReserve(FULL, Feeding(Succeeded), 0);
    assert Feeding(Succeeded)[8 := Job(2, Queued, 0)] == WithReserved(Succeeded, 0);
  }

  /** The two reads of one count are separate statements: an ingestion that finishes between them is in neither, and
      the quota is exceeded. */
  lemma FinishBetweenReads() returns (states: seq<State>, steps: seq<Step>)
    ensures RunBut(states, steps, {Finished})
    ensures |InUse(states[|steps|].sessions, states[|steps|].jobs)| > states[|steps|].max
  {
    states, steps := FinishStates(), FINISH_STEPS;
    StageStart();
    BothInUse(FULL, WithReserved(Succeeded, 0), Reserved, 0);
    forall k | 0 <= k < |steps|
      ensures StepsTo(states[k], steps[k], states[k + 1]) && RespectfulBut(states[k], steps[k], {Finished})
    {
      if k <= 1 {
        FinishEarly(k);
      } else if k <= 3 {
        FinishMiddle(k);
      } else {
        FinishLate(k);
      }
    }
  }

  function RetryStates(): seq<State> {
    [Stage(FREE, Feeding(Running), Waiting, 0), Stage(FREE, Feeding(Retrying), Waiting, 0),
     Stage(FREE, Feeding(Retrying), Locked, 0), Stage(FREE, Feeding(Retrying), DatasetsRead({}, 0), 0),
     Stage(FREE, Feeding(Retrying), Counted(0), 0), Stage(FREE, WithReserved(Retrying, 0), Reserved, 0),
     Stage(FULL, WithReserved(Retrying, 0), Reserved, 0)]
  }

  const RETRY_STEPS := [Retry(7), Lock(0), ReadDatasets(0), ReadPending(0), Decide(0, 8), Attach(7, 100, 10)]

  lemma RetryEarly(k: nat)
    requires k <= 2
    ensures StepsTo(RetryStates()[k], RETRY_STEPS[k], RetryStates()[k + 1])
    ensures RespectfulBut(RetryStates()[k], RETRY_STEPS[k], {Retried})
  {
    if k == 0 {
      JobSteps(Feeding(Running), Waiting);
      assert Feeding(Running)[7 := Job(1, Retrying, 0)] == Feeding(Retrying);
    } else {
      LockAndRead(FREE, Feeding(Retrying), 0);
    }
  }

  lemma RetryLate(k: nat)
    requires 3 <= k < 6
    ensures StepsTo(RetryStates()[k], RETRY_STEPS[k], RetryStates()[k + 1])
    ensures RespectfulBut(RetryStates()[k], RETRY_STEPS[k], {Retried})
  {
    if k <= 4 {
      ReadAndReserve(FREE, Feeding(Retrying), 0);
      assert Feeding(Retrying)[8 := Job(2, Queued, 0)] == WithReserved(Retrying, 0);
    } else {
      JobSteps(WithReserved(Retrying, 0), Reserved);
    }
  }

  /** A retried ingestion is not counted although it may still attach its dataset, and here does. */
  lemma RetryIsNotCounted() returns (states: seq<State>, steps: seq<Step>)
    ensures RunBut(states, steps, {Retried})
    ensures |InUse(states[|steps|].sessions, states[|steps|].jobs)| > states[|steps|].max
  {
    states, steps := RetryStates(), RETRY_STEPS;
    StageStart();
    BothInUse(FULL, WithReserved(Retrying, 0), Reserved, 0);
    forall k | 0 <= k < |steps|
      ensures StepsTo(states[k], steps[k], states[k + 1]) && RespectfulBut(states[k], steps[k], {Retried})
    {
      if k <= 2 {
        RetryEarly(k);
      } else {
        RetryLate(k);
      }
    }
  }

  function OverdueStates(): seq<State> {
    [Stage(FREE, Feeding(Running), Waiting, 0), Stage(FREE, Feeding(Running), Waiting, LATE),
     Stage(FREE, Feeding(Running), Locked, LATE), Stage(FREE, Feeding(Running), DatasetsRead({}, 0), LATE),
     Stage(FREE, Feeding(Running), Counted(0), LATE), Stage(FREE, WithReserved(Running, LATE), Reserved, LATE)]
  }

  const OVERDUE_STEPS := [Wait(LATE), Lock(0), ReadDatasets(0), ReadPending(0), Decide(0, 8)]

  lemma OverdueEarly(k: nat)
    requires k < 3
    ensures StepsTo(OverdueStates()[k], OVERDUE_STEPS[k], OverdueStates()[k + 1])
    ensures RespectfulBut(OverdueStates()[k], OVERDUE_STEPS[k], {Overdue})
  {
    if k >= 1 {
      LockAndRead(FREE, Feeding(Running), LATE);
    }
  }

  lemma OverdueLate(k: nat)
    requires 3 <= k < 5
    ensures StepsTo(OverdueStates()[k], OVERDUE_STEPS[k], OverdueStates()[k + 1])
    ensures RespectfulBut(OverdueStates()[k], OVERDUE_STEPS[k], {Overdue})
  {
    ReadAndReserve(FREE, Feeding(Running), LATE);
    assert Feeding(Running)[8 := Job(2, Queued, LATE)] == WithReserved(Running, LATE);
  }

  /** An ingestion that outlives the window is no longer counted. */
  lemma OverdueIsNotCounted() returns (states: seq<State>, steps: seq<Step>)
    ensures RunBut(states, steps, {Overdue})
    ensures |InUse(states[|steps|].sessions, states[|steps|].jobs)| > states[|steps|].max
  {
    states, steps := OverdueStates(), OVERDUE_STEPS;
    StageStart();
    BothInUse(FREE, WithReserved(Running, LATE), Reserved, LATE);
    forall k | 0 <= k < |steps|
      ensures StepsTo(states[k], steps[k], states[k + 1]) && RespectfulBut(states[k], steps[k], {Overdue})
    {
      if k < 3 {
        OverdueEarly(k);
      } else {
        OverdueLate(k);
      }
    }
  }

  /** Sessions 1 and 3 share a dataset, and there is room for two. */
  function Sharing(jobs: Jobs, phase: Phase): State {
    State(2, map[1 := FULL, 2 := FREE, 3 := FULL], jobs, [Upload(2, phase)], if Holds(phase) then Some(0) else None, 0)
  }

  function SharedStates(): seq<State> {
    [Sharing(map[], Waiting), Sharing(map[], Locked), Sharing(map[], DatasetsRead({1, 3}, 1)),
     Sharing(map[], Counted(1)),
     Sharing(map[8 := Job(2, Queued, 0)], Reserved)]
  }

  const SHARED_STEPS := [Lock(0), ReadDatasets(0), ReadPending(0), Decide(0, 8)]

  lemma SharedStep(k: nat)
    requires k < 4
    ensures StepsTo(SharedStates()[k], SHARED_STEPS[k], SharedStates()[k + 1])
    ensures RespectfulBut(SharedStates()[k], SHARED_STEPS[k], {SharedDataset})
  {
    var sessions := Sharing(map[], Locked).sessions;
    if k == 1 {
      assert Holding(sessions) - {2} == {1, 3};
      assert 1 in Holding(sessions) && sessions[1].path.value == 100;
      assert CountedPaths(sessions, 2) == {100};
    } else if k == 2 {
      assert CountedJobs(map[], 2, 0) == {};
    } else if k == 3 {
      assert map[][8 := Job(2, Queued, 0)] == map[8 := Job(2, Queued, 0)];
    }
  }

  /** A dataset shared by two sessions is counted once. The run starts from two sessions that share one, which the
      program itself never brings about (UnsharedStays). */
  lemma SharedIsCountedOnce() returns (states: seq<State>, steps: seq<Step>)
    ensures RunBut(states, steps, {SharedDataset})
    ensures |InUse(states[|steps|].sessions, states[|steps|].jobs)| > states[|steps|].max
  {
    states, steps := SharedStates(), SHARED_STEPS;
    assert InUse(states[0].sessions, states[0].jobs) == {1, 3};
    assert states[4].jobs[8].session == 2;
    Subset({1, 2, 3}, InUse(states[4].sessions, states[4].jobs));
    forall k | 0 <= k < |steps|
      ensures StepsTo(states[k], steps[k], states[k + 1]) && RespectfulBut(states[k], steps[k], {SharedDataset})
    {
      SharedStep(k);
    }
  }

  // ---------------------------------------------------------------- session creation

  class Workspace {
    const maxSessions: nat
    const reclaimAfter: nat
    var sessions: Sessions

    constructor (maxSessions: nat, reclaimAfter: nat)
      ensures this.maxSessions == maxSessions && this.reclaimAfter == reclaimAfter && sessions == map[]
    {
      this.maxSessions, this.reclaimAfter, sessions := maxSessions, reclaimAfter, map[];
    }

    /** Deletes up to `needed` sessions that have no dataset and were not touched within the window, oldest first. */
    method ReclaimEmptySessions(needed: int, now: Time) returns (count: nat)
      modifies this
      ensures count == |old(sessions)| - |sessions|
      ensures var empty := set x | x in old(sessions) && old(sessions)[x].path.None?;
              count == Min(Max(needed, 0), |set x | x in empty && old(sessions)[x].updatedAt < now - reclaimAfter|)
      ensures forall x :: x in sessions ==> x in old(sessions) && sessions[x] == old(sessions)[x]
      ensures forall x :: x in old(sessions) && old(sessions)[x].path.Some? ==> x in sessions
      ensures forall x :: x in old(sessions) && old(sessions)[x].updatedAt >= now - reclaimAfter ==> x in sessions
      ensures forall v, x :: v in old(sessions) && v !in sessions && x in sessions && sessions[x].path.None? ==>
                old(sessions)[v].updatedAt <= sessions[x].updatedAt
    {
      var victims := OldestIdle(needed, now - reclaimAfter);
      VictimsAreEmpty(sessions, now - reclaimAfter, victims);
      sessions := sessions - victims;
      count := |victims|;
    }

    /** The query for them. */
    method OldestIdle(needed: int, cutoff: Time) returns (victims: set<SessionId>)
      ensures OldestOf(sessions, Idle(sessions, cutoff), victims)
      ensures |victims| == Min(Max(needed, 0), |Idle(sessions, cutoff)|)
    {
      victims := {};
      var idle := Idle(sessions, cutoff);
      while |victims| < needed && idle - victims != {}
        invariant OldestOf(sessions, idle, victims) && |victims| <= Max(needed, 0)
        decreases idle - victims
      {
        OldestExists(sessions, idle - victims);
        var v :| v in idle - victims && forall x :: x in idle - victims ==>
            sessions[v].updatedAt <= sessions[x].updatedAt;
        NextVictim(sessions, idle, victims, v);
        victims := victims + {v};
      }
      AllOrEnough(idle, victims);
    }

    /** Under the owner lock: make room if needed and possible, insert, commit; or roll everything back. */
    method CreateSessionWithQuota(id: SessionId, now: Time) returns (ok: bool)
      requires id !in sessions
      modifies this
      ensures var empty := set x | x in old(sessions) && old(sessions)[x].path.None?;
              var idle := set x | x in empty && old(sessions)[x].updatedAt < now - reclaimAfter;
              ok <==> |old(sessions)| - maxSessions < |idle| || |old(sessions)| < maxSessions
      ensures !ok ==> sessions == old(sessions)
      ensures ok ==> id in sessions && sessions[id] == Session(None, None, now)
      ensures ok ==> |sessions| == Min(|old(sessions)| + 1, maxSessions)
      ensures ok ==> forall x :: x in sessions && x != id ==> x in old(sessions) && sessions[x] == old(sessions)[x]
      ensures forall x :: x in old(sessions) && old(sessions)[x].path.Some? ==> x in sessions
      ensures forall x :: x in old(sessions) && old(sessions)[x].updatedAt >= now - reclaimAfter ==> x in sessions
      ensures forall v, x :: v in old(sessions) && v !in sessions && x in sessions && x != id && sessions[x].path.None?
                ==> old(sessions)[v].updatedAt <= sessions[x].updatedAt
    {
      var backup := sessions;
      var used: int := |sessions|;
      if used >= maxSessions {
        var reclaimed := ReclaimEmptySessions(used - maxSessions + 1, now);
        used := used - reclaimed;
      }
      if used >= maxSessions {
        sessions := backup;
        return false;
      }
      sessions := sessions[id := Session(None, None, now)];
      return true;
    }
  }

  /** The sessions taken hold no dataset, are older than the window, and no empty session left is older than they. */
  lemma VictimsAreEmpty(sessions: Sessions, cutoff: Time, victims: set<SessionId>)
    requires OldestOf(sessions, Idle(sessions, cutoff), victims)
    ensures |sessions - victims| == |sessions| - |victims|
    ensures forall x :: x in victims ==> x in sessions && sessions[x].path.None? && sessions[x].updatedAt < cutoff
    ensures var empty := set x | x in sessions && sessions[x].path.None?;
            Idle(sessions, cutoff) == set x | x in empty && sessions[x].updatedAt < cutoff
    ensures forall v, x :: v in victims && x in sessions && x !in victims && sessions[x].path.None? ==>
              sessions[v].updatedAt <= sessions[x].updatedAt
  {
    WithoutCount(sessions, victims);
  }

  lemma WithoutCount(sessions: Sessions, victims: set<SessionId>)
    requires victims <= sessions.Keys
    ensures |sessions - victims| == |sessions| - |victims|
  {
    assert sessions.Keys == (sessions - victims).Keys + victims;
  }

  function Idle(sessions: Sessions, cutoff: Time): (r: set<SessionId>)
    ensures r <= sessions.Keys
  {
    set x | x in sessions && sessions[x].path.None? && sessions[x].updatedAt < cutoff
  }

  predicate OldestOf(sessions: Sessions, idle: set<SessionId>, victims: set<SessionId>)
    requires idle <= sessions.Keys
  {
    && victims <= idle
    && forall v, x :: v in victims && x in idle - victims ==> sessions[v].updatedAt <= sessions[x].updatedAt
  }

  lemma NextVictim(sessions: Sessions, idle: set<SessionId>, victims: set<SessionId>, v: SessionId)
    requires idle <= sessions.Keys && OldestOf(sessions, idle, victims) && v in idle - victims
    requires forall x :: x in idle - victims ==> sessions[v].updatedAt <= sessions[x].updatedAt
    ensures OldestOf(sessions, idle, victims + {v})
  {
  }

  lemma AllOrEnough(idle: set<SessionId>, victims: set<SessionId>)
    requires victims <= idle
    ensures |victims| <= |idle|
    ensures idle - victims == {} ==> victims == idle
  {
    Subset(victims, idle);
    assert idle == victims + (idle - victims);
  }

  lemma {:induction false} OldestExists(sessions: Sessions, some: set<SessionId>)
    requires some != {} && some <= sessions.Keys
    ensures exists v :: v in some && forall x :: x in some ==> sessions[v].updatedAt <= sessions[x].updatedAt
  {
    var v :| v in some;
    if some != {v} {
      OldestExists(sessions, some - {v});
      var w :| w in some - {v} && forall x :: x in some - {v} ==> sessions[w].updatedAt <= sessions[x].updatedAt;
      var least := if sessions[v].updatedAt <= sessions[w].updatedAt then v else w;
      assert least in some && forall x :: x in some ==> sessions[least].updatedAt <= sessions[x].updatedAt;
    }
  }
}

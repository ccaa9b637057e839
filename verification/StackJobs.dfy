/** The background jobs of internal/server/stack_jobs.go: `Table` is the manager's job map as a
    value, `Step` one mutex section of the manager, of a job or of a job's goroutine, and
    `StackJobManager` the object whose methods loop over the map in place. Job ids are random;
    they are modelled as fresh. */
module StackJobs {
  import opened Basics
  import opened Deadlines

  const EXTENSION := 600_000_000_000
  const RETENTION := 900_000_000_000

  // ---- Keys ----------------------------------------------------------------

  /** stackNamePattern */
  predicate SegmentChar(c: char) {
    'A' <= c <= 'Z' || 'a' <= c <= 'z' || '0' <= c <= '9' || c == '_' || c == '-'
  }

  /** validateStackSegment returns no error */
  predicate ValidSegment(s: string) {
    s != "" && forall i :: 0 <= i < |s| ==> SegmentChar(s[i])
  }

  function Key(scope: string, name: string): string {
    scope + "/" + name
  }

  lemma LastSlash(scope: string, name: string)
    requires ValidSegment(name)
    ensures Key(scope, name)[|scope|] == '/'
    ensures forall p :: |scope| < p < |Key(scope, name)| ==> Key(scope, name)[p] != '/'
  {
    forall p | |scope| < p < |Key(scope, name)|
      ensures Key(scope, name)[p] != '/'
    {
      assert Key(scope, name)[p] == name[p - |scope| - 1];
    }
  }

  /** A job key names one stack of one server: validated names hold no slash, so the last slash of
      a key is the separator, whatever the scope contains. */
  lemma KeyIsInjective(scope1: string, name1: string, scope2: string, name2: string)
    requires ValidSegment(name1) && ValidSegment(name2)
    requires Key(scope1, name1) == Key(scope2, name2)
    ensures scope1 == scope2 && name1 == name2
  {
    var k := Key(scope1, name1);
    LastSlash(scope1, name1);
    LastSlash(scope2, name2);
    assert k[..|scope1|] == scope1 && Key(scope2, name2)[..|scope2|] == scope2;
    assert k[|scope1| + 1..] == name1 && Key(scope2, name2)[|scope2| + 1..] == name2;
  }

  // ---- Jobs ----------------------------------------------------------------

  datatype Status = Running | Succeeded | Failed(message: string)

  /** Where the job's goroutine is: running the action, after deadline.Stop, or after finish. */
  datatype Phase = Executing | Stopping | Ended

  datatype Job = Job(
    key: string, name: string, scope: string, startedAt: int,
    deadline: Deadline, status: Status, finishedAt: int, phase: Phase)

  datatype Spec = Spec(scope: string, name: string, timeout: int)

  type Table = map<string, Job>

  /** (*stackJobManager).pruneLocked drops exactly these. */
  predicate Stale(j: Job, now: int) {
    !j.status.Running? && now - j.finishedAt > RETENTION
  }

  function StaleIds(t: Table, now: int): set<string> {
    set id | id in t && Stale(t[id], now)
  }

  function Pruned(t: Table, now: int): Table {
    t - StaleIds(t, now)
  }

  predicate Busy(t: Table, key: string) {
    exists id :: id in t && t[id].key == key && t[id].status.Running?
  }

  function NewJob(spec: Spec, read: int, armed: int): Job {
    Job(Key(spec.scope, spec.name), spec.name, spec.scope, armed,
        New(spec.timeout, read, armed), Running, 0, Executing)
  }

  /** (*stackJob).finish */
  function Finished(j: Job, error: Option<string>, at: int): Job {
    j.(finishedAt := at, phase := Ended,
       status := if error.Some? then Failed(error.value) else Succeeded)
  }

  // ---- The manager as a state machine ---------------------------------------

  /** `dropped` remembers the jobs pruning has removed from the table. */
  datatype State = State(now: int, table: Table, dropped: Table)

  datatype Event =
    /** start: prune at `at`, then refuse, fail to draw an id, or launch `newId`. */
    | Start(at: int, spec: Spec, newId: Option<string>, read: int, armed: int)
    | JobDeadline(id: string, event: Deadlines.Event)
    | StopDeadline(id: string, at: int)
    | Finish(id: string, error: Option<string>, at: int)

  predicate Launches(t: Table, e: Event)
    requires e.Start?
  {
    e.newId.Some? && !Busy(Pruned(t, e.at), Key(e.spec.scope, e.spec.name))
  }

  function AfterPrune(s: State, at: int, now: int): State {
    State(now, Pruned(s.table, at), s.dropped + (s.table - (s.table.Keys - StaleIds(s.table, at))))
  }

  predicate Enabled(s: State, e: Event) {
    match e
    case Start(at, spec, newId, read, armed) =>
      && s.now <= at <= read <= armed
      && ValidSegment(spec.name)
      && (newId.Some? ==> newId.value !in s.table && newId.value !in s.dropped)
    case JobDeadline(id, event) =>
      && !event.Stop?
      && id in s.table && Deadlines.Enabled(s.table[id].deadline, event, s.now)
    case StopDeadline(id, at) => s.now <= at && id in s.table && s.table[id].phase.Executing?
    case Finish(id, _, at) => s.now <= at && id in s.table && s.table[id].phase.Stopping?
  }

  function Step(s: State, e: Event): State
    requires Enabled(s, e)
  {
    match e
    case Start(at, spec, newId, read, armed) =>
      var p := AfterPrune(s, at, armed);
      if Launches(s.table, e) then p.(table := p.table[newId.value := NewJob(spec, read, armed)]) else p
    case JobDeadline(id, event) =>
      var j := s.table[id];
      s.(now := event.Time(), table := s.table[id := j.(deadline := Deadlines.Step(j.deadline, event))])
    case StopDeadline(id, at) =>
      var j := s.table[id];
      s.(now := at, table := s.table[id := j.(phase := Stopping, deadline := Deadlines.Step(j.deadline, Stop(at)))])
    case Finish(id, error, at) =>
      s.(now := at, table := s.table[id := Finished(s.table[id], error, at)])
  }

  predicate JobOk(j: Job, now: int) {
    && j.key == Key(j.scope, j.name) && ValidSegment(j.name)
    && (j.status.Running? <==> !j.phase.Ended?)
    && (!j.phase.Executing? ==> !j.deadline.timer.Armed?)
    && (!j.status.Running? ==> j.finishedAt <= now)
    && OnTime(j.deadline, now)
  }

  ghost predicate Inv(s: State) {
    && s.table.Keys !! s.dropped.Keys
    && (forall id :: id in s.table ==> JobOk(s.table[id], s.now))
    && (forall id :: id in s.dropped ==> Stale(s.dropped[id], s.now))
    && (forall a, b :: a in s.table && b in s.table && a != b
          && s.table[a].status.Running? && s.table[b].status.Running?
          ==> s.table[a].key != s.table[b].key)
  }

  lemma JobDeadlineKeepsInv(s: State, e: Event)
    requires Inv(s) && Enabled(s, e) && e.JobDeadline?
    ensures Inv(Step(s, e))
  {
    StepStaysOnTime(s.table[e.id].deadline, e.event, s.now);
  }

  lemma PruneKeepsInv(s: State, at: int, now: int)
    requires Inv(s) && s.now <= at <= now
    ensures Inv(AfterPrune(s, at, now))
  {
  }

  lemma StartKeepsInv(s: State, e: Event)
    requires Inv(s) && Enabled(s, e) && e.Start?
    ensures Inv(Step(s, e))
  {
    PruneKeepsInv(s, e.at, e.armed);
    var p, s' := AfterPrune(s, e.at, e.armed), Step(s, e);
    if Launches(s.table, e) {
      assert s' == p.(table := p.table[e.newId.value := NewJob(e.spec, e.read, e.armed)]);
      assert JobOk(NewJob(e.spec, e.read, e.armed), e.armed);
    } else {
      assert s' == p;
    }
  }

  lemma StepKeepsInv(s: State, e: Event)
    requires Inv(s) && Enabled(s, e)
    ensures Inv(Step(s, e))
  {
    match e {
      case Start(_, _, _, _, _) => StartKeepsInv(s, e);
      case JobDeadline(_, _) => JobDeadlineKeepsInv(s, e);
      case StopDeadline(id, at) => StepStaysOnTime(s.table[id].deadline, Stop(at), s.now);
      case Finish(_, _, _) =>
    }
  }

  ghost predicate IsRun(ss: seq<State>, es: seq<Event>) {
    && |ss| == |es| + 1
    && ss[0].table == map[] && ss[0].dropped == map[]
    && forall i :: 0 <= i < |es| ==> Enabled(ss[i], es[i]) && ss[i + 1] == Step(ss[i], es[i])
  }

  lemma {:induction false} RunInv(ss: seq<State>, es: seq<Event>, n: nat)
    requires IsRun(ss, es) && n <= |es|
    ensures Inv(ss[n])
  {
    if n > 0 {
      RunInv(ss, es, n - 1);
      StepKeepsInv(ss[n - 1], es[n - 1]);
    }
  }

  /** In every state of every run at most one job is running for a stack of a server. */
  lemma OneRunningJobPerStack(ss: seq<State>, es: seq<Event>, n: nat, a: string, b: string)
    requires IsRun(ss, es) && n <= |es|
    requires a in ss[n].table && b in ss[n].table
    requires ss[n].table[a].status.Running? && ss[n].table[b].status.Running?
    ensures a == b <==> ss[n].table[a].scope == ss[n].table[b].scope && ss[n].table[a].name == ss[n].table[b].name
    ensures a == b <==> ss[n].table[a].key == ss[n].table[b].key
  {
    RunInv(ss, es, n);
  }

  /** The job behind an id, whether or not the table still lists it. */
  function Lookup(s: State, id: string): Option<Job> {
    if id in s.table then Some(s.table[id]) else if id in s.dropped then Some(s.dropped[id]) else None
  }

  lemma StepKeepsTerminal(s: State, e: Event, id: string)
    requires Inv(s) && Enabled(s, e)
    requires Lookup(s, id).Some? && !Lookup(s, id).value.status.Running?
    ensures Lookup(Step(s, e), id).Some?
    ensures Lookup(Step(s, e), id).value.status == Lookup(s, id).value.status
    ensures Lookup(Step(s, e), id).value.finishedAt == Lookup(s, id).value.finishedAt
  {
    var s' := Step(s, e);
    if e.Start? {
      assert id in s.table && !Stale(s.table[id], e.at) ==> id in s'.table && s'.table[id] == s.table[id];
      assert id in s.table && Stale(s.table[id], e.at) ==> id !in s'.table && s'.dropped[id] == s.table[id];
      assert id in s.dropped ==> id !in s'.table && s'.dropped[id] == s.dropped[id];
    }
  }

  /** A terminal status and its finishing time never change again. */
  lemma {:induction false} TerminalStatusIsFinal(ss: seq<State>, es: seq<Event>, i: nat, j: nat, id: string)
    requires IsRun(ss, es) && i <= j <= |es|
    requires Lookup(ss[i], id).Some? && !Lookup(ss[i], id).value.status.Running?
    ensures Lookup(ss[j], id).Some?
    ensures Lookup(ss[j], id).value.status == Lookup(ss[i], id).value.status
    ensures Lookup(ss[j], id).value.finishedAt == Lookup(ss[i], id).value.finishedAt
    decreases j
  {
    if i < j {
      TerminalStatusIsFinal(ss, es, i, j - 1, id);
      RunInv(ss, es, j - 1);
      StepKeepsTerminal(ss[j - 1], es[j - 1], id);
    }
  }

  lemma StepKeepsKnown(s: State, e: Event, id: string)
    requires Enabled(s, e) && Lookup(s, id).Some?
    ensures Lookup(Step(s, e), id).Some?
  {
    if e.Start? && id in s.table {
      assert Stale(s.table[id], e.at) || id in Pruned(s.table, e.at);
    }
  }

  lemma {:induction false} KnownForever(ss: seq<State>, es: seq<Event>, i: nat, j: nat, id: string)
    requires IsRun(ss, es) && i <= j <= |es|
    requires Lookup(ss[i], id).Some?
    ensures Lookup(ss[j], id).Some?
    decreases j
  {
    if i < j {
      KnownForever(ss, es, i, j - 1, id);
      StepKeepsKnown(ss[j - 1], es[j - 1], id);
    }
  }

  /** Once launched, a job is found under its id for as long as it runs and for at least the
      retention time after it finished. */
  lemma FindableUntilRetention(ss: seq<State>, es: seq<Event>, i: nat, j: nat, id: string)
    requires IsRun(ss, es) && i <= j <= |es|
    requires id in ss[i].table
    ensures Lookup(ss[j], id).Some?
    ensures Lookup(ss[j], id).value.status.Running? ==> id in ss[j].table
    ensures ss[j].now - Lookup(ss[j], id).value.finishedAt <= RETENTION ==> id in ss[j].table
  {
    KnownForever(ss, es, i, j, id);
    RunInv(ss, es, j);
  }

  lemma StepKeepsFrozen(s: State, e: Event, id: string)
    requires Inv(s) && Enabled(s, e)
    requires Lookup(s, id).Some? && !Lookup(s, id).value.deadline.timer.Armed?
    ensures Lookup(Step(s, e), id).Some?
    ensures !Lookup(Step(s, e), id).value.deadline.timer.Armed?
    ensures Lookup(Step(s, e), id).value.deadline.deadline == Lookup(s, id).value.deadline.deadline
  {
    var s' := Step(s, e);
    if e.Start? {
      assert id in s.table && !Stale(s.table[id], e.at) ==> id in s'.table && s'.table[id] == s.table[id];
      assert id in s.table && Stale(s.table[id], e.at) ==> id !in s'.table && s'.dropped[id] == s.table[id];
      assert id in s.dropped ==> id !in s'.table && s'.dropped[id] == s.dropped[id];
    }
  }

  lemma {:induction false} FrozenDeadline(ss: seq<State>, es: seq<Event>, i: nat, j: nat, id: string)
    requires IsRun(ss, es) && i <= j <= |es|
    requires Lookup(ss[i], id).Some? && !Lookup(ss[i], id).value.deadline.timer.Armed?
    ensures Lookup(ss[j], id).Some?
    ensures !Lookup(ss[j], id).value.deadline.timer.Armed?
    ensures Lookup(ss[j], id).value.deadline.deadline == Lookup(ss[i], id).value.deadline.deadline
    decreases j
  {
    if i < j {
      FrozenDeadline(ss, es, i, j - 1, id);
      RunInv(ss, es, j - 1);
      StepKeepsFrozen(ss[j - 1], es[j - 1], id);
    }
  }

  /** A job is cancelled for timing out only once its deadline has passed, and that deadline is
      the last it ever gets. */
  lemma JobTimeoutNotEarly(ss: seq<State>, es: seq<Event>, i: nat, j: nat)
    requires IsRun(ss, es) && i <= j <= |es| && i < |es|
    requires es[i].JobDeadline? && es[i].event.RunCancel?
    ensures Lookup(ss[j], es[i].id).Some?
    ensures Lookup(ss[j], es[i].id).value.deadline.deadline <= es[i].event.at
  {
    RunInv(ss, es, i);
    FrozenDeadline(ss, es, i, j, es[i].id);
  }

  /** After a job's timer went off or its goroutine stopped the deadline, no extension of it is
      granted. */
  lemma NoJobExtensionAfterFireOrStop(ss: seq<State>, es: seq<Event>, i: nat, j: nat)
    requires IsRun(ss, es) && i < j < |es|
    requires es[i].StopDeadline? || (es[i].JobDeadline? && es[i].event.Expire?)
    requires es[j].JobDeadline? && es[j].id == es[i].id
    ensures !Granted(ss[j].table[es[j].id].deadline, es[j].event)
  {
    FrozenDeadline(ss, es, i + 1, j, es[i].id);
  }

  /** A start request is refused as a conflict exactly when its stack has a running job, and then
      launches nothing. */
  lemma ConflictIffRunning(ss: seq<State>, es: seq<Event>, n: nat)
    requires IsRun(ss, es) && n < |es| && es[n].Start? && es[n].newId.Some?
    ensures Launches(ss[n].table, es[n]) <==>
              !exists id :: id in ss[n].table && ss[n].table[id].status.Running?
                && ss[n].table[id].scope == es[n].spec.scope && ss[n].table[id].name == es[n].spec.name
    ensures Launches(ss[n].table, es[n]) <==> es[n].newId.value in ss[n + 1].table
  {
    RunInv(ss, es, n);
    var t, e := ss[n].table, es[n];
    forall id | id in t && t[id].status.Running?
      ensures t[id].key == Key(e.spec.scope, e.spec.name) <==> t[id].scope == e.spec.scope && t[id].name == e.spec.name
    {
      if t[id].key == Key(e.spec.scope, e.spec.name) {
        KeyIsInjective(t[id].scope, t[id].name, e.spec.scope, e.spec.name);
      }
    }
    assert forall id :: id in t && t[id].status.Running? ==> id in Pruned(t, e.at);
  }

  /** A finished job says how its action ended, from its finish on. */
  lemma {:induction false} StatusIsTheOutcome(ss: seq<State>, es: seq<Event>, i: nat, j: nat)
    requires IsRun(ss, es) && i < j <= |es| && es[i].Finish?
    ensures Lookup(ss[j], es[i].id).Some?
    ensures var job := Lookup(ss[j], es[i].id).value;
            job.finishedAt == es[i].at
            && job.status == match es[i].error
                             case None => Succeeded
                             case Some(message) => Failed(message)
  {
    RunInv(ss, es, i + 1);
    assert Enabled(ss[i], es[i]) && ss[i + 1] == Step(ss[i], es[i]);
    assert ss[i + 1].table[es[i].id] == Finished(ss[i].table[es[i].id], es[i].error, es[i].at);
    TerminalStatusIsFinal(ss, es, i + 1, j, es[i].id);
  }

  /** Every start first drops the jobs past retention, and only those. */
  lemma {:induction false} StartDropsOldJobs(ss: seq<State>, es: seq<Event>, n: nat, id: string)
    requires IsRun(ss, es) && n < |es| && es[n].Start? && id in ss[n].table
    ensures var job := ss[n].table[id];
            id in ss[n + 1].table <==> job.status.Running? || es[n].at - job.finishedAt <= 900_000_000_000
  {
    assert Enabled(ss[n], es[n]) && ss[n + 1] == Step(ss[n], es[n]);
  }

  // ---- The objects ----------------------------------------------------------

  datatype ExtendResult = Extended | JobFinished | NotExtendable | AgentFailed(message: string)

  class StackJob {
    const key: string
    const name: string
    const scope: string
    const startedAt: int
    const deadline: ExtendableDeadline
    var status: Status
    var finishedAt: int
    var phase: Phase
    var extendable: bool
    /** Whether extensions go to the agent first. */
    var remote: bool

    constructor (spec: Spec, deadline: ExtendableDeadline, startedAt: int)
      ensures this.deadline == deadline && extendable && !remote
      ensures Value() == Job(Key(spec.scope, spec.name), spec.name, spec.scope, startedAt,
                             deadline.Value(), Running, 0, Executing)
    {
      this.key := spec.scope + "/" + spec.name;
      this.name := spec.name;
      this.scope := spec.scope;
      this.startedAt := startedAt;
      this.deadline := deadline;
      this.status := Running;
      this.finishedAt := 0;
      this.phase := Executing;
      this.extendable := true;
      this.remote := false;
    }

    ghost function Value(): Job
      reads this, deadline
    {
      Job(key, name, scope, startedAt, deadline.Value(), status, finishedAt, phase)
    }

    /** extend, when nothing else happens between its steps; `agentError` is what the agent answers
        if it is asked. */
    method Extend(agentError: Option<string>, read: int, armed: int) returns (r: ExtendResult)
      modifies deadline
      ensures r.Extended? <==>
                && old(status.Running?) && old(extendable) && (old(remote) ==> agentError.None?)
                && old(deadline.timer.Armed?)
      ensures deadline.Value() ==
              if r.Extended? then Deadlines.Step(old(deadline.Value()), Deadlines.Event.Extend(EXTENSION, read, armed))
              else old(deadline.Value())
      ensures r.AgentFailed? <==> status.Running? && extendable && remote && agentError.Some?
      ensures r.AgentFailed? ==> agentError == Some(r.message)
      ensures r.NotExtendable? <==> status.Running? && !extendable
    {
      if !status.Running? {
        return JobFinished;
      }
      if !extendable {
        return NotExtendable;
      }
      if remote && agentError.Some? {
        return AgentFailed(agentError.value);
      }
      var _, ok := deadline.Extend(EXTENSION, read, armed);
      return if ok then Extended else JobFinished;
    }

    method Finish(error: Option<string>, at: int)
      modifies this
      ensures extendable == old(extendable) && remote == old(remote)
      ensures Value() == Finished(old(Value()), error, at)
    {
      finishedAt := at;
      phase := Ended;
      match error {
        case Some(message) => status := Failed(message);
        case None => status := Succeeded;
      }
    }
  }

  datatype StartResult = Started(job: StackJob) | Conflict | NoId

  lemma WithoutOne<V>(m: map<string, V>, stale: set<string>, rest: set<string>, id: string)
    requires id in rest
    ensures m - (stale - (rest - {id})) == m - (stale - rest) - (stale * {id})
  {
    assert stale - (rest - {id}) == (stale - rest) + (stale * {id});
  }

  class StackJobManager {
    var jobs: map<string, StackJob>

    constructor ()
      ensures jobs == map[]
    {
      jobs := map[];
    }

    ghost function Footprint(): set<object>
      reads this
    {
      (set id | id in jobs :: jobs[id] as object) + (set id | id in jobs :: jobs[id].deadline as object)
    }

    ghost function Value(): Table
      reads this, Footprint()
    {
      map id | id in jobs :: jobs[id].Value()
    }

    method Prune(now: int)
      modifies this
      ensures Value() == Pruned(old(Value()), now)
      ensures forall id :: id in jobs ==> id in old(jobs) && jobs[id] == old(jobs)[id]
    {
      ghost var was := Value();
      ghost var stale := DeleteStale(now);
      assert Value() == was - stale;
      assert Pruned(was, now) == was - stale;
    }

    /** The loop visits the map in any order and deletes stale entries as it goes. */
    method DeleteStale(now: int) returns (ghost stale: set<string>)
      modifies this
      ensures stale == set id | id in old(jobs) && Stale(old(jobs[id].Value()), now)
      ensures jobs == old(jobs) - stale
    {
      stale := set id | id in jobs && Stale(jobs[id].Value(), now);
      var rest := jobs.Keys;
      while rest != {}
        invariant rest <= old(jobs).Keys && jobs == old(jobs) - (stale - rest)
      {
        var id :| id in rest;
        WithoutOne(old(jobs), stale, rest, id);
        rest := rest - {id};
        var job := jobs[id];
        assert id in stale <==> Stale(job.Value(), now);
        var expired := !job.status.Running? && now - job.finishedAt > RETENTION;
        if expired {
          jobs := jobs - {id};
        }
      }
      assert stale - rest == stale;
    }

    /** The search for a running job with a key. */
    method IsBusy(key: string) returns (busy: bool)
      ensures busy <==> Busy(Value(), key)
    {
      var rest := jobs.Keys;
      while rest != {}
        invariant rest <= jobs.Keys
        invariant forall id :: id in jobs && id !in rest ==> !(jobs[id].key == key && jobs[id].status.Running?)
      {
        var id :| id in rest;
        rest := rest - {id};
        if jobs[id].key == key && jobs[id].status.Running? {
          assert Value()[id].key == key && Value()[id].status.Running?;
          return true;
        }
      }
      assert forall id :: id in Value() ==> Value()[id] == jobs[id].Value();
      return false;
    }

    /** `newId` is the outcome of drawing an id: none when the random source fails. */
    method Start(spec: Spec, newId: Option<string>, at: int, read: int, armed: int) returns (r: StartResult)
      requires newId.Some? ==> newId.value !in jobs
      modifies this
      ensures r.Conflict? <==> Busy(Pruned(old(Value()), at), Key(spec.scope, spec.name))
      ensures r.NoId? ==> newId.None?
      ensures r.Started? <==> Launches(old(Value()), Event.Start(at, spec, newId, read, armed))
      ensures r.Started? ==> fresh(r.job) && newId.value in jobs && jobs[newId.value] == r.job
      ensures Value() ==
              if r.Started? then Pruned(old(Value()), at)[newId.value := NewJob(spec, read, armed)]
              else Pruned(old(Value()), at)
    {
      Prune(at);
      var key := spec.scope + "/" + spec.name;
      var busy := IsBusy(key);
      if busy {
        return Conflict;
      }
      if newId.None? {
        return NoId;
      }
      var deadline := new ExtendableDeadline(spec.timeout, read, armed);
      var job := new StackJob(spec, deadline, armed);
      jobs := jobs[newId.value := job];
      return Started(job);
    }
  }
}

/** A stack job on a remote server: one deadline on the controller, one on the agent, and any
    number of concurrent extension requests that reach the agent first and the controller second
    (internal/server/stack_jobs.go). Requests and replies may be late or lost, and a caller may
    give up while its request is still on the way. Both machines' clocks are read as one time. */
module RemoteStackJobs {
  import opened Basics
  import opened Deadlines
  import opened StackJobs

  const SECOND := 1_000_000_000
  const GRACE := 30 * SECOND

  /** composeActionTimeout */
  function ComposeActionTimeout(action: string): int {
    if action == "up" || action == "pull" then 600 * SECOND else 180 * SECOND
  }

  /** stackActionBudget */
  function Budget(action: string): int {
    if action == "redeploy" then ComposeActionTimeout("pull") + ComposeActionTimeout("up")
    else ComposeActionTimeout(action)
  }

  /** (*Server).stackActionTimeout */
  function ActionTimeout(agentMode: bool, remoteServer: bool, action: string): int {
    if !agentMode && remoteServer then Budget(action) + GRACE else Budget(action)
  }

  /** The time that `n` extensions of ten minutes add. */
  function Extensions(n: int): int {
    n * 600_000_000_000
  }

  /** What the agent did with one extension request. */
  datatype AtAgent = Untouched | Moved | Refused

  /** Where the controller's caller is: waiting for the agent, about to move the controller's
      deadline, done, or returned with an error. */
  datatype AtController = Waiting | Confirmed | Committed | Abandoned

  datatype Caller = Caller(viaAgent: bool, agent: AtAgent, controller: AtController)

  datatype AgentJob = AgentJob(startedAt: int, deadline: Deadline)

  datatype World = World(
    now: int, action: string, startedAt: int,
    controller: Deadline, running: bool, extendable: bool, extender: bool,
    agent: Option<AgentJob>, callers: map<nat, Caller>)

  /** The controller has just started the job. */
  function Launched(action: string, read: int, armed: int): World {
    World(armed, action, read, New(ActionTimeout(false, true, action), read, armed),
          true, true, false, None, map[])
  }

  datatype Event =
    | AgentStarts(read: int, armed: int)
    | StartConfirmed(at: int)
    | JobsUnsupported(at: int)
    | Begin(caller: nat, at: int)
    | AgentHandles(caller: nat, read: int, armed: int)
    | AgentConfirms(caller: nat, at: int)
    | GiveUp(caller: nat, at: int)
    | Commit(caller: nat, read: int, armed: int)
    | ControllerTimer(event: Deadlines.Event)
    | ControllerFinishes(at: int)
    | AgentTimer(event: Deadlines.Event)

  predicate Enabled(w: World, e: Event) {
    match e
    case AgentStarts(read, armed) => w.now <= read <= armed && w.agent.None? && w.extendable
    case StartConfirmed(at) => w.now <= at && w.agent.Some?
    case JobsUnsupported(at) => w.now <= at && w.agent.None?
    case Begin(c, at) => w.now <= at && c !in w.callers
    case AgentHandles(c, read, armed) =>
      && w.now <= read <= armed && w.agent.Some?
      && c in w.callers && w.callers[c].viaAgent && w.callers[c].agent.Untouched?
    case AgentConfirms(c, at) =>
      w.now <= at && c in w.callers && w.callers[c].controller.Waiting? && w.callers[c].agent.Moved?
    case GiveUp(c, at) => w.now <= at && c in w.callers && w.callers[c].controller.Waiting?
    case Commit(c, read, armed) =>
      w.now <= read <= armed && c in w.callers && w.callers[c].controller.Confirmed?
    case ControllerTimer(event) => !event.Extend? && Deadlines.Enabled(w.controller, event, w.now)
    case ControllerFinishes(at) => w.now <= at && !w.controller.timer.Armed?
    case AgentTimer(event) =>
      !event.Extend? && w.agent.Some? && Deadlines.Enabled(w.agent.value.deadline, event, w.now)
  }

  function Step(w: World, e: Event): World
    requires Enabled(w, e)
  {
    match e
    case AgentStarts(read, armed) =>
      w.(now := armed, agent := Some(AgentJob(read, New(ActionTimeout(true, false, w.action), read, armed))))
    case StartConfirmed(at) => w.(now := at, extender := true)
    case JobsUnsupported(at) => w.(now := at, extendable := false)
    case Begin(c, at) =>
      if w.running && w.extendable then
        w.(now := at,
           callers := w.callers[c := Caller(w.extender, Untouched, if w.extender then Waiting else Confirmed)])
      else w.(now := at)
    case AgentHandles(c, read, armed) =>
      var a, x := w.agent.value, Extend(EXTENSION, read, armed);
      w.(now := armed, agent := Some(a.(deadline := Deadlines.Step(a.deadline, x))),
         callers := w.callers[c := w.callers[c].(agent := if Granted(a.deadline, x) then Moved else Refused)])
    case AgentConfirms(c, at) =>
      w.(now := at, callers := w.callers[c := w.callers[c].(controller := Confirmed)])
    case GiveUp(c, at) =>
      w.(now := at, callers := w.callers[c := w.callers[c].(controller := Abandoned)])
    case Commit(c, read, armed) =>
      var x := Extend(EXTENSION, read, armed);
      w.(now := armed, controller := Deadlines.Step(w.controller, x),
         callers := w.callers[c := w.callers[c].(
           controller := if Granted(w.controller, x) then Committed else Abandoned)])
    case ControllerTimer(event) =>
      w.(now := event.Time(), controller := Deadlines.Step(w.controller, event))
    case ControllerFinishes(at) => w.(now := at, running := false)
    case AgentTimer(event) =>
      w.(now := event.Time(), agent := Some(w.agent.value.(deadline := Deadlines.Step(w.agent.value.deadline, event))))
  }

  // ---- Who extended what -----------------------------------------------------

  function CommittedCallers(w: World): set<nat> { set c | c in w.callers && w.callers[c].controller.Committed? }
  function MovedCallers(w: World): set<nat> { set c | c in w.callers && w.callers[c].agent.Moved? }

  /** Extensions made on the controller by callers that never asked the agent. */
  function ControllerOnly(w: World): set<nat> {
    set c | c in w.callers && w.callers[c].controller.Committed? && !w.callers[c].viaAgent
  }

  /** Extensions the agent made and the controller has not made yet, or never will. */
  function AgentOnly(w: World): set<nat> {
    set c | c in w.callers && w.callers[c].agent.Moved? && !w.callers[c].controller.Committed?
  }

  predicate CallerOk(c: Caller, agentStarted: bool) {
    && (c.viaAgent ==> agentStarted)
    && (!c.viaAgent ==> c.agent.Untouched? && !c.controller.Waiting?)
    && (c.viaAgent && (c.controller.Confirmed? || c.controller.Committed?) ==> c.agent.Moved?)
  }

  ghost predicate CallersOk(w: World) {
    && (w.extender ==> w.agent.Some?)
    && (forall c :: c in w.callers ==> CallerOk(w.callers[c], w.agent.Some?))
  }

  /** The deadlines after `committed` extensions on the controller and `moved` on the agent. */
  predicate DeadlinesOk(w: World, committed: nat, moved: nat) {
    && OnTime(w.controller, w.now)
    && w.controller.deadline == w.startedAt + Budget(w.action) + GRACE + Extensions(committed)
    && (w.agent.Some? ==>
          && OnTime(w.agent.value.deadline, w.now)
          && w.agent.value.deadline.deadline == w.agent.value.startedAt + Budget(w.action) + Extensions(moved))
  }

  ghost predicate Inv(w: World) {
    CallersOk(w) && DeadlinesOk(w, |CommittedCallers(w)|, |MovedCallers(w)|)
  }

  lemma OneCallerChanges(w: World, w': World, c: nat, caller: Caller)
    requires w'.callers == w.callers[c := caller]
    ensures CommittedCallers(w')
            == if caller.controller.Committed? then CommittedCallers(w) + {c} else CommittedCallers(w) - {c}
    ensures MovedCallers(w') == if caller.agent.Moved? then MovedCallers(w) + {c} else MovedCallers(w) - {c}
  {
  }

  /** The counts move by one exactly when the caller joins the set. */
  lemma OneCallerCounts(w: World, w': World, c: nat, caller: Caller)
    requires w'.callers == w.callers[c := caller]
    requires c in CommittedCallers(w) ==> caller.controller.Committed?
    requires c in MovedCallers(w) ==> caller.agent.Moved?
    ensures |CommittedCallers(w')| == |CommittedCallers(w)|
                                      + if caller.controller.Committed? && c !in CommittedCallers(w) then 1 else 0
    ensures |MovedCallers(w')| == |MovedCallers(w)| + if caller.agent.Moved? && c !in MovedCallers(w) then 1 else 0
  {
    OneCallerChanges(w, w', c, caller);
    Joined(CommittedCallers(w), CommittedCallers(w'), c, caller.controller.Committed?);
    Joined(MovedCallers(w), MovedCallers(w'), c, caller.agent.Moved?);
  }

  lemma Joined(before: set<nat>, after: set<nat>, c: nat, joins: bool)
    requires (c in before ==> joins) && after == if joins then before + {c} else before - {c}
    ensures |after| == |before| + if joins && c !in before then 1 else 0
  {
    if !joins || c in before {
      assert after == before;
    }
  }

  lemma AgentHandlesKeepsInv(w: World, e: Event)
    requires Inv(w) && Enabled(w, e) && e.AgentHandles?
    ensures Inv(Step(w, e))
  {
    var w' := Step(w, e);
    StepStaysOnTime(w.agent.value.deadline, Extend(EXTENSION, e.read, e.armed), w.now);
    OneCallerCounts(w, w', e.caller, w'.callers[e.caller]);
  }

  lemma CommitKeepsInv(w: World, e: Event)
    requires Inv(w) && Enabled(w, e) && e.Commit?
    ensures Inv(Step(w, e))
  {
    var w' := Step(w, e);
    StepStaysOnTime(w.controller, Extend(EXTENSION, e.read, e.armed), w.now);
    OneCallerCounts(w, w', e.caller, w'.callers[e.caller]);
  }

  /** A caller that changes neither deadline keeps the counts. */
  lemma CallerMovesKeepsInv(w: World, c: nat, caller: Caller, at: int)
    requires Inv(w) && w.now <= at && CallerOk(caller, w.agent.Some?)
    requires c in CommittedCallers(w) <==> caller.controller.Committed?
    requires c in MovedCallers(w) <==> caller.agent.Moved?
    ensures Inv(w.(now := at, callers := w.callers[c := caller]))
  {
    var w' := w.(now := at, callers := w.callers[c := caller]);
    OneCallerCounts(w, w', c, caller);
  }

  lemma JobMovesKeepsInv(w: World, e: Event)
    requires Inv(w) && Enabled(w, e)
    requires e.AgentStarts? || e.StartConfirmed? || e.JobsUnsupported? || e.ControllerFinishes?
             || e.ControllerTimer? || e.AgentTimer?
    ensures Inv(Step(w, e))
  {
    var w' := Step(w, e);
    assert CommittedCallers(w') == CommittedCallers(w) && MovedCallers(w') == MovedCallers(w);
    match e {
      case AgentStarts(_, _) => assert MovedCallers(w') == {};
      case ControllerTimer(event) => StepStaysOnTime(w.controller, event, w.now);
      case AgentTimer(event) => StepStaysOnTime(w.agent.value.deadline, event, w.now);
      case _ =>
    }
  }

  lemma StepKeepsInv(w: World, e: Event)
    requires Inv(w) && Enabled(w, e)
    ensures Inv(Step(w, e))
  {
    match e {
      case AgentHandles(_, _, _) => AgentHandlesKeepsInv(w, e);
      case Commit(_, _, _) => CommitKeepsInv(w, e);
      case Begin(c, at) =>
        CallerMovesKeepsInv(w, c, Caller(w.extender, Untouched, if w.extender then Waiting else Confirmed), at);
      case AgentConfirms(c, at) => CallerMovesKeepsInv(w, c, w.callers[c].(controller := Confirmed), at);
      case GiveUp(c, at) => CallerMovesKeepsInv(w, c, w.callers[c].(controller := Abandoned), at);
      case _ => JobMovesKeepsInv(w, e);
    }
  }

  ghost predicate IsRun(ws: seq<World>, es: seq<Event>, action: string, read: int, armed: int) {
    && |ws| == |es| + 1
    && read <= armed
    && ws[0] == Launched(action, read, armed)
    && forall i :: 0 <= i < |es| ==> Enabled(ws[i], es[i]) && ws[i + 1] == Step(ws[i], es[i])
  }

  lemma {:induction false} RunInv(ws: seq<World>, es: seq<Event>, action: string, read: int, armed: int, n: nat)
    requires IsRun(ws, es, action, read, armed) && n <= |es|
    ensures Inv(ws[n])
  {
    if n == 0 {
      assert CommittedCallers(ws[0]) == {};
    } else {
      RunInv(ws, es, action, read, armed, n - 1);
      StepKeepsInv(ws[n - 1], es[n - 1]);
    }
  }

  /** In every interleaving, the controller's deadline leads the agent's by the grace minus the
      start delay, plus one extension for each made on the controller alone, minus one for each
      the agent made and the controller did not (yet, or ever) follow. */
  lemma DeadlineAccounting(ws: seq<World>, es: seq<Event>, action: string, read: int, armed: int, n: nat)
    requires IsRun(ws, es, action, read, armed) && n <= |es| && ws[n].agent.Some?
    ensures var w := ws[n];
            var delay := w.agent.value.startedAt - w.startedAt;
            w.controller.deadline - w.agent.value.deadline.deadline
            == GRACE - delay + Extensions(|ControllerOnly(w)|) - Extensions(|AgentOnly(w)|)
  {
    RunInv(ws, es, action, read, armed, n);
    var w := ws[n];
    var both := CommittedCallers(w) * MovedCallers(w);
    assert CommittedCallers(w) == ControllerOnly(w) + both && ControllerOnly(w) !! both;
    assert MovedCallers(w) == AgentOnly(w) + both && AgentOnly(w) !! both;
  }

  /** The grace is meant to let the agent report its own timeout first. It does exactly while the
      start delay is covered by the grace and by the balance of one-sided extensions; in
      particular whenever the start took at most the grace and no extension is half done. */
  lemma AgentTimesOutFirst(ws: seq<World>, es: seq<Event>, action: string, read: int, armed: int, n: nat)
    requires IsRun(ws, es, action, read, armed) && n <= |es| && ws[n].agent.Some?
    ensures var w := ws[n];
            var delay := w.agent.value.startedAt - w.startedAt;
            w.agent.value.deadline.deadline <= w.controller.deadline
            <==> delay <= GRACE + Extensions(|ControllerOnly(w)| - |AgentOnly(w)|)
    ensures var w := ws[n];
            w.agent.value.startedAt - w.startedAt <= GRACE && AgentOnly(w) == {}
            ==> w.agent.value.deadline.deadline <= w.controller.deadline
  {
    DeadlineAccounting(ws, es, action, read, armed, n);
  }

  /** When the controller gives up for lack of time under that condition, the agent's own deadline
      has passed. */
  lemma ControllerTimeoutFollowsAgent(ws: seq<World>, es: seq<Event>, action: string, read: int, armed: int, n: nat)
    requires IsRun(ws, es, action, read, armed) && n <= |es| && ws[n].agent.Some?
    requires ws[n].controller.cause.TimedOut?
    requires ws[n].agent.value.startedAt - ws[n].startedAt
             <= GRACE + Extensions(|ControllerOnly(ws[n])| - |AgentOnly(ws[n])|)
    ensures ws[n].agent.value.deadline.deadline <= ws[n].now
  {
    RunInv(ws, es, action, read, armed, n);
    AgentTimesOutFirst(ws, es, action, read, armed, n);
  }

  /** A start request may take up to sixty seconds, twice the grace: here the agent starts after
      45 s, and the controller times out while the agent still has 15 s left. */
  lemma SlowStartOutlastsGrace() returns (ws: seq<World>, es: seq<Event>)
    ensures IsRun(ws, es, "up", 0, 0) && |es| == 4
    ensures ws[4].controller.cause.TimedOut?
    ensures ws[4].agent.Some? && ws[4].agent.value.deadline.timer.Armed?
    ensures ws[4].now + 15 * SECOND == ws[4].agent.value.deadline.deadline
  {
    var w0 := Launched("up", 0, 0);
    var e0 := AgentStarts(45 * SECOND, 45 * SECOND);
    var w1 := Step(w0, e0);
    var e1 := StartConfirmed(45 * SECOND);
    var w2 := Step(w1, e1);
    var e2 := ControllerTimer(Expire(630 * SECOND));
    var w3 := Step(w2, e2);
    var e3 := ControllerTimer(RunCancel(630 * SECOND));
    var w4 := Step(w3, e3);
    ws, es := [w0, w1, w2, w3, w4], [e0, e1, e2, e3];
  }

  /** A caller is told its extension succeeded only if the agent, when it was asked, moved too. */
  lemma SuccessMeansBothMoved(ws: seq<World>, es: seq<Event>, action: string, read: int, armed: int, n: nat, c: nat)
    requires IsRun(ws, es, action, read, armed) && n <= |es|
    requires c in ws[n].callers && ws[n].callers[c].controller.Committed?
    ensures ws[n].callers[c].viaAgent ==> ws[n].callers[c].agent.Moved?
  {
    RunInv(ws, es, action, read, armed, n);
  }

  /** The time of an extension that meets no obstacle: begun, handled by the agent, confirmed and made. */
  datatype Times = Times(begun: int, agentRead: int, agentArmed: int, confirmed: int, read: int, armed: int)

  /** While the job runs, the agent is known to extend and both timers wait, an extension whose requests
      all arrive moves both deadlines by ten minutes, and its caller is told so. */
  lemma {:induction false} UninterruptedExtension(w: World, c: nat, t: Times) returns (ws: seq<World>)
    requires Inv(w) && w.running && w.extendable && w.extender && c !in w.callers
    requires w.controller.timer.Armed? && w.agent.Some? && w.agent.value.deadline.timer.Armed?
    requires w.now <= t.begun <= t.agentRead <= t.agentArmed <= t.confirmed <= t.read <= t.armed
    ensures |ws| == 5 && ws[0] == w
    ensures Enabled(w, Begin(c, t.begun)) && ws[1] == Step(w, Begin(c, t.begun))
    ensures Enabled(ws[1], AgentHandles(c, t.agentRead, t.agentArmed))
    ensures ws[2] == Step(ws[1], AgentHandles(c, t.agentRead, t.agentArmed))
    ensures Enabled(ws[2], AgentConfirms(c, t.confirmed)) && ws[3] == Step(ws[2], AgentConfirms(c, t.confirmed))
    ensures Enabled(ws[3], Commit(c, t.read, t.armed)) && ws[4] == Step(ws[3], Commit(c, t.read, t.armed))
    ensures ws[4].controller.deadline == w.controller.deadline + 600 * SECOND
    ensures ws[4].agent.Some? && ws[4].agent.value.deadline.deadline == w.agent.value.deadline.deadline + 600 * SECOND
    ensures ws[4].callers == w.callers[c := Caller(true, Moved, Committed)]
  {
    var w1 := Step(w, Begin(c, t.begun));
    var w2 := Step(w1, AgentHandles(c, t.agentRead, t.agentArmed));
    var w3 := Step(w2, AgentConfirms(c, t.confirmed));
    var w4 := Step(w3, Commit(c, t.read, t.armed));
    ws := [w, w1, w2, w3, w4];
  }

  /** The first deadlines in seconds, and the grace the controller adds for a remote server. */
  lemma FirstDeadlines(action: string)
    ensures ActionTimeout(true, false, action) == ActionTimeout(false, false, action)
            == (if action == "redeploy" then 1200 else if action in {"up", "pull"} then 600 else 180) * SECOND
    ensures ActionTimeout(false, true, action) == ActionTimeout(true, false, action) + 30 * SECOND
  {
  }

  // ---- Polling the agent ----------------------------------------------------

  /** One turn of the polling loop: the context ended, or a status request was answered. */
  datatype Poll =
    | ContextDone(cause: string)
    | NotFound
    | RequestFailed(message: string)
    | Answer(status: string, message: string)
  {
    predicate Decisive() {
      ContextDone? || NotFound? || (Answer? && (status == "succeeded" || status == "failed"))
    }
  }

  datatype Outcome =
    | Success
    | TimedOutOrCancelled(cause: string, lastError: Option<string>)
    | NoLongerTracked
    | ActionFailed(message: string)

  /** pollRemoteStackJob. Some turn is decisive because the controller's deadline ends the context;
      `last` is that turn. */
  method PollAgent(polls: seq<Poll>) returns (r: Outcome, last: nat)
    requires exists i :: 0 <= i < |polls| && polls[i].Decisive()
    ensures last < |polls| && polls[last].Decisive() && forall i :: 0 <= i < last ==> !polls[i].Decisive()
    ensures r.Success? <==> polls[last].Answer? && polls[last].status == "succeeded"
    ensures r.NoLongerTracked? <==> polls[last].NotFound?
    ensures r.ActionFailed? <==> polls[last].Answer? && polls[last].status == "failed"
    ensures r.ActionFailed? ==>
              r.message == if polls[last].message == "" then "remote stack action failed" else polls[last].message
    ensures r.TimedOutOrCancelled? ==> r.cause == polls[last].cause
    ensures r.TimedOutOrCancelled? ==>
              r.lastError == if last > 0 && polls[last - 1].RequestFailed? then Some(polls[last - 1].message) else None
  {
    var lastError: Option<string> := None;
    last := 0;
    var turn := 0;
    while true
      invariant last == turn
      invariant turn <= |polls| && forall i :: 0 <= i < turn ==> !polls[i].Decisive()
      invariant lastError ==
                if turn > 0 && polls[turn - 1].RequestFailed? then Some(polls[turn - 1].message) else None
      decreases |polls| - turn
    {
      assert turn < |polls|;
      match polls[turn] {
        case ContextDone(cause) =>
          return TimedOutOrCancelled(cause, lastError), last;
        case NotFound =>
          return NoLongerTracked, last;
        case RequestFailed(message) =>
          lastError := Some(message);
        case Answer(status, message) =>
          lastError := None;
          if status == "succeeded" {
            return Success, last;
          } else if status == "failed" {
            return ActionFailed(if message == "" then "remote stack action failed" else message), last;
          }
      }
      turn := turn + 1;
      last := turn;
    }
  }
}

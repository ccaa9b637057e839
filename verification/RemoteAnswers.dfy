/** What the agents answer while remote servers are scanned and updated, and what a scan makes of it:
    the answers to one scan request, then those to the updates of autoUpdateRemote and to the status
    requests that wait for a restarted agent (internal/server/server.go). */
module RemoteAnswers {
  import opened Basics
  import opened Text
  import opened AutoUpdates

  /** One answer; each call reads the fields it needs. `restarting` says that the message announces a
      restart of the agent, `disconnected` that the connection broke. */
  datatype Reply = Reply(
    failed: bool, message: string, checkedAt: int, containers: seq<ContainerStatus>, error: string,
    updated: bool, online: bool, restarting: bool, disconnected: bool)

  const NO_ANSWER := Reply(true, "no answer", 0, [], "", false, false, false, false)
  const CANCELLED := "context canceled"

  /** The next answer, and those after it. */
  function Head(replies: seq<Reply>): Reply {
    if replies == [] then NO_ANSWER else replies[0]
  }

  function Tail(replies: seq<Reply>): seq<Reply> {
    if replies == [] then [] else replies[1..]
  }

  function Drop(replies: seq<Reply>, n: nat): seq<Reply>
    decreases n
  {
    if n == 0 then replies else Tail(Drop(replies, n - 1))
  }

  // ---- Targets --------------------------------------------------------------------------

  /** isRemoteAgentUpdateTarget */
  predicate IsAgent(c: ContainerStatus) {
    var name := ToLower(TrimSpace(c.name));
    c.self || (Contains(name, "agent") && (Contains(name, "contiwatch") || Contains(ToLower(c.image), "contiwatch")))
  }

  function Only(cs: seq<ContainerStatus>, agents: bool): seq<ContainerStatus> {
    if cs == [] then [] else (if IsAgent(cs[0]) == agents then [cs[0]] else []) + Only(cs[1..], agents)
  }

  /** The stable sort that puts agents last. */
  function AgentsLast(cs: seq<ContainerStatus>): seq<ContainerStatus> {
    Only(cs, false) + Only(cs, true)
  }

  lemma {:induction false} OnlySplits(cs: seq<ContainerStatus>)
    ensures multiset(Only(cs, false)) + multiset(Only(cs, true)) == multiset(cs)
    ensures forall agents, c :: c in Only(cs, agents) ==> IsAgent(c) == agents
  {
    if cs != [] {
      OnlySplits(cs[1..]);
      assert cs == [cs[0]] + cs[1..];
      assert multiset(cs) == multiset{cs[0]} + multiset(cs[1..]);
      var b := IsAgent(cs[0]);
      assert Only(cs, b) == [cs[0]] + Only(cs[1..], b) && Only(cs, !b) == Only(cs[1..], !b);
      assert multiset(Only(cs, b)) == multiset{cs[0]} + multiset(Only(cs[1..], b));
    }
  }

  lemma {:induction false} OnlyAdd(a: seq<ContainerStatus>, b: seq<ContainerStatus>, agents: bool)
    ensures Only(a + b, agents) == Only(a, agents) + Only(b, agents)
  {
    if a == [] {
      assert a + b == b;
    } else {
      assert (a + b)[1..] == a[1..] + b;
      OnlyAdd(a[1..], b, agents);
      Regroup(if IsAgent(a[0]) == agents then [a[0]] else [], Only(a[1..], agents), Only(b, agents));
    }
  }

  lemma {:induction false} OnlyOf(cs: seq<ContainerStatus>, kind: bool, agents: bool)
    requires forall c :: c in cs ==> IsAgent(c) == kind
    ensures Only(cs, agents) == if kind == agents then cs else []
  {
    if cs != [] {
      OnlyOf(cs[1..], kind, agents);
      assert cs == [cs[0]] + cs[1..];
    }
  }

  /** The updates go through a permutation of the targets in which no agent comes before a container
      that is none, and those of one kind keep their order. */
  lemma {:induction false} AgentsLastIsStable(cs: seq<ContainerStatus>)
    ensures multiset(AgentsLast(cs)) == multiset(cs)
    ensures forall i, j :: 0 <= i < j < |AgentsLast(cs)| && IsAgent(AgentsLast(cs)[i]) ==> IsAgent(AgentsLast(cs)[j])
    ensures forall agents :: Only(AgentsLast(cs), agents) == Only(cs, agents)
  {
    OnlySplits(cs);
    KindsInTurn(Only(cs, false), Only(cs, true));
    OnlyOfBoth(Only(cs, false), Only(cs, true));
    assert forall agents :: Only(cs, agents) == if agents then Only(cs, true) else Only(cs, false);
  }

  lemma {:induction false} KindsInTurn(others: seq<ContainerStatus>, agents: seq<ContainerStatus>)
    requires forall c :: c in others ==> !IsAgent(c)
    requires forall c :: c in agents ==> IsAgent(c)
    ensures forall i :: 0 <= i < |others + agents| ==> (IsAgent((others + agents)[i]) <==> |others| <= i)
  {
    forall i | 0 <= i < |others + agents|
      ensures IsAgent((others + agents)[i]) <==> |others| <= i
    {
      assert (others + agents)[i] == if i < |others| then others[i] else agents[i - |others|];
    }
  }

  lemma {:induction false} OnlyOfBoth(others: seq<ContainerStatus>, agents: seq<ContainerStatus>)
    requires forall c :: c in others ==> !IsAgent(c)
    requires forall c :: c in agents ==> IsAgent(c)
    ensures forall kind :: Only(others + agents, kind) == if kind then agents else others
  {
    forall kind
      ensures Only(others + agents, kind) == if kind then agents else others
    {
      OnlyAdd(others, agents, kind);
      OnlyOf(others, false, kind);
      OnlyOf(agents, true, kind);
      assert others + [] == others && [] + agents == agents;
    }
  }

  /** The agent's own container is one, and so is one named as an agent of contiwatch or named as an
      agent with a contiwatch image, in whatever case. */
  lemma {:induction false} WhoIsAgent(c: ContainerStatus)
    ensures IsAgent(c) <==>
              c.self || (Occurs("agent", ToLower(TrimSpace(c.name)))
                         && (Occurs("contiwatch", ToLower(TrimSpace(c.name)))
                             || Occurs("contiwatch", ToLower(c.image))))
  {
    ContainsMeans(ToLower(TrimSpace(c.name)), "agent");
    ContainsMeans(ToLower(TrimSpace(c.name)), "contiwatch");
    ContainsMeans(ToLower(c.image), "contiwatch");
  }

  lemma {:induction false} ShortNameIsNoAgent(c: ContainerStatus)
    requires !c.self && |c.name| < |"agent"|
    ensures !IsAgent(c)
  {
    WhoIsAgent(c);
    TrimmedIsNoLonger(c.name);
  }

  // ---- Updates --------------------------------------------------------------------------

  /** An update that restarts the agent: it says so, or its connection broke on the agent's own container. */
  predicate Restarts(target: ContainerStatus, update: Reply) {
    if update.failed then update.disconnected && IsAgent(target) else !update.updated && update.restarting
  }

  predicate Confirms(c: ContainerStatus, target: ContainerStatus) {
    (c.name == target.name || c.id == target.id) && c.updated && !c.updateAvailable
  }

  /** A status that ends the wait for a restarted agent: the last one read before it is over. */
  predicate Confirmed(status: Reply, target: ContainerStatus) {
    !status.failed && exists i :: 0 <= i < |status.containers| && Confirms(status.containers[i], target)
  }

  /** How the updates end: the error the result carries by then, the error returned, if any, the number
      of containers updated and the answers left. */
  datatype End = End(own: string, error: Option<string>, updated: nat, rest: seq<Reply>)

  /** The updates of `targets`, when the result carries the error `own` and the context is found
      cancelled before target number `cut`, if at all. A confirmed restart replaces the result. */
  function UpdatesEnd(own: string, updated: nat, targets: seq<ContainerStatus>, replies: seq<Reply>,
                      cut: Option<nat>): End
    decreases |targets|
  {
    if targets == [] then End(own, None, updated, replies)
    else if cut == Some(0) then End(own, Some(CANCELLED), updated, replies)
    else
      var later := if cut.Some? then Some(cut.value - 1) else None;
      var update, rest := Head(replies), Tail(replies);
      if !Restarts(targets[0], update) then
        UpdatesEnd(own, updated + (if !update.failed && update.updated then 1 else 0), targets[1..], rest, later)
      else if Confirmed(Head(rest), targets[0]) then
        UpdatesEnd(Head(rest).error, updated + 1, targets[1..], Tail(rest), later)
      else End(own, Some(Head(rest).message), updated, Tail(rest))
  }

  // ---- Turn by turn ---------------------------------------------------------------------

  /** Updates still to make: the arguments of UpdatesEnd but the cut. */
  datatype Course = Course(own: string, updated: nat, targets: seq<ContainerStatus>, replies: seq<Reply>)

  function EndOf(c: Course, cut: Option<nat>): End {
    UpdatesEnd(c.own, c.updated, c.targets, c.replies, cut)
  }

  /** A turn that goes on with the next target. */
  predicate GoesOn(target: ContainerStatus, own: string, updated: nat, replies: seq<Reply>,
                   own': string, updated': nat, replies': seq<Reply>)
  {
    var update, rest := Head(replies), Tail(replies);
    if !Restarts(target, update) then
      own' == own && updated' == updated + (if !update.failed && update.updated then 1 else 0) && replies' == rest
    else
      Confirmed(Head(rest), target) && own' == Head(rest).error && updated' == updated + 1 && replies' == Tail(rest)
  }

  /** What a turn that goes on leaves of the containers: the first with the target's id is marked as the
      update answered, or with its error; a confirmed restart replaces them all. */
  ghost predicate TurnLeaves(target: ContainerStatus, replies: seq<Reply>, was: seq<ContainerStatus>,
                             now: seq<ContainerStatus>)
  {
    var update := Head(replies);
    if Restarts(target, update) then now == Head(Tail(replies)).containers
    else if update.failed then exists at :: FirstFails(was, target.id, update.message, at, now)
    else exists at :: FirstIsMarked(was, target.id, update.updated, at, now)
  }

  /** A turn that waits in vain for the restarted agent. */
  predicate EndsHere(target: ContainerStatus, replies: seq<Reply>, message: string, replies': seq<Reply>) {
    var rest := Tail(replies);
    && Restarts(target, Head(replies)) && !Confirmed(Head(rest), target)
    && message == Head(rest).message && replies' == Tail(rest)
  }

  /** After `k` targets the updates end as they end from here, wherever they are cut later. */
  ghost predicate LeadsTo(whole: Course, k: nat, here: Course) {
    && EndOf(whole, None) == EndOf(here, None)
    && forall c: nat {:trigger EndOf(here, Some(c))} :: EndOf(whole, Some(k + c)) == EndOf(here, Some(c))
  }

  lemma {:induction false} OneTurn(c: Course, next: Course, cut: Option<nat>)
    requires c.targets != [] && next.targets == c.targets[1..] && cut != Some(0)
    requires GoesOn(c.targets[0], c.own, c.updated, c.replies, next.own, next.updated, next.replies)
    ensures EndOf(c, cut) == EndOf(next, if cut.Some? then Some(cut.value - 1) else None)
  {
  }

  lemma {:induction false} NextTurn(whole: Course, k: nat, here: Course, next: Course)
    requires LeadsTo(whole, k, here) && here.targets != [] && next.targets == here.targets[1..]
    requires GoesOn(here.targets[0], here.own, here.updated, here.replies, next.own, next.updated, next.replies)
    ensures LeadsTo(whole, k + 1, next)
  {
    OneTurn(here, next, None);
    forall c: nat
      ensures EndOf(whole, Some(k + 1 + c)) == EndOf(next, Some(c))
    {
      CutLater(whole, k, here, c + 1);
      OneTurn(here, next, Some(c + 1));
    }
  }

  lemma {:induction false} CutLater(whole: Course, k: nat, here: Course, c: nat)
    requires LeadsTo(whole, k, here)
    ensures EndOf(whole, Some(k + c)) == EndOf(here, Some(c))
  {
  }

  lemma {:induction false} EndHere(whole: Course, k: nat, here: Course, message: string, replies: seq<Reply>)
    requires LeadsTo(whole, k, here) && here.targets != [] && EndsHere(here.targets[0], here.replies, message, replies)
    ensures EndOf(whole, None) == End(here.own, Some(message), here.updated, replies)
  {
  }

  lemma {:induction false} CutHere(whole: Course, k: nat, here: Course)
    requires LeadsTo(whole, k, here) && here.targets != []
    ensures EndOf(whole, Some(k)) == End(here.own, Some(CANCELLED), here.updated, here.replies)
  {
    CutLater(whole, k, here, 0);
  }

  lemma {:induction false} NoneLeft(whole: Course, k: nat, here: Course)
    requires LeadsTo(whole, k, here) && here.targets == []
    ensures EndOf(whole, None) == End(here.own, None, here.updated, here.replies)
  {
  }

  /** The end of a whole scan of one remote server. */
  function AskEnd(replies: seq<Reply>, cut: Option<nat>): End {
    var scan := Head(replies);
    if scan.failed then End("", Some(scan.message), 0, Tail(replies))
    else UpdatesEnd(scan.error, 0, AgentsLast(Targets(scan.containers)), Tail(replies), cut)
  }

  /** The error a result is recorded with. */
  function Shown(end: End): string {
    if end.error.Some? then end.error.value else end.own
  }

  /** The confirmed statuses among the answers to the updates, in order. */
  function Statuses(targets: seq<ContainerStatus>, replies: seq<Reply>): seq<Reply>
    decreases |targets|
  {
    if targets == [] then []
    else if !Restarts(targets[0], Head(replies)) then Statuses(targets[1..], Tail(replies))
    else if Confirmed(Head(Tail(replies)), targets[0]) then
      [Head(Tail(replies))] + Statuses(targets[1..], Tail(Tail(replies)))
    else []
  }

  /** The error a finished scan carries is that of the last confirmed status, or of the scan's own
      answer when no update restarted the agent. */
  lemma {:induction false} OwnErrorIsLastStatus(own: string, updated: nat, targets: seq<ContainerStatus>,
                                                replies: seq<Reply>)
    ensures var statuses, end := Statuses(targets, replies), UpdatesEnd(own, updated, targets, replies, None);
            end.own == if statuses == [] then own else statuses[|statuses| - 1].error
    decreases |targets|
  {
    if targets != [] {
      var update, rest := Head(replies), Tail(replies);
      if !Restarts(targets[0], update) {
        OwnErrorIsLastStatus(own, updated + (if !update.failed && update.updated then 1 else 0), targets[1..], rest);
      } else if Confirmed(Head(rest), targets[0]) {
        OwnErrorIsLastStatus(Head(rest).error, updated + 1, targets[1..], Tail(rest));
      }
    }
  }

  /** The error of the last answer that gave the result. */
  function LastError(replies: seq<Reply>): string {
    var scan := Head(replies);
    var statuses := Statuses(AgentsLast(Targets(scan.containers)), Tail(replies));
    if scan.failed then "" else if statuses == [] then scan.error else statuses[|statuses| - 1].error
  }

  lemma LastErrorIsOwn(replies: seq<Reply>)
    ensures AskEnd(replies, None).own == LastError(replies)
  {
    var scan := Head(replies);
    OwnErrorIsLastStatus(scan.error, 0, AgentsLast(Targets(scan.containers)), Tail(replies));
  }

  lemma {:induction false} OneRestart(own: string, target: ContainerStatus, update: Reply, status: Reply)
    requires Restarts(target, update) && Confirmed(status, target)
    ensures UpdatesEnd(own, 0, [target], [update, status], None) == End(status.error, None, 1, [])
  {
    assert [target][1..] == [] && Tail([update, status]) == [status] && Tail([status]) == [];
    assert UpdatesEnd(status.error, 1, [], [], None) == End(status.error, None, 1, []);
  }

  lemma {:induction false} TwoTargets(a: ContainerStatus, b: ContainerStatus)
    requires IsTarget(a) && IsTarget(b)
    ensures Targets([a, b]) == [a, b]
  {
    var none: seq<ContainerStatus> := [];
    assert [a, b][..1] == [a] && [a][..0] == none;
    assert Targets([a]) == Targets(none) + [a] == [a];
    assert Targets([a, b]) == Targets([a]) + [b];
  }

  lemma {:induction false} OtherThenAgent(other: ContainerStatus, agent: ContainerStatus)
    requires !IsAgent(other) && IsAgent(agent)
    ensures AgentsLast([agent, other]) == [other, agent]
  {
    var none: seq<ContainerStatus> := [];
    assert [agent, other][1..] == [other] && [other][1..] == none;
    assert Only(none, false) == none && Only(none, true) == none;
    assert Only([other], false) == [other] + none && Only([other], true) == none + none;
    assert Only([agent, other], false) == none + Only([other], false);
    assert Only([agent, other], true) == [agent] + Only([other], true);
    assert AgentsLast([agent, other]) == [other] + [agent];
  }

  lemma {:induction false} TwoPlainUpdates(own: string, other: ContainerStatus, agent: ContainerStatus,
                                           broken: Reply, updated: Reply)
    requires !IsAgent(other) && broken.failed && !updated.failed && updated.updated
    ensures UpdatesEnd(own, 0, [other, agent], [broken, updated], None) == End(own, None, 1, [])
  {
    var none: seq<ContainerStatus> := [];
    assert [other, agent][1..] == [agent] && [agent][1..] == none;
    assert Tail([broken, updated]) == [updated] && Tail([updated]) == [];
    assert UpdatesEnd(own, 0, [agent], [updated], None) == UpdatesEnd(own, 1, none, [], None);
  }

  lemma {:induction false} DropOne(replies: seq<Reply>, n: nat)
    ensures Drop(Tail(replies), n) == Drop(replies, n + 1)
    decreases n
  {
    if n > 0 {
      DropOne(replies, n - 1);
    }
  }

  predicate AllUpdate(replies: seq<Reply>, n: nat) {
    n <= |replies| && forall i :: 0 <= i < n ==> !replies[i].failed && replies[i].updated
  }

  /** Updates none of which restarts the agent never return an error, however many fail, and take one
      answer each. */
  lemma {:induction false} PlainUpdatesNeverFail(own: string, updated: nat, targets: seq<ContainerStatus>,
                                                 replies: seq<Reply>)
    requires forall r :: r in replies ==> !r.restarting && !r.disconnected
    ensures var end := UpdatesEnd(own, updated, targets, replies, None);
            && end.error.None? && end.own == own && end.rest == Drop(replies, |targets|)
            && updated <= end.updated <= updated + |targets|
            && (AllUpdate(replies, |targets|) ==> end.updated == updated + |targets|)
    decreases |targets|
  {
    if targets != [] {
      var update := Head(replies);
      assert !Restarts(targets[0], update);
      var next := updated + (if !update.failed && update.updated then 1 else 0);
      PlainUpdatesNeverFail(own, next, targets[1..], Tail(replies));
      DropOne(replies, |targets| - 1);
    }
  }

  /** One container that is the agent itself. */
  lemma {:induction false} AgentAlone(c: ContainerStatus)
    requires IsTarget(c) && c.self
    ensures AgentsLast(Targets([c])) == [c]
  {
    var none: seq<ContainerStatus> := [];
    assert [c][..0] == none && [c][1..] == none;
    assert Targets([c]) == Targets(none) + [c] == [c];
    assert Only(none, false) == none && Only(none, true) == none;
    assert IsAgent(c);
    assert Only([c], false) == none + none && Only([c], true) == [c] + none;
    assert AgentsLast([c]) == none + [c];
  }

  // ---- Every remote ---------------------------------------------------------------------

  datatype Server = Server(name: string, address: string, maintenance: bool)

  function AfterVisit(server: Server, replies: seq<Reply>): seq<Reply> {
    if server.maintenance then replies
    else if !Head(replies).online then Tail(replies)
    else AskEnd(Tail(replies), None).rest
  }

  /** The answers left when remote `i` is reached, no update before having been cancelled. */
  function RepliesAt(remotes: seq<Server>, replies: seq<Reply>, i: nat): seq<Reply>
    requires i <= |remotes|
  {
    if i == 0 then replies else AfterVisit(remotes[i - 1], RepliesAt(remotes, replies, i - 1))
  }
}

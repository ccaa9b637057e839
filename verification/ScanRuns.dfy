/** Scanning every server: runScan, autoUpdateLocal, triggerRemoteScans and updateLastScans of
    internal/server/server.go. One scanner owns the scan states; a context is the time at which it
    is cancelled, None for never. The clock advances by the next of `ticks` at each reading, and
    `replies` holds what Docker and the agents answer. */
module ScanRuns {
  import opened Basics
  import opened Text
  import opened ScanStates
  import opened AutoUpdates
  import opened RemoteAnswers
  import opened LocalAnswers

  /** A scan result; `shown` is the scan state it carries, if any. */
  datatype Result = Result(
    server: string, url: string, local: bool, checkedAt: int, containers: seq<ContainerStatus>, error: string,
    shown: Option<ScanState>)

  type Context = Option<int>

  datatype Answer<T> = Ok(value: T) | Err(message: string)
  datatype Verdict = InProgress | Scanned(first: Option<Result>)

  // ---- What became of a server -----------------------------------------------------------

  datatype Fate = NotStarted | Maintained | Offline | Stopped | Failed | Reported | Finished

  /** The phase a server is left in; None when its state is not touched. */
  function PhaseAfter(f: Fate): Option<Phase> {
    match f
    case Maintained => None
    case Offline => Some(Idle)
    case NotStarted | Stopped => Some(Cancelled)
    case Failed | Reported => Some(Error)
    case Finished => Some(Done)
  }

  predicate CutShort(f: Fate) {
    f.NotStarted? || f.Stopped?
  }

  /** Once the context is cancelled no further server is started. */
  ghost predicate CutOnce(fates: seq<Fate>) {
    forall i, j :: 0 <= i < j < |fates| && CutShort(fates[i]) ==> fates[j].NotStarted?
  }

  /** Fates of servers reached one by one; the last may have been stopped. */
  ghost predicate Reached(fates: seq<Fate>, over: bool) {
    forall j :: 0 <= j < |fates| ==> !fates[j].NotStarted? && (fates[j].Stopped? ==> over && j == |fates| - 1)
  }

  lemma OneMoreReached(fates: seq<Fate>, f: Fate, over: bool)
    requires Reached(fates, false) && !f.NotStarted? && (f.Stopped? ==> over)
    ensures Reached(fates + [f], over)
  {
  }

  /** These fates, and no server started after them. */
  ghost predicate ThenNotStarted(fates: seq<Fate>, all: seq<Fate>) {
    fates <= all && forall j :: |fates| <= j < |all| ==> all[j].NotStarted?
  }

  lemma ReachedIsCutOnce(fates: seq<Fate>, all: seq<Fate>, over: bool)
    requires Reached(fates, over) && ThenNotStarted(fates, all)
    ensures CutOnce(all)
    ensures forall f :: f in all && CutShort(f) ==> over || all != fates
    ensures fates == [] ==> forall f :: f in all ==> f.NotStarted?
  {
    forall i, j | 0 <= i < j < |all| && CutShort(all[i])
      ensures all[j].NotStarted?
    {
      if i < |fates| {
        assert all[i] == fates[i];
      }
    }
  }

  /** How many servers met each fate. */
  datatype Counts = Counts(finished: nat, failed: nat, notStarted: nat, stopped: nat, maintained: nat, offline: nat,
                           reported: nat)
  {
    function Add(f: Fate): Counts {
      match f
      case NotStarted => this.(notStarted := notStarted + 1)
      case Maintained => this.(maintained := maintained + 1)
      case Offline => this.(offline := offline + 1)
      case Stopped => this.(stopped := stopped + 1)
      case Failed => this.(failed := failed + 1)
      case Reported => this.(reported := reported + 1)
      case Finished => this.(finished := finished + 1)
    }

    function Total(): nat {
      finished + failed + notStarted + stopped + maintained + offline + reported
    }
  }

  function CountsOf(fates: seq<Fate>): Counts {
    if fates == [] then Counts(0, 0, 0, 0, 0, 0, 0) else CountsOf(fates[..|fates| - 1]).Add(fates[|fates| - 1])
  }

  lemma OneMoreCounted(fates: seq<Fate>, f: Fate)
    ensures CountsOf(fates + [f]) == CountsOf(fates).Add(f)
  {
    assert (fates + [f])[..|fates|] == fates;
  }

  /** Every server is counted once. */
  lemma {:induction false} CountsAddUp(fates: seq<Fate>)
    ensures CountsOf(fates).Total() == |fates|
    ensures CountsOf(fates).reported > 0 ==> Reported in fates
  {
    if fates != [] {
      SplitLast(fates);
      CountsAddUp(fates[..|fates| - 1]);
    }
  }

  /** The phase that the servers with these fates leave under a key. */
  function LastPhase(local: bool, servers: seq<Server>, fates: seq<Fate>, key: string): Option<Phase>
    requires |fates| <= |servers|
    decreases |fates|
  {
    if fates == [] then None
    else
      var n := |fates| - 1;
      if ScanKey(local, servers[n].name) == key && PhaseAfter(fates[n]).Some? then PhaseAfter(fates[n])
      else LastPhase(local, servers, fates[..n], key)
  }

  ghost predicate Explained(was: States, now: States, local: bool, servers: seq<Server>, fates: seq<Fate>)
    requires |fates| <= |servers|
  {
    forall key :: match LastPhase(local, servers, fates, key) {
        case Some(phase) => key in now && now[key].phase == phase
        case None => (key in now <==> key in was) && At(now, key) == At(was, key)
      }
  }

  /** One more server, whose key alone changed. */
  ghost predicate OneServer(was: States, now: States, key: string, f: Fate) {
    match PhaseAfter(f)
    case None => now == was
    case Some(phase) => OnlyKey(was, now, key) && now[key].phase == phase
  }

  ghost predicate OnlyKey(was: States, now: States, key: string) {
    key in now && now == was[key := now[key]]
  }

  lemma OnlyKeyTwice(a: States, b: States, c: States, key: string)
    requires OnlyKey(a, b, key) && OnlyKey(b, c, key)
    ensures OnlyKey(a, c, key)
  {
  }

  lemma OneMoreServer(was: States, mid: States, now: States, local: bool, servers: seq<Server>, fates: seq<Fate>,
                      f: Fate)
    requires |fates| < |servers|
    requires Explained(was, mid, local, servers, fates)
    requires OneServer(mid, now, ScanKey(local, servers[|fates|].name), f)
    ensures Explained(was, now, local, servers, fates + [f])
  {
    forall key
      ensures match LastPhase(local, servers, fates + [f], key) {
          case Some(phase) => key in now && now[key].phase == phase
          case None => (key in now <==> key in was) && At(now, key) == At(was, key)
        }
    {
      assert (fates + [f])[..|fates|] == fates;
      assert LastPhase(local, servers, fates, key).Some? ==> key in mid;
    }
  }

  /** Whoever was not skipped has the phase it was left in, or a later server with the same key was. */
  lemma {:induction false} TouchedServersHaveAPhase(local: bool, servers: seq<Server>, fates: seq<Fate>, i: nat)
    returns (j: nat)
    requires i < |fates| <= |servers| && PhaseAfter(fates[i]).Some?
    ensures i <= j < |fates| && ScanKey(local, servers[j].name) == ScanKey(local, servers[i].name)
    ensures PhaseAfter(fates[j]).Some?
    ensures LastPhase(local, servers, fates, ScanKey(local, servers[i].name)) == PhaseAfter(fates[j])
    decreases |fates|
  {
    var n := |fates| - 1;
    if ScanKey(local, servers[n].name) == ScanKey(local, servers[i].name) && PhaseAfter(fates[n]).Some? {
      j := n;
    } else {
      j := TouchedServersHaveAPhase(local, servers, fates[..n], i);
    }
  }

  // ---- Results --------------------------------------------------------------------------

  /** strings.EqualFold: equal once every character is folded. */
  predicate SameName(a: string, b: string, fold: char -> char) {
    |a| == |b| && forall i :: 0 <= i < |a| ==> fold(a[i]) == fold(b[i])
  }

  /** findLocalScan */
  method FindLocalScan(scans: seq<Result>, name: string, fold: char -> char) returns (r: Option<Result>)
    ensures r.Some? <==> exists i :: 0 <= i < |scans| && scans[i].local && SameName(scans[i].server, name, fold)
    ensures r.Some? ==> r.value.local && SameName(r.value.server, name, fold)
    ensures r.Some? ==> exists i :: 0 <= i < |scans| && scans[i] == r.value
                          && forall j :: 0 <= j < i ==> !(scans[j].local && SameName(scans[j].server, name, fold))
  {
    for i := 0 to |scans|
      invariant forall j :: 0 <= j < i ==> !(scans[j].local && SameName(scans[j].server, name, fold))
    {
      if scans[i].local && SameName(scans[i].server, name, fold) {
        return Some(scans[i]);
      }
    }
    return None;
  }

  /** The result a local server with this fate is given. `previous` are the results of the last scan. */
  ghost predicate Fits(f: Fate, server: Server, r: Result, previous: seq<Result>, fold: char -> char) {
    && r.local && SameName(r.server, server.name, fold)
    && match f {
      case NotStarted =>
        r == Result(server.name, server.address, true, r.checkedAt, [], "scan cancelled manually (not started)", None)
      case Maintained =>
        && server.maintenance
        && (r in previous
            || (r == Result(server.name, server.address, true, 0, [], "", None)
                && forall i :: 0 <= i < |previous| ==>
                     !(previous[i].local && SameName(previous[i].server, server.name, fold))))
      case Offline => false
      case Stopped | Failed =>
        !server.maintenance && r == Result(server.name, server.address, true, r.checkedAt, [], r.error, None)
      case Reported =>
        !server.maintenance && r.server == server.name && r.url == server.address && r.error != ""
      case Finished =>
        !server.maintenance && r.server == server.name && r.url == server.address && r.error == ""
    }
  }

  ghost predicate AllFit(fates: seq<Fate>, servers: seq<Server>, results: seq<Result>, previous: seq<Result>,
                         fold: char -> char)
  {
    && |fates| == |results| <= |servers|
    && forall i :: 0 <= i < |fates| ==> Fits(fates[i], servers[i], results[i], previous, fold)
  }

  lemma OneMoreFits(fates: seq<Fate>, servers: seq<Server>, results: seq<Result>, previous: seq<Result>,
                    fold: char -> char, f: Fate, r: Result)
    requires AllFit(fates, servers, results, previous, fold) && |fates| < |servers|
    requires Fits(f, servers[|fates|], r, previous, fold)
    ensures AllFit(fates + [f], servers, results + [r], previous, fold)
  {
  }

  /** What a local server's fate and result say about the answers it got. */
  ghost predicate LocalFollows(f: Fate, server: Server, r: Result, agentMode: bool, replies: seq<Reply>) {
    match f
    case NotStarted => true
    case Maintained => server.maintenance
    case Offline => false
    case Stopped =>
      && !server.maintenance
      && (if CallFailed(replies, agentMode) then r.error == CallError(replies)
          else LeadsToUpdates(Head(replies), agentMode) && r.error == CANCELLED)
    case Failed => !server.maintenance && CallFailed(replies, agentMode) && r.error == CallError(replies)
    case Reported =>
      var scan := Head(replies);
      && !server.maintenance && !scan.failed && scan.error != ""
      && r.error == scan.error && r.containers == scan.containers && r.checkedAt == scan.checkedAt
    case Finished =>
      var scan := Head(replies);
      && !server.maintenance && !scan.failed && scan.error == "" && !CallFailed(replies, agentMode)
      && r.error == "" && r.checkedAt == scan.checkedAt
      && (!LeadsToUpdates(scan, agentMode) ==> r.containers == scan.containers)
      && (LeadsToUpdates(scan, agentMode) && DistinctIds(scan.containers) ==>
            UpdatedBy(scan.containers, r.containers, Tail(Tail(replies))))
  }

  ghost predicate AllLocalFollow(fates: seq<Fate>, servers: seq<Server>, results: seq<Result>, agentMode: bool,
                                 replies: seq<Reply>)
  {
    && |fates| == |results| <= |servers|
    && forall i {:trigger fates[i]} :: 0 <= i < |fates| ==>
         LocalFollows(fates[i], servers[i], results[i], agentMode, LocalRepliesAt(servers, agentMode, replies, i))
  }

  lemma {:induction false} OneMoreLocalFollows(fates: seq<Fate>, servers: seq<Server>, results: seq<Result>,
                                               agentMode: bool, replies: seq<Reply>, f: Fate, r: Result)
    requires AllLocalFollow(fates, servers, results, agentMode, replies) && |fates| < |servers|
    requires LocalFollows(f, servers[|fates|], r, agentMode, LocalRepliesAt(servers, agentMode, replies, |fates|))
    ensures AllLocalFollow(fates + [f], servers, results + [r], agentMode, replies)
  {
  }

  /** What is known of the local servers with these fates: their results, the answers they follow
      from, and the states they leave. */
  ghost predicate LocalTraced(was: States, now: States, servers: seq<Server>, fates: seq<Fate>, results: seq<Result>,
                              previous: seq<Result>, fold: char -> char, agentMode: bool, replies: seq<Reply>)
  {
    && AllFit(fates, servers, results, previous, fold)
    && AllLocalFollow(fates, servers, results, agentMode, replies)
    && Explained(was, now, true, servers, fates)
  }

  lemma {:induction false} OneMoreLocal(was: States, mid: States, now: States, servers: seq<Server>, fates: seq<Fate>,
                                        results: seq<Result>, previous: seq<Result>, fold: char -> char,
                                        agentMode: bool, replies: seq<Reply>, f: Fate, r: Result)
    requires LocalTraced(was, mid, servers, fates, results, previous, fold, agentMode, replies)
    requires |fates| < |servers| && Fits(f, servers[|fates|], r, previous, fold)
    requires LocalFollows(f, servers[|fates|], r, agentMode, LocalRepliesAt(servers, agentMode, replies, |fates|))
    requires OneServer(mid, now, ScanKey(true, servers[|fates|].name), f)
    ensures LocalTraced(was, now, servers, fates + [f], results + [r], previous, fold, agentMode, replies)
  {
    OneMoreFits(fates, servers, results, previous, fold, f, r);
    OneMoreLocalFollows(fates, servers, results, agentMode, replies, f, r);
    OneMoreServer(was, mid, now, true, servers, fates, f);
  }

  lemma {:induction false} OneMoreNotStarted(was: States, mid: States, now: States, servers: seq<Server>,
                                             fates: seq<Fate>, results: seq<Result>, previous: seq<Result>,
                                             fold: char -> char, agentMode: bool, replies: seq<Reply>, r: Result)
    requires LocalTraced(was, mid, servers, fates, results, previous, fold, agentMode, replies)
    requires |fates| < |servers| && OnlyKey(mid, now, ScanKey(true, servers[|fates|].name))
    requires now[ScanKey(true, servers[|fates|].name)].phase == ScanStates.Cancelled
    requires r == Result(servers[|fates|].name, servers[|fates|].address, true, r.checkedAt, [],
                         "scan cancelled manually (not started)", None)
    ensures LocalTraced(was, now, servers, fates + [NotStarted], results + [r], previous, fold, agentMode, replies)
  {
    OneMoreLocal(was, mid, now, servers, fates, results, previous, fold, agentMode, replies, NotStarted, r);
  }

  /** While nobody cancels, a server outside maintenance is left in error exactly if its scan call
      failed or reported an error, or its watcher could not be opened; a failed update changes
      nothing but its own container. */
  lemma {:induction false} LocalFateFollows(fates: seq<Fate>, servers: seq<Server>, results: seq<Result>,
                                            agentMode: bool, replies: seq<Reply>, i: nat)
    requires AllLocalFollow(fates, servers, results, agentMode, replies) && i < |fates|
    requires !CutShort(fates[i]) && !servers[i].maintenance
    ensures var answers := LocalRepliesAt(servers, agentMode, replies, i);
            var scan := Head(answers);
            && (PhaseAfter(fates[i]) == Some(Error)
                <==> scan.failed || scan.error != ""
                     || (!agentMode && Targets(scan.containers) != [] && Head(Tail(answers)).failed))
            && (PhaseAfter(fates[i]) == Some(Done) <==> PhaseAfter(fates[i]) != Some(Error))
            && (PhaseAfter(fates[i]) == Some(Done) && DistinctIds(scan.containers) ==>
                  && |results[i].containers| == |scan.containers|
                  && forall c :: 0 <= c < |scan.containers| ==>
                       ((agentMode || !IsTarget(scan.containers[c])
                         || UpdateReply(scan.containers, Tail(Tail(answers)), c).failed) ==>
                        results[i].containers[c] == scan.containers[c]))
  {
    var answers := LocalRepliesAt(servers, agentMode, replies, i);
    assert LocalFollows(fates[i], servers[i], results[i], agentMode, answers);
  }

  /** The list updateLastScans leaves. */
  function Recorded(scans: seq<Result>, r: Result): seq<Result> {
    if scans == [] then [r]
    else if scans[0].server == r.server && scans[0].local == r.local then [r] + scans[1..]
    else [scans[0]] + Recorded(scans[1..], r)
  }

  function Locals(scans: seq<Result>): seq<Result> {
    if scans == [] then [] else (if scans[0].local then [scans[0]] else []) + Locals(scans[1..])
  }

  predicate About(r: Result, local: bool, name: string) {
    r.local == local && r.server == name
  }

  function ResultOf(scans: seq<Result>, local: bool, name: string): Option<Result> {
    if scans == [] then None
    else if About(scans[0], local, name) then Some(scans[0])
    else ResultOf(scans[1..], local, name)
  }

  ghost predicate NoDuplicates(scans: seq<Result>) {
    forall i, j :: 0 <= i < j < |scans| ==> !About(scans[j], scans[i].local, scans[i].server)
  }

  /** Recording a result answers for its server from then on, and changes no other server's. */
  lemma {:induction false} RecordedIsFound(scans: seq<Result>, r: Result, local: bool, name: string)
    ensures ResultOf(Recorded(scans, r), local, name)
            == if About(r, local, name) then Some(r) else ResultOf(scans, local, name)
  {
    if scans != [] && !About(scans[0], r.local, r.server) {
      RecordedIsFound(scans[1..], r, local, name);
    }
  }

  lemma {:induction false} RecordedHasNoDuplicates(scans: seq<Result>, r: Result)
    requires NoDuplicates(scans)
    ensures NoDuplicates(Recorded(scans, r))
    ensures forall x :: x in Recorded(scans, r) ==> x == r || x in scans
  {
    if scans != [] && !About(scans[0], r.local, r.server) {
      RecordedHasNoDuplicates(scans[1..], r);
      var rest := Recorded(scans[1..], r);
      forall j | 0 <= j < |rest|
        ensures !About(rest[j], scans[0].local, scans[0].server)
      {
        if rest[j] != r {
          assert rest[j] in scans[1..];
          var k :| 0 <= k < |scans[1..]| && scans[1..][k] == rest[j];
          assert scans[k + 1] == rest[j];
        }
      }
    } else if scans != [] {
      assert forall j :: 0 < j < |scans| ==> Recorded(scans, r)[j] == scans[j];
    }
  }

  /** A remote result never displaces a local one. */
  lemma {:induction false} RemoteResultsKeepLocals(scans: seq<Result>, r: Result)
    requires !r.local
    ensures Locals(Recorded(scans, r)) == Locals(scans)
  {
    if scans != [] {
      if About(scans[0], r.local, r.server) {
        assert ([r] + scans[1..])[1..] == scans[1..];
      } else {
        RemoteResultsKeepLocals(scans[1..], r);
        assert ([scans[0]] + Recorded(scans[1..], r))[1..] == Recorded(scans[1..], r);
      }
    }
  }

  // ---- The scanner ----------------------------------------------------------------------

  class Scanner {
    var states: States
    var lastScan: Option<Result>
    var lastScans: seq<Result>
    var scanRunning: bool
    var updateRunning: bool
    var clock: int
    var ticks: seq<nat>
    var replies: seq<Reply>
    const agentMode: bool
    const fold: char -> char

    ghost predicate Valid()
      reads this
    {
      0 < clock && AllSeen(states, clock)
    }

    constructor (agentMode: bool, fold: char -> char, clock: int, ticks: seq<nat>, replies: seq<Reply>)
      requires 0 < clock
      ensures Valid() && states == map[] && lastScan == None && lastScans == [] && !scanRunning && !updateRunning
      ensures this.replies == replies && this.agentMode == agentMode && this.fold == fold && this.clock == clock
    {
      this.agentMode, this.fold := agentMode, fold;
      this.clock, this.ticks, this.replies := clock, ticks, replies;
      states, lastScan, lastScans, scanRunning, updateRunning := map[], None, [], false, false;
    }

    /** The context is cancelled by now. */
    predicate Over(ctx: Context)
      reads this
    {
      ctx.Some? && ctx.value <= clock
    }

    method Now() returns (now: int)
      requires Valid()
      modifies this`clock, this`ticks
      ensures Valid() && now == clock && old(clock) <= clock
    {
      if ticks != [] {
        clock := clock + ticks[0];
        ticks := ticks[1..];
      }
      return clock;
    }

    method Cancelled(ctx: Context) returns (cancelled: bool)
      requires Valid()
      modifies this`clock, this`ticks
      ensures Valid() && old(clock) <= clock
      ensures cancelled <==> Over(ctx)
    {
      var now := Now();
      return ctx.Some? && ctx.value <= now;
    }

    method Next() returns (r: Reply)
      modifies this`replies
      ensures r == Head(old(replies)) && replies == Tail(old(replies))
    {
      if replies == [] {
        return NO_ANSWER;
      }
      r := replies[0];
      replies := replies[1..];
    }

    method SetScanState(local: bool, name: string, phase: Phase)
      requires Valid()
      modifies this`states, this`clock, this`ticks
      ensures Valid() && old(clock) <= clock
      ensures states == Step(old(states), Write(ScanKey(local, name), phase, clock))
      ensures OnlyKey(old(states), states, ScanKey(local, name)) && states[ScanKey(local, name)].phase == phase
    {
      var key := ScanKey(local, name);
      var now := Now();
      var current := At(states, key);
      StepKeepsSeen(states, Write(key, phase, now), clock);
      current := current.(phase := phase);
      match phase {
        case Pending | Scanning | Updating =>
          current := current.(startedAt := now, finishedAt := 0);
        case Done | Cancelled | Error =>
          if current.startedAt == 0 {
            current := current.(startedAt := now);
          }
          current := current.(finishedAt := now);
        case Idle =>
          current := current.(startedAt := 0, finishedAt := 0);
      }
      states := states[key := current];
    }

    method CancelActiveScanStates()
      requires Valid()
      modifies this`states, this`clock, this`ticks
      ensures Valid() && old(clock) <= clock
      ensures states == Step(old(states), CancelAll(clock))
    {
      var now := Now();
      StepKeepsSeen(states, CancelAll(now), clock);
      var keys := states.Keys;
      while keys != {}
        invariant keys <= states.Keys == old(states).Keys
        invariant clock == now
        invariant forall key :: key in states ==>
                    states[key] == if key in keys then old(states)[key] else CancelActive(old(states), now)[key]
        decreases keys
      {
        var key :| key in keys;
        keys := keys - {key};
        var current := states[key];
        if current.phase != Pending && current.phase != Scanning && current.phase != Updating {
          continue;
        }
        current := current.(phase := ScanStates.Cancelled);
        if current.startedAt == 0 {
          current := current.(startedAt := now);
        }
        current := current.(finishedAt := now);
        states := states[key := current];
      }
    }

    /** autoUpdateLocal */
    method AutoUpdateLocal(server: Server, result: Result, ctx: Context) returns (a: Answer<Result>, updated: nat)
      requires Valid()
      modifies this`states, this`clock, this`ticks, this`replies
      ensures Valid() && old(clock) <= clock
      ensures states == old(states)
              || (OnlyKey(old(states), states, ScanKey(true, server.name))
                  && states[ScanKey(true, server.name)].phase == Updating)
      ensures Targets(result.containers) == [] ==> a == Ok(result) && updated == 0 && states == old(states)
      ensures a.Ok? ==> a.value == result.(containers := a.value.containers)
      ensures a.Ok? && DistinctIds(result.containers) ==>
                && Progress(result.containers, a.value.containers, Targets(result.containers))
                && Count(a.value.containers, Remaining) + updated == Count(result.containers, Remaining)
                && Count(a.value.containers, Detected) == Count(result.containers, Detected)
                && Count(a.value.containers, Broken) == Count(result.containers, Broken)
      ensures var targets, was := Targets(result.containers), old(replies);
              && (targets == [] ==> replies == was)
              && (a.Ok? && targets != [] ==> !Head(was).failed && replies == Drop(Tail(was), |targets|))
              && (a.Ok? && targets != [] && DistinctIds(result.containers) ==>
                    UpdatedBy(result.containers, a.value.containers, Tail(was)))
              && (a.Err? ==> targets != [])
              && (a.Err? && Head(was).failed ==> a.message == Head(was).message && replies == Tail(was))
              && (a.Err? && !Head(was).failed ==> a.message == CANCELLED && Over(ctx))
    {
      var targets := SelectTargets(result.containers);
      if targets == [] {
        return Ok(result), 0;
      }
      var watcher := Next();
      if watcher.failed {
        return Err(watcher.message), 0;
      }
      SetScanState(true, server.name, Updating);
      var cancelled, containers;
      containers, updated, cancelled := UpdateTargets(result.containers, targets, ctx);
      if cancelled {
        return Err(CANCELLED), updated;
      }
      return Ok(result.(containers := containers)), updated;
    }

    /** The loop of autoUpdateLocal. */
    method UpdateTargets(was: seq<ContainerStatus>, targets: seq<ContainerStatus>, ctx: Context)
      returns (now: seq<ContainerStatus>, updated: nat, cancelled: bool)
      requires Valid() && targets == Targets(was)
      modifies this`clock, this`ticks, this`replies
      ensures Valid() && old(clock) <= clock
      ensures cancelled ==> Over(ctx)
      ensures !cancelled ==> replies == Drop(old(replies), |targets|)
      ensures !cancelled && DistinctIds(was) ==> UpdatedBy(was, now, old(replies))
      ensures !cancelled && DistinctIds(was) ==>
                && Progress(was, now, targets)
                && Count(now, Remaining) + updated == Count(was, Remaining)
                && Count(now, Detected) == Count(was, Detected)
                && Count(now, Broken) == Count(was, Broken)
    {
      now, updated, cancelled := was, 0, false;
      NothingReached(was, replies);
      for k := 0 to |targets|
        invariant Valid() && old(clock) <= clock && !cancelled
        invariant replies == Drop(old(replies), k)
        invariant UpdatedUpTo(was, now, old(replies), k, updated)
      {
        cancelled := Cancelled(ctx);
        if cancelled {
          return;
        }
        ghost var before, count := now, updated;
        var reply := Next();
        if reply.failed {
          OneMoreTarget(was, before, old(replies), k, count, now, 0, updated);
          continue;
        }
        if reply.updated {
          updated := updated + 1;
        }
        var at := Now();
        now := MarkContainer(now, targets[k].id, reply.updated, at);
        OneMoreTarget(was, before, old(replies), k, count, now, at, updated);
      }
      AllReached(was, now, old(replies), updated);
    }

    /** The body of runScan's loop for a server that is scanned. */
    method ScanServer(server: Server, ctx: Context) returns (r: Result, ghost fate: Fate)
      requires Valid() && !server.maintenance
      modifies this`states, this`clock, this`ticks, this`replies
      ensures Valid() && old(clock) <= clock
      ensures fate in {Stopped, Failed, Reported, Finished}
      ensures Fits(fate, server, r, lastScans, fold)
      ensures OneServer(old(states), states, ScanKey(true, server.name), fate)
      ensures fate.Stopped? ==> Over(ctx)
      ensures fate.Failed? ==> !(ctx.Some? && ctx.value <= old(clock))
      ensures LocalFollows(fate, server, r, agentMode, old(replies))
      ensures fate.Stopped? || replies == AfterLocal(server, agentMode, old(replies))
      ensures var scan := Head(old(replies)).containers;
              fate.Finished? && DistinctIds(scan) ==>
                && Count(r.containers, Detected) == Count(scan, Detected)
                && Count(r.containers, Broken) == Count(scan, Broken)
    {
      ghost var key := ScanKey(true, server.name);
      SetScanState(true, server.name, Scanning);
      ghost var started := states;
      var error;
      r, error := AskLocal(server, ctx);
      if states != started {
        OnlyKeyTwice(old(states), started, states, key);
      }
      started := states;
      if error.Some? {
        r, fate := FailServer(server, error.value, ctx);
      } else if r.error != "" {
        SetScanState(true, server.name, ScanStates.Error);
        fate := Reported;
      } else {
        SetScanState(true, server.name, ScanStates.Done);
        fate := Finished;
      }
      OnlyKeyTwice(old(states), started, states, key);
    }

    /** The scan of a local server and the updates it leads to, or the error that either returned. */
    method AskLocal(server: Server, ctx: Context) returns (r: Result, error: Option<string>)
      requires Valid() && !server.maintenance
      modifies this`states, this`clock, this`ticks, this`replies
      ensures Valid() && old(clock) <= clock
      ensures states == old(states) || OnlyKey(old(states), states, ScanKey(true, server.name))
      ensures error.Some? ==>
                if CallFailed(old(replies), agentMode) then
                  error.value == CallError(old(replies)) && replies == AfterLocal(server, agentMode, old(replies))
                else LeadsToUpdates(Head(old(replies)), agentMode) && error.value == CANCELLED && Over(ctx)
      ensures error.None? ==>
                && LocalFollows(if r.error != "" then Reported else Finished, server, r, agentMode, old(replies))
                && r == Result(server.name, server.address, true, r.checkedAt, r.containers, r.error, None)
                && replies == AfterLocal(server, agentMode, old(replies))
      ensures var scan := Head(old(replies)).containers;
              error.None? && r.error == "" && DistinctIds(scan) ==>
                && Count(r.containers, Detected) == Count(scan, Detected)
                && Count(r.containers, Broken) == Count(scan, Broken)
    {
      var scan := Next();
      if scan.failed {
        return Result("", "", false, 0, [], "", None), Some(scan.message);
      }
      r := Result(server.name, server.address, true, scan.checkedAt, scan.containers, scan.error, None);
      if r.error != "" || agentMode {
        return r, None;
      }
      var answer, updated := AutoUpdateLocal(server, r, ctx);
      if answer.Err? {
        return r, Some(answer.message);
      }
      return answer.value, None;
    }

    /** What runScan does when the scan or the update of a server returned an error. */
    method FailServer(server: Server, message: string, ctx: Context) returns (r: Result, ghost fate: Fate)
      requires Valid() && !server.maintenance
      modifies this`states, this`clock, this`ticks
      ensures Valid() && old(clock) <= clock
      ensures fate in {Stopped, Failed} && Fits(fate, server, r, lastScans, fold) && r.error == message
      ensures OneServer(old(states), states, ScanKey(true, server.name), fate)
      ensures fate.Stopped? ==> Over(ctx)
      ensures fate.Failed? ==> !(ctx.Some? && ctx.value <= old(clock))
    {
      var cancelled := Cancelled(ctx);
      if cancelled {
        SetScanState(true, server.name, ScanStates.Cancelled);
        fate := Stopped;
      } else {
        SetScanState(true, server.name, ScanStates.Error);
        fate := Failed;
      }
      var now := Now();
      r := Result(server.name, server.address, true, now, [], message, None);
    }

    /** runScan: one result for every configured server, in order, wherever cancellation strikes. */
    method RunScan(servers: seq<Server>, ctx: Context) returns (v: Verdict, ghost fates: seq<Fate>)
      requires Valid()
      modifies this
      ensures Valid() && old(clock) <= clock
      ensures scanRunning == old(scanRunning) && updateRunning == old(updateRunning)
      ensures v.InProgress? <==> old(scanRunning) || old(updateRunning)
      ensures v.InProgress? ==> states == old(states) && lastScan == old(lastScan) && lastScans == old(lastScans)
      ensures v.Scanned? ==>
                && |lastScans| == |fates| == |servers|
                && v.first == lastScan == (if servers == [] then None else Some(lastScans[0]))
      ensures v.Scanned? ==>
                && CutOnce(fates)
                && LocalTraced(old(states), states, servers, fates, lastScans, old(lastScans), fold, agentMode,
                               old(replies))
      ensures v.Scanned? ==> forall f :: f in fates && CutShort(f) ==> Over(ctx)
      ensures v.Scanned? && ctx.Some? && ctx.value <= old(clock) ==> forall f :: f in fates ==> f.NotStarted?
      ensures v.Scanned? ==> DoneWithoutError(servers, lastScans, states)
      ensures v.Scanned? ==> forall i :: 0 <= i < |servers| && !servers[i].maintenance ==>
                               Terminal(At(states, ScanKey(true, servers[i].name)).phase)
    {
      if scanRunning || updateRunning {
        return InProgress, [];
      }
      scanRunning := true;
      var results;
      results, fates := ScanAll(servers, ctx);
      EveryoneEndsTerminal(old(states), states, servers, fates, results, lastScans, fold);
      LocalIsDoneWithoutError(old(states), states, servers, fates, results, lastScans, fold);
      scanRunning := false;
      if results != [] {
        lastScan := Some(results[0]);
      } else {
        lastScan := None;
      }
      lastScans := results;
      return Scanned(lastScan), fates;
    }

    /** The loop of runScan. */
    method ScanAll(servers: seq<Server>, ctx: Context) returns (results: seq<Result>, ghost fates: seq<Fate>)
      requires Valid()
      modifies this`states, this`clock, this`ticks, this`replies
      ensures Valid() && old(clock) <= clock
      ensures |fates| == |servers|
      ensures LocalTraced(old(states), states, servers, fates, results, lastScans, fold, agentMode, old(replies))
      ensures CutOnce(fates)
      ensures forall f :: f in fates && CutShort(f) ==> Over(ctx)
      ensures ctx.Some? && ctx.value <= old(clock) ==> forall f :: f in fates ==> f.NotStarted?
    {
      results, fates := [], [];
      for i := 0 to |servers|
        invariant Valid() && old(clock) <= clock
        invariant |fates| == i && Reached(fates, Over(ctx))
        invariant i > 0 ==> !(ctx.Some? && ctx.value <= old(clock))
        invariant Over(ctx) || replies == LocalRepliesAt(servers, agentMode, old(replies), i)
        invariant LocalTraced(old(states), states, servers, fates, results, lastScans, fold, agentMode, old(replies))
      {
        var cancelled := Cancelled(ctx);
        if cancelled {
          ghost var reached := fates;
          results, fates := CancelRest(servers, i, ctx, results, fates, old(states), old(replies));
          ReachedIsCutOnce(reached, fates, true);
          return;
        }
        ghost var fate;
        results, fate := VisitServer(servers, i, ctx, results, fates, old(states), old(replies));
        OneMoreReached(fates, fate, Over(ctx));
        fates := fates + [fate];
      }
      ReachedIsCutOnce(fates, fates, Over(ctx));
    }

    /** The body of runScan's loop while the context lives. */
    method VisitServer(servers: seq<Server>, i: nat, ctx: Context, before: seq<Result>, ghost fates: seq<Fate>,
                       ghost was: States, ghost answers: seq<Reply>)
      returns (results: seq<Result>, ghost fate: Fate)
      requires Valid() && |fates| == i < |servers| && replies == LocalRepliesAt(servers, agentMode, answers, i)
      requires LocalTraced(was, states, servers, fates, before, lastScans, fold, agentMode, answers)
      modifies this`states, this`clock, this`ticks, this`replies
      ensures Valid() && old(clock) <= clock
      ensures !fate.NotStarted? && (fate.Stopped? ==> Over(ctx))
      ensures fate.Stopped? || replies == LocalRepliesAt(servers, agentMode, answers, i + 1)
      ensures LocalTraced(was, states, servers, fates + [fate], results, lastScans, fold, agentMode, answers)
    {
      var r;
      if servers[i].maintenance {
        r := SkipServer(servers[i]);
        fate := Maintained;
      } else {
        r, fate := ScanServer(servers[i], ctx);
      }
      OneMoreLocal(was, old(states), states, servers, fates, before, lastScans, fold, agentMode, answers, fate, r);
      results := before + [r];
    }

    /** A server in maintenance keeps its last result. */
    method SkipServer(server: Server) returns (r: Result)
      requires server.maintenance
      ensures Fits(Maintained, server, r, lastScans, fold)
    {
      var previous := FindLocalScan(lastScans, server.name, fold);
      if previous.Some? {
        return previous.value;
      }
      return Result(server.name, server.address, true, 0, [], "", None);
    }

    /** What runScan does with the servers it did not reach. */
    method CancelRest(servers: seq<Server>, from: nat, ctx: Context, results: seq<Result>, ghost fates: seq<Fate>,
                      ghost was: States, ghost answers: seq<Reply>)
      returns (all: seq<Result>, ghost allFates: seq<Fate>)
      requires Valid() && |fates| == from <= |servers| && Over(ctx)
      requires LocalTraced(was, states, servers, fates, results, lastScans, fold, agentMode, answers)
      modifies this`states, this`clock, this`ticks
      ensures Valid() && old(clock) <= clock && Over(ctx)
      ensures |allFates| == |servers| && ThenNotStarted(fates, allFates)
      ensures LocalTraced(was, states, servers, allFates, all, lastScans, fold, agentMode, answers)
    {
      all, allFates := results, fates;
      for j := from to |servers|
        invariant Valid() && old(clock) <= clock && Over(ctx)
        invariant |allFates| == j && ThenNotStarted(fates, allFates)
        invariant LocalTraced(was, states, servers, allFates, all, lastScans, fold, agentMode, answers)
      {
        ghost var mid := states;
        SetScanState(true, servers[j].name, ScanStates.Cancelled);
        var now := Now();
        var r := Result(servers[j].name, servers[j].address, true, now, [], "scan cancelled manually (not started)",
                        None);
        OneMoreNotStarted(was, mid, states, servers, allFates, all, lastScans, fold, agentMode, answers, r);
        all := all + [r];
        allFates := allFates + [NotStarted];
      }
    }

    // ---- All servers at once ------------------------------------------------------------

    method ResetScanStates(locals: seq<Server>, remotes: seq<Server>)
      requires Valid()
      modifies this`states
      ensures Valid()
      ensures states == Step(old(states), ResetAll(Keys(true, locals) + Keys(false, remotes), clock))
    {
      ghost var here, there := Keys(true, locals), Keys(false, remotes);
      StepKeepsSeen(states, ResetAll(here + there, clock), clock);
      ResetTwice(states, here, there);
      ResetServers(true, locals);
      ResetServers(false, remotes);
    }

    /** One loop of resetScanStates. */
    method ResetServers(local: bool, servers: seq<Server>)
      modifies this`states
      ensures states == Reset(old(states), Keys(local, servers))
    {
      for i := 0 to |servers|
        invariant states == Reset(old(states), Keys(local, servers[..i]))
      {
        OneMoreKey(local, servers, i);
        ResetOne(old(states), Keys(local, servers[..i]), ScanKey(local, servers[i].name));
        states := states[ScanKey(local, servers[i].name) := ScanState(Idle, 0, 0)];
      }
      assert servers[..|servers|] == servers;
    }

    /** setAllScanStates: every server that will be scanned, and no other. */
    method SetAllScanStates(locals: seq<Server>, remotes: seq<Server>, online: string -> bool, phase: Phase)
      requires Valid()
      modifies this`states, this`clock, this`ticks
      ensures Valid() && old(clock) <= clock
      ensures phase.Idle? ==> states == Step(old(states), ResetAll(Keys(true, locals) + Keys(false, remotes), clock))
      ensures !phase.Idle? ==>
                MarkedAs(old(states), states,
                         Keys(true, Awake(locals, _ => true)) + Keys(false, Awake(remotes, online)), phase)
    {
      if phase == Idle {
        ResetScanStates(locals, remotes);
        return;
      }
      ghost var here := MarkAwake(true, locals, _ => true, phase, states, {});
      ghost var there := MarkAwake(false, remotes, online, phase, old(states), here);
      assert {} + here == here;
    }

    /** One loop of setAllScanStates. */
    method MarkAwake(local: bool, servers: seq<Server>, online: string -> bool, phase: Phase, ghost was: States,
                     ghost keys: set<string>)
      returns (ghost marked: set<string>)
      requires Valid() && MarkedAs(was, states, keys, phase)
      modifies this`states, this`clock, this`ticks
      ensures Valid() && old(clock) <= clock
      ensures marked == keys + Keys(local, Awake(servers, online)) && MarkedAs(was, states, marked, phase)
    {
      marked := keys;
      for i := 0 to |servers|
        invariant Valid() && old(clock) <= clock
        invariant marked == keys + Keys(local, Awake(servers[..i], online)) && MarkedAs(was, states, marked, phase)
      {
        OneMoreAwake(local, servers, i, online);
        if servers[i].maintenance {
          continue;
        }
        if !online(servers[i].name) {
          continue;
        }
        ghost var mid, key := states, ScanKey(local, servers[i].name);
        SetScanState(local, servers[i].name, phase);
        MarkOne(was, mid, states, marked, key, phase);
        Regrouped(keys, Keys(local, Awake(servers[..i], online)), {key});
        marked := marked + {key};
      }
      assert servers[..|servers|] == servers;
    }

    // ---- Remote servers -----------------------------------------------------------------

    /** updateLastScans */
    method UpdateLastScans(result: Result) returns (ghost r: Result)
      modifies this`lastScan, this`lastScans
      ensures r == result.(shown := r.shown)
      ensures var s := At(states, ScanKey(result.local, result.server));
              r.shown == if s.phase.Idle? then result.shown else Some(s)
      ensures lastScans == Recorded(old(lastScans), r)
      ensures lastScan == if old(lastScan).None? || old(lastScan).value.server in {"", r.server} then Some(r)
                          else old(lastScan)
    {
      var shown := ApplyScanState(result);
      r := shown;
      var updated := false;
      for i := 0 to |lastScans|
        invariant lastScans == old(lastScans) && lastScan == old(lastScan) && !updated
        invariant forall j :: 0 <= j < i ==> !About(lastScans[j], shown.local, shown.server)
      {
        if lastScans[i].server == shown.server && lastScans[i].local == shown.local {
          RecordedAt(lastScans, shown, i);
          lastScans := lastScans[i := shown];
          updated := true;
          break;
        }
      }
      if !updated {
        RecordedAt(lastScans, shown, |lastScans|);
        lastScans := lastScans + [shown];
      }
      if lastScan.None? || lastScan.value.server == "" || lastScan.value.server == shown.server {
        lastScan := Some(shown);
      }
    }

    /** applyScanState */
    method ApplyScanState(result: Result) returns (r: Result)
      ensures var s := At(states, ScanKey(result.local, result.server));
              r == result.(shown := if s.phase.Idle? then result.shown else Some(s))
    {
      var key := ScanKey(result.local, result.server);
      if key !in states {
        return result;
      }
      if states[key].phase == Idle {
        return result;
      }
      return result.(shown := Some(states[key]));
    }

    /** waitForRemoteUpdateConfirmation, by the last status read before the wait is over. */
    method WaitForConfirmation(target: ContainerStatus) returns (a: Answer<Reply>)
      modifies this`replies
      ensures replies == Tail(old(replies))
      ensures var status := Head(old(replies));
              a == if Confirmed(status, target) then Ok(status) else Err(status.message)
    {
      var status := Next();
      if status.failed {
        return Err(status.message);
      }
      for i := 0 to |status.containers|
        invariant forall j :: 0 <= j < i ==> !Confirms(status.containers[j], target)
      {
        var c := status.containers[i];
        if c.name != target.name && c.id != target.id {
          continue;
        }
        if c.updated && !c.updateAvailable {
          return Ok(status);
        }
      }
      return Err(status.message);
    }

    /** One turn of autoUpdateRemote's loop. */
    method UpdateOne(server: Server, result: Result, before: nat, target: ContainerStatus)
      returns (r: Result, updated: nat, error: Option<string>)
      requires Valid() && OfRemote(server, result)
      modifies this`clock, this`ticks, this`replies
      ensures Valid() && old(clock) <= clock && OfRemote(server, r)
      ensures error.None? ==> GoesOn(target, result.error, before, old(replies), r.error, updated, replies)
      ensures error.None? ==> TurnLeaves(target, old(replies), result.containers, r.containers)
      ensures error.Some? ==> EndsHere(target, old(replies), error.value, replies) && r == result && updated == before
    {
      var update := Next();
      if update.failed && !(update.disconnected && IsAgent(target)) {
        var now := Now();
        var containers := MarkError(result.containers, target.id, update.message, now);
        assert FirstFails(result.containers, target.id, update.message, now, containers);
        return result.(containers := containers), before, None;
      }
      if update.failed || (!update.updated && update.restarting) {
        var confirmation := WaitForConfirmation(target);
        if confirmation.Err? {
          return result, before, Some(confirmation.message);
        }
        var status := confirmation.value;
        var now := Now();
        var checkedAt := if status.checkedAt == 0 then now else status.checkedAt;
        r := Result(server.name, server.address, false, checkedAt, status.containers, status.error, None);
        return r, before + 1, None;
      }
      var now := Now();
      var containers := MarkContainer(result.containers, target.id, update.updated, now);
      assert FirstIsMarked(result.containers, target.id, update.updated, now, containers);
      return result.(containers := containers), if update.updated then before + 1 else before, None;
    }

    /** autoUpdateRemote; `cut` is the number of the target before which it found the context cancelled. */
    method AutoUpdateRemote(server: Server, result: Result, ctx: Context)
      returns (r: Result, updated: nat, error: Option<string>, ghost cut: Option<nat>)
      requires Valid() && OfRemote(server, result)
      modifies this`states, this`clock, this`ticks, this`replies
      ensures Valid() && old(clock) <= clock && OfRemote(server, r)
      ensures states == old(states) || OnlyKey(old(states), states, ScanKey(false, server.name))
      ensures UpdatesEnd(result.error, 0, AgentsLast(Targets(result.containers)), old(replies), cut)
              == End(r.error, error, updated, replies)
      ensures cut.Some? ==> Over(ctx) && error.Some?
      ensures Targets(result.containers) == [] ==> r == result
    {
      var selected := SelectTargets(result.containers);
      if selected == [] {
        return result, 0, None, None;
      }
      SetScanState(false, server.name, Updating);
      r, updated, error, cut := UpdateAll(server, result, AgentsLast(selected), ctx);
    }

    /** The loop of autoUpdateRemote. */
    method UpdateAll(server: Server, result: Result, targets: seq<ContainerStatus>, ctx: Context)
      returns (r: Result, updated: nat, error: Option<string>, ghost cut: Option<nat>)
      requires Valid() && OfRemote(server, result)
      modifies this`clock, this`ticks, this`replies
      ensures Valid() && old(clock) <= clock && OfRemote(server, r)
      ensures UpdatesEnd(result.error, 0, targets, old(replies), cut) == End(r.error, error, updated, replies)
      ensures cut.Some? ==> Over(ctx) && error.Some?
    {
      r, updated := result, 0;
      ghost var whole := Course(result.error, 0, targets, replies);
      for k := 0 to |targets|
        invariant Valid() && old(clock) <= clock && OfRemote(server, r)
        invariant LeadsTo(whole, k, Course(r.error, updated, targets[k..], replies))
      {
        var cancelled := Cancelled(ctx);
        ghost var here := Course(r.error, updated, targets[k..], replies);
        if cancelled {
          CutHere(whole, k, here);
          return r, updated, Some(CANCELLED), Some(k);
        }
        r, updated, error := UpdateOne(server, r, updated, targets[k]);
        if error.Some? {
          EndHere(whole, k, here, error.value, replies);
          return r, updated, error, None;
        }
        NextTurn(whole, k, here, Course(r.error, updated, targets[k + 1..], replies));
      }
      NoneLeft(whole, |targets|, Course(r.error, updated, targets[|targets|..], replies));
      return r, updated, None, None;
    }

    /** The body of triggerRemoteScans' loop for a server that is online. */
    method ScanRemote(server: Server, ctx: Context) returns (fate: Fate, ghost r: Result)
      requires Valid()
      modifies this`states, this`clock, this`ticks, this`replies, this`lastScan, this`lastScans
      ensures Valid() && old(clock) <= clock
      ensures fate in {Stopped, Failed, Finished}
      ensures OneServer(old(states), states, ScanKey(false, server.name), fate)
      ensures fate.Stopped? ==> Over(ctx)
      ensures fate.Stopped? || replies == AskEnd(old(replies), None).rest
      ensures lastScans == Recorded(old(lastScans), r) && FromRemote(server, r, fate, old(replies))
    {
      ghost var cut;
      var result;
      fate, result, cut := ScanAndUpdateRemote(server, ctx);
      r := UpdateLastScans(result);
      assert EndedBy(fate, old(replies), cut, r.error);
    }

    /** The same up to the recording of the result. */
    method ScanAndUpdateRemote(server: Server, ctx: Context)
      returns (fate: Fate, result: Result, ghost cut: Option<nat>)
      requires Valid()
      modifies this`states, this`clock, this`ticks, this`replies
      ensures Valid() && old(clock) <= clock && OfRemote(server, result)
      ensures fate in {Stopped, Failed, Finished}
      ensures OneServer(old(states), states, ScanKey(false, server.name), fate)
      ensures fate.Stopped? ==> Over(ctx)
      ensures EndedBy(fate, old(replies), cut, result.error)
      ensures fate.Stopped? || replies == AskEnd(old(replies), None).rest
    {
      ghost var key := ScanKey(false, server.name);
      SetScanState(false, server.name, Scanning);
      ghost var started := states;
      var error;
      result, error, cut := AskRemote(server, ctx);
      if states != started {
        OnlyKeyTwice(old(states), started, states, key);
      }
      started := states;
      fate := EndRemote(server, error.Some?, ctx);
      OnlyKeyTwice(old(states), started, states, key);
    }

    method EndRemote(server: Server, failed: bool, ctx: Context) returns (fate: Fate)
      requires Valid()
      modifies this`states, this`clock, this`ticks
      ensures Valid() && old(clock) <= clock
      ensures fate in {Stopped, Failed, Finished} && (fate.Finished? <==> !failed)
      ensures OneServer(old(states), states, ScanKey(false, server.name), fate)
      ensures fate.Stopped? ==> Over(ctx)
      ensures fate.Failed? ==> !(ctx.Some? && ctx.value <= old(clock))
    {
      if failed {
        fate := FailRemote(server, ctx);
      } else {
        SetScanState(false, server.name, ScanStates.Done);
        fate := Finished;
      }
    }

    /** The scan of a remote server and its updates; a failed scan gives a result without containers. */
    method AskRemote(server: Server, ctx: Context) returns (r: Result, error: Option<string>, ghost cut: Option<nat>)
      requires Valid()
      modifies this`states, this`clock, this`ticks, this`replies
      ensures Valid() && old(clock) <= clock && OfRemote(server, r)
      ensures states == old(states) || OnlyKey(old(states), states, ScanKey(false, server.name))
      ensures var end := AskEnd(old(replies), cut); error == end.error && r.error == Shown(end) && replies == end.rest
      ensures cut.Some? ==> Over(ctx) && error.Some?
    {
      var scan := Next();
      if scan.failed {
        var now := Now();
        return Result(server.name, server.address, false, now, [], scan.message, None), Some(scan.message), None;
      }
      r := Result(server.name, server.address, false, scan.checkedAt, scan.containers, scan.error, None);
      var updated;
      r, updated, error, cut := AutoUpdateRemote(server, r, ctx);
      if error.Some? {
        r := r.(error := error.value);
      }
    }

    method FailRemote(server: Server, ctx: Context) returns (fate: Fate)
      requires Valid()
      modifies this`states, this`clock, this`ticks
      ensures Valid() && old(clock) <= clock
      ensures fate in {Stopped, Failed} && OneServer(old(states), states, ScanKey(false, server.name), fate)
      ensures fate.Stopped? ==> Over(ctx)
      ensures fate.Failed? ==> !(ctx.Some? && ctx.value <= old(clock))
    {
      var cancelled := Cancelled(ctx);
      if cancelled {
        SetScanState(false, server.name, ScanStates.Cancelled);
        return Stopped;
      }
      SetScanState(false, server.name, ScanStates.Error);
      return Failed;
    }

    /** The body of triggerRemoteScans' loop while the context lives. */
    method VisitRemote(remotes: seq<Server>, ctx: Context, ghost fates: seq<Fate>, i: nat, ghost was: States,
                       ghost scans: seq<Result>, ghost all: seq<Reply>)
      returns (fate: Fate)
      requires Valid() && |fates| == i < |remotes| && replies == RepliesAt(remotes, all, i)
      requires Traced(was, states, scans, lastScans, remotes, fates, all)
      modifies this`states, this`clock, this`ticks, this`replies, this`lastScan, this`lastScans
      ensures Valid() && old(clock) <= clock
      ensures fate in {Maintained, Offline, Stopped, Failed, Finished} && (fate.Stopped? ==> Over(ctx))
      ensures fate.Stopped? || replies == RepliesAt(remotes, all, i + 1)
      ensures Traced(was, states, scans, lastScans, remotes, fates + [fate], all)
    {
      if remotes[i].maintenance {
        fate := Maintained;
        NotAttemptedIsTraced(was, states, states, scans, lastScans, remotes, fates, fate, all);
        return;
      }
      var status := Next();
      if !status.online {
        fate := Offline;
        SetScanState(false, remotes[i].name, Idle);
        NotAttemptedIsTraced(was, old(states), states, scans, lastScans, remotes, fates, fate, all);
        return;
      }
      ghost var r;
      fate, r := ScanRemote(remotes[i], ctx);
      AttemptIsTraced(was, old(states), states, scans, old(lastScans), lastScans, remotes, fates, fate, all, r);
    }

    /** triggerRemoteScans */
    method TriggerRemoteScans(remotes: seq<Server>, ctx: Context)
      returns (success: nat, fail: nat, cancelled: nat, ghost fates: seq<Fate>)
      requires Valid()
      modifies this`states, this`clock, this`ticks, this`replies, this`lastScan, this`lastScans
      ensures Valid() && old(clock) <= clock
      ensures |fates| == |remotes|
      ensures Tally(CountsOf(fates), success, fail, cancelled)
      ensures success + fail + cancelled + CountsOf(fates).maintained + CountsOf(fates).offline == |remotes|
      ensures CutOnce(fates)
      ensures forall f :: f in fates && CutShort(f) ==> Over(ctx)
      ensures Traced(old(states), states, old(lastScans), lastScans, remotes, fates, old(replies))
      ensures ctx.None? ==> forall f :: f in fates ==> !f.NotStarted? && !f.Stopped?
    {
      success, fail, cancelled, fates := 0, 0, 0, [];
      for i := 0 to |remotes|
        invariant Valid() && old(clock) <= clock
        invariant |fates| == i
        invariant Reached(fates, Over(ctx))
        invariant Tally(CountsOf(fates), success, fail, cancelled)
        invariant Over(ctx) || replies == RepliesAt(remotes, old(replies), i)
        invariant Traced(old(states), states, old(lastScans), lastScans, remotes, fates, old(replies))
      {
        var stop := Cancelled(ctx);
        if stop {
          ghost var reached := fates;
          cancelled, fates := CancelRemotes(remotes, i, ctx, success, fail, cancelled, fates, old(states),
                                            old(lastScans), old(replies));
          ReachedIsCutOnce(reached, fates, true);
          CountersAddUp(fates, remotes, old(replies), success, fail, cancelled);
          return;
        }
        var fate := VisitRemote(remotes, ctx, fates, i, old(states), old(lastScans), old(replies));
        OneMoreReached(fates, fate, Over(ctx));
        OneMoreCounted(fates, fate);
        match fate {
          case Stopped => cancelled := cancelled + 1;
          case Failed => fail := fail + 1;
          case Finished => success := success + 1;
          case _ =>
        }
        fates := fates + [fate];
      }
      ReachedIsCutOnce(fates, fates, Over(ctx));
      CountersAddUp(fates, remotes, old(replies), success, fail, cancelled);
    }

    method CancelRemotes(remotes: seq<Server>, from: nat, ctx: Context, ghost success: nat, ghost fail: nat,
                         before: nat, ghost fates: seq<Fate>, ghost was: States, ghost scans: seq<Result>,
                         ghost answers: seq<Reply>)
      returns (cancelled: nat, ghost all: seq<Fate>)
      requires Valid() && |fates| == from <= |remotes| && Over(ctx)
      requires Tally(CountsOf(fates), success, fail, before)
      requires Traced(was, states, scans, lastScans, remotes, fates, answers)
      modifies this`states, this`clock, this`ticks
      ensures Valid() && old(clock) <= clock && Over(ctx)
      ensures |all| == |remotes| && ThenNotStarted(fates, all)
      ensures Tally(CountsOf(all), success, fail, cancelled)
      ensures Traced(was, states, scans, lastScans, remotes, all, answers)
    {
      cancelled, all := before, fates;
      for j := from to |remotes|
        invariant Valid() && old(clock) <= clock && Over(ctx)
        invariant |all| == j && ThenNotStarted(fates, all)
        invariant Tally(CountsOf(all), success, fail, cancelled)
        invariant Traced(was, states, scans, lastScans, remotes, all, answers)
      {
        ghost var mid := states;
        SetScanState(false, remotes[j].name, ScanStates.Cancelled);
        NotAttemptedIsTraced(was, mid, states, scans, lastScans, remotes, all, NotStarted, answers);
        OneMoreCounted(all, NotStarted);
        cancelled := cancelled + 1;
        all := all + [NotStarted];
      }
    }
  }

  // ---- Keys -----------------------------------------------------------------------------

  function Keys(local: bool, servers: seq<Server>): set<string> {
    set i | 0 <= i < |servers| :: ScanKey(local, servers[i].name)
  }

  lemma OneMoreKey(local: bool, servers: seq<Server>, i: nat)
    requires i < |servers|
    ensures Keys(local, servers[..i + 1]) == Keys(local, servers[..i]) + {ScanKey(local, servers[i].name)}
  {
    assert servers[..i + 1] == servers[..i] + [servers[i]];
    KeysAdd(local, servers[..i], servers[i]);
  }

  lemma KeysAdd(local: bool, servers: seq<Server>, s: Server)
    ensures Keys(local, servers + [s]) == Keys(local, servers) + {ScanKey(local, s.name)}
  {
    var all := servers + [s];
    forall key | key in Keys(local, servers)
      ensures key in Keys(local, all)
    {
      var i :| 0 <= i < |servers| && ScanKey(local, servers[i].name) == key;
      assert all[i] == servers[i];
    }
    assert all[|servers|] == s;
  }

  /** The servers that are neither in maintenance nor offline. */
  function Awake(servers: seq<Server>, online: string -> bool): seq<Server> {
    if servers == [] then []
    else
      var last := servers[|servers| - 1];
      Awake(servers[..|servers| - 1], online) + if !last.maintenance && online(last.name) then [last] else []
  }

  lemma {:induction false} WhoIsAwake(servers: seq<Server>, online: string -> bool, s: Server)
    ensures s in Awake(servers, online) <==> s in servers && !s.maintenance && online(s.name)
  {
    if servers != [] {
      SplitLast(servers);
      WhoIsAwake(servers[..|servers| - 1], online, s);
    }
  }

  lemma OneMoreAwake(local: bool, servers: seq<Server>, i: nat, online: string -> bool)
    requires i < |servers|
    ensures Keys(local, Awake(servers[..i + 1], online))
            == Keys(local, Awake(servers[..i], online))
               + if !servers[i].maintenance && online(servers[i].name) then {ScanKey(local, servers[i].name)} else {}
  {
    assert servers[..i + 1][..i] == servers[..i];
    if !servers[i].maintenance && online(servers[i].name) {
      KeysAdd(local, Awake(servers[..i], online), servers[i]);
    } else {
      assert Awake(servers[..i], online) + [] == Awake(servers[..i], online);
    }
  }

  ghost predicate MarkedAs(was: States, now: States, keys: set<string>, phase: Phase) {
    && now.Keys == was.Keys + keys
    && forall key :: key in now ==> if key in keys then now[key].phase == phase else now[key] == was[key]
  }

  lemma MarkOne(was: States, mid: States, now: States, keys: set<string>, key: string, phase: Phase)
    requires MarkedAs(was, mid, keys, phase) && OnlyKey(mid, now, key) && now[key].phase == phase
    ensures MarkedAs(was, now, keys + {key}, phase)
  {
  }

  lemma ResetOne(states: States, keys: set<string>, key: string)
    ensures Reset(states, keys)[key := ScanState(Idle, 0, 0)] == Reset(states, keys + {key})
  {
  }

  lemma ResetTwice(states: States, a: set<string>, b: set<string>)
    ensures Reset(Reset(states, a), b) == Reset(states, a + b)
  {
  }

  lemma Regrouped(a: set<string>, b: set<string>, c: set<string>)
    ensures a + b + c == a + (b + c)
  {
  }

  // ---- Remote results -------------------------------------------------------------------

  predicate Attempted(f: Fate) {
    f.Stopped? || f.Failed? || f.Finished?
  }

  /** What a remote's fate says about its configuration and about the answers it got: a status, then
      those of the scan and its updates, the last cut short only for a remote that was stopped. */
  ghost predicate FollowsFrom(f: Fate, server: Server, replies: seq<Reply>) {
    match f
    case NotStarted => true
    case Maintained => server.maintenance
    case Offline => !server.maintenance && !Head(replies).online
    case Stopped | Failed | Finished =>
      !server.maintenance && Head(replies).online && exists cut, error :: EndedBy(f, Tail(replies), cut, error)
    case Reported => false
  }

  /** The scan ended so: done exactly if no call returned an error, and with this error shown. */
  ghost predicate EndedBy(f: Fate, replies: seq<Reply>, cut: Option<nat>, error: string) {
    && (cut.Some? ==> f.Stopped?)
    && (f.Finished? <==> AskEnd(replies, cut).error.None?)
    && error == Shown(AskEnd(replies, cut))
  }

  predicate OfRemote(server: Server, r: Result) {
    r.server == server.name && r.url == server.address && !r.local && r.shown == None
  }

  ghost predicate AllFollow(fates: seq<Fate>, remotes: seq<Server>, replies: seq<Reply>) {
    && |fates| <= |remotes|
    && forall i {:trigger fates[i]} :: 0 <= i < |fates| ==>
         FollowsFrom(fates[i], remotes[i], RepliesAt(remotes, replies, i))
  }

  /** What is known of the remotes with these fates: the states and results they leave, and the answers
      they follow from. */
  ghost predicate Traced(was: States, now: States, scans: seq<Result>, last: seq<Result>, remotes: seq<Server>,
                         fates: seq<Fate>, replies: seq<Reply>)
  {
    && AllFollow(fates, remotes, replies)
    && Explained(was, now, false, remotes, fates)
    && RemotesRecorded(scans, last, remotes, fates, replies)
  }

  lemma NotAttemptedIsTraced(was: States, mid: States, now: States, scans: seq<Result>, last: seq<Result>,
                             remotes: seq<Server>, fates: seq<Fate>, f: Fate, replies: seq<Reply>)
    requires Traced(was, mid, scans, last, remotes, fates, replies) && |fates| < |remotes| && !Attempted(f)
    requires FollowsFrom(f, remotes[|fates|], RepliesAt(remotes, replies, |fates|))
    requires OneServer(mid, now, ScanKey(false, remotes[|fates|].name), f)
    ensures Traced(was, now, scans, last, remotes, fates + [f], replies)
  {
    OneMoreFollows(fates, remotes, replies, f);
    NotRecorded(scans, last, remotes, fates, f, replies);
    OneMoreServer(was, mid, now, false, remotes, fates, f);
  }

  lemma AttemptIsTraced(was: States, mid: States, now: States, scans: seq<Result>, before: seq<Result>,
                        last: seq<Result>,
                        remotes: seq<Server>, fates: seq<Fate>, f: Fate, replies: seq<Reply>, r: Result)
    requires Traced(was, mid, scans, before, remotes, fates, replies) && |fates| < |remotes| && Attempted(f)
    requires FollowsFrom(f, remotes[|fates|], RepliesAt(remotes, replies, |fates|))
    requires OneServer(mid, now, ScanKey(false, remotes[|fates|].name), f)
    requires last == Recorded(before, r)
    requires FromRemote(remotes[|fates|], r, f, Tail(RepliesAt(remotes, replies, |fates|)))
    ensures Traced(was, now, scans, last, remotes, fates + [f], replies)
  {
    OneMoreFollows(fates, remotes, replies, f);
    OneMoreRecorded(scans, before, last, remotes, fates, f, r, replies);
    OneMoreServer(was, mid, now, false, remotes, fates, f);
  }

  lemma OneMoreFollows(fates: seq<Fate>, remotes: seq<Server>, replies: seq<Reply>, f: Fate)
    requires AllFollow(fates, remotes, replies) && |fates| < |remotes|
    requires FollowsFrom(f, remotes[|fates|], RepliesAt(remotes, replies, |fates|))
    ensures AllFollow(fates + [f], remotes, replies)
  {
  }

  /** A recorded result of a remote that was scanned, given the answers to the scan. */
  ghost predicate FromRemote(server: Server, r: Result, f: Fate, replies: seq<Reply>) {
    && !r.local && r.server == server.name && r.url == server.address
    && (exists cut :: EndedBy(f, replies, cut, r.error))
    && r.shown.Some? && Some(r.shown.value.phase) == PhaseAfter(f)
  }

  /** Every attempted remote has a result that shows how an attempt under its name ended, and a
      name without an attempt keeps its result. Local results stay as they are, and no server gets a
      second result. */
  ghost predicate RemotesRecorded(was: seq<Result>, now: seq<Result>, remotes: seq<Server>, fates: seq<Fate>,
                                  replies: seq<Reply>)
    requires |fates| <= |remotes|
  {
    && (forall name :: RecordedFor(was, now, remotes, fates, replies, name))
    && Locals(now) == Locals(was)
    && (NoDuplicates(was) ==> NoDuplicates(now))
  }

  ghost predicate RecordedFor(was: seq<Result>, now: seq<Result>, remotes: seq<Server>, fates: seq<Fate>,
                              replies: seq<Reply>, name: string)
    requires |fates| <= |remotes|
  {
    match LastAttempt(remotes, fates, name)
    case None => ResultOf(now, false, name) == ResultOf(was, false, name)
    case Some(i) =>
      && i < |fates| && ResultOf(now, false, name).Some?
      && FromRemote(remotes[i], ResultOf(now, false, name).value, fates[i], Tail(RepliesAt(remotes, replies, i)))
  }

  function LastAttempt(remotes: seq<Server>, fates: seq<Fate>, name: string): Option<nat>
    requires |fates| <= |remotes|
    decreases |fates|
  {
    if fates == [] then None
    else
      var n := |fates| - 1;
      if remotes[n].name == name && Attempted(fates[n]) then Some(n) else LastAttempt(remotes, fates[..n], name)
  }

  lemma NotRecorded(was: seq<Result>, now: seq<Result>, remotes: seq<Server>, fates: seq<Fate>, f: Fate,
                    replies: seq<Reply>)
    requires |fates| < |remotes| && RemotesRecorded(was, now, remotes, fates, replies) && !Attempted(f)
    ensures RemotesRecorded(was, now, remotes, fates + [f], replies)
  {
    forall name
      ensures RecordedFor(was, now, remotes, fates + [f], replies, name)
    {
      assert (fates + [f])[..|fates|] == fates;
      assert RecordedFor(was, now, remotes, fates, replies, name);
    }
  }

  lemma OneMoreRecorded(was: seq<Result>, mid: seq<Result>, now: seq<Result>, remotes: seq<Server>, fates: seq<Fate>,
                        f: Fate, r: Result, replies: seq<Reply>)
    requires |fates| < |remotes| && RemotesRecorded(was, mid, remotes, fates, replies)
    requires Attempted(f) && now == Recorded(mid, r)
    requires FromRemote(remotes[|fates|], r, f, Tail(RepliesAt(remotes, replies, |fates|)))
    ensures RemotesRecorded(was, now, remotes, fates + [f], replies)
  {
    forall name
      ensures RecordedFor(was, now, remotes, fates + [f], replies, name)
    {
      assert (fates + [f])[..|fates|] == fates;
      assert RecordedFor(was, mid, remotes, fates, replies, name);
      RecordedIsFound(mid, r, false, name);
    }
    RemoteResultsKeepLocals(mid, r);
    if NoDuplicates(mid) {
      RecordedHasNoDuplicates(mid, r);
    }
  }

  /** The loop of updateLastScans finds the place of Recorded. */
  lemma {:induction false} RecordedAt(scans: seq<Result>, r: Result, i: nat)
    requires i <= |scans| && forall j :: 0 <= j < i ==> !About(scans[j], r.local, r.server)
    requires i < |scans| ==> About(scans[i], r.local, r.server)
    ensures Recorded(scans, r) == if i < |scans| then scans[i := r] else scans + [r]
  {
    if i > 0 {
      RecordedAt(scans[1..], r, i - 1);
      assert !About(scans[0], r.local, r.server);
      LaterPlace(scans, r, i);
    } else if scans != [] {
      assert scans[0 := r] == [r] + scans[1..];
    }
  }

  lemma {:induction false} LaterPlace(scans: seq<Result>, r: Result, i: nat)
    requires 0 < i <= |scans|
    ensures i < |scans| ==> [scans[0]] + scans[1..][i - 1 := r] == scans[i := r]
    ensures i == |scans| ==> [scans[0]] + (scans[1..] + [r]) == scans + [r]
  {
  }

  /** The last attempt at a remote leaves it done exactly if neither the scan call nor an update nor
      the wait for a restarted agent returned an error. The recorded error is then the agent's own:
      that of the last status that confirmed a restart, or of the scan's answer if none did. So a
      remote is done with an error exactly if that answer carried one. */
  lemma RemoteIsDoneUnlessACallFailed(was: seq<Result>, now: seq<Result>, remotes: seq<Server>, fates: seq<Fate>,
                                      replies: seq<Reply>, name: string, i: nat) returns (cut: Option<nat>)
    requires |fates| <= |remotes| && AllFollow(fates, remotes, replies)
    requires RemotesRecorded(was, now, remotes, fates, replies) && LastAttempt(remotes, fates, name) == Some(i)
    ensures i < |fates| && ResultOf(now, false, name).Some? && ResultOf(now, false, name).value.shown.Some?
    ensures cut.Some? ==> fates[i].Stopped?
    ensures var r, asked := ResultOf(now, false, name).value, Tail(RepliesAt(remotes, replies, i));
            && (r.shown.value.phase.Done? <==> AskEnd(asked, cut).error.None?)
            && (AskEnd(asked, cut).error.None? ==> r.error == LastError(asked))
            && (AskEnd(asked, cut).error.Some? ==> r.error == AskEnd(asked, cut).error.value)
            && (r.shown.value.phase.Done? && r.error != ""
                <==> AskEnd(asked, cut).error.None? && LastError(asked) != "")
  {
    assert RecordedFor(was, now, remotes, fates, replies, name);
    AttemptIsAttempted(remotes, fates, name);
    var r, asked := ResultOf(now, false, name).value, Tail(RepliesAt(remotes, replies, i));
    cut :| EndedBy(fates[i], asked, cut, r.error);
    LastErrorIsOwn(asked);
  }

  lemma {:induction false} AttemptIsAttempted(remotes: seq<Server>, fates: seq<Fate>, name: string)
    requires |fates| <= |remotes| && LastAttempt(remotes, fates, name).Some?
    ensures var i := LastAttempt(remotes, fates, name).value;
            i < |fates| && Attempted(fates[i]) && remotes[i].name == name
    decreases |fates|
  {
    var n := |fates| - 1;
    if !(remotes[n].name == name && Attempted(fates[n])) {
      AttemptIsAttempted(remotes, fates[..n], name);
    }
  }

  /** No later server of the same kind shares the key. */
  predicate LastOfKey(servers: seq<Server>, i: nat) {
    i < |servers| && forall j :: i < j < |servers| ==> ScanKey(true, servers[j].name) != ScanKey(true, servers[i].name)
  }

  /** A local server, by contrast, is done only without an error. */
  ghost predicate DoneWithoutError(servers: seq<Server>, results: seq<Result>, states: States) {
    && |results| == |servers|
    && forall i :: 0 <= i < |servers| && LastOfKey(servers, i) && !servers[i].maintenance ==>
         (At(states, ScanKey(true, servers[i].name)).phase.Done? ==> results[i].error == "")
  }

  lemma {:induction false} LocalIsDoneWithoutError(was: States, now: States, servers: seq<Server>, fates: seq<Fate>,
                                                   results: seq<Result>, previous: seq<Result>, fold: char -> char)
    requires |fates| == |servers| && AllFit(fates, servers, results, previous, fold)
    requires Explained(was, now, true, servers, fates)
    ensures DoneWithoutError(servers, results, now)
  {
    forall i | 0 <= i < |servers| && LastOfKey(servers, i) && !servers[i].maintenance
      ensures At(now, ScanKey(true, servers[i].name)).phase.Done? ==> results[i].error == ""
    {
      assert Fits(fates[i], servers[i], results[i], previous, fold);
      var j := TouchedServersHaveAPhase(true, servers, fates, i);
      assert j == i;
    }
  }

  lemma {:induction false} OneAgentAnswered(now: seq<Result>, remotes: seq<Server>, fates: seq<Fate>,
                                            replies: seq<Reply>)
    requires |remotes| == |fates| == 1 && fates[0] == Finished
    requires RemotesRecorded([], now, remotes, fates, replies)
    ensures ResultOf(now, false, remotes[0].name).Some?
    ensures FromRemote(remotes[0], ResultOf(now, false, remotes[0].name).value, Finished, Tail(replies))
  {
    assert LastAttempt(remotes, fates, remotes[0].name) == Some(0);
    assert RecordedFor([], now, remotes, fates, replies, remotes[0].name);
  }

  lemma {:induction false} OneAgentFinished(remotes: seq<Server>, fates: seq<Fate>, replies: seq<Reply>)
    requires |remotes| == |fates| == 1 && !remotes[0].maintenance && !CutShort(fates[0])
    requires Head(replies).online && AskEnd(Tail(replies), None).error.None?
    requires AllFollow(fates, remotes, replies)
    ensures fates[0] == Finished
  {
    assert RepliesAt(remotes, replies, 0) == replies;
    assert FollowsFrom(fates[0], remotes[0], replies);
  }

  /** What one agent's answers leave, when it is online and no call returned an error. */
  lemma {:induction false} OneAgentIsDone(now: seq<Result>, remotes: seq<Server>, fates: seq<Fate>, replies: seq<Reply>)
    requires |remotes| == |fates| == 1 && !remotes[0].maintenance && !CutShort(fates[0])
    requires Head(replies).online && AskEnd(Tail(replies), None).error.None?
    requires AllFollow(fates, remotes, replies) && RemotesRecorded([], now, remotes, fates, replies)
    ensures ResultOf(now, false, remotes[0].name).Some?
    ensures var r := ResultOf(now, false, remotes[0].name).value;
            && r.error == LastError(Tail(replies)) && r.server == remotes[0].name && !r.local
            && r.shown.Some? && r.shown.value.phase == Done
  {
    OneAgentFinished(remotes, fates, replies);
    OneAgentAnswered(now, remotes, fates, replies);
    LastErrorIsOwn(Tail(replies));
  }

  /** triggerRemoteScans of a controller that starts with one remote, never cancelled. */
  method ScanFirst(remotes: seq<Server>, replies: seq<Reply>) returns (last: seq<Result>, ghost fates: seq<Fate>)
    requires |remotes| == 1
    ensures |fates| == 1 && !CutShort(fates[0])
    ensures AllFollow(fates, remotes, replies) && RemotesRecorded([], last, remotes, fates, replies)
  {
    var scanner := new Scanner(false, c => c, 1, [], replies);
    var success, fail, cancelled;
    success, fail, cancelled, fates := scanner.TriggerRemoteScans(remotes, None);
    assert fates[0] in fates;
    last := scanner.lastScans;
  }

  /** A scan of one agent that is online and whose calls return no error. */
  method ScanOneAgent(server: Server, replies: seq<Reply>) returns (r: Result)
    requires !server.maintenance && Head(replies).online && AskEnd(Tail(replies), None).error.None?
    ensures r.error == LastError(Tail(replies)) && r.server == server.name && !r.local
    ensures r.shown.Some? && r.shown.value.phase == Done
  {
    var remotes := [server];
    ghost var fates;
    var last;
    last, fates := ScanFirst(remotes, replies);
    OneAgentIsDone(last, remotes, fates, replies);
    return ResultOf(last, false, server.name).value;
  }

  method ScanAgent(name: string, asked: seq<Reply>) returns (r: Result)
    requires AskEnd(asked, None).error.None?
    ensures r.error == LastError(asked) && r.server == name && !r.local
    ensures r.shown.Some? && r.shown.value.phase == Done
  {
    var replies := [NO_ANSWER.(online := true)] + asked;
    assert Tail(replies) == asked;
    r := ScanOneAgent(Server(name, "", false), replies);
  }

  /** An agent that answers with an error of its own is left done. */
  method RemoteDoneWithError() returns (r: Result)
    ensures r.error == "disk full" && r.shown.Some? && r.shown.value.phase == Done
  {
    var scan := NO_ANSWER.(failed := false, error := "disk full");
    r := ScanAgent("a", [scan]);
  }

  /** The agent's own container, due for an update, and its status once updated. */
  const SELF := ContainerStatus("1", "agent", "", true, "update", "", true, false, 0)
  const UPDATED_SELF := SELF.(updateAvailable := false, updated := true)

  /** A scan without an error whose update restarts the agent, which then reports one: done with it. */
  method RestartBringsError() returns (r: Result)
    ensures r.error == "scan cancelled manually" && r.shown.Some? && r.shown.value.phase == Done
  {
    r := RestartAgent("", "scan cancelled manually");
  }

  /** A scan with an error that the restart clears: done without one. */
  method RestartClearsError() returns (r: Result)
    ensures r.error == "" && r.shown.Some? && r.shown.value.phase == Done
  {
    r := RestartAgent("scan cancelled manually", "");
  }

  /** One agent that scans with one error, restarts for its update and comes back with another. */
  method RestartAgent(before: string, after: string) returns (r: Result)
    ensures r.error == after && r.shown.Some? && r.shown.value.phase == Done
  {
    var scan := NO_ANSWER.(failed := false, error := before, containers := [SELF]);
    var update := NO_ANSWER.(failed := false, restarting := true);
    var status := NO_ANSWER.(failed := false, error := after, containers := [UPDATED_SELF]);
    RestartedOnce(scan, update, status);
    r := ScanAgent("a", [scan, update, status]);
  }

  const WEB := ContainerStatus("2", "web", "", false, "update", "", true, false, 0)

  /** A container whose update breaks off, and the agent, which is updated after it: done. */
  method FailedUpdateBeforeAgent() returns (r: Result)
    ensures r.error == "" && r.shown.Some? && r.shown.value.phase == Done
  {
    var scan := NO_ANSWER.(failed := false, containers := [SELF, WEB]);
    var broken := NO_ANSWER.(disconnected := true);
    var updated := NO_ANSWER.(failed := false, updated := true);
    WebThenAgent(scan, broken, updated);
    r := ScanAgent("a", [scan, broken, updated]);
  }

  lemma {:induction false} WebThenAgent(scan: Reply, broken: Reply, updated: Reply)
    requires !scan.failed && scan.error == "" && scan.containers == [SELF, WEB]
    requires broken.failed && broken.disconnected && !updated.failed && updated.updated
    ensures AskEnd([scan, broken, updated], None).error.None? && LastError([scan, broken, updated]) == ""
  {
    TwoTargets(SELF, WEB);
    ShortNameIsNoAgent(WEB);
    OtherThenAgent(WEB, SELF);
    TwoPlainUpdates(scan.error, WEB, SELF, broken, updated);
    assert Tail([scan, broken, updated]) == [broken, updated];
    LastErrorIsOwn([scan, broken, updated]);
  }

  lemma {:induction false} RestartedOnce(scan: Reply, update: Reply, status: Reply)
    requires !scan.failed && scan.containers == [SELF] && !update.failed && !update.updated && update.restarting
    requires !status.failed && status.containers == [UPDATED_SELF]
    ensures AskEnd([scan, update, status], None).error.None? && LastError([scan, update, status]) == status.error
  {
    AgentAlone(SELF);
    assert Confirms(status.containers[0], SELF);
    OneRestart(scan.error, SELF, update, status);
    assert Tail([scan, update, status]) == [update, status];
    LastErrorIsOwn([scan, update, status]);
  }

  // ---- Counting remotes ------------------------------------------------------------------

  /** The three counters of triggerRemoteScans. */
  predicate Tally(c: Counts, success: nat, fail: nat, cancelled: nat) {
    success == c.finished && fail == c.failed && cancelled == c.notStarted + c.stopped
  }

  /** They leave out just the remotes skipped for maintenance or for being offline. */
  lemma CountersAddUp(fates: seq<Fate>, remotes: seq<Server>, replies: seq<Reply>, success: nat, fail: nat,
                      cancelled: nat)
    requires AllFollow(fates, remotes, replies) && Tally(CountsOf(fates), success, fail, cancelled)
    ensures success + fail + cancelled + CountsOf(fates).maintained + CountsOf(fates).offline == |fates|
  {
    CountsAddUp(fates);
    forall i | 0 <= i < |fates|
      ensures fates[i] != Reported
    {
      assert FollowsFrom(fates[i], remotes[i], RepliesAt(remotes, replies, i));
    }
  }

  /** With a result that fits for every server, no server outside maintenance is left active. */
  lemma EveryoneEndsTerminal(was: States, now: States, servers: seq<Server>, fates: seq<Fate>, results: seq<Result>,
                             previous: seq<Result>, fold: char -> char)
    requires |fates| == |servers| && AllFit(fates, servers, results, previous, fold)
    requires Explained(was, now, true, servers, fates)
    ensures forall i :: 0 <= i < |servers| && !servers[i].maintenance ==>
              Terminal(At(now, ScanKey(true, servers[i].name)).phase)
  {
    forall i | 0 <= i < |servers| && !servers[i].maintenance
      ensures Terminal(At(now, ScanKey(true, servers[i].name)).phase)
    {
      assert Fits(fates[i], servers[i], results[i], previous, fold);
      var j := TouchedServersHaveAPhase(true, servers, fates, i);
      assert Fits(fates[j], servers[j], results[j], previous, fold);
    }
  }
}

/** The reachability checks of internal/server/server_info.go: callers mark a server as pending, then
    put it on a bounded queue without the lock held; ten workers take it, check it and clear the
    mark. `Step` is one lock section or one channel operation of one of them. */
module CheckQueue {
  import opened Basics
  import opened Text

  const WORKERS := 10
  const CAPACITY := 128

  datatype Remote = Remote(name: string, maintenance: bool)

  /** serverInfoKey("remote", name) */
  function KeyOf(r: Remote): string {
    "remote:" + if TrimSpace(r.name) == "" then "unknown" else r.name
  }

  /** Two servers share a key only if they have one name, up to blank names and "unknown". */
  lemma KeyTellsApart(r: Remote, r': Remote)
    requires KeyOf(r) == KeyOf(r')
    ensures r.name == r'.name || (TrimSpace(r.name) == "" && TrimSpace(r'.name) == "")
            || (r.name == "unknown" && TrimSpace(r'.name) == "") || (TrimSpace(r.name) == "" && r'.name == "unknown")
  {
    var n := |"remote:"|;
    assert KeyOf(r)[n..] == if TrimSpace(r.name) == "" then "unknown" else r.name;
    assert KeyOf(r')[n..] == if TrimSpace(r'.name) == "" then "unknown" else r'.name;
  }

  /** `callers` have marked their server and are about to enqueue it, or, when in `turnedAway` by a
      full queue, to take the mark back. */
  datatype State = State(
    pending: set<string>, queue: seq<Remote>,
    callers: map<nat, Remote>, turnedAway: set<nat>,
    checking: map<nat, Remote>, stopped: set<nat>)

  const INITIAL := State({}, [], map[], {}, map[], {})

  datatype Event =
    | Mark(caller: nat, remote: Remote)
    | Enqueue(caller: nat)
    | FindFull(caller: nat)
    | Unmark(caller: nat)
    | Take(worker: nat)
    | Complete(worker: nat)
    | Shutdown(worker: nat)

  predicate Enabled(s: State, e: Event) {
    match e
    case Mark(c, _) => c !in s.callers
    case Enqueue(c) => c in s.callers && c !in s.turnedAway && |s.queue| < CAPACITY
    case FindFull(c) => c in s.callers && c !in s.turnedAway && |s.queue| >= CAPACITY
    case Unmark(c) => c in s.callers && c in s.turnedAway
    case Take(w) => w < WORKERS && w !in s.checking && w !in s.stopped && s.queue != []
    case Complete(w) => w in s.checking
    case Shutdown(w) => w < WORKERS && w !in s.checking
  }

  /** Whether ensureRemoteCheck answers at once, and with what. */
  function Answer(pending: set<string>, r: Remote): Option<bool> {
    if r.maintenance then Some(false)
    else if KeyOf(r) in pending then Some(true)
    else None
  }

  function Step(s: State, e: Event): State
    requires Enabled(s, e)
  {
    match e
    case Mark(c, r) =>
      if Answer(s.pending, r).Some? then s
      else s.(pending := s.pending + {KeyOf(r)}, callers := s.callers[c := r], turnedAway := s.turnedAway - {c})
    case Enqueue(c) => s.(queue := s.queue + [s.callers[c]], callers := s.callers - {c})
    case FindFull(c) => s.(turnedAway := s.turnedAway + {c})
    case Unmark(c) => s.(pending := s.pending - {KeyOf(s.callers[c])}, callers := s.callers - {c})
    case Take(w) => s.(queue := s.queue[1..], checking := s.checking[w := s.queue[0]])
    case Complete(w) => s.(pending := s.pending - {KeyOf(s.checking[w])}, checking := s.checking - {w})
    case Shutdown(w) => s.(stopped := s.stopped + {w})
  }

  // ---- Who owns a mark -----------------------------------------------------------

  /** The callers or workers that hold a server with key `k`. */
  function Holders(m: map<nat, Remote>, k: string): set<nat> {
    set c | c in m && KeyOf(m[c]) == k
  }

  function Queued(q: seq<Remote>, k: string): nat {
    if q == [] then 0 else (if KeyOf(q[0]) == k then 1 else 0) + Queued(q[1..], k)
  }

  function Owners(s: State, k: string): nat {
    |Holders(s.callers, k)| + Queued(s.queue, k) + |Holders(s.checking, k)|
  }

  ghost predicate Inv(s: State) {
    && |s.queue| <= CAPACITY
    && (forall w :: w in s.checking ==> w < WORKERS)
    && forall k :: Owners(s, k) == if k in s.pending then 1 else 0
  }

  lemma {:induction false} QueuedAppend(q: seq<Remote>, r: Remote, k: string)
    ensures Queued(q + [r], k) == Queued(q, k) + if KeyOf(r) == k then 1 else 0
  {
    if q == [] {
      assert q + [r] == [r];
    } else {
      assert (q + [r])[1..] == q[1..] + [r];
      QueuedAppend(q[1..], r, k);
    }
  }

  lemma HoldersAfterJoin(m: map<nat, Remote>, c: nat, r: Remote, k: string)
    requires c !in m
    ensures |Holders(m[c := r], k)| == |Holders(m, k)| + if KeyOf(r) == k then 1 else 0
  {
    assert Holders(m[c := r], k) == Holders(m, k) + if KeyOf(r) == k then {c} else {};
  }

  lemma HoldersAfterLeave(m: map<nat, Remote>, c: nat, k: string)
    requires c in m
    ensures |Holders(m - {c}, k)| == |Holders(m, k)| - if KeyOf(m[c]) == k then 1 else 0
  {
    assert Holders(m, k) == Holders(m - {c}, k) + if KeyOf(m[c]) == k then {c} else {};
  }

  /** What one event does to the number of owners of one key. */
  lemma OwnersAfter(s: State, e: Event, k: string)
    requires Enabled(s, e)
    ensures Owners(Step(s, e), k) == Owners(s, k)
              + (if e.Mark? && Answer(s.pending, e.remote).None? && KeyOf(e.remote) == k then 1 else 0)
              - (if e.Unmark? && KeyOf(s.callers[e.caller]) == k then 1 else 0)
              - (if e.Complete? && KeyOf(s.checking[e.worker]) == k then 1 else 0)
  {
    match e {
      case Mark(c, r) =>
        if Answer(s.pending, r).None? {
          HoldersAfterJoin(s.callers, c, r, k);
        }
      case Enqueue(c) =>
        HoldersAfterLeave(s.callers, c, k);
        QueuedAppend(s.queue, s.callers[c], k);
      case Unmark(c) => HoldersAfterLeave(s.callers, c, k);
      case Take(w) => HoldersAfterJoin(s.checking, w, s.queue[0], k);
      case Complete(w) => HoldersAfterLeave(s.checking, w, k);
      case _ =>
    }
  }

  lemma StepKeepsInv(s: State, e: Event)
    requires Inv(s) && Enabled(s, e)
    ensures Inv(Step(s, e))
  {
    forall k
      ensures Owners(Step(s, e), k) == if k in Step(s, e).pending then 1 else 0
    {
      OwnersAfter(s, e, k);
      assert Owners(s, k) == if k in s.pending then 1 else 0;
    }
  }

  ghost predicate IsRun(ss: seq<State>, es: seq<Event>) {
    && |ss| == |es| + 1
    && ss[0] == INITIAL
    && forall i :: 0 <= i < |es| ==> Enabled(ss[i], es[i]) && ss[i + 1] == Step(ss[i], es[i])
  }

  /** In every interleaving of callers and workers, each pending mark has exactly one owner among the
      callers on their way to the queue, the queue and the workers; a server that is not pending
      has none; and the queue stays within its capacity. */
  lemma {:induction false} EveryMarkHasOneOwner(ss: seq<State>, es: seq<Event>, n: nat)
    requires IsRun(ss, es) && n <= |es|
    ensures Inv(ss[n])
  {
    if n == 0 {
      forall k
        ensures Owners(ss[0], k) == 0
      {
        assert Holders(map[], k) == {};
      }
    } else {
      EveryMarkHasOneOwner(ss, es, n - 1);
      StepKeepsInv(ss[n - 1], es[n - 1]);
    }
  }

  lemma QueuedTwice(q: seq<Remote>, i: nat, j: nat, k: string)
    requires i < j < |q| && KeyOf(q[i]) == k && KeyOf(q[j]) == k
    ensures Queued(q, k) >= 2
  {
    if i == 0 {
      QueuedOnce(q[1..], j - 1, k);
    } else {
      QueuedTwice(q[1..], i - 1, j - 1, k);
    }
  }

  lemma QueuedOnce(q: seq<Remote>, i: nat, k: string)
    requires i < |q| && KeyOf(q[i]) == k
    ensures Queued(q, k) >= 1
  {
    if i > 0 {
      QueuedOnce(q[1..], i - 1, k);
    }
  }

  /** No server is checked by two workers at once, is checked while it also waits in the queue, or
      waits there twice. */
  lemma NoServerIsCheckedTwice(ss: seq<State>, es: seq<Event>, n: nat)
    requires IsRun(ss, es) && n <= |es|
    ensures forall v, w :: (v in ss[n].checking && w in ss[n].checking
                             && KeyOf(ss[n].checking[v]) == KeyOf(ss[n].checking[w])) ==> v == w
    ensures forall w, i :: w in ss[n].checking && 0 <= i < |ss[n].queue|
              ==> KeyOf(ss[n].checking[w]) != KeyOf(ss[n].queue[i])
    ensures forall i, j :: 0 <= i < j < |ss[n].queue| ==> KeyOf(ss[n].queue[i]) != KeyOf(ss[n].queue[j])
  {
    EveryMarkHasOneOwner(ss, es, n);
    var s := ss[n];
    forall v, w | v in s.checking && w in s.checking && KeyOf(s.checking[v]) == KeyOf(s.checking[w])
      ensures v == w
    {
      var k := KeyOf(s.checking[v]);
      assert Owners(s, k) <= 1;
      if v != w {
        AtLeastTwo(Holders(s.checking, k), v, w);
        assert false;
      }
    }
    forall w, i | w in s.checking && 0 <= i < |s.queue|
      ensures KeyOf(s.checking[w]) != KeyOf(s.queue[i])
    {
      var k := KeyOf(s.checking[w]);
      assert Owners(s, k) <= 1;
      assert w in Holders(s.checking, k);
      if KeyOf(s.queue[i]) == k {
        QueuedOnce(s.queue, i, k);
      }
    }
    forall i, j | 0 <= i < j < |s.queue|
      ensures KeyOf(s.queue[i]) != KeyOf(s.queue[j])
    {
      var k := KeyOf(s.queue[i]);
      assert Owners(s, k) <= 1;
      if KeyOf(s.queue[j]) == k {
        QueuedTwice(s.queue, i, j, k);
      }
    }
  }

  lemma AtLeastTwo(a: set<nat>, v: nat, w: nat)
    requires v in a && w in a && v != w
    ensures |a| >= 2
  {
    assert |a| == |a - {v}| + 1;
    assert w in a - {v};
  }

  // ---- No waiting server is passed over --------------------------------------------

  function Takes(es: seq<Event>): nat {
    if es == [] then 0 else (if es[0].Take? then 1 else 0) + Takes(es[1..])
  }

  /** The server at position `p` of the queue is taken by the time `p + 1` more have been taken. */
  lemma {:induction false} QueueIsFair(ss: seq<State>, es: seq<Event>, i: nat, j: nat, p: nat) returns (t: nat)
    requires IsRun(ss, es) && i <= j <= |es|
    requires p < |ss[i].queue| && p < Takes(es[i..j])
    ensures i <= t < j && es[t].Take? && ss[t].queue != [] && ss[t].queue[0] == ss[i].queue[p]
    decreases j - i
  {
    assert i < j;
    assert es[i..j][1..] == es[i + 1..j];
    if es[i].Take? {
      if p == 0 {
        t := i;
      } else {
        t := QueueIsFair(ss, es, i + 1, j, p - 1);
      }
    } else {
      t := QueueIsFair(ss, es, i + 1, j, p);
    }
  }

  // ---- What "already being checked" is worth ----------------------------------------

  /** An event is a step of this caller. */
  predicate ActsFor(e: Event, caller: nat) {
    (e.Mark? || e.Enqueue? || e.FindFull? || e.Unmark?) && e.caller == caller
  }

  /** The key stays pending from `n` on until step `m` clears it. */
  ghost predicate ClearedAt(ss: seq<State>, es: seq<Event>, k: string, n: nat, m: nat) {
    && IsRun(ss, es) && n <= m < |es|
    && (forall i :: n <= i <= m ==> k in ss[i].pending)
    && k !in ss[m + 1].pending
  }

  /** From step `n` on, before `m`, the first step of the caller is step `t`, and it enqueues. */
  ghost predicate EnqueuesNext(es: seq<Event>, a: nat, n: nat, t: nat, m: nat) {
    && n <= t < m <= |es| && es[t] == Enqueue(a)
    && forall i :: n <= i < t ==> !ActsFor(es[i], a)
  }

  /** The caller that has to make an answer given at `n` good: it enqueues the server as its next
      step, for which the queue has room. */
  ghost predicate MakesGood(ss: seq<State>, es: seq<Event>, a: nat, n: nat, m: nat)
    requires n <= m <= |es| < |ss|
  {
    a !in ss[n].turnedAway && exists t: nat :: EnqueuesNext(es, a, n, t, m) && |ss[t].queue| < CAPACITY
  }

  /** Nobody joins the callers of a pending key. */
  lemma CallersOnlyLeave(s: State, e: Event, k: string)
    requires Enabled(s, e) && k in s.pending
    ensures Holders(Step(s, e).callers, k) <= Holders(s.callers, k)
  {
  }

  /** A caller holding a pending key leaves only by a step of its own. */
  lemma OneStepOfACaller(s: State, e: Event, k: string, a: nat)
    requires Enabled(s, e) && a in Holders(s.callers, k)
    ensures ActsFor(e, a) <==> e == Enqueue(a) || e == FindFull(a) || e == Unmark(a)
    ensures a in Holders(Step(s, e).callers, k) <==> e != Enqueue(a) && e != Unmark(a)
    ensures a in Step(s, e).turnedAway <==> a in s.turnedAway || e == FindFull(a)
    ensures e == Enqueue(a) || e == FindFull(a) ==> a !in s.turnedAway
    ensures e == Unmark(a) ==> k !in Step(s, e).pending
  {
  }

  /** Without a caller the mark belongs to the queue or a worker, and stays theirs. */
  lemma {:induction false} NoCallerComesBack(ss: seq<State>, es: seq<Event>, k: string, i: nat, j: nat)
    requires IsRun(ss, es) && i <= j <= |es| && Holders(ss[i].callers, k) == {}
    requires forall l :: i <= l < j ==> k in ss[l].pending
    ensures Holders(ss[j].callers, k) == {}
    decreases j
  {
    if i < j {
      NoCallerComesBack(ss, es, k, i, j - 1);
      CallersOnlyLeave(ss[j - 1], es[j - 1], k);
    }
  }

  lemma {:induction false} IdleCallerStays(ss: seq<State>, es: seq<Event>, k: string, a: nat, i: nat, j: nat)
    requires IsRun(ss, es) && i <= j <= |es| && a in Holders(ss[i].callers, k)
    requires forall l :: i <= l < j ==> !ActsFor(es[l], a)
    ensures a in Holders(ss[j].callers, k) && (a in ss[j].turnedAway <==> a in ss[i].turnedAway)
    decreases j
  {
    if i < j {
      IdleCallerStays(ss, es, k, a, i, j - 1);
      OneStepOfACaller(ss[j - 1], es[j - 1], k, a);
    }
  }

  lemma {:induction false} FirstAct(es: seq<Event>, a: nat, n: nat, m: nat) returns (t: nat)
    requires n <= m <= |es|
    ensures n <= t <= m && (t < m ==> ActsFor(es[t], a)) && forall i :: n <= i < t ==> !ActsFor(es[i], a)
    decreases m - n
  {
    if n == m || ActsFor(es[n], a) {
      return n;
    }
    t := FirstAct(es, a, n + 1, m);
  }

  /** A caller turned away keeps the mark until it takes it back. */
  lemma TurnedAwayStays(ss: seq<State>, es: seq<Event>, k: string, a: nat, i: nat, j: nat)
    requires IsRun(ss, es) && i <= j <= |es| && a in Holders(ss[i].callers, k) && a in ss[i].turnedAway
    requires forall l :: i <= l <= j ==> k in ss[l].pending
    ensures a in Holders(ss[j].callers, k)
  {
    var t := FirstAct(es, a, i, j);
    IdleCallerStays(ss, es, k, a, i, t);
    if t < j {
      assert k in ss[t + 1].pending && ss[t + 1] == Step(ss[t], es[t]);
      OneStepOfACaller(ss[t], es[t], k, a);
    }
  }

  lemma OnlyHolder(s: State, k: string, a: nat)
    requires Inv(s) && a in Holders(s.callers, k)
    ensures Holders(s.callers, k) == {a} && Holders(s.checking, k) == {}
  {
    assert Owners(s, k) <= 1;
    assert Holders(s.callers, k) == {a} + (Holders(s.callers, k) - {a});
  }

  /** Who can clear a mark. */
  lemma WhoClears(s: State, e: Event, s': State, k: string)
    requires Inv(s) && Enabled(s, e) && s' == Step(s, e) && k in s.pending && k !in s'.pending
    ensures e.Complete? || e.Unmark?
    ensures e.Complete? ==> e.worker in Holders(s.checking, k) && Holders(s.callers, k) == {}
    ensures e.Unmark? ==> Holders(s.callers, k) == {e.caller} && e.caller in s.turnedAway
  {
    if e.Complete? {
      assert e.worker in Holders(s.checking, k);
      assert Owners(s, k) == 1;
    } else {
      OnlyHolder(s, k, e.caller);
    }
  }

  lemma AfterEnqueue(ss: seq<State>, es: seq<Event>, k: string, a: nat, t: nat, m: nat)
    requires ClearedAt(ss, es, k, t, m) && t < m && es[t] == Enqueue(a) && a in Holders(ss[t].callers, k)
    ensures Holders(ss[m].callers, k) == {}
  {
    EveryMarkHasOneOwner(ss, es, t);
    OnlyHolder(ss[t], k, a);
    assert Enabled(ss[t], es[t]) && ss[t + 1] == Step(ss[t], es[t]);
    CallersOnlyLeave(ss[t], es[t], k);
    OneStepOfACaller(ss[t], es[t], k, a);
    NoCallerComesBack(ss, es, k, t + 1, m);
  }

  lemma AfterFull(ss: seq<State>, es: seq<Event>, k: string, a: nat, t: nat, m: nat)
    requires ClearedAt(ss, es, k, t, m) && t < m && es[t] == FindFull(a) && a in Holders(ss[t].callers, k)
    ensures a in Holders(ss[m].callers, k) && |ss[t].queue| == CAPACITY
  {
    EveryMarkHasOneOwner(ss, es, t);
    assert Enabled(ss[t], es[t]) && ss[t + 1] == Step(ss[t], es[t]);
    OneStepOfACaller(ss[t], es[t], k, a);
    TurnedAwayStays(ss, es, k, a, t + 1, m);
  }

  /** The first step of the holder, if any before the mark is cleared. */
  lemma HolderActs(ss: seq<State>, es: seq<Event>, k: string, a: nat, n: nat, m: nat) returns (t: nat)
    requires ClearedAt(ss, es, k, n, m) && a in Holders(ss[n].callers, k)
    ensures n <= t <= m && a in Holders(ss[t].callers, k) && (a in ss[t].turnedAway <==> a in ss[n].turnedAway)
    ensures forall i :: n <= i < t ==> !ActsFor(es[i], a)
    ensures t < m ==> a !in ss[t].turnedAway && (es[t] == Enqueue(a) || es[t] == FindFull(a))
  {
    t := FirstAct(es, a, n, m);
    IdleCallerStays(ss, es, k, a, n, t);
    assert Enabled(ss[t], es[t]) && ss[t + 1] == Step(ss[t], es[t]);
    OneStepOfACaller(ss[t], es[t], k, a);
  }

  /** The caller that holds the mark decides who clears it. */
  lemma HolderDecides(ss: seq<State>, es: seq<Event>, k: string, a: nat, n: nat, m: nat)
    requires ClearedAt(ss, es, k, n, m) && Holders(ss[n].callers, k) == {a}
    ensures es[m].Complete? <==> MakesGood(ss, es, a, n, m)
    ensures !es[m].Complete? ==> es[m] == Unmark(a) && TurnedAwayBy(ss, es, a, n, m)
  {
    var t := HolderActs(ss, es, k, a, n, m);
    if t < m && es[t] == Enqueue(a) {
      EnqueuedIsChecked(ss, es, k, a, n, t, m);
    } else {
      NotEnqueuedIsTakenBack(ss, es, k, a, n, t, m);
    }
  }

  lemma EnqueuedIsChecked(ss: seq<State>, es: seq<Event>, k: string, a: nat, n: nat, t: nat, m: nat)
    requires ClearedAt(ss, es, k, n, m) && n <= t < m && a in Holders(ss[t].callers, k) && a !in ss[n].turnedAway
    requires es[t] == Enqueue(a) && forall i :: n <= i < t ==> !ActsFor(es[i], a)
    ensures es[m].Complete? && MakesGood(ss, es, a, n, m)
  {
    AfterEnqueue(ss, es, k, a, t, m);
    EveryMarkHasOneOwner(ss, es, m);
    WhoClears(ss[m], es[m], ss[m + 1], k);
    assert EnqueuesNext(es, a, n, t, m) && Enabled(ss[t], es[t]);
  }

  lemma NotEnqueuedIsTakenBack(ss: seq<State>, es: seq<Event>, k: string, a: nat, n: nat, t: nat, m: nat)
    requires ClearedAt(ss, es, k, n, m) && n <= t <= m && a in Holders(ss[t].callers, k)
    requires (a in ss[t].turnedAway <==> a in ss[n].turnedAway) && forall i :: n <= i < t ==> !ActsFor(es[i], a)
    requires t < m ==> es[t] == FindFull(a)
    ensures es[m] == Unmark(a) && TurnedAwayBy(ss, es, a, n, m) && !MakesGood(ss, es, a, n, m)
  {
    if t < m {
      AfterFull(ss, es, k, a, t, m);
      NotBoth(es, a, n, t, m);
    } else {
      NotAtAll(es, a, n, m);
    }
    HeldIsTakenBack(ss, es, k, a, m);
  }

  lemma HeldIsTakenBack(ss: seq<State>, es: seq<Event>, k: string, a: nat, m: nat)
    requires ClearedAt(ss, es, k, m, m) && a in Holders(ss[m].callers, k)
    ensures es[m] == Unmark(a) && a in ss[m].turnedAway
  {
    EveryMarkHasOneOwner(ss, es, m);
    WhoClears(ss[m], es[m], ss[m + 1], k);
  }

  lemma NotAtAll(es: seq<Event>, a: nat, n: nat, m: nat)
    requires n <= m <= |es| && forall i :: n <= i < m ==> !ActsFor(es[i], a)
    ensures !exists u: nat :: EnqueuesNext(es, a, n, u, m)
  {
  }

  lemma NotBoth(es: seq<Event>, a: nat, n: nat, t: nat, m: nat)
    requires n <= t < m <= |es| && es[t] == FindFull(a)
    requires forall i :: n <= i < t ==> !ActsFor(es[i], a)
    ensures !exists u: nat :: EnqueuesNext(es, a, n, u, m)
  {
    if u: nat :| EnqueuesNext(es, a, n, u, m) {
      assert ActsFor(es[t], a) && ActsFor(es[u], a);
    }
  }

  /** Up to `m` the caller found the queue full. */
  ghost predicate TurnedAwayBy(ss: seq<State>, es: seq<Event>, a: nat, n: nat, m: nat)
    requires n <= m <= |es| < |ss|
  {
    a in ss[n].turnedAway || exists t :: n <= t < m && es[t] == FindFull(a) && |ss[t].queue| == CAPACITY
  }

  /** A caller told at `n` that its server is already being checked, whose mark is cleared at `m`,
      was told the truth exactly if the mark was then with the queue or a worker, or the caller
      holding it enqueues the server as its next step. Exactly then the mark is cleared by the worker
      that checked the server; otherwise the holder found the queue full and took the mark back. */
  lemma PromiseIsKept(ss: seq<State>, es: seq<Event>, n: nat, m: nat)
    requires IsRun(ss, es) && n < |es| && es[n].Mark? && Answer(ss[n].pending, es[n].remote) == Some(true)
    requires ClearedAt(ss, es, KeyOf(es[n].remote), n, m)
    ensures var k := KeyOf(es[n].remote);
            (es[m].Complete? && es[m].worker in Holders(ss[m].checking, k))
            <==> (forall a :: a in Holders(ss[n].callers, k) ==> MakesGood(ss, es, a, n, m))
    ensures var k := KeyOf(es[n].remote);
            !es[m].Complete? ==>
              && es[m].Unmark? && Holders(ss[n].callers, k) == {es[m].caller}
              && TurnedAwayBy(ss, es, es[m].caller, n, m)
  {
    var k := KeyOf(es[n].remote);
    EveryMarkHasOneOwner(ss, es, n);
    EveryMarkHasOneOwner(ss, es, m);
    WhoClears(ss[m], es[m], ss[m + 1], k);
    if Holders(ss[n].callers, k) == {} {
      NoCallerComesBack(ss, es, k, n, m);
    } else {
      var a :| a in Holders(ss[n].callers, k);
      OnlyHolder(ss[n], k, a);
      HolderDecides(ss, es, k, a, n, m);
    }
  }

  // ---- A broken promise ----------------------------------------------------------------

  /** A remote server named by `n + 1` letters. */
  function Nth(n: nat): Remote {
    Remote(seq(n + 1, _ => 'a'), false)
  }

  lemma NthKey(n: nat)
    ensures |KeyOf(Nth(n))| == |"remote:"| + n + 1
  {
    var name := Nth(n).name;
    assert !IsSpace('a') && name[0] == 'a' && name[|name| - 1] == 'a';
    assert TrimSpace(name) == name;
  }

  /** Nothing but `n` servers, all queued. */
  ghost predicate Filled(s: State, n: nat) {
    && |s.queue| == n
    && s.callers == map[]
    && forall k :: k in s.pending ==> |k| <= |"remote:"| + n
  }

  lemma FillOne(s: State, n: nat)
    requires Filled(s, n) && n < CAPACITY
    ensures Enabled(s, Mark(0, Nth(n))) && Enabled(Step(s, Mark(0, Nth(n))), Enqueue(0))
    ensures Filled(Step(Step(s, Mark(0, Nth(n))), Enqueue(0)), n + 1)
  {
    NthKey(n);
  }

  lemma TwoMoreSteps(ss: seq<State>, es: seq<Event>, e: Event, f: Event)
    requires IsRun(ss, es) && Enabled(ss[|es|], e) && Enabled(Step(ss[|es|], e), f)
    ensures IsRun(ss + [Step(ss[|es|], e), Step(Step(ss[|es|], e), f)], es + [e, f])
  {
  }

  /** No worker does anything. */
  ghost predicate CallersOnly(es: seq<Event>) {
    forall i :: 0 <= i < |es| ==> !es[i].Take? && !es[i].Complete? && !es[i].Shutdown?
  }

  lemma CallersOnlyAdd(es: seq<Event>, more: seq<Event>)
    requires CallersOnly(es) && CallersOnly(more)
    ensures CallersOnly(es + more)
  {
  }

  lemma EnqueueIsOfCallers(es: seq<Event>, r: Remote)
    requires CallersOnly(es)
    ensures CallersOnly(es + [Mark(0, r), Enqueue(0)])
  {
    CallersOnlyAdd(es, [Mark(0, r), Enqueue(0)]);
  }

  lemma RetreatIsOfCallers(es: seq<Event>, r: Remote)
    requires CallersOnly(es)
    ensures CallersOnly(es + [Mark(0, r), Mark(1, r), FindFull(0), Unmark(0)])
  {
    CallersOnlyAdd(es, [Mark(0, r), Mark(1, r), FindFull(0), Unmark(0)]);
  }

  /** The queue can be filled: each server is marked and enqueued in turn. */
  lemma {:induction false} FillQueue(n: nat) returns (ss: seq<State>, es: seq<Event>)
    requires n <= CAPACITY
    ensures IsRun(ss, es) && Filled(ss[|es|], n)
    ensures CallersOnly(es)
  {
    if n == 0 {
      return [INITIAL], [];
    }
    ss, es := FillQueue(n - 1);
    var s, mark := ss[|es|], Mark(0, Nth(n - 1));
    FillOne(s, n - 1);
    TwoMoreSteps(ss, es, mark, Enqueue(0));
    EnqueueIsOfCallers(es, Nth(n - 1));
    var next, filled := Step(s, mark), Step(Step(s, mark), Enqueue(0));
    ss, es := ss + [next, filled], es + [mark, Enqueue(0)];
    assert ss[|es|] == filled;
  }

  /** A promise broken: with the queue full, caller 1 asks between caller 0's mark and its retreat, is
      told that the server is being checked, and nobody checks it. */
  lemma FullQueueBreaksAPromise() returns (ss: seq<State>, es: seq<Event>, n: nat, m: nat)
    ensures IsRun(ss, es) && n < |es| && es[n].Mark? && Answer(ss[n].pending, es[n].remote) == Some(true)
    ensures ClearedAt(ss, es, KeyOf(es[n].remote), n, m) && es[m] == Unmark(0)
    ensures Owners(ss[m + 1], KeyOf(es[n].remote)) == 0
    ensures CallersOnly(es)
  {
    var ss0, es0 := FillQueue(CAPACITY);
    ss, es, n, m := BreakAt(ss0, es0);
  }

  lemma BreakAt(ss0: seq<State>, es0: seq<Event>) returns (ss: seq<State>, es: seq<Event>, n: nat, m: nat)
    requires IsRun(ss0, es0) && Filled(ss0[|es0|], CAPACITY) && CallersOnly(es0)
    ensures IsRun(ss, es) && n < |es| && es[n].Mark? && Answer(ss[n].pending, es[n].remote) == Some(true)
    ensures ClearedAt(ss, es, KeyOf(es[n].remote), n, m) && es[m] == Unmark(0)
    ensures Owners(ss[m + 1], KeyOf(es[n].remote)) == 0
    ensures CallersOnly(es)
  {
    var r, i := Nth(CAPACITY), |es0|;
    var s1, s2, s3 := Retreat(ss0[i], r);
    ss, es := FourMoreSteps(ss0, es0, Mark(0, r), Mark(1, r), FindFull(0), Unmark(0), s1, s1, s2, s3);
    n, m := i + 1, i + 3;
    ClearedInTwo(ss, es, KeyOf(r), n);
    RetreatIsOfCallers(es0, r);
    NobodyOwns(ss, es, m + 1, KeyOf(r));
  }

  lemma ClearedInTwo(ss: seq<State>, es: seq<Event>, k: string, n: nat)
    requires IsRun(ss, es) && n + 2 < |es|
    requires k in ss[n].pending && k in ss[n + 1].pending && k in ss[n + 2].pending && k !in ss[n + 3].pending
    ensures ClearedAt(ss, es, k, n, n + 2)
  {
  }

  lemma NobodyOwns(ss: seq<State>, es: seq<Event>, n: nat, k: string)
    requires IsRun(ss, es) && n <= |es| && k !in ss[n].pending
    ensures Owners(ss[n], k) == 0
  {
    EveryMarkHasOneOwner(ss, es, n);
  }

  lemma FourMoreSteps(ss: seq<State>, es: seq<Event>, e1: Event, e2: Event, e3: Event, e4: Event,
                      s1: State, s2: State, s3: State, s4: State)
    returns (ss': seq<State>, es': seq<Event>)
    requires IsRun(ss, es) && Enabled(ss[|es|], e1) && s1 == Step(ss[|es|], e1) && Enabled(s1, e2) && s2 == Step(s1, e2)
    requires Enabled(s2, e3) && s3 == Step(s2, e3) && Enabled(s3, e4) && s4 == Step(s3, e4)
    ensures IsRun(ss', es') && es' == es + [e1, e2, e3, e4]
    ensures var n := |es|; ss'[n + 1] == s1 && ss'[n + 2] == s2 && ss'[n + 3] == s3 && ss'[n + 4] == s4
  {
    TwoMoreSteps(ss, es, e1, e2);
    TwoMoreSteps(ss + [s1, s2], es + [e1, e2], e3, e4);
    ss', es' := ss + [s1, s2] + [s3, s4], es + [e1, e2] + [e3, e4];
    Regroup(es, [e1, e2], [e3, e4]);
  }

  lemma Retreat(s: State, r: Remote) returns (s1: State, s2: State, s3: State)
    requires Filled(s, CAPACITY) && r == Nth(CAPACITY)
    ensures Enabled(s, Mark(0, r)) && s1 == Step(s, Mark(0, r)) && Answer(s1.pending, r) == Some(true)
    ensures Enabled(s1, Mark(1, r)) && s1 == Step(s1, Mark(1, r))
    ensures Enabled(s1, FindFull(0)) && s2 == Step(s1, FindFull(0)) && KeyOf(r) in s2.pending
    ensures Enabled(s2, Unmark(0)) && s3 == Step(s2, Unmark(0)) && KeyOf(r) !in s3.pending
  {
    NthKey(CAPACITY);
    s1 := Step(s, Mark(0, r));
    s2 := Step(s1, FindFull(0));
    s3 := Step(s2, Unmark(0));
  }

  // ---- The map and the channel ---------------------------------------------------

  class ServerChecks {
    var pending: set<string>
    var queue: seq<Remote>

    constructor ()
      ensures pending == {} && queue == []
    {
      pending, queue := {}, [];
    }

    /** The first lock section of ensureRemoteCheck. */
    method MarkPending(remote: Remote) returns (answer: Option<bool>)
      modifies this`pending
      ensures answer == Answer(old(pending), remote)
      ensures pending == if answer.None? then old(pending) + {KeyOf(remote)} else old(pending)
    {
      if remote.maintenance {
        return Some(false);
      }
      if KeyOf(remote) in pending {
        return Some(true);
      }
      pending := pending + {KeyOf(remote)};
      return None;
    }

    /** ensureRemoteCheck with nothing in between: true exactly when the server is pending after it. */
    method EnsureRemoteCheck(remote: Remote) returns (accepted: bool)
      requires |queue| <= CAPACITY
      modifies this
      ensures |queue| <= CAPACITY
      ensures accepted == (!remote.maintenance && KeyOf(remote) in pending)
      ensures pending == if accepted then old(pending) + {KeyOf(remote)} else old(pending)
      ensures queue == if accepted && KeyOf(remote) !in old(pending) then old(queue) + [remote] else old(queue)
      ensures accepted <==> !remote.maintenance && (KeyOf(remote) in old(pending) || |old(queue)| < CAPACITY)
    {
      var answer := MarkPending(remote);
      if answer.Some? {
        return answer.value;
      }
      if |queue| < CAPACITY {
        queue := queue + [remote];
        return true;
      }
      pending := pending - {KeyOf(remote)};
      return false;
    }

    /** One turn of serverInfoWorker with nothing in between. */
    method CheckNext() returns (remote: Remote)
      requires queue != []
      modifies this
      ensures remote == old(queue)[0] && queue == old(queue)[1..]
      ensures pending == old(pending) - {KeyOf(remote)}
    {
      remote := queue[0];
      queue := queue[1..];
      pending := pending - {KeyOf(remote)};
    }
  }
}

/** The worker pool of (*Watcher).ContainerResources in internal/dockerwatcher/watcher.go: up to six
    workers take indices from a channel, fetch, and append to a shared slice that is sorted at the
    end. `Step` is one channel operation, context check, fetch or locked section of one goroutine;
    the scheduler, the failures and a cancellation by the caller are arbitrary. */
module ResourcePool {
  import opened Basics
  import opened Text

  const MAX_WORKERS := 6

  // ---- The ids ----------------------------------------------------------------

  /** The trimmed ids that are not blank, in order. */
  function NonBlank(ids: seq<string>): seq<string> {
    if ids == [] then []
    else (if TrimSpace(ids[0]) == "" then [] else [TrimSpace(ids[0])]) + NonBlank(ids[1..])
  }

  lemma {:induction false} NonBlankAppend(ids: seq<string>, id: string)
    ensures NonBlank(ids + [id]) == NonBlank(ids) + if TrimSpace(id) == "" then [] else [TrimSpace(id)]
  {
    if ids == [] {
      assert ids + [id] == [id];
    } else {
      assert (ids + [id])[1..] == ids[1..] + [id];
      NonBlankAppend(ids[1..], id);
    }
  }

  method TrimIds(ids: seq<string>) returns (trimmed: seq<string>)
    ensures trimmed == NonBlank(ids)
  {
    trimmed := [];
    for i := 0 to |ids|
      invariant trimmed == NonBlank(ids[..i])
    {
      assert ids[..i + 1] == ids[..i] + [ids[i]];
      NonBlankAppend(ids[..i], ids[i]);
      var id := TrimSpace(ids[i]);
      if id == "" {
        continue;
      }
      trimmed := trimmed + [id];
    }
    assert ids[..|ids|] == ids;
  }

  // ---- The pool -----------------------------------------------------------------

  datatype Worker = Idle | Received(index: nat) | Fetching(index: nat) | Exited

  datatype Item<V> = Item(index: nat, value: V)

  /** `lost` records the indices a worker received but never delivered. */
  datatype State<V> = State(
    sent: nat, queue: seq<nat>, closed: bool, workers: seq<Worker>,
    results: seq<Item<V>>, firstErr: Option<string>, cancelled: bool, lost: set<nat>)

  datatype Event =
    | Send
    | Close
    | Receive(worker: nat)
    | CheckContext(worker: nat)
    | FetchOk(worker: nat)
    | FetchFail(worker: nat, message: string)
    | Finish(worker: nat)
    | CallerCancels

  function WorkerCount(n: nat): nat { if n < MAX_WORKERS then n else MAX_WORKERS }

  function Initial<V>(n: nat): State<V> {
    State(0, [], false, seq(WorkerCount(n), _ => Idle), [], None, false, {})
  }

  predicate Enabled<V>(s: State<V>, e: Event, n: nat) {
    match e
    case Send => s.sent < n
    case Close => s.sent == n && !s.closed
    case Receive(w) => w < |s.workers| && s.workers[w].Idle? && s.queue != []
    case CheckContext(w) => w < |s.workers| && s.workers[w].Received?
    case FetchOk(w) => w < |s.workers| && s.workers[w].Fetching?
    case FetchFail(w, _) => w < |s.workers| && s.workers[w].Fetching?
    case Finish(w) => w < |s.workers| && s.workers[w].Idle? && s.queue == [] && s.closed
    case CallerCancels => !s.cancelled
  }

  /** `fetch(i)` is what a successful fetch of the i-th id yields. */
  function Step<V>(s: State<V>, e: Event, n: nat, fetch: nat -> V): State<V>
    requires Enabled(s, e, n)
  {
    match e
    case Send => s.(queue := s.queue + [s.sent], sent := s.sent + 1)
    case Close => s.(closed := true)
    case Receive(w) => s.(queue := s.queue[1..], workers := s.workers[w := Received(s.queue[0])])
    case CheckContext(w) =>
      var i := s.workers[w].index;
      if s.cancelled then s.(workers := s.workers[w := Exited], lost := s.lost + {i})
      else s.(workers := s.workers[w := Fetching(i)])
    case FetchOk(w) =>
      var i := s.workers[w].index;
      s.(workers := s.workers[w := Idle], results := s.results + [Item(i, fetch(i))])
    case FetchFail(w, message) =>
      s.(workers := s.workers[w := Exited], lost := s.lost + {s.workers[w].index},
         firstErr := if s.firstErr.None? then Some(message) else s.firstErr,
         cancelled := s.cancelled || s.firstErr.None?)
    case Finish(w) => s.(workers := s.workers[w := Exited])
    case CallerCancels => s.(cancelled := true)
  }

  /** wg.Wait returns. */
  predicate Done<V>(s: State<V>) {
    s.closed && forall w :: 0 <= w < |s.workers| ==> s.workers[w].Exited?
  }

  predicate Holds(w: Worker, i: nat) {
    (w.Received? || w.Fetching?) && w.index == i
  }

  ghost predicate Delivered<V>(s: State<V>, i: nat) {
    exists r :: 0 <= r < |s.results| && s.results[r].index == i
  }

  ghost predicate Held<V>(s: State<V>, i: nat) {
    exists w :: 0 <= w < |s.workers| && Holds(s.workers[w], i)
  }

  /** Where the indices are: the channel holds a consecutive run of them, and every earlier one is
      with one worker, delivered once, or lost, the last only after a cancellation. */
  ghost predicate Inv<V(!new)>(s: State<V>, n: nat, fetch: nat -> V) {
    && |s.workers| == WorkerCount(n)
    && |s.queue| <= s.sent <= n
    && (s.closed ==> s.sent == n)
    && (forall j :: 0 <= j < |s.queue| ==> s.queue[j] == s.sent - |s.queue| + j)
    && (forall i: nat :: i < s.sent - |s.queue| ==> Held(s, i) || Delivered(s, i) || i in s.lost)
    && (forall w :: 0 <= w < |s.workers| && (s.workers[w].Received? || s.workers[w].Fetching?) ==>
          s.workers[w].index < s.sent - |s.queue| && !Delivered(s, s.workers[w].index))
    && (forall v, w :: 0 <= v < w < |s.workers| && (s.workers[w].Received? || s.workers[w].Fetching?) ==>
          !Holds(s.workers[v], s.workers[w].index))
    && (forall r :: 0 <= r < |s.results| ==>
          s.results[r].index < s.sent - |s.queue| && s.results[r].value == fetch(s.results[r].index))
    && (forall q, r :: 0 <= q < r < |s.results| ==> s.results[q].index != s.results[r].index)
    && (s.lost != {} || s.firstErr.Some? ==> s.cancelled)
    && (forall w :: 0 <= w < |s.workers| && s.workers[w].Exited? ==> s.cancelled || (s.closed && s.queue == []))
  }

  lemma SendKeepsInv<V(!new)>(s: State<V>, n: nat, fetch: nat -> V)
    requires Inv(s, n, fetch) && Enabled(s, Send, n)
    ensures Inv(Step(s, Send, n, fetch), n, fetch)
  {
    var s' := Step(s, Send, n, fetch);
    assert forall i: nat :: (Held(s, i) ==> Held(s', i)) && (Delivered(s, i) <==> Delivered(s', i));
  }

  lemma ReceiveKeepsInv<V(!new)>(s: State<V>, w: nat, n: nat, fetch: nat -> V)
    requires Inv(s, n, fetch) && Enabled(s, Receive(w), n)
    ensures Inv(Step(s, Receive(w), n, fetch), n, fetch)
  {
    var s' := Step(s, Receive(w), n, fetch);
    var first := s.queue[0];
    assert forall i: nat :: Delivered(s, i) <==> Delivered(s', i);
    assert Holds(s'.workers[w], first);
    forall i: nat | i < s'.sent - |s'.queue|
      ensures Held(s', i) || Delivered(s', i) || i in s'.lost
    {
      if i < first && Held(s, i) {
        var v :| 0 <= v < |s.workers| && Holds(s.workers[v], i);
        assert Holds(s'.workers[v], i);
      }
    }
  }

  /** Only the moving worker's index can stop being held. */
  lemma OthersStillHeld<V(!new)>(s: State<V>, s': State<V>, w: nat, worker: Worker)
    requires w < |s.workers| && s'.workers == s.workers[w := worker]
    ensures forall i: nat :: Held(s, i) && !Holds(s.workers[w], i) ==> Held(s', i)
    ensures forall i: nat :: Holds(worker, i) ==> Held(s', i)
  {
    forall i: nat | Held(s, i) && !Holds(s.workers[w], i)
      ensures Held(s', i)
    {
      var v :| 0 <= v < |s.workers| && Holds(s.workers[v], i);
      assert Holds(s'.workers[v], i);
    }
    assert s'.workers[w] == worker;
  }

  lemma CheckKeepsInv<V(!new)>(s: State<V>, w: nat, n: nat, fetch: nat -> V)
    requires Inv(s, n, fetch) && Enabled(s, CheckContext(w), n)
    ensures Inv(Step(s, CheckContext(w), n, fetch), n, fetch)
  {
    var s' := Step(s, CheckContext(w), n, fetch);
    OthersStillHeld(s, s', w, s'.workers[w]);
    assert Holds(s.workers[w], s.workers[w].index);
    assert forall i: nat :: Delivered(s, i) <==> Delivered(s', i);
  }

  lemma FailKeepsInv<V(!new)>(s: State<V>, e: Event, n: nat, fetch: nat -> V)
    requires Inv(s, n, fetch) && Enabled(s, e, n) && e.FetchFail?
    ensures Inv(Step(s, e, n, fetch), n, fetch)
  {
    var s' := Step(s, e, n, fetch);
    OthersStillHeld(s, s', e.worker, Exited);
    assert forall i: nat :: Delivered(s, i) <==> Delivered(s', i);
  }

  lemma DeliverKeepsInv<V(!new)>(s: State<V>, w: nat, n: nat, fetch: nat -> V)
    requires Inv(s, n, fetch) && Enabled(s, FetchOk(w), n)
    ensures Inv(Step(s, FetchOk(w), n, fetch), n, fetch)
  {
    var s' := Step(s, FetchOk(w), n, fetch);
    var mine := s.workers[w].index;
    OthersStillHeld(s, s', w, Idle);
    assert Holds(s.workers[w], mine);
    OneMoreDelivered(s, s', Item(mine, fetch(mine)));
  }

  lemma OneMoreDelivered<V(!new)>(s: State<V>, s': State<V>, item: Item<V>)
    requires s'.results == s.results + [item]
    ensures forall i: nat :: Delivered(s', i) <==> Delivered(s, i) || i == item.index
  {
    assert s'.results[|s.results|] == item;
    forall i: nat
      ensures Delivered(s', i) <==> Delivered(s, i) || i == item.index
    {
      if Delivered(s, i) {
        var r :| 0 <= r < |s.results| && s.results[r].index == i;
        assert s'.results[r].index == i;
      }
    }
  }

  lemma OtherKeepsInv<V(!new)>(s: State<V>, e: Event, n: nat, fetch: nat -> V)
    requires Inv(s, n, fetch) && Enabled(s, e, n) && (e.Close? || e.Finish? || e.CallerCancels?)
    ensures Inv(Step(s, e, n, fetch), n, fetch)
  {
    var s' := Step(s, e, n, fetch);
    forall i: nat
      ensures (Held(s, i) ==> Held(s', i)) && (Delivered(s, i) <==> Delivered(s', i))
    {
      if Held(s, i) {
        var v :| 0 <= v < |s.workers| && Holds(s.workers[v], i);
        assert Holds(s'.workers[v], i);
      }
    }
  }

  lemma StepKeepsInv<V(!new)>(s: State<V>, e: Event, n: nat, fetch: nat -> V)
    requires Inv(s, n, fetch) && Enabled(s, e, n)
    ensures Inv(Step(s, e, n, fetch), n, fetch)
  {
    match e {
      case Send => SendKeepsInv(s, n, fetch);
      case Receive(w) => ReceiveKeepsInv(s, w, n, fetch);
      case CheckContext(w) => CheckKeepsInv(s, w, n, fetch);
      case FetchOk(w) => DeliverKeepsInv(s, w, n, fetch);
      case FetchFail(_, _) => FailKeepsInv(s, e, n, fetch);
      case _ => OtherKeepsInv(s, e, n, fetch);
    }
  }

  ghost predicate IsRun<V(!new)>(ss: seq<State<V>>, es: seq<Event>, n: nat, fetch: nat -> V) {
    && |ss| == |es| + 1
    && ss[0] == Initial(n)
    && forall i :: 0 <= i < |es| ==> Enabled(ss[i], es[i], n) && ss[i + 1] == Step(ss[i], es[i], n, fetch)
  }

  lemma {:induction false} RunInv<V(!new)>(ss: seq<State<V>>, es: seq<Event>, n: nat, fetch: nat -> V, k: nat)
    requires IsRun(ss, es, n, fetch) && k <= |es|
    ensures Inv(ss[k], n, fetch)
  {
    if k > 0 {
      RunInv(ss, es, n, fetch, k - 1);
      StepKeepsInv(ss[k - 1], es[k - 1], n, fetch);
    }
  }

  // ---- What is returned -----------------------------------------------------------

  datatype Outcome<V> = ContextError | FetchError(message: string) | Resources(list: seq<V>)

  /** What sort.Slice may leave: the same items in index order. */
  ghost predicate SortedForm<V>(sorted: seq<Item<V>>, items: seq<Item<V>>) {
    && multiset(sorted) == multiset(items)
    && forall i, j :: 0 <= i < j < |sorted| ==> sorted[i].index <= sorted[j].index
  }

  function Returned<V>(s: State<V>, sorted: seq<Item<V>>): Outcome<V> {
    if s.cancelled then ContextError
    else if s.firstErr.Some? then FetchError(s.firstErr.value)
    else Resources(seq(|sorted|, i requires 0 <= i < |sorted| => sorted[i].value))
  }

  lemma DistinctAfterSort<V>(sorted: seq<Item<V>>, items: seq<Item<V>>)
    requires SortedForm(sorted, items)
    requires forall q, r :: 0 <= q < r < |items| ==> items[q].index != items[r].index
    ensures forall i, j :: 0 <= i < j < |sorted| ==> sorted[i].index < sorted[j].index
    ensures forall x :: x in sorted <==> x in items
  {
    forall x
      ensures x in sorted <==> x in items
    {
      assert x in sorted <==> x in multiset(sorted);
      assert x in items <==> x in multiset(items);
    }
    forall i, j | 0 <= i < j < |sorted|
      ensures sorted[i].index != sorted[j].index
    {
      if sorted[i].index == sorted[j].index {
        assert sorted[i] in items && sorted[j] in items;
        var p :| 0 <= p < |items| && items[p] == sorted[i];
        var q :| 0 <= q < |items| && items[q] == sorted[j];
        assert p == q;
        TwiceInSeq(sorted, i, j);
        OnceInSeq(items, p);
        assert false;
      }
    }
  }

  lemma TwiceInSeq<T>(s: seq<T>, i: nat, j: nat)
    requires i < j < |s| && s[i] == s[j]
    ensures multiset(s)[s[i]] >= 2
  {
    assert s == s[..j] + s[j..];
    assert s[i] == s[..j][i] && s[j] == s[j..][0];
    assert multiset(s) == multiset(s[..j]) + multiset(s[j..]);
    assert s[i] in multiset(s[..j]) && s[j] in multiset(s[j..]);
  }

  lemma OnceInSeq<T>(s: seq<T>, i: nat)
    requires i < |s| && forall q, r :: 0 <= q < r < |s| ==> s[q] != s[r]
    ensures multiset(s)[s[i]] == 1
  {
    assert s == s[..i] + [s[i]] + s[i + 1..];
    assert s[i] !in s[..i] && s[i] !in s[i + 1..];
  }

  /** Strictly ascending numbers that are exactly those below `n` are 0, 1, ..., n-1. */
  lemma AscendingIsIdentity(xs: seq<nat>, n: nat)
    requires forall i, j :: 0 <= i < j < |xs| ==> xs[i] < xs[j]
    requires forall x: nat :: x in xs <==> x < n
    ensures |xs| == n && forall i :: 0 <= i < n ==> xs[i] == i
  {
    var k := 0;
    while k < |xs|
      invariant 0 <= k <= |xs| && k <= n
      invariant forall i :: 0 <= i < k ==> xs[i] == i
    {
      assert xs[k] in xs;
      if k > 0 {
        assert xs[k - 1] < xs[k];
      }
      assert k < n && k in xs;
      var at :| 0 <= at < |xs| && xs[at] == k;
      k := k + 1;
    }
    assert |xs| !in xs;
  }

  lemma Indices<V>(sorted: seq<Item<V>>, s: State<V>, n: nat) returns (xs: seq<nat>)
    requires forall x :: x in sorted <==> x in s.results
    requires forall i: nat :: i < n ==> Delivered(s, i)
    requires forall r :: 0 <= r < |s.results| ==> s.results[r].index < n
    ensures |xs| == |sorted| && forall i :: 0 <= i < |xs| ==> xs[i] == sorted[i].index
    ensures forall x: nat :: x in xs <==> x < n
  {
    xs := seq(|sorted|, i requires 0 <= i < |sorted| => sorted[i].index);
    forall x: nat
      ensures x in xs <==> x < n
    {
      if x < n {
        assert Delivered(s, x);
        var r :| 0 <= r < |s.results| && s.results[r].index == x;
        assert s.results[r] in sorted;
        var i :| 0 <= i < |sorted| && sorted[i] == s.results[r];
        assert xs[i] == x;
      }
      if x in xs {
        var i :| 0 <= i < |xs| && xs[i] == x;
        assert sorted[i] in s.results;
      }
    }
  }

  /** For every schedule of the workers and every placement of failures and cancellations, what is
      returned once all workers are done is either the context's error with no list, or exactly the
      fetched resource of every id, in the order of the ids. A worker's own error is never what the
      caller sees: recording it cancels the context, and the context is asked first. */
  lemma ResultIsIndependentOfSchedule<V(!new)>(ss: seq<State<V>>, es: seq<Event>, n: nat, fetch: nat -> V,
                                               sorted: seq<Item<V>>)
    requires n > 0 && IsRun(ss, es, n, fetch) && Done(ss[|es|])
    requires SortedForm(sorted, ss[|es|].results)
    ensures Returned(ss[|es|], sorted) ==
            if ss[|es|].cancelled then ContextError else Resources(seq(n, i requires 0 <= i < n => fetch(i)))
  {
    var s := ss[|es|];
    RunInv(ss, es, n, fetch, |es|);
    if !s.cancelled {
      assert s.workers[0].Exited?;
      assert s.queue == [] && s.sent == n && s.lost == {};
      assert forall i: nat :: i < n ==> Delivered(s, i);
      DistinctAfterSort(sorted, s.results);
      var xs := Indices(sorted, s, n);
      AscendingIsIdentity(xs, n);
      forall i | 0 <= i < n
        ensures sorted[i].value == fetch(i)
      {
        assert xs[i] == i;
        assert sorted[i] in s.results;
      }
    }
  }

  /** What ContainerResources returns: an empty list at once when no id is left, else what the pool
      returns. */
  function CallReturns<V>(ids: seq<string>, s: State<V>, sorted: seq<Item<V>>): Outcome<V> {
    if NonBlank(ids) == [] then Resources([]) else Returned(s, sorted)
  }

  /** The resource of every id, in order. */
  function Each<V>(ids: seq<string>, resourceOf: string -> V): (r: seq<V>)
    ensures |r| == |ids| && forall i :: 0 <= i < |r| ==> r[i] == resourceOf(ids[i])
  {
    seq(|ids|, i requires 0 <= i < |ids| => resourceOf(ids[i]))
  }

  lemma PoolReturns<V(!new)>(ids: seq<string>, resourceOf: string -> V, ss: seq<State<V>>, es: seq<Event>,
                             sorted: seq<Item<V>>)
    requires ids != [] && IsRun(ss, es, |ids|, FetchOf(ids, resourceOf)) && Done(ss[|es|])
    requires SortedForm(sorted, ss[|es|].results)
    ensures Returned(ss[|es|], sorted) == if ss[|es|].cancelled then ContextError else Resources(Each(ids, resourceOf))
  {
    var fetch := FetchOf(ids, resourceOf);
    ResultIsIndependentOfSchedule(ss, es, |ids|, fetch, sorted);
    assert seq(|ids|, i requires 0 <= i < |ids| => fetch(i)) == Each(ids, resourceOf);
  }

  /** The whole call, for a pool run on its non-blank ids: the resource of each of them in input
      order, or the context's error; never a part of the list. */
  lemma WholeCall<V(!new)>(ids: seq<string>, resourceOf: string -> V, ss: seq<State<V>>, es: seq<Event>,
                           sorted: seq<Item<V>>)
    requires |ss| == |es| + 1
    requires NonBlank(ids) != [] ==>
               && IsRun(ss, es, |NonBlank(ids)|, FetchOf(NonBlank(ids), resourceOf)) && Done(ss[|es|])
               && SortedForm(sorted, ss[|es|].results)
    ensures CallReturns(ids, ss[|es|], sorted) ==
            if NonBlank(ids) != [] && ss[|es|].cancelled then ContextError
            else Resources(Each(NonBlank(ids), resourceOf))
  {
    if NonBlank(ids) != [] {
      PoolReturns(NonBlank(ids), resourceOf, ss, es, sorted);
    } else {
      assert Each([], resourceOf) == [];
    }
  }

  /** The i-th fetch asks for the i-th id. */
  function FetchOf<V>(ids: seq<string>, resourceOf: string -> V): nat -> V
    requires ids != []
  {
    (i: nat) => resourceOf(if i < |ids| then ids[i] else ids[0])
  }

  /** The context ends exactly by a failed fetch or the caller's own cancel. */
  lemma {:induction false} CancelledByFailureOrCaller<V(!new)>(ss: seq<State<V>>, es: seq<Event>, n: nat,
                                                               fetch: nat -> V, k: nat)
    requires IsRun(ss, es, n, fetch) && k <= |es|
    ensures ss[k].cancelled <==> exists i :: 0 <= i < k && (es[i].FetchFail? || es[i].CallerCancels?)
  {
    if k > 0 {
      CancelledByFailureOrCaller(ss, es, n, fetch, k - 1);
      RunInv(ss, es, n, fetch, k - 1);
      assert Enabled(ss[k - 1], es[k - 1], n) && ss[k] == Step(ss[k - 1], es[k - 1], n, fetch);
    }
  }

  /** So if no fetch fails and nobody cancels, the list is complete. */
  lemma {:induction false} NoFailureNoError<V(!new)>(ids: seq<string>, resourceOf: string -> V, ss: seq<State<V>>,
                                                     es: seq<Event>, sorted: seq<Item<V>>)
    requires ids != [] && IsRun(ss, es, |ids|, FetchOf(ids, resourceOf)) && Done(ss[|es|])
    requires SortedForm(sorted, ss[|es|].results)
    requires forall i :: 0 <= i < |es| ==> !es[i].FetchFail? && !es[i].CallerCancels?
    ensures Returned(ss[|es|], sorted) == Resources(Each(ids, resourceOf))
  {
    PoolReturns(ids, resourceOf, ss, es, sorted);
    CancelledByFailureOrCaller(ss, es, |ids|, FetchOf(ids, resourceOf), |es|);
  }

  // ---- Every schedule ends ----------------------------------------------------------

  function Weight(w: Worker): nat {
    match w
    case Idle => 1
    case Received(_) => 3
    case Fetching(_) => 2
    case Exited => 0
  }

  function TotalWeight(ws: seq<Worker>): nat {
    if ws == [] then 0 else Weight(ws[0]) + TotalWeight(ws[1..])
  }

  function Remaining<V>(s: State<V>, n: nat): int {
    4 * (n - s.sent) + 3 * |s.queue| + TotalWeight(s.workers)
    + (if s.closed then 0 else 1) + (if s.cancelled then 0 else 1)
  }

  lemma {:induction false} TotalWeightUpdate(ws: seq<Worker>, i: nat, w: Worker)
    requires i < |ws|
    ensures TotalWeight(ws[i := w]) == TotalWeight(ws) - Weight(ws[i]) + Weight(w)
  {
    if i == 0 {
      assert ws[0 := w][1..] == ws[1..];
    } else {
      assert ws[i := w][1..] == ws[1..][i - 1 := w];
      TotalWeightUpdate(ws[1..], i - 1, w);
    }
  }

  lemma StepDecreases<V(!new)>(s: State<V>, e: Event, n: nat, fetch: nat -> V)
    requires Inv(s, n, fetch) && Enabled(s, e, n)
    ensures 0 <= Remaining(Step(s, e, n, fetch), n) < Remaining(s, n)
  {
    StepKeepsInv(s, e, n, fetch);
    if e.Receive? || e.CheckContext? || e.FetchOk? || e.FetchFail? || e.Finish? {
      TotalWeightUpdate(s.workers, e.worker, Step(s, e, n, fetch).workers[e.worker]);
    }
  }

  lemma {:induction false} RemainingAfter<V(!new)>(ss: seq<State<V>>, es: seq<Event>, n: nat, fetch: nat -> V, k: nat)
    requires IsRun(ss, es, n, fetch) && k <= |es|
    ensures 0 <= Remaining(ss[k], n) <= Remaining(ss[0], n) - k
  {
    RunInv(ss, es, n, fetch, k);
    if k > 0 {
      RemainingAfter(ss, es, n, fetch, k - 1);
      RunInv(ss, es, n, fetch, k - 1);
      StepDecreases(ss[k - 1], es[k - 1], n, fetch);
    }
  }

  lemma IdleWeight(ws: seq<Worker>)
    requires forall i :: 0 <= i < |ws| ==> ws[i].Idle?
    ensures TotalWeight(ws) == |ws|
  {
  }

  /** No schedule runs forever: a run has at most 4n + 8 steps... */
  lemma RunsAreShort<V(!new)>(ss: seq<State<V>>, es: seq<Event>, n: nat, fetch: nat -> V)
    requires IsRun(ss, es, n, fetch)
    ensures |es| <= 4 * n + 8
  {
    RemainingAfter(ss, es, n, fetch, |es|);
    IdleWeight(ss[0].workers);
  }

  /** ... and never gets stuck before all workers are done: some goroutine of the pool can move. */
  lemma NeverStuck<V(!new)>(s: State<V>, n: nat, fetch: nat -> V) returns (e: Event)
    requires Inv(s, n, fetch) && !Done(s)
    ensures Enabled(s, e, n) && !e.CallerCancels?
  {
    if s.sent < n {
      return Send;
    }
    if !s.closed {
      return Close;
    }
    var w: nat :| w < |s.workers| && !s.workers[w].Exited?;
    match s.workers[w] {
      case Idle => return if s.queue != [] then Receive(w) else Finish(w);
      case Received(_) => return CheckContext(w);
      case Fetching(_) => return FetchOk(w);
    }
  }
}

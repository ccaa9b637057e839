/** The table of failed PIN attempts per client of internal/server/pin_guard.go: locks that grow with
    the failures, periodic pruning, and eviction of the least recently updated entry at capacity.
    `Step` is one operation under the mutex. The operations read the clock before they take the
    mutex, so the readings of a run come in any order. Times are nanoseconds; a zero time is None. */
module PinAttempts {
  import opened Basics
  import opened TokenBucket

  const MINUTE := 60_000_000_000
  const RETENTION := 86_400_000_000_000
  const PRUNE_EVERY := 600_000_000_000
  const MAX_ENTRIES := 4096
  const MAX_LOCK := 1_920_000_000_000

  datatype Entry = Entry(failures: nat, lockedTo: Option<int>, updatedAt: int)

  datatype State = State(attempts: map<string, Entry>, lastPruned: Option<int>)

  /** `victim` is the entry the search for the oldest ends with; map order decides between equals. */
  datatype Event =
    | Before(ip: string, at: int)
    | Success(ip: string, at: int)
    | Failure(ip: string, at: int, victim: string)

  function Shift(steps: nat): nat {
    if steps == 0 then 1 else 2 * Shift(steps - 1)
  }

  /** How long the `failures`-th failure in a row locks a client out, from the fifth on. */
  function LockFor(failures: nat): int
    requires failures >= 5
  {
    Shift(if failures - 5 > 5 then 5 else failures - 5) * MINUTE
  }

  lemma LockForGrows(failures: nat)
    requires failures >= 5
    ensures MINUTE <= LockFor(failures) <= LockFor(failures + 1) <= MAX_LOCK
  {
    assert Shift(0) == 1 && Shift(1) == 2 && Shift(2) == 4;
    assert Shift(3) == 8 && Shift(4) == 16 && Shift(5) == 32;
    if failures < 10 {
      assert failures in {5, 6, 7, 8, 9};
    }
  }

  predicate Expired(e: Entry, now: int) {
    now - e.updatedAt > RETENTION
  }

  function ExpiredClients(m: map<string, Entry>, at: int): set<string> {
    set ip | ip in m && Expired(m[ip], at)
  }

  /** prunePinAttemptsLocked */
  function Pruned(s: State, at: int): State {
    if s.attempts == map[] then s.(lastPruned := Some(at))
    else if |s.attempts| < MAX_ENTRIES && s.lastPruned.Some? && at - s.lastPruned.value < PRUNE_EVERY then s
    else s.(attempts := s.attempts - ExpiredClients(s.attempts, at),
            lastPruned := Some(at))
  }

  ghost predicate Oldest(m: map<string, Entry>, ip: string) {
    ip in m && forall other :: other in m ==> m[ip].updatedAt <= m[other].updatedAt
  }

  /** Whether recording a failure of `ip` first evicts an entry. */
  predicate Evicts(m: map<string, Entry>, ip: string) {
    ip !in m && |m| >= MAX_ENTRIES
  }

  predicate Locked(m: map<string, Entry>, ip: string, now: int) {
    ip in m && m[ip].lockedTo.Some? && m[ip].lockedTo.value > now
  }

  function Failed(e: Option<Entry>, at: int): Entry {
    var failures := if e.Some? then e.value.failures + 1 else 1;
    var lockedTo := if e.Some? then e.value.lockedTo else None;
    Entry(failures, if failures >= 5 then Some(at + LockFor(failures)) else lockedTo, at)
  }

  function Find(m: map<string, Entry>, ip: string): Option<Entry> {
    if ip in m then Some(m[ip]) else None
  }

  function MakeRoom(m: map<string, Entry>, ip: string, victim: string): map<string, Entry> {
    if Evicts(m, ip) then m - {victim} else m
  }

  ghost predicate Enabled(s: State, e: Event) {
    && e.ip != ""
    && (e.Failure? && Evicts(Pruned(s, e.at).attempts, e.ip) ==> Oldest(Pruned(s, e.at).attempts, e.victim))
  }

  function Step(s: State, e: Event): State {
    match e
    case Before(_, at) => Pruned(s, at)
    case Success(ip, _) => s.(attempts := s.attempts - {ip})
    case Failure(ip, at, victim) =>
      var p := Pruned(s, at);
      var m := MakeRoom(p.attempts, ip, victim);
      p.(attempts := m[ip := Failed(Find(m, ip), at)])
  }

  predicate EntryOk(e: Entry) {
    e.failures >= 1 && e.lockedTo == if e.failures >= 5 then Some(e.updatedAt + LockFor(e.failures)) else None
  }

  ghost predicate Inv(s: State) {
    && |s.attempts| <= MAX_ENTRIES
    && "" !in s.attempts
    && forall ip :: ip in s.attempts ==> EntryOk(s.attempts[ip])
  }

  lemma SubmapSize<K, V>(small: map<K, V>, big: map<K, V>)
    requires small.Keys <= big.Keys
    ensures |small| <= |big|
  {
    assert |big.Keys| == |small.Keys| + |big.Keys - small.Keys|;
  }

  lemma PruneKeepsInv(s: State, at: int)
    requires Inv(s)
    ensures Inv(Pruned(s, at))
  {
    SubmapSize(Pruned(s, at).attempts, s.attempts);
  }

  lemma RoomForOne(m: map<string, Entry>, ip: string, victim: string, e: Entry)
    requires |m| <= MAX_ENTRIES && (Evicts(m, ip) ==> victim in m)
    ensures |MakeRoom(m, ip, victim)[ip := e]| <= MAX_ENTRIES
  {
    var room := MakeRoom(m, ip, victim);
    if Evicts(m, ip) {
      assert room.Keys == m.Keys - {victim};
    }
    assert room[ip := e].Keys == room.Keys + {ip};
  }

  lemma StepKeepsInv(s: State, e: Event)
    requires Inv(s) && Enabled(s, e)
    ensures Inv(Step(s, e))
  {
    PruneKeepsInv(s, e.at);
    if e.Success? {
      SubmapSize(s.attempts - {e.ip}, s.attempts);
    }
    if e.Failure? {
      var p := Pruned(s, e.at);
      RoomForOne(p.attempts, e.ip, e.victim, Failed(Find(MakeRoom(p.attempts, e.ip, e.victim), e.ip), e.at));
    }
  }

  ghost predicate IsRun(ss: seq<State>, es: seq<Event>) {
    && |ss| == |es| + 1
    && ss[0].attempts == map[]
    && forall i {:trigger Enabled(ss[i], es[i])} :: 0 <= i < |es| ==>
         Enabled(ss[i], es[i]) && ss[i + 1] == Step(ss[i], es[i])
  }

  lemma {:induction false} RunInv(ss: seq<State>, es: seq<Event>, n: nat)
    requires IsRun(ss, es) && n <= |es|
    ensures Inv(ss[n])
  {
    if n == 0 {
      EmptyKeepsInv(ss[0]);
    } else {
      RunInv(ss, es, n - 1);
      NextInRun(ss, es, n - 1);
    }
  }

  lemma {:induction false} NextInRun(ss: seq<State>, es: seq<Event>, n: nat)
    requires IsRun(ss, es) && n < |es| && Inv(ss[n])
    ensures Inv(ss[n + 1])
  {
    assert Enabled(ss[n], es[n]);
    NextKeepsInv(ss[n], es[n], ss[n + 1]);
  }

  lemma {:induction false} EmptyKeepsInv(s: State)
    requires s.attempts == map[]
    ensures Inv(s)
  {
  }

  lemma {:induction false} NextKeepsInv(s: State, e: Event, s': State)
    requires Inv(s) && Enabled(s, e) && s' == Step(s, e)
    ensures Inv(s')
  {
    StepKeepsInv(s, e);
  }

  /** Over every run: never more than 4096 entries, and no lock reaches further than 32 minutes past
      its entry's last update, so pruning after a day never drops a live lock. */
  lemma TableBounds(ss: seq<State>, es: seq<Event>, n: nat)
    requires IsRun(ss, es) && n <= |es|
    ensures |ss[n].attempts| <= MAX_ENTRIES
    ensures forall ip :: ip in ss[n].attempts && ss[n].attempts[ip].lockedTo.Some? ==>
              ss[n].attempts[ip].lockedTo.value <= ss[n].attempts[ip].updatedAt + MAX_LOCK
    ensures forall ip, at :: Locked(ss[n].attempts, ip, at) ==>
              ip in Pruned(ss[n], at).attempts && Pruned(ss[n], at).attempts[ip] == ss[n].attempts[ip]
  {
    RunInv(ss, es, n);
    forall ip | ip in ss[n].attempts && ss[n].attempts[ip].lockedTo.Some?
      ensures ss[n].attempts[ip].lockedTo.value <= ss[n].attempts[ip].updatedAt + MAX_LOCK
    {
      LockForGrows(ss[n].attempts[ip].failures);
    }
  }

  /** The two ways an entry with a live lock leaves the table: its client enters the right PIN, or
      it is the least recently updated of a full table when a new client fails. */
  lemma WhoRemovesALock(ss: seq<State>, es: seq<Event>, n: nat, ip: string)
    requires IsRun(ss, es) && n < |es|
    requires Locked(ss[n].attempts, ip, es[n].at)
    ensures ip !in ss[n + 1].attempts <==>
              || es[n] == Success(ip, es[n].at)
              || (es[n].Failure? && es[n].victim == ip && Evicts(Pruned(ss[n], es[n].at).attempts, es[n].ip))
    ensures ip !in ss[n + 1].attempts && es[n].Failure? ==>
              && |Pruned(ss[n], es[n].at).attempts| == MAX_ENTRIES
              && Oldest(Pruned(ss[n], es[n].at).attempts, ip)
  {
    TableBounds(ss, es, n);
    RunInv(ss, es, n);
    assert Enabled(ss[n], es[n]);
    SubmapSize(Pruned(ss[n], es[n].at).attempts, ss[n].attempts);
  }

  // ---- How long a lock holds -------------------------------------------------------

  predicate LockedUntil(s: State, ip: string, until: int) {
    ip in s.attempts && s.attempts[ip].lockedTo.Some? && until <= s.attempts[ip].lockedTo.value
  }

  /** A failure of the client whose clock was read too long ago: it locks from its own reading. */
  predicate Shortens(s: State, e: Event, ip: string, until: int) {
    && e.Failure? && e.ip == ip
    && ip in s.attempts && s.attempts[ip].failures >= 5
    && e.at + LockFor(s.attempts[ip].failures + 1) < until
  }

  lemma StepKeepsLock(s: State, e: Event, ip: string, until: int)
    requires Inv(s) && Enabled(s, e) && ip in Step(s, e).attempts
    requires LockedUntil(s, ip, until) && e.at < until
    ensures LockedUntil(Step(s, e), ip, until) <==> !Shortens(s, e, ip, until)
  {
    var entry := s.attempts[ip];
    LockForGrows(entry.failures);
    assert ip in Pruned(s, e.at).attempts && Pruned(s, e.at).attempts[ip] == entry;
  }

  /** While nothing of the two kinds above removes the entry, a lock lasts at least until the time it
      was given exactly if no failure of its client shortens it; and as long as it lasts every
      attempt of the client before that time is refused. */
  lemma LockHolds(ss: seq<State>, es: seq<Event>, i: nat, j: nat, ip: string, until: int)
    requires IsRun(ss, es) && i <= j <= |es|
    requires LockedUntil(ss[i], ip, until)
    requires forall k :: i <= k <= j ==> ip in ss[k].attempts
    requires forall k :: i <= k < j ==> es[k].at < until
    ensures (forall k :: i <= k <= j ==> LockedUntil(ss[k], ip, until))
            <==> (forall k :: i <= k < j ==> !Shortens(ss[k], es[k], ip, until))
    ensures LockedUntil(ss[j], ip, until) ==> forall at :: at < until ==> Locked(Pruned(ss[j], at).attempts, ip, at)
  {
    TableBounds(ss, es, j);
    if forall k :: i <= k < j ==> !Shortens(ss[k], es[k], ip, until) {
      forall k | i <= k <= j
        ensures LockedUntil(ss[k], ip, until)
      {
        LockStays(ss, es, i, k, ip, until);
      }
    }
    if forall k :: i <= k <= j ==> LockedUntil(ss[k], ip, until) {
      forall k | i <= k < j
        ensures !Shortens(ss[k], es[k], ip, until)
      {
        RunInv(ss, es, k);
        assert LockedUntil(ss[k], ip, until) && LockedUntil(ss[k + 1], ip, until);
        assert Enabled(ss[k], es[k]) && ss[k + 1] == Step(ss[k], es[k]);
        StepKeepsLock(ss[k], es[k], ip, until);
      }
    }
  }

  lemma {:induction false} LockStays(ss: seq<State>, es: seq<Event>, i: nat, j: nat, ip: string, until: int)
    requires IsRun(ss, es) && i <= j <= |es|
    requires LockedUntil(ss[i], ip, until)
    requires forall k :: i <= k <= j ==> ip in ss[k].attempts
    requires forall k :: i <= k < j ==> es[k].at < until && !Shortens(ss[k], es[k], ip, until)
    ensures LockedUntil(ss[j], ip, until)
    decreases j
  {
    if i < j {
      LockStays(ss, es, i, j - 1, ip, until);
      RunInv(ss, es, j - 1);
      assert Enabled(ss[j - 1], es[j - 1]) && ss[j] == Step(ss[j - 1], es[j - 1]);
      StepKeepsLock(ss[j - 1], es[j - 1], ip, until);
    }
  }

  /** A failure read no earlier than the client's last one shortens no lock. */
  lemma PromptFailureKeepsLock(ss: seq<State>, es: seq<Event>, n: nat, ip: string, until: int)
    requires IsRun(ss, es) && n < |es| && LockedUntil(ss[n], ip, until)
    requires ss[n].attempts[ip].updatedAt <= es[n].at
    ensures !Shortens(ss[n], es[n], ip, until)
  {
    RunInv(ss, es, n);
    LockForGrows(ss[n].attempts[ip].failures);
  }

  function Failures(n: nat): State {
    State(if n == 0 then map[] else map["c" := Entry(n, if n >= 5 then Some(100 + LockFor(n)) else None, 100)],
          if n == 0 then None else Some(100))
  }

  /** `n` failures of one client, all read at 100. */
  lemma {:induction false} FailuresAt100(n: nat) returns (ss: seq<State>, es: seq<Event>)
    ensures IsRun(ss, es) && |es| == n && ss[n] == Failures(n)
  {
    if n == 0 {
      return [Failures(0)], [];
    }
    ss, es := FailuresAt100(n - 1);
    var e := Failure("c", 100, "");
    NextFailure(n - 1);
    OneMoreStep(ss, es, e);
    ss, es := ss + [Failures(n)], es + [e];
  }

  lemma NextFailure(n: nat)
    ensures var e := Failure("c", 100, "");
            Enabled(Failures(n), e) && Step(Failures(n), e) == Failures(n + 1)
  {
    var s := Failures(n);
    assert |s.attempts| <= 1;
    NothingExpired(s, 100);
    assert Pruned(s, 100) == s.(lastPruned := Some(100));
  }

  lemma {:induction false} NothingExpired(s: State, at: int)
    requires forall ip :: ip in s.attempts ==> !Expired(s.attempts[ip], at)
    ensures Pruned(s, at).attempts == s.attempts
  {
    assert ExpiredClients(s.attempts, at) == {};
  }

  lemma OneMoreStep(ss: seq<State>, es: seq<Event>, e: Event)
    requires IsRun(ss, es) && Enabled(ss[|es|], e)
    ensures IsRun(ss + [Step(ss[|es|], e)], es + [e])
  {
    var ss', es' := ss + [Step(ss[|es|], e)], es + [e];
    forall i | 0 <= i < |es'|
      ensures Enabled(ss'[i], es'[i]) && ss'[i + 1] == Step(ss'[i], es'[i])
    {
      if i < |es| {
        assert ss'[i] == ss[i] && es'[i] == es[i] && ss'[i + 1] == ss[i + 1];
      } else {
        assert ss'[i] == ss[i] && es'[i] == e;
      }
    }
  }

  /** Two failures that race: the one that read the clock earlier gets the mutex later and takes back
      part of the lock. */
  lemma LateFailureShortens() returns (ss: seq<State>, es: seq<Event>)
    ensures IsRun(ss, es) && |es| == 11 && es[10] == Failure("c", 50, "")
    ensures LockedUntil(ss[10], "c", 100 + MAX_LOCK)
    ensures "c" in ss[11].attempts && ss[11].attempts["c"].lockedTo == Some(50 + MAX_LOCK)
  {
    ss, es := FailuresAt100(10);
    var late := Failure("c", 50, "");
    LockForGrows(10);
    assert LockFor(10) == MAX_LOCK && LockFor(11) == MAX_LOCK by {
      assert Shift(3) == 8 && Shift(5) == 4 * Shift(3);
    }
    assert |ss[10].attempts| == 1;
    assert Pruned(ss[10], 50) == ss[10];
    OneMoreStep(ss, es, late);
    ss, es := ss + [Step(ss[10], late)], es + [late];
  }

  // ---- What an entry says -----------------------------------------------------------------

  /** Minutes of lock after so many failures in a row. */
  function Minutes(failures: nat): nat
    requires failures >= 5
  {
    if failures == 5 then 1 else if failures == 6 then 2 else if failures == 7 then 4
    else if failures == 8 then 8 else if failures == 9 then 16 else 32
  }

  lemma {:induction false} LockInMinutes(failures: nat)
    requires failures >= 5
    ensures LockFor(failures) == Minutes(failures) * 60_000_000_000
  {
    assert Shift(0) == 1 && Shift(1) == 2 && Shift(2) == 4 && Shift(3) == 8;
    assert Shift(4) == 16 && Shift(5) == 32;
  }

  /** In every state of every run a client is locked from its fifth failure on, from its last failure for
      1, 2, 4, 8, 16 and from then on 32 minutes, and never before. */
  lemma {:induction false} LockedFromTheFifth(ss: seq<State>, es: seq<Event>, n: nat, ip: string)
    requires IsRun(ss, es) && n <= |es| && ip in ss[n].attempts
    ensures var e := ss[n].attempts[ip];
            && (e.lockedTo.Some? <==> e.failures >= 5)
            && (e.failures >= 5 ==> e.lockedTo.value == e.updatedAt + Minutes(e.failures) * 60_000_000_000)
  {
    RunInv(ss, es, n);
    if ss[n].attempts[ip].failures >= 5 {
      LockInMinutes(ss[n].attempts[ip].failures);
    }
  }

  /** The failures of a client among events `i` to `j`. */
  function FailuresOf(es: seq<Event>, ip: string, i: nat, j: nat): nat
    requires i <= j <= |es|
    decreases j
  {
    if i == j then 0
    else FailuresOf(es, ip, i, j - 1) + if es[j - 1].Failure? && es[j - 1].ip == ip then 1 else 0
  }

  /** From its first failure on, for as long as its entry is kept, a client's failures are counted one
      by one, and the last of them dates the entry. */
  lemma {:induction false} FailuresAreCounted(ss: seq<State>, es: seq<Event>, i: nat, j: nat, ip: string)
    requires IsRun(ss, es) && i < j <= |es| && es[i].Failure? && es[i].ip == ip
    requires ip !in Pruned(ss[i], es[i].at).attempts
    requires forall k :: i < k < j ==> ip in Pruned(ss[k], es[k].at).attempts
    requires forall k :: i < k <= j ==> ip in ss[k].attempts
    ensures ip in ss[j].attempts && ss[j].attempts[ip].failures == FailuresOf(es, ip, i, j)
    ensures es[j - 1].Failure? && es[j - 1].ip == ip ==> ss[j].attempts[ip].updatedAt == es[j - 1].at
    decreases j
  {
    if j == i + 1 {
      assert Enabled(ss[i], es[i]) && ss[j] == Step(ss[i], es[i]);
      assert FailuresOf(es, ip, i, i) == 0;
    } else {
      FailuresAreCounted(ss, es, i, j - 1, ip);
      assert Enabled(ss[j - 1], es[j - 1]);
      CountStep(ss[j - 1], es[j - 1], ss[j], ip);
    }
  }

  lemma {:induction false} CountStep(s: State, e: Event, s': State, ip: string)
    requires Enabled(s, e) && s' == Step(s, e) && ip in Pruned(s, e.at).attempts && ip in s'.attempts
    ensures ip in s.attempts
    ensures if e.Failure? && e.ip == ip
            then s'.attempts[ip].failures == s.attempts[ip].failures + 1 && s'.attempts[ip].updatedAt == e.at
            else s'.attempts[ip] == s.attempts[ip]
  {
  }

  /** A success forgets the client: its entry is gone until it fails again, and that failure is its
      first, without a lock. */
  lemma {:induction false} SuccessForgets(ss: seq<State>, es: seq<Event>, i: nat, j: nat, ip: string)
    requires IsRun(ss, es) && i < j <= |es| && es[i].Success? && es[i].ip == ip
    requires forall k :: i < k < j ==> !(es[k].Failure? && es[k].ip == ip)
    ensures ip !in ss[j].attempts
    ensures j < |es| && es[j].Failure? && es[j].ip == ip ==>
              ip in ss[j + 1].attempts && ss[j + 1].attempts[ip] == Entry(1, None, es[j].at)
    decreases j
  {
    if j > i + 1 {
      SuccessForgets(ss, es, i, j - 1, ip);
    }
    assert Enabled(ss[j - 1], es[j - 1]) && ss[j] == Step(ss[j - 1], es[j - 1]);
    if j < |es| {
      assert Enabled(ss[j], es[j]) && ss[j + 1] == Step(ss[j], es[j]);
    }
  }

  /** Pruning is done at most every ten minutes, or when the table is full, and then drops exactly the
      entries not updated for a day. */
  lemma {:induction false} PruningIsComplete(s: State, at: int)
    ensures var due := |s.attempts| >= 4096 || s.lastPruned.None? || at - s.lastPruned.value >= 600_000_000_000;
            forall ip :: ip in Pruned(s, at).attempts <==>
              ip in s.attempts && (due ==> at - s.attempts[ip].updatedAt <= 86_400_000_000_000)
  {
  }

  // ---- Who the client is --------------------------------------------------------

  /** The text of a valid netip.Addr, which is never empty. */
  type Address = s: string | s != "" witness "::"

  /** clientIPFromRequest. `peer` is the connection's address if it parses, `hops` the forwarded-for
      header split at commas, each part parsed, or none when the header is blank. */
  method ClientAddress(peer: Option<Address>, hops: Option<seq<Option<Address>>>, trusted: Address -> bool)
    returns (r: string)
    ensures r != ""
    ensures peer.None? ==> r == "unknown"
    ensures peer.Some? && (!trusted(peer.value) || hops.None? || None in hops.value) ==> r == peer.value
    ensures peer.Some? && trusted(peer.value) && hops.Some? && None !in hops.value ==>
              var chain := hops.value + [peer];
              exists k :: 0 <= k < |chain| && Some(r) == chain[k]
                && (forall m :: k < m < |chain| ==> trusted(chain[m].value))
                && (k == 0 || !trusted(chain[k].value))
  {
    if peer.None? {
      return "unknown";
    }
    if !trusted(peer.value) || hops.None? {
      return peer.value;
    }
    var forwarded: seq<Address> := [];
    for i := 0 to |hops.value|
      invariant |forwarded| == i
      invariant forall m :: 0 <= m < i ==> hops.value[m] == Some(forwarded[m])
    {
      if hops.value[i].None? {
        return peer.value;
      }
      forwarded := forwarded + [hops.value[i].value];
    }
    ghost var chain := hops.value + [peer];
    var candidate: Address := peer.value;
    var i := |forwarded|;
    while i > 0 && trusted(candidate)
      invariant 0 <= i <= |forwarded|
      invariant chain[i] == Some(candidate)
      invariant forall m :: i < m < |chain| ==> trusted(chain[m].value)
    {
      i := i - 1;
      candidate := forwarded[i];
    }
    assert Some(candidate) == chain[i];
    return candidate;
  }

  // ---- The map changed in place --------------------------------------------------

  class AttemptTable {
    var attempts: map<string, Entry>
    var lastPruned: Option<int>
    const budget: GlobalBudget

    constructor (now: int)
      ensures attempts == map[] && lastPruned == None && fresh(budget)
    {
      attempts := map[];
      lastPruned := None;
      budget := new GlobalBudget(now as real / 1_000_000_000.0);
    }

    ghost function Value(): State
      reads this
    {
      State(attempts, lastPruned)
    }

    method Prune(now: int)
      modifies this
      ensures Value() == Pruned(old(Value()), now)
    {
      if attempts == map[] {
        lastPruned := Some(now);
        return;
      }
      if |attempts| < MAX_ENTRIES && lastPruned.Some? && now - lastPruned.value < PRUNE_EVERY {
        return;
      }
      var rest := attempts.Keys;
      while rest != {}
        invariant rest <= attempts.Keys <= old(attempts).Keys
        invariant forall ip :: ip in attempts ==> attempts[ip] == old(attempts)[ip]
        invariant forall ip :: ip in old(attempts) && ip in rest ==> ip in attempts
        invariant forall ip :: ip in old(attempts) && ip !in rest ==>
                    (ip in attempts <==> !Expired(old(attempts)[ip], now))
      {
        var ip :| ip in rest;
        rest := rest - {ip};
        if now - attempts[ip].updatedAt > RETENTION {
          attempts := attempts - {ip};
        }
      }
      lastPruned := Some(now);
    }

    /** ensurePinAttemptCapacityLocked; the empty key is its "none found yet". */
    method EnsureCapacity() returns (ghost victim: string)
      requires "" !in attempts
      modifies this`attempts
      ensures old(|attempts|) < MAX_ENTRIES ==> attempts == old(attempts)
      ensures old(|attempts|) >= MAX_ENTRIES ==> Oldest(old(attempts), victim) && attempts == old(attempts) - {victim}
    {
      victim := "";
      if |attempts| < MAX_ENTRIES {
        return;
      }
      var oldest, oldestAt := "", 0;
      var rest := attempts.Keys;
      while rest != {}
        invariant rest <= attempts.Keys
        invariant oldest == "" ==> rest == attempts.Keys
        invariant oldest != "" ==> oldest in attempts && oldestAt == attempts[oldest].updatedAt
        invariant oldest != "" ==> forall ip :: ip in attempts && ip !in rest ==> oldestAt <= attempts[ip].updatedAt
      {
        var ip :| ip in rest;
        rest := rest - {ip};
        if oldest == "" || attempts[ip].updatedAt < oldestAt {
          oldest, oldestAt := ip, attempts[ip].updatedAt;
        }
      }
      assert attempts.Keys != {};
      victim := oldest;
      if oldest != "" {
        attempts := attempts - {oldest};
      }
    }

    /** pinBeforeVerify: a locked client is refused without touching the global budget. */
    method BeforeVerify(ip: string, now: int) returns (allowed: bool, retryAfter: int)
      modifies this, budget
      ensures Value() == Step(old(Value()), Before(ip, now))
      ensures var p := Pruned(old(Value()), now).attempts;
              if Locked(p, ip, now) then
                && !allowed && budget.Value() == old(budget.Value())
                && retryAfter == if p[ip].lockedTo.value - now < 1_000_000_000 then 1
                                 else (p[ip].lockedTo.value - now) / 1_000_000_000
              else
                && allowed == Admits(old(budget.Value()), now as real / 1_000_000_000.0)
                && budget.Value() == Attempt(old(budget.Value()), now as real / 1_000_000_000.0)
                && retryAfter == if allowed then 0 else Wait(old(budget.Value()), now as real / 1_000_000_000.0)
    {
      Prune(now);
      if ip in attempts && attempts[ip].lockedTo.Some? && attempts[ip].lockedTo.value > now {
        var seconds := (attempts[ip].lockedTo.value - now) / 1_000_000_000;
        if seconds < 1 {
          seconds := 1;
        }
        return false, seconds;
      }
      allowed, retryAfter := budget.Consume(now as real / 1_000_000_000.0);
    }

    method OnSuccess(ip: string, now: int)
      modifies this
      ensures Value() == Step(old(Value()), Success(ip, now))
    {
      attempts := attempts - {ip};
    }

    /** pinOnVerifyFailure */
    method OnFailure(ip: string, now: int) returns (lockApplied: bool, retryAfter: int, ghost victim: string)
      requires ip != "" && Inv(Value())
      modifies this
      ensures Enabled(old(Value()), Failure(ip, now, victim))
      ensures Value() == Step(old(Value()), Failure(ip, now, victim))
      ensures Inv(Value())
      ensures lockApplied <==> attempts[ip].failures >= 5
      ensures lockApplied ==> attempts[ip].lockedTo == Some(now + retryAfter * 1_000_000_000)
    {
      PruneKeepsInv(Value(), now);
      victim := "";
      Prune(now);
      if ip !in attempts {
        victim := EnsureCapacity();
      }
      StepKeepsInv(old(Value()), Failure(ip, now, victim));
      var entry := if ip in attempts then attempts[ip] else Entry(0, None, now);
      entry, lockApplied, retryAfter := CountFailure(entry, now);
      attempts := attempts[ip := entry];
    }

    /** The part of pinOnVerifyFailure that works on the client's entry. */
    static method CountFailure(was: Entry, now: int) returns (entry: Entry, lockApplied: bool, retryAfter: int)
      ensures entry == Failed(Some(was), now)
      ensures lockApplied <==> entry.failures >= 5
      ensures lockApplied ==> entry.lockedTo == Some(now + retryAfter * 1_000_000_000)
    {
      entry := was.(failures := was.failures + 1, updatedAt := now);
      lockApplied, retryAfter := false, 0;
      if entry.failures >= 5 {
        lockApplied := true;
        var steps := entry.failures - 5;
        if steps > 5 {
          steps := 5;
        }
        var lockFor := Shift(steps) * MINUTE;
        entry := entry.(lockedTo := Some(now + lockFor));
        retryAfter := Shift(steps) * 60;
      }
    }
  }
}

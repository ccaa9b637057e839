/** The per-server scan states of internal/server/server.go. A state is kept under a key made of
    the server's kind and name. Times are nanoseconds; Go's zero time is 0 and every clock reading
    is later. */
module ScanStates {
  import opened Basics
  import opened Text

  datatype Phase = Idle | Pending | Scanning | Updating | Done | Cancelled | Error

  datatype ScanState = ScanState(phase: Phase, startedAt: int, finishedAt: int)

  type States = map<string, ScanState>

  predicate Active(p: Phase) {
    p.Pending? || p.Scanning? || p.Updating?
  }

  predicate Terminal(p: Phase) {
    p.Done? || p.Cancelled? || p.Error?
  }

  function ScanKey(local: bool, name: string): string {
    (if local then "local:" else "remote:") + if TrimSpace(name) == "" then "unknown" else name
  }

  /** Two servers share a state only if they are of one kind and have one name, up to blank names. */
  lemma ScanKeyTellsApart(local: bool, name: string, local': bool, name': string)
    requires ScanKey(local, name) == ScanKey(local', name')
    ensures local == local'
    ensures name == name' || (name == "unknown" && TrimSpace(name') == "")
            || (TrimSpace(name) == "" && name' == "unknown") || TrimSpace(name) == TrimSpace(name') == ""
  {
    var n := if TrimSpace(name) == "" then "unknown" else name;
    var n' := if TrimSpace(name') == "" then "unknown" else name';
    assert ScanKey(local, name)[0] == if local then 'l' else 'r';
    assert ScanKey(local', name')[0] == if local' then 'l' else 'r';
    var prefix := |(if local then "local:" else "remote:")|;
    assert ScanKey(local, name)[prefix..] == n && ScanKey(local', name')[prefix..] == n';
  }

  function At(states: States, key: string): ScanState {
    if key in states then states[key] else ScanState(Idle, 0, 0)
  }

  function Written(current: ScanState, phase: Phase, now: int): ScanState {
    match phase
    case Pending | Scanning | Updating => ScanState(phase, now, 0)
    case Done | Cancelled | Error =>
      ScanState(phase, if current.startedAt == 0 then now else current.startedAt, now)
    case Idle => ScanState(phase, 0, 0)
  }

  /** Every key of the configuration goes back to idle. */
  function Reset(states: States, keys: set<string>): States {
    states + map key | key in keys :: ScanState(Idle, 0, 0)
  }

  function CancelActive(states: States, now: int): States {
    map key | key in states ::
      if Active(states[key].phase) then Written(states[key], Cancelled, now) else states[key]
  }

  // ---- Runs -----------------------------------------------------------------------------

  /** One section under the lock. */
  datatype Event =
    | Write(key: string, phase: Phase, now: int)
    | ResetAll(keys: set<string>, now: int)
    | CancelAll(now: int)

  function Step(states: States, e: Event): States {
    match e
    case Write(key, phase, now) => states[key := Written(At(states, key), phase, now)]
    case ResetAll(keys, _) => Reset(states, keys)
    case CancelAll(now) => CancelActive(states, now)
  }

  function After(events: seq<Event>): States {
    if events == [] then map[] else Step(After(events[..|events| - 1]), events[|events| - 1])
  }

  /** The clock never goes back from one section to the next. */
  ghost predicate InOrder(events: seq<Event>) {
    && (forall i :: 0 <= i < |events| ==> 0 < events[i].now)
    && (forall i, j :: 0 <= i < j < |events| ==> events[i].now <= events[j].now)
  }

  /** An active state has a start and no end, a terminal one both in order, an idle one neither. */
  predicate WellTimed(s: ScanState) {
    && (Active(s.phase) ==> 0 < s.startedAt && s.finishedAt == 0)
    && (Terminal(s.phase) ==> 0 < s.startedAt <= s.finishedAt)
    && (s.phase.Idle? ==> s.startedAt == 0 && s.finishedAt == 0)
  }

  predicate Seen(s: ScanState, now: int) {
    WellTimed(s) && s.startedAt <= now && s.finishedAt <= now
  }

  ghost predicate AllSeen(states: States, now: int) {
    forall key :: key in states ==> Seen(states[key], now)
  }

  lemma StepKeepsSeen(states: States, e: Event, before: int)
    requires AllSeen(states, before) && before <= e.now && 0 < e.now
    ensures AllSeen(Step(states, e), e.now)
  {
    var next := Step(states, e);
    forall key | key in next
      ensures Seen(next[key], e.now)
    {
      assert key in states ==> Seen(states[key], before);
    }
  }

  lemma {:induction false} StatesAreWellTimed(events: seq<Event>)
    requires InOrder(events)
    ensures AllSeen(After(events), if events == [] then 0 else events[|events| - 1].now)
  {
    if events != [] {
      var n := |events| - 1;
      StatesAreWellTimed(events[..n]);
      StepKeepsSeen(After(events[..n]), events[n], if n == 0 then 0 else events[n - 1].now);
    }
  }

  // ---- Clocks read too early ---------------------------------------------------------

  ghost predicate AllWellTimed(states: States) {
    forall key :: key in states ==> WellTimed(states[key])
  }

  /** setScanStateKey reads the clock before it takes the lock, so a writer that waited writes a time
      older than what it finds. An event is late when it ends a scan that started after its reading. */
  ghost predicate Late(states: States, e: Event) {
    match e
    case Write(key, phase, now) => Terminal(phase) && now < At(states, key).startedAt
    case ResetAll(_, _) => false
    case CancelAll(now) => exists key :: key in states && Active(states[key].phase) && now < states[key].startedAt
  }

  lemma LateStep(states: States, e: Event)
    requires AllWellTimed(states) && 0 < e.now
    ensures AllWellTimed(Step(states, e)) <==> !Late(states, e)
  {
    var next := Step(states, e);
    match e {
      case Write(key, phase, now) =>
        assert next[key] == Written(At(states, key), phase, now);
      case ResetAll(_, _) =>
      case CancelAll(now) =>
        if key :| key in states && Active(states[key].phase) && now < states[key].startedAt {
          assert next[key] == Written(states[key], Cancelled, now);
        }
    }
  }

  ghost predicate NeverLate(events: seq<Event>, n: nat)
    requires n <= |events|
  {
    forall i :: 0 <= i < n ==> !Late(After(events[..i]), events[i])
  }

  lemma AfterOneMore(events: seq<Event>, n: nat)
    requires n < |events|
    ensures After(events[..n + 1]) == Step(After(events[..n]), events[n])
  {
    assert events[..n + 1][..n] == events[..n];
  }

  lemma {:induction false} NeverLateIsWellTimed(events: seq<Event>, n: nat)
    requires n <= |events| && (forall i :: 0 <= i < |events| ==> 0 < events[i].now) && NeverLate(events, n)
    ensures AllWellTimed(After(events[..n]))
  {
    if n > 0 {
      NeverLateIsWellTimed(events, n - 1);
      AfterOneMore(events, n - 1);
      LateStep(After(events[..n - 1]), events[n - 1]);
    }
  }

  /** On any clock readings, in whatever order, the states are well timed throughout a run exactly if
      no event of it is late. */
  lemma WellTimedUnlessLate(events: seq<Event>)
    requires forall i :: 0 <= i < |events| ==> 0 < events[i].now
    ensures (forall n :: 0 <= n <= |events| ==> AllWellTimed(After(events[..n]))) <==> NeverLate(events, |events|)
  {
    if NeverLate(events, |events|) {
      forall n | 0 <= n <= |events|
        ensures AllWellTimed(After(events[..n]))
      {
        NeverLateIsWellTimed(events, n);
      }
    }
    if forall n :: 0 <= n <= |events| ==> AllWellTimed(After(events[..n])) {
      forall i | 0 <= i < |events|
        ensures !Late(After(events[..i]), events[i])
      {
        assert AllWellTimed(After(events[..i])) && AllWellTimed(After(events[..i + 1]));
        AfterOneMore(events, i);
        LateStep(After(events[..i]), events[i]);
      }
    }
  }

  /** Two writers that race: the scan that read the clock at 2 is shown finished at 1. */
  lemma LateWriteEndsBeforeStart()
    ensures var events := [Write("local:a", Scanning, 2), Write("local:a", Done, 1)];
            After(events) == map["local:a" := ScanState(Done, 2, 1)] && !NeverLate(events, 2)
  {
    var events := [Write("local:a", Scanning, 2), Write("local:a", Done, 1)];
    assert events[..0] == [] && events[..2] == events;
    AfterOneMore(events, 0);
    AfterOneMore(events, 1);
    assert After(events[..1]) == map["local:a" := ScanState(Scanning, 2, 0)];
  }

  /** What a run last wrote under a key, if it was a phase that only a writer can give. */
  function LastWritten(events: seq<Event>, key: string): Option<Event> {
    if events == [] then None
    else
      var e := events[|events| - 1];
      if (e.Write? && e.key == key) || (e.ResetAll? && key in e.keys) then Some(e)
      else LastWritten(events[..|events| - 1], key)
  }

  predicate CancelledSince(events: seq<Event>, key: string) {
    events != []
    && var e := events[|events| - 1];
      !(e.Write? && e.key == key) && !(e.ResetAll? && key in e.keys)
      && (e.CancelAll? || CancelledSince(events[..|events| - 1], key))
  }

  /** The phase shown is the one last written, except that a stop request turns an active one, and
      only an active one, into cancelled for good. */
  lemma {:induction false} PhaseIsLastWritten(events: seq<Event>, key: string)
    ensures (key in After(events)) <==> LastWritten(events, key).Some?
    ensures match LastWritten(events, key)
            case Some(Write(_, phase, _)) =>
              At(After(events), key).phase
              == (if Active(phase) && CancelledSince(events, key) then Cancelled else phase)
            case _ => At(After(events), key).phase == Idle
  {
    if events != [] {
      PhaseIsLastWritten(events[..|events| - 1], key);
    }
  }

  /** After a stop request nothing is active, and what was keeps its start. */
  lemma NothingActiveAfterStop(states: States, now: int, key: string)
    requires key in states
    ensures var s := CancelActive(states, now)[key];
            && !Active(s.phase)
            && (if !Active(states[key].phase) then s == states[key]
                else s.phase == Cancelled && s.finishedAt == now
                     && (WellTimed(states[key]) ==> s.startedAt == states[key].startedAt))
  {
  }

  /** After a stop request nothing is active, in any run, until a writer starts the key again. */
  lemma {:induction false} StopHolds(events: seq<Event>, i: nat, key: string)
    requires i < |events| && events[i].CancelAll?
    requires forall j :: i < j < |events| ==> !(events[j].Write? && events[j].key == key && Active(events[j].phase))
    ensures !Active(At(After(events), key).phase)
  {
    var n := |events| - 1;
    if i < n {
      StopHolds(events[..n], i, key);
    }
  }

  /** An event leaves a key alone. */
  predicate Spares(e: Event, key: string) {
    && (e.Write? ==> e.key != key)
    && (e.ResetAll? ==> key !in e.keys)
    && !e.CancelAll?
  }

  lemma {:induction false} SparedIsKept(before: seq<Event>, more: seq<Event>, key: string)
    requires forall i :: 0 <= i < |more| ==> Spares(more[i], key)
    ensures At(After(before + more), key) == At(After(before), key)
    decreases |more|
  {
    if more == [] {
      assert before + more == before;
    } else {
      var n := |more| - 1;
      assert (before + more)[..|before + more| - 1] == before + more[..n];
      SparedIsKept(before, more[..n], key);
    }
  }

  lemma {:induction false} AfterWrite(before: seq<Event>, e: Event)
    requires e.Write?
    ensures At(After(before + [e]), e.key) == Written(At(After(before), e.key), e.phase, e.now)
  {
    assert (before + [e])[..|before|] == before;
  }

  /** The times of a scan: from the write that made it active to the write that ended it, in every run in
      which nothing touches its key in between. */
  lemma {:induction false} ScanTimes(before: seq<Event>, start: Event, more: seq<Event>, end: Event)
    requires start.Write? && Active(start.phase) && end.Write? && Terminal(end.phase) && start.key == end.key
    requires start.now != 0 && forall i :: 0 <= i < |more| ==> Spares(more[i], start.key)
    ensures At(After(before + [start] + more), start.key) == ScanState(start.phase, start.now, 0)
    ensures At(After(before + [start] + more + [end]), start.key) == ScanState(end.phase, start.now, end.now)
  {
    AfterWrite(before, start);
    SparedIsKept(before + [start], more, start.key);
    AfterWrite(before + [start] + more, end);
  }
}

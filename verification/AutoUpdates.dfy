/** The containers of a scan result, and what an automatic update does to them: the target
    selection and updateScanResultContainer of internal/server/server.go, and its scan summary. */
module AutoUpdates {
  import opened Basics

  datatype ContainerStatus = ContainerStatus(
    id: string, name: string, image: string, self: bool, policy: string, error: string,
    updateAvailable: bool, updated: bool, lastChecked: int)

  predicate Skipped(error: string) {
    "skipped:" <= error
  }

  predicate IsTarget(c: ContainerStatus) {
    c.updateAvailable && c.policy == "update" && (c.error == "" || Skipped(c.error))
  }

  function Targets(cs: seq<ContainerStatus>): seq<ContainerStatus> {
    if cs == [] then []
    else Targets(cs[..|cs| - 1]) + if IsTarget(cs[|cs| - 1]) then [cs[|cs| - 1]] else []
  }

  ghost predicate DistinctIds(cs: seq<ContainerStatus>) {
    forall i, j :: 0 <= i < j < |cs| ==> cs[i].id != cs[j].id
  }

  /** A target's entry after an update that did not fail. */
  function Marked(c: ContainerStatus, updated: bool, now: int): ContainerStatus {
    c.(lastChecked := now, error := "", updated := updated, updateAvailable := c.updateAvailable && !updated)
  }

  ghost predicate FirstIsMarked(cs: seq<ContainerStatus>, id: string, updated: bool, now: int, r: seq<ContainerStatus>)
  {
    && |r| == |cs|
    && forall i :: 0 <= i < |cs| ==>
         r[i] == if cs[i].id == id && (forall j :: 0 <= j < i ==> cs[j].id != id) then Marked(cs[i], updated, now)
                 else cs[i]
  }

  /** updateScanResultContainer: the first container with the id is marked. */
  method MarkContainer(cs: seq<ContainerStatus>, id: string, updated: bool, now: int) returns (r: seq<ContainerStatus>)
    ensures FirstIsMarked(cs, id, updated, now, r)
  {
    for i := 0 to |cs|
      invariant forall j :: 0 <= j < i ==> cs[j].id != id
    {
      if cs[i].id != id {
        continue;
      }
      return cs[i := Marked(cs[i], updated, now)];
    }
    return cs;
  }

  ghost predicate FirstFails(cs: seq<ContainerStatus>, id: string, message: string, now: int, r: seq<ContainerStatus>) {
    && |r| == |cs|
    && forall i :: 0 <= i < |cs| ==>
         r[i] == if cs[i].id == id && (forall j :: 0 <= j < i ==> cs[j].id != id)
                 then cs[i].(error := "update failed: " + message, lastChecked := now)
                 else cs[i]
  }

  /** markScanResultUpdateError: the first container with the id gets the error. */
  method MarkError(cs: seq<ContainerStatus>, id: string, message: string, now: int) returns (r: seq<ContainerStatus>)
    ensures FirstFails(cs, id, message, now, r)
  {
    for i := 0 to |cs|
      invariant forall j :: 0 <= j < i ==> cs[j].id != id
    {
      if cs[i].id == id {
        return cs[i := cs[i].(error := "update failed: " + message, lastChecked := now)];
      }
    }
    return cs;
  }

  method SelectTargets(cs: seq<ContainerStatus>) returns (targets: seq<ContainerStatus>)
    ensures targets == Targets(cs)
    ensures forall t :: t in targets <==>
              t in cs && t.updateAvailable && t.policy == "update" && (t.error == "" || "skipped:" <= t.error)
  {
    targets := [];
    for i := 0 to |cs|
      invariant targets == Targets(cs[..i])
    {
      assert cs[..i + 1][..i] == cs[..i];
      var c := cs[i];
      if !c.updateAvailable {
        continue;
      }
      if c.policy != "update" {
        continue;
      }
      if c.error != "" && !Skipped(c.error) {
        continue;
      }
      targets := targets + [c];
    }
    assert cs[..|cs|] == cs;
    forall t
      ensures t in targets <==> t in cs && IsTarget(t)
    {
      TargetsAreTheTargets(cs, t);
    }
  }

  // ---- The summary ----------------------------------------------------------------------

  predicate Detected(c: ContainerStatus) { c.updateAvailable || c.updated }
  predicate Remaining(c: ContainerStatus) { c.updateAvailable }
  predicate Updated(c: ContainerStatus) { c.updated }
  predicate Broken(c: ContainerStatus) { c.error != "" && !Skipped(c.error) }

  function Count(cs: seq<ContainerStatus>, p: ContainerStatus -> bool): nat {
    if cs == [] then 0 else (if p(cs[0]) then 1 else 0) + Count(cs[1..], p)
  }

  lemma {:induction false} CountAfterUpdate(cs: seq<ContainerStatus>, i: nat, c: ContainerStatus,
                                            p: ContainerStatus -> bool)
    requires i < |cs|
    ensures Count(cs[i := c], p) + (if p(cs[i]) then 1 else 0) == Count(cs, p) + if p(c) then 1 else 0
  {
    if i == 0 {
      assert cs[i := c][1..] == cs[1..];
    } else {
      assert cs[i := c][1..] == cs[1..][i - 1 := c];
      CountAfterUpdate(cs[1..], i - 1, c, p);
    }
  }

  datatype Summary = Summary(
    total: nat, detected: nat, remaining: nat, ready: nat, skipped: nat, failed: nat, updated: nat,
    detectedNames: seq<string>, remainingNames: seq<string>, updatedNames: seq<string>)

  /** The names of the containers with a property, in order. */
  function NamesOf(cs: seq<ContainerStatus>, p: ContainerStatus -> bool): seq<string> {
    if cs == [] then []
    else NamesOf(cs[..|cs| - 1], p) + if p(cs[|cs| - 1]) then [cs[|cs| - 1].name] else []
  }

  predicate SkippedUpdate(c: ContainerStatus) { c.updateAvailable && Skipped(c.error) }
  predicate Ready(c: ContainerStatus) { IsTarget(c) && c.error == "" && !c.updated }

  /** Every number of a summary but the total counts its kind of container, and every list names it in order. */
  ghost predicate Sums(s: Summary, cs: seq<ContainerStatus>) {
    && s.detected == Count(cs, Detected) && s.detectedNames == NamesOf(cs, Detected)
    && s.remaining == Count(cs, Remaining) && s.remainingNames == NamesOf(cs, Remaining)
    && s.updated == Count(cs, Updated) && s.updatedNames == NamesOf(cs, Updated)
    && s.failed == Count(cs, Broken)
    && s.skipped == Count(cs, SkippedUpdate)
    && s.ready == Count(cs, Ready)
  }

  function One(b: bool): nat { if b then 1 else 0 }
  function Name(b: bool, c: ContainerStatus): seq<string> { if b then [c.name] else [] }

  /** One more container. */
  function Added(s: Summary, c: ContainerStatus): Summary {
    Summary(s.total, s.detected + One(Detected(c)), s.remaining + One(Remaining(c)), s.ready + One(Ready(c)),
            s.skipped + One(SkippedUpdate(c)), s.failed + One(Broken(c)), s.updated + One(Updated(c)),
            s.detectedNames + Name(Detected(c), c), s.remainingNames + Name(Remaining(c), c),
            s.updatedNames + Name(Updated(c), c))
  }

  lemma NamesAppend(cs: seq<ContainerStatus>, c: ContainerStatus, p: ContainerStatus -> bool)
    ensures NamesOf(cs + [c], p) == NamesOf(cs, p) + Name(p(c), c)
  {
    assert (cs + [c])[..|cs|] == cs;
  }

  lemma OneMoreContainer(s: Summary, cs: seq<ContainerStatus>, c: ContainerStatus)
    requires Sums(s, cs)
    ensures Sums(Added(s, c), cs + [c])
  {
    CountAppend(cs, c, Detected);
    CountAppend(cs, c, Remaining);
    CountAppend(cs, c, Updated);
    CountAppend(cs, c, Broken);
    CountAppend(cs, c, SkippedUpdate);
    CountAppend(cs, c, Ready);
    NamesAppend(cs, c, Detected);
    NamesAppend(cs, c, Remaining);
    NamesAppend(cs, c, Updated);
  }

  /** buildScanSummary */
  method BuildScanSummary(cs: seq<ContainerStatus>) returns (s: Summary)
    ensures s.total == |cs| && Sums(s, cs)
  {
    s := Summary(|cs|, 0, 0, 0, 0, 0, 0, [], [], []);
    for i := 0 to |cs|
      invariant s.total == |cs| && Sums(s, cs[..i])
    {
      assert cs[..i + 1] == cs[..i] + [cs[i]];
      OneMoreContainer(s, cs[..i], cs[i]);
      s := AddToSummary(s, cs[i]);
    }
    assert cs[..|cs|] == cs;
  }

  /** One turn of the loop. */
  method AddToSummary(was: Summary, c: ContainerStatus) returns (s: Summary)
    ensures s == Added(was, c)
  {
    s := was;
    if c.error != "" && !Skipped(c.error) {
      s := s.(failed := s.failed + 1);
    }
    if c.updated {
      s := s.(updated := s.updated + 1, updatedNames := s.updatedNames + [c.name]);
    }
    if c.updateAvailable || c.updated {
      s := s.(detected := s.detected + 1, detectedNames := s.detectedNames + [c.name]);
    }
    if !c.updateAvailable {
      return;
    }
    s := s.(remaining := s.remaining + 1, remainingNames := s.remainingNames + [c.name]);
    if c.error != "" {
      if Skipped(c.error) {
        s := s.(skipped := s.skipped + 1);
      }
      return;
    }
    if c.policy == "update" && !c.updated {
      s := s.(ready := s.ready + 1);
    }
  }

  lemma {:induction false} CountAppend(cs: seq<ContainerStatus>, c: ContainerStatus, p: ContainerStatus -> bool)
    ensures Count(cs + [c], p) == Count(cs, p) + if p(c) then 1 else 0
  {
    if cs != [] {
      assert (cs + [c])[1..] == cs[1..] + [c];
      CountAppend(cs[1..], c, p);
    } else {
      assert [] + [c] == [c];
    }
  }

  // ---- Updating the targets ------------------------------------------------------------

  lemma {:induction false} TargetsAreTheTargets(cs: seq<ContainerStatus>, t: ContainerStatus)
    ensures t in Targets(cs) <==> t in cs && IsTarget(t)
  {
    if cs != [] {
      SplitLast(cs);
      TargetsAreTheTargets(cs[..|cs| - 1], t);
    }
  }

  lemma {:induction false} TargetsAreDistinct(cs: seq<ContainerStatus>)
    requires DistinctIds(cs)
    ensures DistinctIds(Targets(cs))
  {
    if cs != [] {
      var before, last := cs[..|cs| - 1], cs[|cs| - 1];
      TargetsAreDistinct(before);
      forall t | t in Targets(before)
        ensures t.id != last.id
      {
        TargetsAreTheTargets(before, t);
        var i :| 0 <= i < |before| && before[i] == t;
        assert cs[i] == t;
      }
    }
  }

  /** One container before and after the attempts at some of the targets. */
  ghost predicate Attempted(was: ContainerStatus, now: ContainerStatus, reached: bool) {
    now == was || (reached && exists updated, at :: now == Marked(was, updated, at))
  }

  /** The containers once the first targets were attempted. */
  ghost predicate Progress(was: seq<ContainerStatus>, now: seq<ContainerStatus>, reached: seq<ContainerStatus>) {
    |now| == |was| && forall i :: 0 <= i < |was| ==> Attempted(was[i], now[i], was[i] in reached)
  }

  lemma MoreReached(was: seq<ContainerStatus>, now: seq<ContainerStatus>, targets: seq<ContainerStatus>, k: nat, n: nat)
    requires k <= n <= |targets| && Progress(was, now, targets[..k])
    ensures Progress(was, now, targets[..n])
  {
    forall i | 0 <= i < |was|
      ensures Attempted(was[i], now[i], was[i] in targets[..n])
    {
      assert Attempted(was[i], now[i], was[i] in targets[..k]);
      if was[i] in targets[..k] {
        var j :| 0 <= j < k && targets[..k][j] == was[i];
        assert targets[..n][j] == was[i];
      }
    }
  }

  /** Where a target not yet reached is, and that nothing else bears its id. */
  lemma FindTarget(was: seq<ContainerStatus>, cur: seq<ContainerStatus>, k: nat) returns (i: nat)
    requires DistinctIds(was) && k < |Targets(was)|
    requires Progress(was, cur, Targets(was)[..k])
    ensures i < |was| && was[i] == cur[i] == Targets(was)[k] && IsTarget(was[i])
    ensures forall j :: 0 <= j < |cur| && j != i ==> cur[j].id != cur[i].id
  {
    var t := Targets(was)[k];
    TargetsAreDistinct(was);
    TargetsAreTheTargets(was, t);
    i :| 0 <= i < |was| && was[i] == t;
    assert t !in Targets(was)[..k];
    assert Attempted(was[i], cur[i], false);
    forall j | 0 <= j < |was|
      ensures cur[j].id == was[j].id
    {
      assert Attempted(was[j], cur[j], was[j] in Targets(was)[..k]);
    }
  }

  /** Marking one more target changes that container only: it stays detected, it remains to be
      updated unless it was, and it was not broken before. */
  lemma OneTargetMarked(was: seq<ContainerStatus>, cur: seq<ContainerStatus>, k: nat, updated: bool, at: int,
                        r: seq<ContainerStatus>)
    requires DistinctIds(was) && k < |Targets(was)|
    requires Progress(was, cur, Targets(was)[..k])
    requires FirstIsMarked(cur, Targets(was)[k].id, updated, at, r)
    ensures Progress(was, r, Targets(was)[..k + 1])
    ensures Count(r, Remaining) + (if updated then 1 else 0) == Count(cur, Remaining)
    ensures Count(r, Detected) == Count(cur, Detected)
    ensures Count(r, Broken) == Count(cur, Broken)
  {
    var i := FindTarget(was, cur, k);
    var next := Marked(cur[i], updated, at);
    assert r == cur[i := next];
    CountAfterUpdate(cur, i, next, Remaining);
    CountAfterUpdate(cur, i, next, Detected);
    CountAfterUpdate(cur, i, next, Broken);
    TargetReached(was, cur, k, i, updated, at);
  }

  lemma TargetReached(was: seq<ContainerStatus>, cur: seq<ContainerStatus>, k: nat, i: nat, updated: bool, at: int)
    requires k < |Targets(was)| && Progress(was, cur, Targets(was)[..k])
    requires i < |was| && was[i] == cur[i] == Targets(was)[k]
    ensures Progress(was, cur[i := Marked(cur[i], updated, at)], Targets(was)[..k + 1])
  {
    var targets := Targets(was);
    MoreReached(was, cur, targets, k, k + 1);
    assert targets[..k + 1][k] == was[i];
    forall j | 0 <= j < |was|
      ensures Attempted(was[j], cur[i := Marked(cur[i], updated, at)][j], was[j] in targets[..k + 1])
    {
      assert Attempted(was[j], cur[j], was[j] in targets[..k + 1]);
    }
  }
}

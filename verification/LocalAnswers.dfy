/** What Docker answers while the local servers are scanned and updated, and what runScan makes of it
    (internal/server/server.go): one answer to the scan, then, if there are targets, one to the
    opening of a watcher and one to each update. */
module LocalAnswers {
  import opened Basics
  import opened AutoUpdates
  import opened RemoteAnswers

  /** The answer to the update of container `i`, if it is a target: the targets come in order. */
  function UpdateReply(cs: seq<ContainerStatus>, replies: seq<Reply>, i: nat): Reply
    requires i < |cs|
  {
    Head(Drop(replies, |Targets(cs[..i])|))
  }

  /** One container after the updates: a target whose update went through is marked as it answered,
      any other, and a target whose update failed, is as it was. */
  ghost predicate UpdatedAs(was: ContainerStatus, now: ContainerStatus, update: Reply) {
    now == if !IsTarget(was) || update.failed then was else Marked(was, update.updated, now.lastChecked)
  }

  ghost predicate UpdatedBy(was: seq<ContainerStatus>, now: seq<ContainerStatus>, replies: seq<Reply>) {
    && |now| == |was|
    && forall i :: 0 <= i < |was| ==> UpdatedAs(was[i], now[i], UpdateReply(was, replies, i))
  }

  /** The same once the first `k` targets were updated. */
  ghost predicate UpdatedSoFar(was: seq<ContainerStatus>, now: seq<ContainerStatus>, replies: seq<Reply>, k: nat) {
    && |now| == |was|
    && forall i :: 0 <= i < |was| ==>
         if |Targets(was[..i])| < k then UpdatedAs(was[i], now[i], UpdateReply(was, replies, i)) else now[i] == was[i]
  }

  lemma {:induction false} TargetsGrow(cs: seq<ContainerStatus>, i: nat)
    requires i < |cs|
    ensures Targets(cs[..i + 1]) == Targets(cs[..i]) + if IsTarget(cs[i]) then [cs[i]] else []
  {
    assert cs[..i + 1][..i] == cs[..i];
  }

  lemma {:induction false} TargetsOfPrefix(cs: seq<ContainerStatus>, i: nat)
    requires i <= |cs|
    ensures Targets(cs[..i]) <= Targets(cs)
    decreases |cs| - i
  {
    if i == |cs| {
      assert cs[..i] == cs;
    } else {
      TargetsGrow(cs, i);
      TargetsOfPrefix(cs, i + 1);
    }
  }

  /** A target stands in the list of targets at the number of targets before it. */
  lemma {:induction false} RankOfTarget(cs: seq<ContainerStatus>, i: nat)
    requires i < |cs| && IsTarget(cs[i])
    ensures var k := |Targets(cs[..i])|; k < |Targets(cs)| && Targets(cs)[k] == cs[i]
  {
    TargetsGrow(cs, i);
    TargetsOfPrefix(cs, i + 1);
    var k := |Targets(cs[..i])|;
    assert Targets(cs[..i + 1])[k] == cs[i];
  }

  /** In a list with distinct ids no other container has the rank of a target. */
  lemma RankIsUnique(cs: seq<ContainerStatus>, i: nat, j: nat)
    requires DistinctIds(cs) && i < |cs| && j < |cs| && IsTarget(cs[i]) && IsTarget(cs[j])
    requires |Targets(cs[..i])| == |Targets(cs[..j])|
    ensures i == j
  {
    RankOfTarget(cs, i);
    RankOfTarget(cs, j);
  }

  lemma NothingUpdated(was: seq<ContainerStatus>, replies: seq<Reply>)
    ensures UpdatedSoFar(was, was, replies, 0)
  {
  }

  /** One more target: failed, or marked as it answered. */
  lemma OneMoreUpdated(was: seq<ContainerStatus>, cur: seq<ContainerStatus>, replies: seq<Reply>, k: nat,
                       r: seq<ContainerStatus>, at: int)
    requires DistinctIds(was) && k < |Targets(was)|
    requires Progress(was, cur, Targets(was)[..k]) && UpdatedSoFar(was, cur, replies, k)
    requires var update := Head(Drop(replies, k));
             if update.failed then r == cur else FirstIsMarked(cur, Targets(was)[k].id, update.updated, at, r)
    ensures UpdatedSoFar(was, r, replies, k + 1)
  {
    var update := Head(Drop(replies, k));
    var i := FindTarget(was, cur, k);
    TargetHasRank(was, i, k);
    assert update.failed || r == cur[i := Marked(cur[i], update.updated, at)];
    forall j | 0 <= j < |was|
      ensures if |Targets(was[..j])| < k + 1 then UpdatedAs(was[j], r[j], UpdateReply(was, replies, j))
              else r[j] == was[j]
    {
      if j != i && |Targets(was[..j])| == k && IsTarget(was[j]) {
        RankIsUnique(was, i, j);
      }
    }
  }

  lemma TargetHasRank(was: seq<ContainerStatus>, i: nat, k: nat)
    requires DistinctIds(was) && i < |was| && k < |Targets(was)| && was[i] == Targets(was)[k]
    ensures IsTarget(was[i]) && |Targets(was[..i])| == k
  {
    TargetsAreTheTargets(was, was[i]);
    TargetsAreDistinct(was);
    RankOfTarget(was, i);
  }

  /** What the loop over the targets keeps: `k` of them were reached, `updated` of these changed. */
  ghost predicate UpdatedUpTo(was: seq<ContainerStatus>, now: seq<ContainerStatus>, replies: seq<Reply>, k: nat,
                              updated: nat)
    requires k <= |Targets(was)|
  {
    DistinctIds(was) ==>
      && Progress(was, now, Targets(was)[..k]) && UpdatedSoFar(was, now, replies, k)
      && Count(now, Remaining) + updated == Count(was, Remaining)
      && Count(now, Detected) == Count(was, Detected)
      && Count(now, Broken) == Count(was, Broken)
  }

  lemma {:induction false} NothingReached(was: seq<ContainerStatus>, replies: seq<Reply>)
    ensures UpdatedUpTo(was, was, replies, 0, 0)
  {
    NothingUpdated(was, replies);
  }

  lemma {:induction false} OneMoreTarget(was: seq<ContainerStatus>, cur: seq<ContainerStatus>, replies: seq<Reply>,
                                         k: nat, updated: nat, r: seq<ContainerStatus>, at: int, updated': nat)
    requires k < |Targets(was)| && UpdatedUpTo(was, cur, replies, k, updated)
    requires var update := Head(Drop(replies, k));
             if update.failed then r == cur && updated' == updated
             else FirstIsMarked(cur, Targets(was)[k].id, update.updated, at, r)
                  && updated' == updated + if update.updated then 1 else 0
    ensures UpdatedUpTo(was, r, replies, k + 1, updated')
  {
    if DistinctIds(was) {
      OneMoreUpdated(was, cur, replies, k, r, at);
      if Head(Drop(replies, k)).failed {
        MoreReached(was, cur, Targets(was), k, k + 1);
      } else {
        OneTargetMarked(was, cur, k, Head(Drop(replies, k)).updated, at, r);
      }
    }
  }

  lemma {:induction false} AllReached(was: seq<ContainerStatus>, now: seq<ContainerStatus>, replies: seq<Reply>,
                                      updated: nat)
    requires UpdatedUpTo(was, now, replies, |Targets(was)|, updated)
    ensures DistinctIds(was) ==>
              && UpdatedBy(was, now, replies) && Progress(was, now, Targets(was))
              && Count(now, Remaining) + updated == Count(was, Remaining)
              && Count(now, Detected) == Count(was, Detected)
              && Count(now, Broken) == Count(was, Broken)
  {
    if DistinctIds(was) {
      assert Targets(was)[..|Targets(was)|] == Targets(was);
      AllUpdated(was, now, replies);
    }
  }

  lemma AllUpdated(was: seq<ContainerStatus>, now: seq<ContainerStatus>, replies: seq<Reply>)
    requires UpdatedSoFar(was, now, replies, |Targets(was)|)
    ensures UpdatedBy(was, now, replies)
  {
    forall i | 0 <= i < |was|
      ensures UpdatedAs(was[i], now[i], UpdateReply(was, replies, i))
    {
      if IsTarget(was[i]) {
        RankOfTarget(was, i);
      }
    }
  }

  // ---- One server -----------------------------------------------------------------------

  /** The scan leads on to updates. */
  predicate LeadsToUpdates(scan: Reply, agentMode: bool) {
    !scan.failed && scan.error == "" && !agentMode && Targets(scan.containers) != []
  }

  /** The scan call failed, or the watcher for its updates could not be opened. */
  predicate CallFailed(replies: seq<Reply>, agentMode: bool) {
    Head(replies).failed || (LeadsToUpdates(Head(replies), agentMode) && Head(Tail(replies)).failed)
  }

  function CallError(replies: seq<Reply>): string {
    if Head(replies).failed then Head(replies).message else Head(Tail(replies)).message
  }

  /** The answers left after a server whose scan and updates were not cut short. */
  function AfterLocal(server: Server, agentMode: bool, replies: seq<Reply>): seq<Reply> {
    if server.maintenance then replies
    else if !LeadsToUpdates(Head(replies), agentMode) then Tail(replies)
    else if Head(Tail(replies)).failed then Tail(Tail(replies))
    else Drop(Tail(Tail(replies)), |Targets(Head(replies).containers)|)
  }

  /** The answers left when local server `i` is reached. */
  function LocalRepliesAt(servers: seq<Server>, agentMode: bool, replies: seq<Reply>, i: nat): seq<Reply>
    requires i <= |servers|
  {
    if i == 0 then replies
    else AfterLocal(servers[i - 1], agentMode, LocalRepliesAt(servers, agentMode, replies, i - 1))
  }
}

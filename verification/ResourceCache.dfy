/** The cache of container resources per server scope, and the request that answers from it and
    fetches only what is missing (internal/server/containers_resources_cache.go and
    containers_resources.go). Times are nanoseconds. */
module ResourceCache {
  import opened Basics
  import opened Text

  datatype Resource = Resource(id: string, cpu: real, memory: int)
  datatype Entry = Entry(resource: Resource, fetchedAt: int)

  // ---- What was stored last ------------------------------------------------------------

  /** One call of setContainersResourcesCache. */
  datatype Batch = Batch(scope: string, resources: seq<Resource>, at: int)

  /** The last resource of a batch for an id. */
  function LastIn(resources: seq<Resource>, id: string): (r: Option<Resource>)
    ensures r.Some? ==> r.value.id == id && id != ""
  {
    if resources == [] then None
    else
      var last := resources[|resources| - 1];
      if last.id == id && id != "" then Some(last) else LastIn(resources[..|resources| - 1], id)
  }

  function StoredBy(b: Batch, scope: string, id: string): Option<Entry> {
    if b.scope != scope || scope == "" || LastIn(b.resources, id).None? then None
    else Some(Entry(LastIn(b.resources, id).value, b.at))
  }

  /** What the whole history stored last under a scope and id. */
  function LastStored(history: seq<Batch>, scope: string, id: string): (r: Option<Entry>)
    ensures r.Some? ==> r.value.resource.id == id
  {
    if history == [] then None
    else
      var last := history[|history| - 1];
      if StoredBy(last, scope, id).Some? then StoredBy(last, scope, id)
      else LastStored(history[..|history| - 1], scope, id)
  }

  /** The last place of an id in a batch. */
  ghost predicate IsLast(resources: seq<Resource>, i: nat, id: string) {
    i < |resources| && resources[i].id == id && forall j :: i < j < |resources| ==> resources[j].id != id
  }

  lemma {:induction false} NotInMeans(resources: seq<Resource>, id: string)
    requires id != ""
    ensures LastIn(resources, id).None? <==> forall i :: 0 <= i < |resources| ==> resources[i].id != id
  {
    if resources != [] {
      var n := |resources| - 1;
      NotInMeans(resources[..n], id);
      assert resources == resources[..n] + [resources[n]];
    }
  }

  lemma {:induction false} LastInMeans(resources: seq<Resource>, i: nat, id: string)
    requires id != "" && IsLast(resources, i, id)
    ensures LastIn(resources, id) == Some(resources[i])
  {
    var n := |resources| - 1;
    if i < n {
      LastInMeans(resources[..n], i, id);
    }
  }

  /** The last store of an id counts, whatever its age, and a store of other ids or under another scope
      changes nothing. */
  lemma {:induction false} LastStoreWins(history: seq<Batch>, b: Batch, scope: string, id: string)
    requires scope != "" && id != ""
    ensures (b.scope != scope || forall i :: 0 <= i < |b.resources| ==> b.resources[i].id != id) ==>
              LastStored(history + [b], scope, id) == LastStored(history, scope, id)
    ensures forall i: nat :: b.scope == scope && IsLast(b.resources, i, id) ==>
              LastStored(history + [b], scope, id) == Some(Entry(b.resources[i], b.at))
  {
    assert (history + [b])[..|history|] == history;
    NotInMeans(b.resources, id);
    forall i: nat | IsLast(b.resources, i, id)
      ensures LastIn(b.resources, id) == Some(b.resources[i])
    {
      LastInMeans(b.resources, i, id);
    }
  }

  // ---- Reading ------------------------------------------------------------------------

  predicate Usable(e: Option<Entry>, now: int, maxAge: int) {
    e.Some? && (maxAge > 0 ==> now - e.value.fetchedAt <= maxAge)
  }

  predicate Stale(e: Option<Entry>, now: int, refreshAfter: int) {
    e.Some? && refreshAfter > 0 && now - e.value.fetchedAt > refreshAfter
  }

  function HitPart(e: Option<Entry>, now: int, maxAge: int): seq<Resource> {
    if Usable(e, now, maxAge) then [e.value.resource] else []
  }

  function MissPart(e: Option<Entry>, id: string, now: int, maxAge: int): seq<string> {
    if Usable(e, now, maxAge) then [] else [id]
  }

  /** The usable last-stored resources of the requested ids, in order... */
  function Hits(history: seq<Batch>, scope: string, ids: seq<string>, now: int, maxAge: int): seq<Resource> {
    if ids == [] then []
    else Hits(history, scope, ids[..|ids| - 1], now, maxAge)
         + HitPart(LastStored(history, scope, ids[|ids| - 1]), now, maxAge)
  }

  /** ... and the ids without one, in order. */
  function Misses(history: seq<Batch>, scope: string, ids: seq<string>, now: int, maxAge: int): seq<string> {
    if ids == [] then []
    else Misses(history, scope, ids[..|ids| - 1], now, maxAge)
         + MissPart(LastStored(history, scope, ids[|ids| - 1]), ids[|ids| - 1], now, maxAge)
  }

  function Ids(resources: seq<Resource>): (r: seq<string>)
    ensures |r| == |resources| && forall i :: 0 <= i < |r| ==> r[i] == resources[i].id
  {
    if resources == [] then [] else Ids(resources[..|resources| - 1]) + [resources[|resources| - 1].id]
  }

  ghost predicate AnyStale(history: seq<Batch>, scope: string, ids: seq<string>, now: int, refreshAfter: int) {
    exists i :: 0 <= i < |ids| && Stale(LastStored(history, scope, ids[i]), now, refreshAfter)
  }

  /** What one more id adds. */
  lemma OneMoreId(history: seq<Batch>, scope: string, ids: seq<string>, id: string, now: int, maxAge: int,
                  refreshAfter: int)
    ensures var e := LastStored(history, scope, id);
            && Hits(history, scope, ids + [id], now, maxAge)
               == Hits(history, scope, ids, now, maxAge) + HitPart(e, now, maxAge)
            && Misses(history, scope, ids + [id], now, maxAge)
               == Misses(history, scope, ids, now, maxAge) + MissPart(e, id, now, maxAge)
            && (AnyStale(history, scope, ids + [id], now, refreshAfter)
                <==> AnyStale(history, scope, ids, now, refreshAfter) || Stale(e, now, refreshAfter))
  {
    var all := ids + [id];
    assert all[..|all| - 1] == ids && all[|all| - 1] == id;
    if AnyStale(history, scope, ids, now, refreshAfter) {
      var i :| 0 <= i < |ids| && Stale(LastStored(history, scope, ids[i]), now, refreshAfter);
      assert all[i] == ids[i];
    }
  }

  lemma OneMoreResource(resources: seq<Resource>, r: Resource)
    ensures multiset(Ids(resources + [r])) == multiset(Ids(resources)) + multiset{r.id}
  {
    assert (resources + [r])[..|resources|] == resources;
  }

  /** Hits and misses partition the request. */
  lemma {:induction false} HitsAndMissesPartition(history: seq<Batch>, scope: string, ids: seq<string>, now: int,
                                                  maxAge: int)
    ensures multiset(Ids(Hits(history, scope, ids, now, maxAge))) + multiset(Misses(history, scope, ids, now, maxAge))
            == multiset(ids)
  {
    if ids != [] {
      var before, id := ids[..|ids| - 1], ids[|ids| - 1];
      SplitLast(ids);
      HitsAndMissesPartition(history, scope, before, now, maxAge);
      OneMoreId(history, scope, before, id, now, maxAge, 0);
      PartitionStep(Hits(history, scope, before, now, maxAge), Misses(history, scope, before, now, maxAge),
                    before, LastStored(history, scope, id), id, now, maxAge);
      assert Hits(history, scope, ids, now, maxAge)
          == Hits(history, scope, before, now, maxAge) + HitPart(LastStored(history, scope, id), now, maxAge);
      assert Misses(history, scope, ids, now, maxAge)
          == Misses(history, scope, before, now, maxAge) + MissPart(LastStored(history, scope, id), id, now, maxAge);
    }
  }

  lemma AddToEither(a: multiset<string>, b: multiset<string>, c: multiset<string>, x: multiset<string>)
    requires a + b == c
    ensures a + x + b == c + x && a + (b + x) == c + x
  {
  }

  lemma PartitionStep(hits: seq<Resource>, misses: seq<string>, ids: seq<string>, e: Option<Entry>, id: string,
                      now: int, maxAge: int)
    requires multiset(Ids(hits)) + multiset(misses) == multiset(ids)
    requires e.Some? ==> e.value.resource.id == id
    ensures multiset(Ids(hits + HitPart(e, now, maxAge))) + multiset(misses + MissPart(e, id, now, maxAge))
            == multiset(ids + [id])
  {
    if Usable(e, now, maxAge) {
      HitStep(hits, misses, ids, e.value.resource);
      assert misses + [] == misses;
    } else {
      MissStep(hits, misses, ids, id);
      assert hits + [] == hits;
    }
  }

  lemma HitStep(hits: seq<Resource>, misses: seq<string>, ids: seq<string>, r: Resource)
    requires multiset(Ids(hits)) + multiset(misses) == multiset(ids)
    ensures multiset(Ids(hits + [r])) + multiset(misses) == multiset(ids + [r.id])
  {
    OneMoreResource(hits, r);
    AddToEither(multiset(Ids(hits)), multiset(misses), multiset(ids), multiset{r.id});
    assert multiset(ids + [r.id]) == multiset(ids) + multiset{r.id};
  }

  lemma MissStep(hits: seq<Resource>, misses: seq<string>, ids: seq<string>, id: string)
    requires multiset(Ids(hits)) + multiset(misses) == multiset(ids)
    ensures multiset(Ids(hits)) + multiset(misses + [id]) == multiset(ids + [id])
  {
    AddToEither(multiset(Ids(hits)), multiset(misses), multiset(ids), multiset{id});
    assert multiset(ids + [id]) == multiset(ids) + multiset{id};
    assert multiset(misses + [id]) == multiset(misses) + multiset{id};
  }

  /** Every hit is the value last stored for its scope and id, and no older than the limit; every
      miss has none such. */
  lemma {:induction false} HitsAreLastStored(history: seq<Batch>, scope: string, ids: seq<string>, now: int,
                                             maxAge: int)
    ensures forall r :: r in Hits(history, scope, ids, now, maxAge) ==>
              && r.id in ids
              && LastStored(history, scope, r.id).Some? && LastStored(history, scope, r.id).value.resource == r
              && (maxAge > 0 ==> now - LastStored(history, scope, r.id).value.fetchedAt <= maxAge)
    ensures forall id :: id in Misses(history, scope, ids, now, maxAge) <==>
              && id in ids
              && (LastStored(history, scope, id).None?
                  || (maxAge > 0 && now - LastStored(history, scope, id).value.fetchedAt > maxAge))
  {
    if ids != [] {
      SplitLast(ids);
      HitsAreLastStored(history, scope, ids[..|ids| - 1], now, maxAge);
    }
  }

  // ---- The ids of a request ----------------------------------------------------------

  /** The distinct trimmed non-blank ids, in order of first appearance. */
  function Normalized(ids: seq<string>): seq<string> {
    if ids == [] then []
    else
      var before, id := Normalized(ids[..|ids| - 1]), TrimSpace(ids[|ids| - 1]);
      if id == "" || id in before then before else before + [id]
  }

  ghost predicate Asked(ids: seq<string>, id: string) {
    id != "" && exists i :: 0 <= i < |ids| && TrimSpace(ids[i]) == id
  }

  lemma OneMoreAsked(ids: seq<string>, extra: string, id: string)
    ensures Asked(ids + [extra], id) <==> Asked(ids, id) || (id != "" && TrimSpace(extra) == id)
  {
    var all := ids + [extra];
    if Asked(ids, id) {
      var i :| 0 <= i < |ids| && TrimSpace(ids[i]) == id;
      assert TrimSpace(all[i]) == id;
    }
    assert all[|ids|] == extra;
  }

  /** Every id asked for is looked up once, and nothing else is. */
  lemma {:induction false} NormalizedIsDistinct(ids: seq<string>)
    ensures forall i, j :: 0 <= i < j < |Normalized(ids)| ==> Normalized(ids)[i] != Normalized(ids)[j]
    ensures forall id :: id in Normalized(ids) <==> Asked(ids, id)
  {
    if ids != [] {
      var before, last := ids[..|ids| - 1], ids[|ids| - 1];
      SplitLast(ids);
      NormalizedIsDistinct(before);
      forall id
        ensures id in Normalized(ids) <==> Asked(ids, id)
      {
        OneMoreAsked(before, last, id);
      }
    }
  }

  /** The first place an id is asked for at. */
  ghost predicate FirstAsked(ids: seq<string>, i: nat, id: string) {
    i < |ids| && TrimSpace(ids[i]) == id && forall j :: 0 <= j < i ==> TrimSpace(ids[j]) != id
  }

  lemma {:induction false} FirstAskedStays(ids: seq<string>, extra: string, i: nat, id: string)
    requires FirstAsked(ids, i, id)
    ensures FirstAsked(ids + [extra], i, id)
  {
  }

  /** The ids keep the order in which they are first asked for; `at` are these places. */
  lemma {:induction false} NormalizedKeepsOrder(ids: seq<string>) returns (at: seq<nat>)
    ensures |at| == |Normalized(ids)| && forall k :: 0 <= k < |at| ==> FirstAsked(ids, at[k], Normalized(ids)[k])
    ensures forall k, l :: 0 <= k < l < |at| ==> at[k] < at[l]
  {
    if ids == [] {
      return [];
    }
    var n := |ids| - 1;
    var before, id := ids[..n], TrimSpace(ids[n]);
    SplitLast(ids);
    at := NormalizedKeepsOrder(before);
    forall k | 0 <= k < |at|
      ensures FirstAsked(ids, at[k], Normalized(before)[k]) && at[k] < n
    {
      assert FirstAsked(before, at[k], Normalized(before)[k]);
      FirstAskedStays(before, ids[n], at[k], Normalized(before)[k]);
    }
    if id != "" && id !in Normalized(before) {
      NormalizedIsDistinct(before);
      NotAskedBefore(before, id);
      assert FirstAsked(ids, n, id);
      at := at + [n];
    }
  }

  lemma {:induction false} NotAskedBefore(ids: seq<string>, id: string)
    requires id != "" && !Asked(ids, id)
    ensures forall j :: 0 <= j < |ids| ==> TrimSpace(ids[j]) != id
  {
  }

  method NormalizeIds(ids: seq<string>) returns (unique: seq<string>)
    ensures unique == Normalized(ids)
  {
    unique := [];
    var seen: set<string> := {};
    for i := 0 to |ids|
      invariant unique == Normalized(ids[..i])
      invariant forall id :: id in seen <==> id in unique
    {
      assert ids[..i + 1][..i] == ids[..i];
      var id := TrimSpace(ids[i]);
      if id == "" || id in seen {
        continue;
      }
      seen := seen + {id};
      unique := unique + [id];
    }
    assert ids[..|ids|] == ids;
  }

  // ---- The refresh throttle ---------------------------------------------------------

  /** One call of shouldRefreshContainersResources. */
  datatype Call = Call(scope: string, now: int)

  predicate Granted(refreshed: map<string, int>, c: Call, minInterval: int) {
    && c.scope != ""
    && !(c.scope in refreshed && minInterval > 0 && c.now - refreshed[c.scope] < minInterval)
  }

  function Marked(refreshed: map<string, int>, c: Call, minInterval: int): map<string, int> {
    if Granted(refreshed, c, minInterval) then refreshed[c.scope := c.now] else refreshed
  }

  /** The marks left by some calls. */
  function Marks(calls: seq<Call>, minInterval: int): map<string, int> {
    if calls == [] then map[] else Marked(Marks(calls[..|calls| - 1], minInterval), calls[|calls| - 1], minInterval)
  }

  predicate Grants(calls: seq<Call>, minInterval: int, i: nat)
    requires i < |calls|
  {
    Granted(Marks(calls[..i], minInterval), calls[i], minInterval)
  }

  /** A mark is never set back. */
  lemma {:induction false} MarkStays(calls: seq<Call>, minInterval: int, i: nat, n: nat)
    requires 0 < minInterval && i < n <= |calls| && Grants(calls, minInterval, i)
    ensures var marks := Marks(calls[..n], minInterval);
            calls[i].scope in marks && calls[i].now <= marks[calls[i].scope]
  {
    assert calls[..n][..n - 1] == calls[..n - 1] && calls[..n][n - 1] == calls[n - 1];
    if i < n - 1 {
      MarkStays(calls, minInterval, i, n - 1);
    }
  }

  lemma {:induction false} MarkIsAGrant(calls: seq<Call>, minInterval: int, n: nat, scope: string) returns (i: nat)
    requires n <= |calls| && scope in Marks(calls[..n], minInterval)
    ensures i < n && calls[i].scope == scope && Grants(calls, minInterval, i)
    ensures Marks(calls[..n], minInterval)[scope] == calls[i].now
  {
    assert calls[..n][..n - 1] == calls[..n - 1] && calls[..n][n - 1] == calls[n - 1];
    if Grants(calls, minInterval, n - 1) && calls[n - 1].scope == scope {
      return n - 1;
    }
    i := MarkIsAGrant(calls, minInterval, n - 1, scope);
  }

  /** A refresh is granted exactly if it names a scope and lies at least the interval after every refresh
      of that scope granted before. */
  lemma {:induction false} GrantedIff(calls: seq<Call>, minInterval: int, n: nat)
    requires 0 < minInterval && n < |calls|
    ensures Grants(calls, minInterval, n) <==>
              && calls[n].scope != ""
              && forall i :: 0 <= i < n && calls[i].scope == calls[n].scope && Grants(calls, minInterval, i) ==>
                   minInterval <= calls[n].now - calls[i].now
  {
    if Grants(calls, minInterval, n) {
      forall i | 0 <= i < n && calls[i].scope == calls[n].scope && Grants(calls, minInterval, i)
        ensures minInterval <= calls[n].now - calls[i].now
      {
        GrantsAreApart(calls, minInterval, i, n);
      }
    } else if calls[n].scope != "" {
      var i := MarkIsAGrant(calls, minInterval, n, calls[n].scope);
    }
  }

  /** Any two granted refreshes of a scope are at least the interval apart, on clock readings in any
      order. */
  lemma {:induction false} GrantsAreApart(calls: seq<Call>, minInterval: int, i: nat, j: nat)
    requires 0 < minInterval && i < j < |calls| && calls[i].scope == calls[j].scope
    requires Grants(calls, minInterval, i) && Grants(calls, minInterval, j)
    ensures minInterval <= calls[j].now - calls[i].now
  {
    MarkStays(calls, minInterval, i, j);
  }

  // ---- The cache ------------------------------------------------------------------------

  type Scoped = map<string, Entry>

  function Find(cache: map<string, Scoped>, scope: string, id: string): Option<Entry> {
    if scope in cache && id in cache[scope] then Some(cache[scope][id]) else None
  }

  datatype Fetched = Ok(resources: seq<Resource>) | Error(message: string)
  datatype Response = TooMany | Response(resources: seq<Resource>, error: Option<string>)

  const MAX_IDS := 50
  const MAX_AGE := 1_800_000_000_000
  const REFRESH_AFTER := 6_000_000_000
  const MIN_INTERVAL := 2_000_000_000

  /** The response to a request with these hits and missing ids. */
  function AnswerWith(hits: seq<Resource>, missing: seq<string>, fetched: Fetched): Response {
    if missing == [] then Response(hits, None)
    else match fetched
         case Error(message) => Response(hits, Some(message))
         case Ok(resources) => Response(hits + resources, None)
  }

  /** The stores after it: those of others while it fetches, then its own. */
  function HistoryAfter(history: seq<Batch>, scope: string, missing: seq<string>, fetched: Fetched,
                        others: seq<Batch>, later: int): seq<Batch>
  {
    if missing == [] then history
    else match fetched
         case Error(_) => history + others
         case Ok(resources) => history + others + [Batch(scope, resources, later)]
  }

  /** If the fetch returns one resource per missing id, the response holds the requested ids. */
  lemma {:induction false} CompleteAnswer(history: seq<Batch>, scope: string, ids: seq<string>, now: int,
                                          fetched: Fetched)
    ensures var missing := Misses(history, scope, ids, now, MAX_AGE);
            var r := AnswerWith(Hits(history, scope, ids, now, MAX_AGE), missing, fetched);
            r.error == None && (missing != [] ==> multiset(Ids(fetched.resources)) == multiset(missing)) ==>
              multiset(Ids(r.resources)) == multiset(ids)
  {
    HitsAndMissesPartition(history, scope, ids, now, MAX_AGE);
    if fetched.Ok? {
      IdsAdd(Hits(history, scope, ids, now, MAX_AGE), fetched.resources);
    }
  }

  class Cache {
    var cache: map<string, Scoped>
    var refreshed: map<string, int>
    /** Every store so far. */
    ghost var history: seq<Batch>

    /** The cache agrees with the last fetches. */
    ghost predicate Valid()
      reads this
    {
      forall scope, id :: Find(cache, scope, id) == LastStored(history, scope, id)
    }

    constructor ()
      ensures Valid() && history == []
    {
      cache, refreshed, history := map[], map[], [];
    }

    method Get(scope: string, ids: seq<string>, now: int, maxAge: int, refreshAfter: int)
      returns (hits: seq<Resource>, missing: seq<string>, needsRefresh: bool)
      requires Valid()
      ensures hits == Hits(history, scope, ids, now, maxAge)
      ensures missing == Misses(history, scope, ids, now, maxAge)
      ensures needsRefresh <==> ids == [] || missing != [] || AnyStale(history, scope, ids, now, refreshAfter)
    {
      if scope == "" || ids == [] || scope !in cache || cache[scope] == map[] {
        NothingStored(scope, ids, now, maxAge);
        return [], ids, true;
      }
      hits, missing, needsRefresh := [], [], false;
      for i := 0 to |ids|
        invariant hits == Hits(history, scope, ids[..i], now, maxAge)
        invariant missing == Misses(history, scope, ids[..i], now, maxAge)
        invariant needsRefresh <==> missing != [] || AnyStale(history, scope, ids[..i], now, refreshAfter)
      {
        var id := ids[i];
        ghost var stale := AnyStale(history, scope, ids[..i], now, refreshAfter);
        assert ids[..i + 1] == ids[..i] + [id];
        OneMoreId(history, scope, ids[..i], id, now, maxAge, refreshAfter);
        assert needsRefresh <==> missing != [] || stale;
        assert AnyStale(history, scope, ids[..i + 1], now, refreshAfter)
          <==> stale || Stale(LastStored(history, scope, id), now, refreshAfter);
        assert Find(cache, scope, id) == LastStored(history, scope, id);
        if id !in cache[scope] {
          missing := missing + [id];
          needsRefresh := true;
          continue;
        }
        var entry := cache[scope][id];
        var age := now - entry.fetchedAt;
        if maxAge > 0 && age > maxAge {
          missing := missing + [id];
          needsRefresh := true;
          continue;
        }
        if refreshAfter > 0 && age > refreshAfter {
          needsRefresh := true;
        }
        hits := hits + [entry.resource];
      }
      assert ids[..|ids|] == ids;
    }

    lemma {:induction false} NothingStored(scope: string, ids: seq<string>, now: int, maxAge: int)
      requires Valid()
      requires scope == "" || ids == [] || scope !in cache || cache[scope] == map[]
      ensures Hits(history, scope, ids, now, maxAge) == [] && Misses(history, scope, ids, now, maxAge) == ids
    {
      if ids != [] {
        forall id
          ensures LastStored(history, scope, id).None?
        {
          NoBlankScope(history, id);
          assert Find(cache, scope, id) == LastStored(history, scope, id);
        }
        AllMissing(history, scope, ids, now, maxAge);
      }
    }

    static lemma {:induction false} AllMissing(history: seq<Batch>, scope: string, ids: seq<string>, now: int,
                                               maxAge: int)
      requires forall id :: LastStored(history, scope, id).None?
      ensures Hits(history, scope, ids, now, maxAge) == [] && Misses(history, scope, ids, now, maxAge) == ids
    {
      if ids != [] {
        AllMissing(history, scope, ids[..|ids| - 1], now, maxAge);
        assert ids == ids[..|ids| - 1] + [ids[|ids| - 1]];
      }
    }

    static lemma {:induction false} NoBlankScope(history: seq<Batch>, id: string)
      ensures LastStored(history, "", id).None?
    {
      if history != [] {
        NoBlankScope(history[..|history| - 1], id);
      }
    }

    method Set(scope: string, resources: seq<Resource>, now: int)
      requires Valid()
      modifies this`cache, this`history
      ensures Valid()
      ensures history == old(history) + [Batch(scope, resources, now)]
    {
      history := history + [Batch(scope, resources, now)];
      assert history[..|history| - 1] == old(history);
      if scope == "" || resources == [] {
        return;
      }
      var byScope := if scope in cache then cache[scope] else map[];
      byScope := StoreIn(byScope, resources, now);
      cache := cache[scope := byScope];
      forall s, id
        ensures Find(cache, s, id) == LastStored(history, s, id)
      {
        assert Find(old(cache), s, id) == LastStored(old(history), s, id);
      }
    }

    /** The loop of setContainersResourcesCache over one scope's entries. */
    static method StoreIn(was: Scoped, resources: seq<Resource>, now: int) returns (byScope: Scoped)
      ensures forall id :: (if id in byScope then Some(byScope[id]) else None) ==
                if LastIn(resources, id).Some? then Some(Entry(LastIn(resources, id).value, now))
                else if id in was then Some(was[id]) else None
    {
      byScope := was;
      for i := 0 to |resources|
        invariant forall id :: (if id in byScope then Some(byScope[id]) else None) ==
                    if LastIn(resources[..i], id).Some? then Some(Entry(LastIn(resources[..i], id).value, now))
                    else if id in was then Some(was[id]) else None
      {
        assert resources[..i + 1][..i] == resources[..i];
        var res := resources[i];
        if res.id == "" {
          continue;
        }
        byScope := byScope[res.id := Entry(res, now)];
      }
      assert resources[..|resources|] == resources;
    }

    /** The stores of other requests, one by one. */
    method SetAll(others: seq<Batch>)
      requires Valid()
      modifies this`cache, this`history
      ensures Valid() && history == old(history) + others
    {
      for i := 0 to |others|
        invariant Valid() && history == old(history) + others[..i]
      {
        Set(others[i].scope, others[i].resources, others[i].at);
        assert others[..i + 1] == others[..i] + [others[i]];
      }
      assert others[..|others|] == others;
    }

    /** shouldRefreshContainersResources: at most one background refresh of a scope per interval. */
    method ShouldRefresh(scope: string, now: int, minInterval: int) returns (ok: bool)
      modifies this`refreshed
      ensures ok == Granted(old(refreshed), Call(scope, now), minInterval)
      ensures refreshed == Marked(old(refreshed), Call(scope, now), minInterval)
    {
      if scope == "" {
        return false;
      }
      if scope in refreshed && minInterval > 0 && now - refreshed[scope] < minInterval {
        return false;
      }
      refreshed := refreshed[scope := now];
      return true;
    }

    /** The request of handleContainersResources once its scope is known; `fetch` asks the server,
        and `others` is what other requests store while it does. `background` says that the request
        leaves a Refresh of its ids behind. */
    method Request(scope: string, requested: seq<string>, now: int, later: int, fetch: seq<string> -> Fetched,
                   others: seq<Batch>)
      returns (r: Response, background: bool, ghost missing: seq<string>)
      requires Valid() && scope != ""
      modifies this
      ensures Valid()
      ensures background <==>
                && r.Response? && Normalized(requested) != [] && missing == []
                && AnyStale(old(history), scope, Normalized(requested), now, REFRESH_AFTER)
                && !(scope in old(refreshed) && later - old(refreshed)[scope] < MIN_INTERVAL)
      ensures refreshed == if background then old(refreshed)[scope := later] else old(refreshed)
      ensures r.TooMany? <==> |Normalized(requested)| > MAX_IDS
      ensures r.TooMany? ==> history == old(history)
      ensures missing == Misses(old(history), scope, Normalized(requested), now, MAX_AGE)
      ensures r.Response? && (missing == [] || fetch(missing).Error?) ==>
                && r.resources == Hits(old(history), scope, Normalized(requested), now, MAX_AGE)
                && history == (if missing == [] then old(history) else old(history) + others)
                && r.error == if missing == [] then None else Some(fetch(missing).message)
      ensures r.Response? && missing != [] && fetch(missing).Ok? ==>
                && r.resources
                   == Hits(old(history), scope, Normalized(requested), now, MAX_AGE) + fetch(missing).resources
                && history == old(history) + others + [Batch(scope, fetch(missing).resources, later)]
                && r.error == None
      ensures r.Response? && r.error == None
                && (missing != [] ==> multiset(Ids(fetch(missing).resources)) == multiset(missing)) ==>
                multiset(Ids(r.resources)) == multiset(Normalized(requested))
    {
      var ids := NormalizeIds(requested);
      missing := Misses(history, scope, ids, now, MAX_AGE);
      if |ids| > MAX_IDS {
        return TooMany, false, missing;
      }
      if ids == [] {
        return Response([], None), false, missing;
      }
      CompleteAnswer(history, scope, ids, now, fetch(missing));
      r, background := RequestIds(scope, ids, now, later, fetch, others);
    }

    /** The request for distinct ids, neither none nor too many. */
    method RequestIds(scope: string, ids: seq<string>, now: int, later: int, fetch: seq<string> -> Fetched,
                      others: seq<Batch>)
      returns (r: Response, background: bool)
      requires Valid() && scope != "" && ids != []
      modifies this
      ensures Valid()
      ensures var missing := Misses(old(history), scope, ids, now, MAX_AGE);
              && r == AnswerWith(Hits(old(history), scope, ids, now, MAX_AGE), missing, fetch(missing))
              && history == HistoryAfter(old(history), scope, missing, fetch(missing), others, later)
              && (background <==> missing == [] && AnyStale(old(history), scope, ids, now, REFRESH_AFTER)
                                  && Granted(old(refreshed), Call(scope, later), MIN_INTERVAL))
      ensures refreshed == if background then old(refreshed)[scope := later] else old(refreshed)
    {
      var cached, missing, needsRefresh := Get(scope, ids, now, MAX_AGE, REFRESH_AFTER);
      if missing == [] {
        if needsRefresh {
          background := ShouldRefresh(scope, later, MIN_INTERVAL);
        } else {
          background := false;
        }
        return Response(cached, None), background;
      }
      r := FetchMissing(scope, cached, missing, later, fetch, others);
      return r, false;
    }

    /** The part of the request that fetches. */
    method FetchMissing(scope: string, cached: seq<Resource>, missing: seq<string>, later: int,
                        fetch: seq<string> -> Fetched, others: seq<Batch>)
      returns (r: Response)
      requires Valid()
      modifies this`cache, this`history
      ensures Valid()
      ensures missing != [] ==> r == AnswerWith(cached, missing, fetch(missing))
      ensures missing != [] ==> history == HistoryAfter(old(history), scope, missing, fetch(missing), others, later)
    {
      var result := fetch(missing);
      SetAll(others);
      match result {
        case Error(message) =>
          return Response(cached, Some(message));
        case Ok(resources) =>
          Set(scope, resources, later);
          return Response(cached + resources, None);
      }
    }

    /** The background refresh. */
    method Refresh(scope: string, ids: seq<string>, now: int, fetch: seq<string> -> Fetched)
      requires Valid()
      modifies this`cache, this`history
      ensures Valid()
      ensures history == old(history) + if fetch(ids).Ok? then [Batch(scope, fetch(ids).resources, now)] else []
    {
      match fetch(ids) {
        case Error(_) =>
        case Ok(resources) => Set(scope, resources, now);
      }
    }
  }

  lemma IdsAdd(a: seq<Resource>, b: seq<Resource>)
    ensures Ids(a + b) == Ids(a) + Ids(b)
  {
  }

  lemma {:induction false} DistinctOnce(ids: seq<string>, id: string)
    requires forall i, j :: 0 <= i < j < |ids| ==> ids[i] != ids[j]
    ensures multiset(ids)[id] == if id in ids then 1 else 0
  {
    if ids != [] {
      var before, last := ids[..|ids| - 1], ids[|ids| - 1];
      SplitLast(ids);
      DistinctOnce(before, id);
      assert multiset(before + [last]) == multiset(before) + multiset{last};
    }
  }

  /** A complete response holds each distinct requested id exactly once and no other. */
  lemma CompleteResponseHasEachOnce(requested: seq<string>, resources: seq<Resource>, id: string)
    requires multiset(Ids(resources)) == multiset(Normalized(requested))
    ensures multiset(Ids(resources))[id]
            == if Asked(requested, id) then 1 else 0
  {
    NormalizedIsDistinct(requested);
    DistinctOnce(Normalized(requested), id);
  }
}

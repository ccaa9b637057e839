/** Updating a container: (*Watcher).updateContainer and recreateContainer of
    internal/dockerwatcher/watcher.go against a Docker daemon whose every call may fail, before or
    after it took effect. The daemon keeps the containers and records every call that changes one;
    `replies` decides each call's fate and the facts only a daemon knows (new ids, which image a
    reference resolves to, whether a container runs). A nil pointer is None. */
module ContainerUpdate {
  import opened Basics
  import opened Text

  datatype Config = Config(image: string, hostname: string, rest: string)
  datatype RunState = RunState(running: bool, paused: bool)

  datatype Container = Container(
    id: string, name: string, image: string, config: Option<Config>, host: Option<string>,
    networks: Option<map<string, string>>, state: Option<RunState>)

  datatype Change =
    | Stop(id: string)
    | Remove(id: string)
    | Create(name: string, config: Config, host: string, networks: Option<map<string, string>>)
    | Start(id: string)

  datatype Verdict = Works | FailsBefore | FailsAfter
  datatype Reply = Reply(verdict: Verdict, id: string, image: string, state: Option<RunState>)

  datatype Result<+T> = Ok(value: T) | Err(message: string)
  /** Failed is a returned error; Panicked a nil dereference or a slice out of range. */
  datatype Outcome<+T> = Done(value: T) | Failed(message: string) | Panicked

  type Containers = map<string, Container>

  /** strings.TrimPrefix(name, "/") */
  function WithoutSlash(name: string): string {
    if name != "" && name[0] == '/' then name[1..] else name
  }

  predicate Nameable(c: Container) {
    WithoutSlash(c.name) != "" || |c.id| >= 12
  }

  function NameOf(c: Container): string
    requires Nameable(c)
  {
    if WithoutSlash(c.name) != "" then WithoutSlash(c.name) else c.id[..12]
  }

  /** isDockerGeneratedHostname */
  predicate GeneratedHostname(hostname: string) {
    var h := TrimSpace(hostname);
    |h| == 12 && forall i :: 0 <= i < |h| ==> '0' <= h[i] <= '9' || 'a' <= h[i] <= 'f'
  }

  function NewConfig(c: Config, imageRef: string): Config {
    c.(image := imageRef, hostname := if GeneratedHostname(c.hostname) then "" else c.hostname)
  }

  /** The changes of one complete recreation. */
  function Recreation(c: Container, imageRef: string, startAfter: bool, newId: string): seq<Change>
    requires Nameable(c) && c.config.Some? && c.host.Some?
  {
    (if startAfter then [Stop(c.id)] else [])
    + [Remove(c.id), Create(NameOf(c), NewConfig(c.config.value, imageRef), c.host.value, c.networks)]
    + (if startAfter then [Start(newId)] else [])
  }

  function Creations(changes: seq<Change>): nat {
    if changes == [] then 0 else (if changes[0].Create? then 1 else 0) + Creations(changes[1..])
  }

  function Starts(changes: seq<Change>): nat {
    if changes == [] then 0 else (if changes[0].Start? then 1 else 0) + Starts(changes[1..])
  }

  lemma {:induction false} CountsAdd(a: seq<Change>, b: seq<Change>)
    ensures Creations(a + b) == Creations(a) + Creations(b)
    ensures Starts(a + b) == Starts(a) + Starts(b)
  {
    if a == [] {
      assert a + b == b;
    } else {
      assert (a + b)[1..] == a[1..] + b;
      CountsAdd(a[1..], b);
    }
  }

  lemma RecreationCounts(c: Container, imageRef: string, startAfter: bool, newId: string)
    requires Nameable(c) && c.config.Some? && c.host.Some?
    ensures Creations(Recreation(c, imageRef, startAfter, newId)) == 1
    ensures Starts(Recreation(c, imageRef, startAfter, newId)) == if startAfter then 1 else 0
  {
    var create := Create(NameOf(c), NewConfig(c.config.value, imageRef), c.host.value, c.networks);
    var head := if startAfter then [Stop(c.id)] else [];
    var tail := if startAfter then [Start(newId)] else [];
    assert Recreation(c, imageRef, startAfter, newId) == head + [Remove(c.id)] + [create] + tail;
    CountsAdd(head + [Remove(c.id)] + [create], tail);
    CountsAdd(head + [Remove(c.id)], [create]);
    CountsAdd(head, [Remove(c.id)]);
  }

  /** No container but `id` is changed or lost. */
  ghost predicate OthersKept(was: Containers, now: Containers, id: string) {
    forall c :: c in was && c != id ==> c in now && now[c] == was[c]
  }

  // ---- Replies --------------------------------------------------------------------------

  const NO_REPLY := Reply(FailsBefore, "", "", None)

  function Head(replies: seq<Reply>): Reply {
    if replies == [] then NO_REPLY else replies[0]
  }

  function Tail(replies: seq<Reply>): seq<Reply> {
    if replies == [] then [] else replies[1..]
  }

  /** The next `n` calls all work. */
  predicate AllWork(replies: seq<Reply>, n: nat) {
    n <= |replies| && forall i :: 0 <= i < n ==> replies[i].verdict.Works?
  }

  /** No container but `id` has this name. */
  ghost predicate NameFree(containers: Containers, id: string, name: string) {
    forall c :: c in containers && c != id ==> containers[c].name != name
  }

  /** The calls of one recreation, and which of them creates the container. */
  function Calls(startAfter: bool): nat { if startAfter then 4 else 2 }
  function CreateCall(startAfter: bool): nat { if startAfter then 2 else 1 }

  /** Nothing stands in the way of recreating a container under its name. */
  ghost predicate Smooth(containers: Containers, replies: seq<Reply>, id: string, name: string, startAfter: bool) {
    && AllWork(replies, Calls(startAfter)) && id in containers
    && replies[CreateCall(startAfter)].id !in containers && NameFree(containers, id, "/" + name)
  }

  class Daemon {
    var containers: Containers
    var changes: seq<Change>
    var replies: seq<Reply>
    /** What names and id prefixes refer to. */
    const aliases: map<string, string>

    ghost predicate Valid()
      reads this
    {
      forall id :: id in containers ==> containers[id].id == id
    }

    method Next() returns (r: Reply)
      modifies this`replies
      ensures r == Head(old(replies)) && replies == Tail(old(replies))
    {
      if replies == [] {
        return NO_REPLY;
      }
      r := replies[0];
      replies := replies[1..];
    }

    /** The id that an id, a name or an id prefix stands for. */
    function Resolve(ref: string): string
      reads this
    {
      if ref !in containers && ref in aliases then aliases[ref] else ref
    }

    method Inspect(ref: string) returns (r: Result<Container>)
      requires Valid()
      modifies this`replies
      ensures r.Ok? ==> r.value.id in containers && r.value == containers[r.value.id].(state := r.value.state)
      ensures r.Ok? && ref in containers ==> r.value.id == ref
      ensures replies == Tail(old(replies))
      ensures r.Ok? <==> Head(old(replies)).verdict.Works? && Resolve(ref) in containers
      ensures r.Ok? ==> r.value == containers[Resolve(ref)].(state := Head(old(replies)).state)
    {
      var reply := Next();
      var id := Resolve(ref);
      if !reply.verdict.Works? || id !in containers {
        return Err("inspect");
      }
      return Ok(containers[id].(state := reply.state));
    }

    /** pullImage, ImageInspectWithRaw and ImagesPrune: no container changes. */
    method ImageCall() returns (r: Result<string>)
      modifies this`replies
      ensures replies == Tail(old(replies))
      ensures r == if Head(old(replies)).verdict.Works? then Ok(Head(old(replies)).image) else Err("image")
    {
      var reply := Next();
      return if reply.verdict.Works? then Ok(reply.image) else Err("image");
    }

    method StopContainer(id: string) returns (ok: bool)
      modifies this`replies, this`changes
      ensures changes == old(changes) + [Stop(id)]
      ensures replies == Tail(old(replies)) && ok == Head(old(replies)).verdict.Works?
    {
      var reply := Next();
      changes := changes + [Stop(id)];
      return reply.verdict.Works?;
    }

    method StartContainer(id: string) returns (ok: bool)
      modifies this`replies, this`changes
      ensures changes == old(changes) + [Start(id)]
      ensures replies == Tail(old(replies)) && ok == Head(old(replies)).verdict.Works?
    {
      var reply := Next();
      changes := changes + [Start(id)];
      return reply.verdict.Works?;
    }

    method RemoveContainer(id: string) returns (ok: bool)
      modifies this`replies, this`changes, this`containers
      ensures changes == old(changes) + [Remove(id)]
      ensures containers == old(containers) || containers == old(containers) - {id}
      ensures ok ==> containers == old(containers) - {id}
      ensures replies == Tail(old(replies))
      ensures ok <==> Head(old(replies)).verdict.Works? && id in old(containers)
    {
      var reply := Next();
      changes := changes + [Remove(id)];
      if !reply.verdict.FailsBefore? && id in containers {
        containers := containers - {id};
        return reply.verdict.Works?;
      }
      return false;
    }

    /** ContainerCreate; the daemon never gives out an id or a name that is in use. */
    method CreateContainer(name: string, config: Config, host: string, networks: Option<map<string, string>>)
      returns (r: Result<string>)
      requires Valid()
      modifies this`replies, this`changes, this`containers
      ensures Valid()
      ensures changes == old(changes) + [Create(name, config, host, networks)]
      ensures forall id :: id in old(containers) ==> id in containers && containers[id] == old(containers)[id]
      ensures r.Ok? ==>
                && r.value !in old(containers) && r.value in containers
                && containers == old(containers)[r.value := containers[r.value]]
                && r.value == Head(old(replies)).id && containers[r.value].image == Head(old(replies)).image
                && containers[r.value] == Container(r.value, "/" + name, containers[r.value].image, Some(config),
                                                    Some(host), networks, None)
      ensures replies == Tail(old(replies))
      ensures r.Ok? <==> Head(old(replies)).verdict.Works? && Head(old(replies)).id !in old(containers)
                         && forall id :: id in old(containers) ==> old(containers)[id].name != "/" + name
    {
      var reply := Next();
      changes := changes + [Create(name, config, host, networks)];
      var taken := exists id :: id in containers && containers[id].name == "/" + name;
      if reply.verdict.FailsBefore? || reply.id in containers || taken {
        return Err("create");
      }
      var c := Container(reply.id, "/" + name, reply.image, Some(config), Some(host), networks, None);
      containers := containers[reply.id := c];
      return if reply.verdict.Works? then Ok(reply.id) else Err("create");
    }
  }

  /** A recreation of `c` as `id` that went through: these changes, and this effect. */
  ghost predicate Recreated(c: Container, imageRef: string, startAfter: bool, id: string,
                            was: Containers, now: Containers, changes: seq<Change>)
  {
    && Nameable(c) && c.config.Some? && c.host.Some?
    && changes == Recreation(c, imageRef, startAfter, id)
    && id in now && (id in was ==> id == c.id)
    && now == (was - {c.id})[id := now[id]]
    && now[id] == Container(id, "/" + NameOf(c), now[id].image, Some(NewConfig(c.config.value, imageRef)), c.host,
                            c.networks, None)
  }

  /** The container was created as the replies say. */
  ghost predicate Created(r: Outcome<string>, was: seq<Reply>, startAfter: bool, now: Containers, left: seq<Reply>)
    requires AllWork(was, Calls(startAfter))
  {
    var create := was[CreateCall(startAfter)];
    r == Done(create.id) && create.id in now && now[create.id].image == create.image && left == was[Calls(startAfter)..]
  }

  /** `done` is what the call changed. */
  method RecreateContainer(d: Daemon, inspect: Container, imageRef: string, startAfter: bool)
    returns (r: Outcome<string>, ghost done: seq<Change>)
    requires d.Valid()
    modifies d`replies, d`changes, d`containers
    ensures d.Valid() && d.changes == old(d.changes) + done
    ensures r.Panicked? <==> !Nameable(inspect)
    ensures r.Panicked? || inspect.config.None? || inspect.host.None? ==> !r.Done? && done == []
    ensures done == [] ==> d.containers == old(d.containers)
    ensures Creations(done) <= 1
    ensures r.Done? ==> Recreated(inspect, imageRef, startAfter, r.value, old(d.containers), d.containers, done)
    ensures OthersKept(old(d.containers), d.containers, inspect.id)
    ensures Nameable(inspect) && inspect.config.Some? && inspect.host.Some?
              && Smooth(old(d.containers), old(d.replies), inspect.id, NameOf(inspect), startAfter) ==>
              Created(r, old(d.replies), startAfter, d.containers, d.replies)
  {
    done := [];
    var name := WithoutSlash(inspect.name);
    if name == "" {
      if |inspect.id| < 12 {
        return Panicked, [];
      }
      name := inspect.id[..12];
    }
    if inspect.config.None? {
      return Failed("missing container config"), [];
    }
    var config := inspect.config.value.(image := imageRef);
    if GeneratedHostname(config.hostname) {
      config := config.(hostname := "");
    }
    if inspect.host.None? {
      return Failed("missing host config"), [];
    }
    r, done := StopRemoveCreateStart(d, inspect, name, config, startAfter);
    assert r.Done? ==> done == Recreation(inspect, imageRef, startAfter, r.value);
  }

  /** The daemon calls of recreateContainer, lines 1251-1271. */
  method StopRemoveCreateStart(d: Daemon, inspect: Container, name: string, config: Config, startAfter: bool)
    returns (r: Outcome<string>, ghost done: seq<Change>)
    requires d.Valid() && inspect.host.Some?
    modifies d`replies, d`changes, d`containers
    ensures d.Valid() && d.changes == old(d.changes) + done
    ensures !r.Panicked? && done != [] && Creations(done) <= 1
    ensures OthersKept(old(d.containers), d.containers, inspect.id)
    ensures r.Done? ==>
              && done == (if startAfter then [Stop(inspect.id)] else [])
                         + [Remove(inspect.id), Create(name, config, inspect.host.value, inspect.networks)]
                         + (if startAfter then [Start(r.value)] else [])
              && r.value in d.containers && (r.value in old(d.containers) ==> r.value == inspect.id)
              && d.containers == (old(d.containers) - {inspect.id})[r.value := d.containers[r.value]]
              && d.containers[r.value] == Container(r.value, "/" + name, d.containers[r.value].image, Some(config),
                                                    inspect.host, inspect.networks, None)
    ensures Smooth(old(d.containers), old(d.replies), inspect.id, name, startAfter) ==>
              Created(r, old(d.replies), startAfter, d.containers, d.replies)
  {
    done := [];
    ghost var was := d.replies;
    if startAfter {
      var stopped := d.StopContainer(inspect.id);
      done := [Stop(inspect.id)];
      if !stopped {
        return Failed("stop"), done;
      }
      assert was != [] && d.replies == was[1..];
    }
    ghost var smooth := Smooth(old(d.containers), was, inspect.id, name, startAfter);
    assert smooth ==> Smooth(d.containers, d.replies, inspect.id, name, false);
    ghost var more;
    r, more := RemoveCreate(d, inspect, name, config);
    CountsAdd(done, more);
    done := done + more;
    if r.Done? && startAfter {
      ghost var left := d.replies;
      var started := d.StartContainer(r.value);
      CountsAdd(done, [Start(r.value)]);
      done := done + [Start(r.value)];
      if !started {
        return Failed("start"), done;
      }
      assert left != [] && d.replies == left[1..];
    }
  }

  /** The middle of it: ContainerRemove and ContainerCreate. */
  method RemoveCreate(d: Daemon, inspect: Container, name: string, config: Config)
    returns (r: Outcome<string>, ghost done: seq<Change>)
    requires d.Valid() && inspect.host.Some?
    modifies d`replies, d`changes, d`containers
    ensures d.Valid() && d.changes == old(d.changes) + done
    ensures !r.Panicked? && done != [] && Creations(done) <= 1
    ensures OthersKept(old(d.containers), d.containers, inspect.id)
    ensures r.Done? ==>
              && done == [Remove(inspect.id), Create(name, config, inspect.host.value, inspect.networks)]
              && r.value in d.containers && (r.value in old(d.containers) ==> r.value == inspect.id)
              && d.containers == (old(d.containers) - {inspect.id})[r.value := d.containers[r.value]]
              && d.containers[r.value] == Container(r.value, "/" + name, d.containers[r.value].image, Some(config),
                                                    inspect.host, inspect.networks, None)
    ensures Smooth(old(d.containers), old(d.replies), inspect.id, name, false) ==>
              Created(r, old(d.replies), false, d.containers, d.replies)
  {
    var removed := d.RemoveContainer(inspect.id);
    done := [Remove(inspect.id)];
    if !removed {
      return Failed("remove"), done;
    }
    var created := d.CreateContainer(name, config, inspect.host.value, inspect.networks);
    ghost var create := Create(name, config, inspect.host.value, inspect.networks);
    CountsAdd(done, [create]);
    done := done + [create];
    if created.Err? {
      return Failed("create"), done;
    }
    return Done(created.value), done;
  }

  datatype UpdateResult = UpdateResult(
    id: string, name: string, oldImage: string, newImage: string, appliedImage: string,
    updated: bool, previousState: string, currentState: string)

  function StateName(s: Option<RunState>): string {
    if s.None? then "unknown" else if s.value.paused then "paused" else if s.value.running then "online" else "stopped"
  }

  predicate Running(c: Container) { c.state.Some? && c.state.value.running }
  predicate Paused(c: Container) { c.state.Some? && c.state.value.paused }

  /** A container that stands in for another: same name, host settings and networks, and the same
      configuration but for the image and a hostname Docker had made up. */
  ghost predicate Replaces(c: Container, before: Container, imageRef: string) {
    && Nameable(before) && Nameable(c) && NameOf(c) == NameOf(before)
    && before.config.Some? && c.config == Some(NewConfig(before.config.value, imageRef))
    && c.host == before.host && c.host.Some? && c.networks == before.networks
  }

  lemma SlashIsCutOff(name: string)
    ensures WithoutSlash("/" + name) == name
  {
  }

  /** What a finished update without an error has done, given the container as first inspected, its
      image reference and how many containers were created on the way: the first is created by that
      reference, the second by image id. */
  ghost predicate UpdateDone(
    newId: string, newImage: string, applied: string, before: Container, imageRef: string, made: nat, startAfter: bool,
    was: Containers, now: Containers, changes: seq<Change>)
  {
    && 1 <= made <= 2
    && (applied == newImage || applied == "")
    && (made == 2 ==> applied == newImage)
    && Creations(changes) == made
    && Starts(changes) == (if startAfter then made else 0)
    && newId in now && now.Keys == was.Keys - {before.id} + {newId}
    && OthersKept(was, now, before.id)
    && (applied != "" ==> now[newId].image == newImage)
    && Replaces(now[newId], before, if made == 1 then imageRef else newImage)
  }

  lemma OneRecreation(newId: string, newImage: string, applied: string, before: Container, ref: string,
                      startAfter: bool,
                      was: Containers, now: Containers, changes: seq<Change>)
    requires Recreated(before, ref, startAfter, newId, was, now, changes)
    requires applied == newImage || applied == ""
    requires applied != "" ==> now[newId].image == newImage
    ensures UpdateDone(newId, newImage, applied, before, ref, 1, startAfter, was, now, changes)
  {
    RecreationCounts(before, ref, startAfter, newId);
    SlashIsCutOff(NameOf(before));
    assert Replaces(now[newId], before, ref);
  }

  lemma TwoRecreations(newImage: string, before: Container, ref: string, startAfter: bool, again: Container,
                       id1: string, id2: string, was: Containers, middle: Containers, now: Containers,
                       changes1: seq<Change>, changes2: seq<Change>)
    requires Recreated(before, ref, startAfter, id1, was, middle, changes1)
    requires again.id == id1 && again == middle[id1].(state := again.state)
    requires Recreated(again, newImage, startAfter, id2, middle, now, changes2)
    requires now[id2].image == newImage && before.id in was
    ensures UpdateDone(id2, newImage, newImage, before, ref, 2, startAfter, was, now, changes1 + changes2)
  {
    RecreationCounts(before, ref, startAfter, id1);
    RecreationCounts(again, newImage, startAfter, id2);
    CountsAdd(changes1, changes2);
    SlashIsCutOff(NameOf(before));
    SlashIsCutOff(NameOf(again));
    assert !GeneratedHostname("");
    assert Replaces(now[id2], before, newImage);
  }

  /** Nothing stands in the way of replacing a container by one on the new image. */
  ghost predicate Ready(containers: Containers, replies: seq<Reply>, c: Container, newImage: string, startAfter: bool) {
    && Nameable(c) && c.config.Some? && c.host.Some?
    && Smooth(containers, replies, c.id, NameOf(c), startAfter)
    && replies[CreateCall(startAfter)].image == newImage
  }

  /** An update of this container is due, no call fails and nothing stands in its way: the two image
      calls come first, the second of which tells the new image. */
  ghost predicate Due(containers: Containers, replies: seq<Reply>, c: Container, updateStopped: bool,
                      forceStart: bool)
  {
    && AllWork(replies, 2) && !Paused(c) && c.config.Some? && c.config.value.image != ""
    && replies[1].image != "" && replies[1].image != c.image
    && (Running(c) || forceStart || updateStopped)
    && Ready(containers, replies[2..], c, replies[1].image, Running(c) || forceStart)
  }

  /** Such updates exist: a running container, every call works, and its reference now means another image. */
  lemma DueHappens() returns (containers: Containers, replies: seq<Reply>, c: Container)
    ensures c.id in containers && containers[c.id] == c && Running(c) && Due(containers, replies, c, false, false)
  {
    var config, state := Config("web:1", "", ""), RunState(true, false);
    c := Container("abc", "/web", "old", Some(config), Some("host"), None, Some(state));
    containers := map["abc" := c];
    var works := Reply(Works, "def", "new", None);
    replies := [works, works, works, works, works, works];
    assert WithoutSlash("/web") == "web" && "/" + "web" == "/web";
    assert NameOf(c) == "web";
  }

  /** The recreation and its one retry, lines 1477-1503: when the new container turns out to be on an
      unexpected image, it is recreated by image id. */
  method Replace(d: Daemon, inspect: Container, imageRef: string, newImage: string, startAfter: bool)
    returns (r: Outcome<string>, applied: string, ghost made: nat, ghost done: seq<Change>)
    requires d.Valid() && inspect.id in d.containers && newImage != ""
    modifies d`replies, d`changes, d`containers
    ensures d.Valid() && d.changes == old(d.changes) + done
    ensures r.Done? ==>
              UpdateDone(r.value, newImage, applied, inspect, imageRef, made, startAfter, old(d.containers),
                         d.containers, done)
    ensures r.Panicked? ==> !Nameable(inspect) && done == []
    ensures done == [] ==> d.containers == old(d.containers)
    ensures Creations(done) <= 2
    ensures OthersKept(old(d.containers), d.containers, inspect.id)
    ensures Ready(old(d.containers), old(d.replies), inspect, newImage, startAfter) ==> r.Done?
  {
    ghost var was, log := d.containers, d.changes;
    applied, made := "", 1;
    var first, again;
    first, done := RecreateContainer(d, inspect, imageRef, startAfter);
    if !first.Done? {
      return first, "", 0, done;
    }
    var id1 := first.value;
    ghost var middle, done1 := d.containers, done;
    if id1 != "" {
      again := d.Inspect(id1);
      if again.Ok? {
        applied := again.value.image;
      }
    }
    if applied == "" || applied == newImage {
      OneRecreation(id1, newImage, applied, inspect, imageRef, startAfter, was, middle, done1);
      return first, applied, 1, done;
    }
    ghost var done2;
    r, made, done2 := Retry(d, again.value, newImage, startAfter);
    CountsAdd(done1, done2);
    RecreationCounts(inspect, imageRef, startAfter, id1);
    done := done1 + done2;
    Regroup(log, done1, done2);
    if r.Done? {
      applied := newImage;
      TwoRecreations(newImage, inspect, imageRef, startAfter, again.value, id1, r.value, was, middle, d.containers,
                     done1, done2);
    }
  }

  method Retry(d: Daemon, again: Container, newImage: string, startAfter: bool)
    returns (r: Outcome<string>, ghost made: nat, ghost done: seq<Change>)
    requires d.Valid() && Nameable(again)
    modifies d`replies, d`changes, d`containers
    ensures d.Valid() && d.changes == old(d.changes) + done
    ensures !r.Panicked? && Creations(done) <= 1
    ensures r.Done? ==>
              && made == 2 && Recreated(again, newImage, startAfter, r.value, old(d.containers), d.containers, done)
              && d.containers[r.value].image == newImage
    ensures OthersKept(old(d.containers), d.containers, again.id)
  {
    made := 1;
    r, done := RecreateContainer(d, again, newImage, startAfter);
    if !r.Done? {
      return Failed("retry failed"), 1, done;
    }
    made := 2;
    var checked := d.Inspect(r.value);
    if checked.Err? {
      return Failed("retry inspect failed"), 2, done;
    }
    if checked.value.image != newImage {
      return Failed("retry still on another image"), 2, done;
    }
  }

  /** updateContainer. `before` is the container as first inspected, `made` the number of containers
      created and `done` everything the update changed. */
  method UpdateContainer(d: Daemon, containerID: string, updateStopped: bool, prune: bool, forceStart: bool)
    returns (r: Outcome<UpdateResult>, ghost before: Option<Container>, ghost made: nat, ghost done: seq<Change>)
    requires d.Valid()
    modifies d`replies, d`changes, d`containers
    ensures d.Valid() && d.changes == old(d.changes) + done
    ensures before.Some? ==>
              && before.value.id in old(d.containers)
              && before.value == old(d.containers)[before.value.id].(state := before.value.state)
    ensures r.Done? && !r.value.updated ==> done == []
    ensures r.Done? && !r.value.updated ==>
              && before.Some?
              && (Paused(before.value) || r.value.newImage == "" || r.value.newImage == before.value.image
                  || !(Running(before.value) || forceStart || updateStopped))
    ensures r.Done? && before.Some? && !Paused(before.value) ==>
              r.value.newImage == Head(Tail(Tail(old(d.replies)))).image
    ensures before.Some? && Due(old(d.containers), Tail(old(d.replies)), before.value, updateStopped, forceStart) ==>
              r.Done? && r.value.updated
    ensures before.Some? <==>
              && TrimSpace(containerID) != "" && Head(old(d.replies)).verdict.Works?
              && old(d.Resolve(TrimSpace(containerID))) in old(d.containers)
    ensures r.Done? && r.value.updated ==>
              && before.Some? && !Paused(before.value)
              && (Running(before.value) || forceStart || updateStopped)
              && r.value.newImage != "" && r.value.newImage != before.value.image == r.value.oldImage
              && before.value.config.Some?
              && UpdateDone(r.value.id, r.value.newImage, r.value.appliedImage, before.value,
                            before.value.config.value.image, made,
                            Running(before.value) || forceStart, old(d.containers), d.containers, done)
    ensures done == [] ==> d.containers == old(d.containers)
    ensures before.None? ==> done == []
    ensures before.Some? ==> OthersKept(old(d.containers), d.containers, before.value.id)
    ensures Creations(done) <= 2
    ensures r.Panicked? ==>
              && before.Some? && done == []
              && (if Paused(before.value) then before.value.config.None? else !Nameable(before.value))
  {
    before, made, done := None, 0, [];
    var ref := TrimSpace(containerID);
    if ref == "" {
      return Failed("container id is required"), None, 0, [];
    }
    var inspected := d.Inspect(ref);
    if inspected.Err? {
      return Failed(inspected.message), None, 0, [];
    }
    before := Some(inspected.value);
    r, made, done := UpdateInspected(d, inspected.value, ref, updateStopped, prune, forceStart);
  }

  /** updateContainer once the container is inspected. */
  method UpdateInspected(d: Daemon, inspect: Container, ref: string, updateStopped: bool, prune: bool, forceStart: bool)
    returns (r: Outcome<UpdateResult>, ghost made: nat, ghost done: seq<Change>)
    requires d.Valid() && inspect.id in d.containers
    modifies d`replies, d`changes, d`containers
    ensures d.Valid() && d.changes == old(d.changes) + done
    ensures r.Done? && !r.value.updated ==>
              && done == []
              && (Paused(inspect) || r.value.newImage == "" || r.value.newImage == inspect.image
                  || !(Running(inspect) || forceStart || updateStopped))
    ensures r.Done? && !Paused(inspect) ==> r.value.newImage == Head(Tail(old(d.replies))).image
    ensures r.Done? && r.value.updated ==>
              && !Paused(inspect) && (Running(inspect) || forceStart || updateStopped)
              && r.value.newImage != "" && r.value.newImage != inspect.image == r.value.oldImage
              && inspect.config.Some?
              && UpdateDone(r.value.id, r.value.newImage, r.value.appliedImage, inspect,
                            inspect.config.value.image, made, Running(inspect) || forceStart, old(d.containers),
                            d.containers, done)
    ensures Due(old(d.containers), old(d.replies), inspect, updateStopped, forceStart) ==> r.Done? && r.value.updated
    ensures done == [] ==> d.containers == old(d.containers)
    ensures OthersKept(old(d.containers), d.containers, inspect.id)
    ensures Creations(done) <= 2
    ensures r.Panicked? ==> done == [] && (if Paused(inspect) then inspect.config.None? else !Nameable(inspect))
  {
    made, done := 0, [];
    var name := WithoutSlash(inspect.name);
    if name == "" {
      name := ref;
    }
    var previousState := StateName(inspect.state);
    if inspect.state.Some? && inspect.state.value.paused {
      if inspect.config.None? {
        return Panicked, 0, [];
      }
      return Done(UpdateResult(ref, name, "", "", "", false, previousState, previousState)), 0, [];
    }
    var imageRef := if inspect.config.Some? then inspect.config.value.image else "";
    if imageRef == "" {
      return Failed("missing image reference"), 0, [];
    }
    var pulled := d.ImageCall();
    if pulled.Err? {
      return Failed(pulled.message), 0, [];
    }
    var newImage := d.ImageCall();
    if newImage.Err? {
      return Failed(newImage.message), 0, [];
    }
    var wasRunning := inspect.state.Some? && inspect.state.value.running;
    var startAfter := wasRunning || forceStart;
    var updateAvailable := newImage.value != "" && newImage.value != inspect.image;
    if !updateAvailable || (!wasRunning && !forceStart && !updateStopped) {
      r := Done(UpdateResult(ref, name, inspect.image, newImage.value, inspect.image, false, previousState,
                             previousState));
      return r, 0, [];
    }
    r, made, done := Apply(d, inspect, name, imageRef, newImage.value, startAfter, prune);
  }

  /** updateContainer once an update is due, lines 1477-1543. */
  method Apply(d: Daemon, inspect: Container, name: string, imageRef: string, newImage: string, startAfter: bool,
               prune: bool)
    returns (r: Outcome<UpdateResult>, ghost made: nat, ghost done: seq<Change>)
    requires d.Valid() && inspect.id in d.containers && newImage != ""
    modifies d`replies, d`changes, d`containers
    ensures d.Valid() && d.changes == old(d.changes) + done
    ensures r.Done? ==>
              && r.value.updated && r.value.newImage == newImage && r.value.oldImage == inspect.image
              && UpdateDone(r.value.id, newImage, r.value.appliedImage, inspect, imageRef, made, startAfter,
                            old(d.containers), d.containers, done)
    ensures r.Panicked? ==> !Nameable(inspect) && done == []
    ensures done == [] ==> d.containers == old(d.containers)
    ensures Creations(done) <= 2
    ensures OthersKept(old(d.containers), d.containers, inspect.id)
    ensures Ready(old(d.containers), old(d.replies), inspect, newImage, startAfter) ==> r.Done?
  {
    var replaced, applied;
    replaced, applied, made, done := Replace(d, inspect, imageRef, newImage, startAfter);
    match replaced {
      case Failed(message) => return Failed(message), made, done;
      case Panicked => return Panicked, made, done;
      case Done(newId) =>
        var currentState := CurrentState(d, newId, startAfter);
        if prune {
          var _ := d.ImageCall();
        }
        r := Done(UpdateResult(newId, name, inspect.image, newImage, applied, true, StateName(inspect.state),
                               currentState));
    }
  }

  /** Lines 1505-1518. */
  method CurrentState(d: Daemon, newId: string, startAfter: bool) returns (state: string)
    requires d.Valid()
    modifies d`replies
    ensures var reply := Head(old(d.replies));
            var known := newId != "" && reply.verdict.Works? && d.Resolve(newId) in d.containers && reply.state.Some?;
            state == if (if known then reply.state.value.running else startAfter) then "online" else "stopped"
  {
    state := if startAfter then "online" else "stopped";
    if newId != "" {
      var last := d.Inspect(newId);
      if last.Ok? && last.value.state.Some? {
        state := if last.value.state.value.running then "online" else "stopped";
      }
    }
  }
}

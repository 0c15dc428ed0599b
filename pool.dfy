/** The container pool: pre-warmed containers in a ready list, containers bound to sessions, and
    an append-only archive of stopped containers kept for forensics. Every lock-held region of the
    source is one atomic method here; Docker's create and stop calls are outcomes passed in. */
module Pool {
  import opened Wrappers
  import Security

  /** A container the runtime created: its id is unique, its configuration is what it was
      created with. */
  datatype Container = Container(id: nat, config: Security.ContainerConfig)

  /** An entry of the stopped list: the container and when it was stopped. */
  datatype Retired = Retired(container: Container, stoppedAt: int)

  /** What happens when a container is created: the name parts `_generate_container_name` draws
      (a UUID text and a timestamp), and whether the first attempt and the single retry succeed. */
  datatype CreateOutcome = CreateOutcome(uuid: string, stamp: string, createdAt: string,
                                         firstAttemptOk: bool, retryOk: bool)

  datatype PoolError = InitializationFailed | AllocationFailed

  datatype Stats = Stats(ready: nat, active: nat, stopped: nat, total: nat)

  predicate Distinct<T(==)>(s: seq<T>) {
    forall i, j | 0 <= i < j < |s| :: s[i] != s[j]
  }

  predicate DistinctRetired(s: seq<Retired>) {
    forall i, j | 0 <= i < j < |s| :: s[i].container != s[j].container
  }

  /** Distinct sessions are bound to distinct containers. */
  predicate Injective(m: map<string, Container>) {
    forall a, b | a in m && b in m && a != b :: m[a] != m[b]
  }

  predicate IsRetired(stopped: seq<Retired>, c: Container) {
    exists i | 0 <= i < |stopped| :: stopped[i].container == c
  }

  /** The entries a stop loop appends: each container, in order, whose stop succeeded. */
  function RetireAll(cs: seq<Container>, stopOk: Container -> bool, now: int): (r: seq<Retired>)
    ensures forall i | 0 <= i < |r| :: r[i].stoppedAt == now && r[i].container in cs && stopOk(r[i].container)
    ensures forall c | c in cs && stopOk(c) :: IsRetired(r, c)
    ensures Distinct(cs) ==> DistinctRetired(r)
  {
    if cs == [] then []
    else
      var rest := RetireAll(cs[1..], stopOk, now);
      assert forall c | c in cs[1..] :: c in cs;
      if stopOk(cs[0]) then
        assert Distinct(cs) ==> cs[0] !in cs[1..];
        var r := [Retired(cs[0], now)] + rest;
        assert forall c | IsRetired(rest, c) :: IsRetired(r, c) by {
          forall c | IsRetired(rest, c) ensures IsRetired(r, c) {
            var i :| 0 <= i < |rest| && rest[i].container == c;
            assert r[i + 1] == rest[i];
          }
        }
        assert r[0].container == cs[0];
        r
      else rest
  }

  /** The configuration `_create_container` passes to the runtime. */
  function ConfigFor(policy: Security.SecurityPolicy, image: string, o: CreateOutcome): Result<Security.ContainerConfig, Security.SecurityError> {
    Security.BuildContainerConfig(policy, image, Security.GenerateContainerName(None, o.uuid, o.stamp), None, o.createdAt)
  }

  /** Creation succeeds when the configuration can be built and one of the two attempts works. */
  predicate Creates(policy: Security.SecurityPolicy, image: string, o: CreateOutcome) {
    ConfigFor(policy, image, o).Ok? && (o.firstAttemptOk || o.retryOk)
  }

  class ContainerPool {
    const size: nat
    const image: string
    const policy: Security.SecurityPolicy

    var ready: seq<Container>
    var active: map<string, Container>
    var stopped: seq<Retired>
    var isShutdown: bool
    /** Replacement tasks scheduled by `allocate` that have not started yet. */
    var pendingReplacements: nat
    /** The runtime's id supply: every container created so far has a smaller id. */
    var nextId: nat

    /** Ownership: the ready list, the bound containers and the stopped list are pairwise
        disjoint, none repeats a container, and all hold only containers already created. */
    ghost predicate Valid()
      reads this
    {
      && Distinct(ready) && Injective(active) && DistinctRetired(stopped)
      && (forall c | c in ready :: c.id < nextId && c !in active.Values && !IsRetired(stopped, c))
      && (forall s | s in active :: active[s].id < nextId && !IsRetired(stopped, active[s]))
      && (forall i | 0 <= i < |stopped| :: stopped[i].container.id < nextId)
    }

    /** The pool starts empty and not shut down. */
    constructor (size: nat, image: string, policy: Security.SecurityPolicy, firstId: nat)
      requires size >= 1
      ensures Valid()
      ensures this.size == size && this.image == image && this.policy == policy
      ensures ready == [] && active == map[] && stopped == [] && !isShutdown
      ensures pendingReplacements == 0 && nextId == firstId
    {
      this.size := size;
      this.image := image;
      this.policy := policy;
      ready := [];
      active := map[];
      stopped := [];
      isShutdown := false;
      pendingReplacements := 0;
      nextId := firstId;
    }

    /** `get_stats`: the size of each collection, and a total that counts every container the
        pool holds or has stopped exactly once. */
    function GetStats(): (s: Stats)
      requires Valid()
      reads this
      ensures s.ready == |ready| && s.active == |active| && s.stopped == |stopped|
      ensures s.total == |Tracked()|
    {
      StatsTotalCountsEachContainerOnce(this);
      Stats(|ready|, |active|, |stopped|, |ready| + |active| + |stopped|)
    }

    /** `_create_container`: builds the configuration (a malformed memory limit fails before any
        attempt), then at most two create-and-start attempts. A created container is new. */
    method CreateContainer(o: CreateOutcome) returns (c: Option<Container>)
      modifies this`nextId
      ensures c.Some? <==> Creates(policy, image, o)
      ensures c.Some? ==> c.value == Container(old(nextId), ConfigFor(policy, image, o).value)
      ensures nextId == if c.Some? then old(nextId) + 1 else old(nextId)
    {
      var name := Security.GenerateContainerName(None, o.uuid, o.stamp);
      var config := Security.BuildContainerConfig(policy, image, name, None, o.createdAt);
      if config.Err? {
        return None;
      }
      if o.firstAttemptOk || o.retryOk {
        c := Some(Container(nextId, config.value));
        nextId := nextId + 1;
      } else {
        c := None;
      }
    }

    /** A container the pool does not hold anywhere. */
    ghost predicate Untracked(c: Container)
      reads this
    {
      c.id < nextId && c !in ready && c !in active.Values && !IsRetired(stopped, c)
    }

    /** Every container the pool holds, in any of its three collections. */
    ghost function Tracked(): set<Container>
      reads this
    {
      (set c | c in ready) + active.Values + (set e | e in stopped :: e.container)
    }

    /** `_cleanup_ready_containers`: stops every ready container in order, archiving those whose
        stop succeeded, and empties the ready list. */
    method CleanupReadyContainers(stopOk: Container -> bool, now: int)
      requires Valid()
      modifies this`ready, this`stopped
      ensures Valid()
      ensures ready == [] && stopped == old(stopped) + RetireAll(old(ready), stopOk, now)
      ensures active == old(active) && isShutdown == old(isShutdown)
      ensures nextId == old(nextId) && pendingReplacements == old(pendingReplacements)
    {
      var moved := StopAll(ready, stopOk, now);
      AppendRetired(stopped, moved);
      stopped := stopped + moved;
      ready := [];
    }

    /** `initialize`: creates `size` containers (all creations run, as with `gather`) and adds
        them to the ready list only if every one succeeded; otherwise the ready list is cleaned
        up and the call fails. Containers created in a failed call are never enqueued. */
    method Initialize(outcomes: seq<CreateOutcome>, stopOk: Container -> bool, now: int) returns (r: Outcome<PoolError>)
      requires Valid() && |outcomes| == size
      modifies this
      ensures Valid()
      ensures r.Pass? <==> forall i | 0 <= i < |outcomes| :: Creates(policy, image, outcomes[i])
      ensures r.Pass? ==>
                && |ready| == |old(ready)| + size && ready[..|old(ready)|] == old(ready)
                && (forall k | |old(ready)| <= k < |ready| :: old(nextId) <= ready[k].id)
                && stopped == old(stopped)
      ensures r.Fail? ==>
                && r.error == InitializationFailed
                && ready == [] && stopped == old(stopped) + RetireAll(old(ready), stopOk, now)
      ensures active == old(active) && isShutdown == old(isShutdown)
      ensures pendingReplacements == old(pendingReplacements) && old(nextId) <= nextId
    {
      var created: seq<Container> := [];
      var allOk := true;
      var i := 0;
      while i < |outcomes|
        invariant 0 <= i <= |outcomes|
        invariant allOk <==> forall k | 0 <= k < i :: Creates(policy, image, outcomes[k])
        invariant allOk ==> |created| == i
        invariant Distinct(created)
        invariant forall c | c in created :: old(nextId) <= c.id < nextId
        invariant old(nextId) <= nextId
        invariant ready == old(ready) && active == old(active) && stopped == old(stopped)
        invariant isShutdown == old(isShutdown) && pendingReplacements == old(pendingReplacements)
      {
        var c := CreateContainer(outcomes[i]);
        match c {
          case Some(x) => created := created + [x];
          case None => allOk := false;
        }
        i := i + 1;
      }
      if allOk {
        ready := ready + created;
        return Pass;
      }
      CleanupReadyContainers(stopOk, now);
      return Fail(InitializationFailed);
    }

    /** `allocate`: binds the session to the last ready container, or, with the ready list empty,
        to one container created on demand. A failed creation is an allocation error and binds
        nothing. A success schedules exactly one replacement. */
    method Allocate(sessionId: string, o: CreateOutcome) returns (r: Result<Container, PoolError>)
      requires Valid()
      modifies this
      ensures Valid()
      ensures old(ready) != [] ==>
                && r == Ok(old(ready)[|old(ready)| - 1])
                && ready == old(ready)[..|old(ready)| - 1] && nextId == old(nextId)
      ensures old(ready) == [] ==>
                && ready == []
                && (r.Ok? <==> Creates(policy, image, o))
                && (r.Ok? ==> r.value.id == old(nextId) && nextId == old(nextId) + 1)
                && (r.Err? ==> nextId == old(nextId))
      ensures r.Ok? ==> active == old(active)[sessionId := r.value]
      ensures r.Ok? ==> pendingReplacements == old(pendingReplacements) + 1
      ensures r.Err? ==> r.error == AllocationFailed && active == old(active)
      ensures r.Err? ==> pendingReplacements == old(pendingReplacements)
      ensures stopped == old(stopped) && isShutdown == old(isShutdown)
    {
      var c: Container;
      if |ready| > 0 {
        c := ready[|ready| - 1];
        ready := ready[..|ready| - 1];
      } else {
        var made := CreateContainer(o);
        if made.None? {
          return Err(AllocationFailed);
        }
        c := made.value;
      }
      active := active[sessionId := c];
      pendingReplacements := pendingReplacements + 1;
      r := Ok(c);
    }

    /** The first lock-held region of `release`: an unknown session is a no-op; otherwise its
        binding is popped, and until it is archived its container is in no collection. */
    method Unbind(sessionId: string) returns (c: Option<Container>)
      requires Valid()
      modifies this`active
      ensures Valid()
      ensures c.None? <==> sessionId !in old(active)
      ensures c.None? ==> active == old(active)
      ensures c.Some? ==> c.value == old(active)[sessionId] && active == old(active) - {sessionId}
      ensures c.Some? ==> Untracked(c.value)
    {
      if sessionId !in active {
        return None;
      }
      c := Some(active[sessionId]);
      active := active - {sessionId};
    }

    /** The second lock-held region of `release`, reached only when the unlocked stop succeeded:
        the container is archived with its stop time. */
    method Archive(c: Container, now: int)
      requires Valid() && Untracked(c)
      modifies this`stopped
      ensures Valid()
      ensures stopped == old(stopped) + [Retired(c, now)]
    {
      AppendRetired(stopped, [Retired(c, now)]);
      stopped := stopped + [Retired(c, now)];
    }

    /** `release` run without interruption: an unknown session is a no-op. Otherwise the session
        is unbound, its container is stopped and archived only if the stop succeeded, and it
        never returns to the ready list. */
    method Release(sessionId: string, stopOk: bool, now: int)
      requires Valid()
      modifies this
      ensures Valid()
      ensures sessionId !in old(active) ==> unchanged(this)
      ensures sessionId in old(active) ==>
                && active == old(active) - {sessionId}
                && stopped == old(stopped) + (if stopOk then [Retired(old(active)[sessionId], now)] else [])
      ensures ready == old(ready) && isShutdown == old(isShutdown)
      ensures nextId == old(nextId) && pendingReplacements == old(pendingReplacements)
    {
      var c := Unbind(sessionId);
      if c.Some? && stopOk {
        Archive(c.value, now);
      }
    }

    /** The first step of `shutdown`, taken before the lock: from here on no replacement joins
        the ready list. */
    method RaiseShutdownFlag()
      modifies this`isShutdown
      ensures isShutdown
    {
      isShutdown := true;
    }

    /** The lock-held region of `shutdown`: stops every bound container (in the map's iteration
        order, `visited`) and then every ready container, archiving each whose stop succeeded;
        a failed stop does not end either loop. Both collections end empty. */
    method StopEverything(stopOk: Container -> bool, now: int) returns (ghost visited: seq<Container>)
      requires Valid()
      modifies this`active, this`ready, this`stopped
      ensures Valid()
      ensures active == map[] && ready == []
      ensures Distinct(visited) && forall c :: c in visited <==> c in old(active).Values
      ensures stopped == old(stopped) + RetireAll(visited, stopOk, now) + RetireAll(old(ready), stopOk, now)
    {
      var moved;
      moved, visited := StopEach(active, stopOk, now);
      forall e | e in moved ensures !IsRetired(stopped, e.container) {
        var s :| s in active && active[s] == e.container;
      }
      AppendRetired(stopped, moved);
      stopped := stopped + moved;
      active := map[];
      CleanupReadyContainers(stopOk, now);
    }

    /** `shutdown` run without interruption: the flag, then the lock-held stops. */
    method Shutdown(stopOk: Container -> bool, now: int) returns (ghost visited: seq<Container>)
      requires Valid()
      modifies this
      ensures Valid()
      ensures isShutdown && active == map[] && ready == []
      ensures Distinct(visited) && forall c :: c in visited <==> c in old(active).Values
      ensures stopped == old(stopped) + RetireAll(visited, stopOk, now) + RetireAll(old(ready), stopOk, now)
      ensures nextId == old(nextId) && pendingReplacements == old(pendingReplacements)
    {
      RaiseShutdownFlag();
      visited := StopEverything(stopOk, now);
    }

    /** The first half of `_spawn_replacement`: nothing if the pool is shut down, otherwise one
        creation attempt whose failure is swallowed. */
    method BeginReplacement(o: CreateOutcome) returns (c: Option<Container>)
      requires Valid() && pendingReplacements > 0
      modifies this
      ensures Valid() && pendingReplacements == old(pendingReplacements) - 1
      ensures old(isShutdown) ==> c.None? && nextId == old(nextId)
      ensures !old(isShutdown) ==> (c.Some? <==> Creates(policy, image, o))
      ensures c.Some? ==> c.value == Container(old(nextId), ConfigFor(policy, image, o).value) && Untracked(c.value)
      ensures ready == old(ready) && active == old(active) && stopped == old(stopped)
      ensures isShutdown == old(isShutdown)
    {
      pendingReplacements := pendingReplacements - 1;
      if isShutdown {
        return None;
      }
      c := CreateContainer(o);
    }

    /** The lock-held second half of `_spawn_replacement`: the new container joins the ready list,
        unless the pool was shut down meanwhile, in which case it is stopped and not archived. */
    method FinishReplacement(c: Container)
      requires Valid() && Untracked(c)
      modifies this
      ensures Valid()
      ensures ready == if old(isShutdown) then old(ready) else old(ready) + [c]
      ensures active == old(active) && stopped == old(stopped) && isShutdown == old(isShutdown)
      ensures nextId == old(nextId) && pendingReplacements == old(pendingReplacements)
    {
      if !isShutdown {
        ready := ready + [c];
      }
    }

    /** `_spawn_replacement` run without interruption: exactly one new ready container when the
        pool is up and creation succeeds, no change otherwise; it never fails. */
    method SpawnReplacement(o: CreateOutcome)
      requires Valid() && pendingReplacements > 0
      modifies this
      ensures Valid() && pendingReplacements == old(pendingReplacements) - 1
      ensures !old(isShutdown) && Creates(policy, image, o) ==>
                ready == old(ready) + [Container(old(nextId), ConfigFor(policy, image, o).value)]
      ensures old(isShutdown) || !Creates(policy, image, o) ==> ready == old(ready)
      ensures active == old(active) && stopped == old(stopped) && isShutdown == old(isShutdown)
    {
      var c := BeginReplacement(o);
      if c.Some? {
        FinishReplacement(c.value);
      }
    }
  }

  /** The loop of `_cleanup_ready_containers`: each container in order is stopped and, if the
      stop succeeded, archived. */
  method StopAll(cs: seq<Container>, stopOk: Container -> bool, now: int) returns (moved: seq<Retired>)
    ensures moved == RetireAll(cs, stopOk, now)
  {
    moved := [];
    for i := 0 to |cs|
      invariant moved == RetireAll(cs[..i], stopOk, now)
    {
      RetireAllSnoc(cs[..i], cs[i], stopOk, now);
      assert cs[..i + 1] == cs[..i] + [cs[i]];
      if stopOk(cs[i]) {
        moved := moved + [Retired(cs[i], now)];
      }
    }
    assert cs[..|cs|] == cs;
  }

  /** The loop of `shutdown` over the bound sessions, in the map's iteration order: each
      container is stopped and, if the stop succeeded, archived; a failed stop does not end the
      loop. `visited` is the order the loop took: every bound container exactly once. */
  method StopEach(bound: map<string, Container>, stopOk: Container -> bool, now: int)
    returns (moved: seq<Retired>, ghost visited: seq<Container>)
    requires Injective(bound)
    ensures Distinct(visited) && forall c :: c in visited <==> c in bound.Values
    ensures moved == RetireAll(visited, stopOk, now)
  {
    var pending := bound;
    ghost var keys: seq<string> := [];
    moved := [];
    while pending != map[]
      invariant forall s | s in pending :: s in bound && pending[s] == bound[s]
      invariant forall s | s in bound :: s in pending || s in keys
      invariant forall s | s in keys :: s in bound && s !in pending
      invariant Distinct(keys)
      invariant moved == RetireAll(Lookup(bound, keys), stopOk, now)
      decreases |pending|
    {
      var s :| s in pending;
      var c := pending[s];
      RetireAllSnoc(Lookup(bound, keys), c, stopOk, now);
      LookupSnoc(bound, keys, s);
      DistinctSnoc(keys, s);
      if stopOk(c) {
        moved := moved + [Retired(c, now)];
      }
      keys := keys + [s];
      pending := pending - {s};
    }
    visited := Lookup(bound, keys);
    forall c | c in bound.Values ensures c in visited {
      var s :| s in bound && bound[s] == c;
      var j :| 0 <= j < |keys| && keys[j] == s;
      assert visited[j] == c;
    }
  }

  /** The values a sequence of keys looks up; distinct keys of an injective map give distinct
      values. */
  function Lookup(m: map<string, Container>, keys: seq<string>): (r: seq<Container>)
    requires forall k | k in keys :: k in m
    ensures |r| == |keys| && forall i | 0 <= i < |keys| :: r[i] == m[keys[i]]
    ensures Injective(m) && Distinct(keys) ==> Distinct(r)
  {
    seq(|keys|, i requires 0 <= i < |keys| => m[keys[i]])
  }

  lemma LookupSnoc(m: map<string, Container>, keys: seq<string>, k: string)
    requires forall j | j in keys :: j in m
    requires k in m
    ensures Lookup(m, keys + [k]) == Lookup(m, keys) + [m[k]]
  {
    var l, r := Lookup(m, keys + [k]), Lookup(m, keys) + [m[k]];
    assert |l| == |r|;
    forall i | 0 <= i < |l| ensures l[i] == r[i] {
      if i < |keys| { assert (keys + [k])[i] == keys[i]; }
    }
  }

  lemma DistinctSnoc<T>(s: seq<T>, x: T)
    requires Distinct(s) && x !in s
    ensures Distinct(s + [x])
  {
    var t := s + [x];
    forall i, j | 0 <= i < j < |t| ensures t[i] != t[j] {
      assert t[i] == s[i];
      if j == |s| { assert s[i] in s; } else { assert t[j] == s[j]; }
    }
  }

  /** Appending archive entries for untracked-by-the-archive containers keeps it duplicate-free. */
  lemma AppendRetired(s: seq<Retired>, t: seq<Retired>)
    requires DistinctRetired(s) && DistinctRetired(t)
    requires forall e | e in t :: !IsRetired(s, e.container)
    ensures DistinctRetired(s + t)
    ensures forall c :: IsRetired(s + t, c) <==> IsRetired(s, c) || IsRetired(t, c)
  {
    var u := s + t;
    forall i, j | 0 <= i < j < |u| ensures u[i].container != u[j].container {
      if i < |s| && j >= |s| {
        assert u[j] == t[j - |s|] && u[j] in t;
        assert u[i] == s[i];
      }
    }
    forall c ensures IsRetired(u, c) <==> IsRetired(s, c) || IsRetired(t, c) {
      if IsRetired(u, c) {
        var i :| 0 <= i < |u| && u[i].container == c;
        if i < |s| { assert s[i] == u[i]; } else { assert t[i - |s|] == u[i]; }
      }
      if IsRetired(s, c) {
        var i :| 0 <= i < |s| && s[i].container == c;
        assert u[i] == s[i];
      }
      if IsRetired(t, c) {
        var i :| 0 <= i < |t| && t[i].container == c;
        assert u[|s| + i] == t[i];
      }
    }
  }

  lemma {:induction false} RetireAllSnoc(cs: seq<Container>, c: Container, stopOk: Container -> bool, now: int)
    ensures RetireAll(cs + [c], stopOk, now) == RetireAll(cs, stopOk, now) + (if stopOk(c) then [Retired(c, now)] else [])
    decreases |cs|
  {
    if cs == [] {
      assert cs + [c] == [c];
      assert ([c])[1..] == [];
    } else {
      var head := if stopOk(cs[0]) then [Retired(cs[0], now)] else [];
      var tail := if stopOk(c) then [Retired(c, now)] else [];
      assert (cs + [c])[0] == cs[0] && (cs + [c])[1..] == cs[1..] + [c];
      assert RetireAll(cs + [c], stopOk, now) == head + RetireAll(cs[1..] + [c], stopOk, now);
      assert RetireAll(cs, stopOk, now) == head + RetireAll(cs[1..], stopOk, now);
      RetireAllSnoc(cs[1..], c, stopOk, now);
      assert head + (RetireAll(cs[1..], stopOk, now) + tail) == head + RetireAll(cs[1..], stopOk, now) + tail;
    }
  }

  lemma {:induction false} DistinctCard<T>(s: seq<T>)
    requires Distinct(s)
    ensures |set x | x in s| == |s|
    decreases |s|
  {
    if s != [] {
      var t, x := s[..|s| - 1], s[|s| - 1];
      assert s == t + [x];
      DistinctCard(t);
      assert (set y | y in s) == (set y | y in t) + {x};
      assert x !in (set y | y in t);
    }
  }

  lemma {:induction false} RetiredCard(s: seq<Retired>)
    requires DistinctRetired(s)
    ensures |set e | e in s :: e.container| == |s|
    decreases |s|
  {
    if s != [] {
      var t, x := s[..|s| - 1], s[|s| - 1];
      assert s == t + [x];
      RetiredCard(t);
      assert (set e | e in s :: e.container) == (set e | e in t :: e.container) + {x.container};
      assert x.container !in (set e | e in t :: e.container);
    }
  }

  lemma {:induction false} InjectiveCard(m: map<string, Container>)
    requires Injective(m)
    ensures |m.Values| == |m|
    decreases |m|
  {
    if m != map[] {
      var k :| k in m;
      var rest := m - {k};
      InjectiveCard(rest);
      forall v | v in m.Values ensures v in rest.Values + {m[k]} {
        var j :| j in m && m[j] == v;
        if j != k { assert rest[j] == v; }
      }
      forall v | v in rest.Values ensures v in m.Values && v != m[k] {
        var j :| j in rest && rest[j] == v;
        assert m[j] == v && j != k;
      }
      assert m.Values == rest.Values + {m[k]};
      assert m.Keys == rest.Keys + {k};
    }
  }

  /** The three collections together hold as many containers as their lengths add up to: under
      the ownership invariant no container is in two places or twice in one. */
  lemma StatsTotalCountsEachContainerOnce(p: ContainerPool)
    requires p.Valid()
    ensures |p.ready| + |p.active| + |p.stopped| == |p.Tracked()|
  {
    var a := set x | x in p.ready;
    var b := p.active.Values;
    var c := set e | e in p.stopped :: e.container;
    DistinctCard(p.ready);
    InjectiveCard(p.active);
    RetiredCard(p.stopped);
    assert a * b == {};
    assert (a + b) * c == {} by {
      forall x | x in c ensures x !in a + b {
        var e :| e in p.stopped && e.container == x;
        var i :| 0 <= i < |p.stopped| && p.stopped[i] == e;
        assert IsRetired(p.stopped, x);
      }
    }
  }

  const AlwaysStops: Container -> bool := c => true

  /** Initialization with every creation succeeding fills the ready list to the pool size. */
  method InitializeScenario(policy: Security.SecurityPolicy) returns (r: Outcome<PoolError>, stats: Stats)
    requires Security.IsValidMemoryLimit(policy.memoryLimit)
    ensures r == Pass && stats == Stats(2, 0, 0, 2)
  {
    var pool := new ContainerPool(2, "sandbox:latest", policy, 0);
    var ok := CreateOutcome("0b7c62a4-uuid", "20240101-000000", "2024-01-01T00:00:00", true, false);
    assert Creates(pool.policy, pool.image, ok);
    r := pool.Initialize([ok, ok], AlwaysStops, 0);
    stats := pool.GetStats();
  }

  /** Allocation takes the pre-warmed container and schedules one replacement. */
  method AllocateScenario(policy: Security.SecurityPolicy) returns (stats: Stats, pending: nat)
    requires Security.IsValidMemoryLimit(policy.memoryLimit)
    ensures stats == Stats(0, 1, 0, 1) && pending == 1
  {
    var pool := new ContainerPool(1, "sandbox:latest", policy, 0);
    var ok := CreateOutcome("0b7c62a4-uuid", "20240101-000000", "2024-01-01T00:00:00", true, false);
    assert Creates(pool.policy, pool.image, ok);
    var init := pool.Initialize([ok], AlwaysStops, 0);
    assert init.Pass? && |pool.ready| == 1 && pool.active == map[] && pool.stopped == [];
    var a := pool.Allocate("session-a", ok);
    assert a.Ok? && pool.ready == [] && pool.active == map["session-a" := a.value] && pool.stopped == [];
    stats, pending := pool.GetStats(), pool.pendingReplacements;
  }

  /** Releasing a session twice archives its container once. */
  method ReleaseTwiceScenario(policy: Security.SecurityPolicy) returns (active: nat, stopped: nat)
    requires Security.IsValidMemoryLimit(policy.memoryLimit)
    ensures active == 0 && stopped == 1
  {
    var pool := new ContainerPool(1, "sandbox:latest", policy, 0);
    var ok := CreateOutcome("0b7c62a4-uuid", "20240101-000000", "2024-01-01T00:00:00", true, false);
    var a := pool.Allocate("session-a", ok);
    pool.Release("session-a", true, 1);
    pool.Release("session-a", true, 2);
    active, stopped := |pool.active|, |pool.stopped|;
  }

  /** One failed creation fails initialization and leaves the ready list empty. */
  method InitializeFailureScenario(policy: Security.SecurityPolicy) returns (r: Outcome<PoolError>, ready: seq<Container>)
    requires Security.IsValidMemoryLimit(policy.memoryLimit)
    ensures r == Fail(InitializationFailed) && ready == []
  {
    var pool := new ContainerPool(2, "sandbox:latest", policy, 0);
    var ok := CreateOutcome("0b7c62a4-uuid", "20240101-000000", "2024-01-01T00:00:00", true, false);
    var bad := CreateOutcome("0b7c62a4-uuid", "20240101-000000", "2024-01-01T00:00:00", false, false);
    assert !Creates(pool.policy, pool.image, [ok, bad][1]);
    r := pool.Initialize([ok, bad], AlwaysStops, 0);
    ready := pool.ready;
  }

  /** With the ready list empty, two sessions get two distinct containers created on demand. */
  method OnDemandScenario(policy: Security.SecurityPolicy) returns (first: Container, second: Container)
    requires Security.IsValidMemoryLimit(policy.memoryLimit)
    ensures first != second
  {
    var pool := new ContainerPool(1, "sandbox:latest", policy, 0);
    var ok := CreateOutcome("0b7c62a4-uuid", "20240101-000000", "2024-01-01T00:00:00", true, false);
    assert Creates(pool.policy, pool.image, ok);
    var a := pool.Allocate("session-a", ok);
    var b := pool.Allocate("session-b", ok);
    first, second := a.value, b.value;
  }

  /** A replacement refills the ready list while the pool is up. */
  method ReplacementScenario(policy: Security.SecurityPolicy) returns (ready: nat)
    requires Security.IsValidMemoryLimit(policy.memoryLimit)
    ensures ready == 1
  {
    var pool := new ContainerPool(1, "sandbox:latest", policy, 0);
    var ok := CreateOutcome("0b7c62a4-uuid", "20240101-000000", "2024-01-01T00:00:00", true, false);
    var a := pool.Allocate("session-a", ok);
    pool.SpawnReplacement(ok);
    ready := |pool.ready|;
  }

  /** Shutdown unbinds every session, and a replacement that starts after it adds nothing. */
  method ShutdownScenario(policy: Security.SecurityPolicy) returns (ready: nat, active: nat)
    requires Security.IsValidMemoryLimit(policy.memoryLimit)
    ensures ready == 0 && active == 0
  {
    var pool := new ContainerPool(1, "sandbox:latest", policy, 0);
    var ok := CreateOutcome("0b7c62a4-uuid", "20240101-000000", "2024-01-01T00:00:00", true, false);
    var a := pool.Allocate("session-a", ok);
    ghost var order := pool.Shutdown(AlwaysStops, 5);
    pool.SpawnReplacement(ok);
    ready, active := |pool.ready|, |pool.active|;
  }
}

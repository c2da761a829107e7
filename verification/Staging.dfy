/** What staging gives a claim: which buffer, how large, on which GPU, and whether its descriptor is served. */
module Staging {
  import opened Arithmetic
  import opened Text
  import opened Keys
  import opened DriverState
  import opened DriverInvariants
  import opened DriverAccounts
  import opened Driver
  import R = Relocation

  predicate Sharded(req: StageRequest) {
    req.shardIndex >= 0 && req.totalShards > 0
  }

  /** The GPU of a staging: shards take turns on the c devices of the node; anything else, or with no device count to
      read, is on GPU 0. */
  predicate OnItsGpu(req: StageRequest, answer: StageAnswer, gpu: int) {
    if Sharded(req) && answer.gpuCount.Some? && answer.gpuCount.value > 0
    then 0 <= gpu < answer.gpuCount.value && (req.shardIndex - gpu) % answer.gpuCount.value == 0
    else gpu == 0
  }

  /** The id is the buffer's, or names the shard. */
  predicate NamedFor(id: string, req: StageRequest) {
    id == if Sharded(req) then req.buffer + "__shard_" + Show(req.shardIndex) else req.buffer
  }

  /** The size asked for, or 10 GiB. */
  predicate SizedFor(size: nat, req: StageRequest) {
    if req.size == 0 then size == 10737418240 else size == req.size
  }

  /** The claim is recorded, and all entries but `id`'s are as before. */
  predicate ClaimedOnly(s: State, t: State, claim: string, id: string) {
    t.gran == s.gran && t.claims == s.claims[claim := id] && t.table - {id} == s.table - {id}
  }

  /** The remainder is the one device number that differs from i by a multiple of c. */
  lemma RemainderIff(i: nat, c: nat, gpu: int)
    requires c > 0
    ensures gpu == i % c <==> 0 <= gpu < c && (i - gpu) % c == 0
  {
    if gpu == i % c {
      assert i - gpu == (i / c) * c;
      DivModUnique(i - gpu, i / c, 0, c);
    } else if 0 <= gpu < c && (i - gpu) % c == 0 {
      var q := (i - gpu) / c;
      assert i == q * c + gpu;
      hide *;
      DivModUnique(i, q, gpu, c);
      assert false;
    }
  }

  lemma StagedGpuIs(req: StageRequest, answer: StageAnswer)
    ensures OnItsGpu(req, answer, StagedGpu(req, answer)) && NamedFor(Id(req), req) && SizedFor(StagedSize(req), req)
  {
    if Sharded(req) && answer.gpuCount.Some? && answer.gpuCount.value > 0 {
      RemainderIff(req.shardIndex, answer.gpuCount.value, req.shardIndex % answer.gpuCount.value);
    }
  }

  /** Staging a buffer that is not tracked, with memory: the one new entry has the memory that was handed out, on the
      GPU of its shard, with one reference; a worker needs a copy exactly on any other GPU. */
  lemma StagedAnew(s: State, req: StageRequest, answer: StageAnswer, id: string)
    requires Sound(s) && Tree(s) && Possible(s, Stage(req, answer)) && WellNamed(Stage(req, answer))
    requires NamedFor(id, req) && id !in s.table && answer.allocation.Allocated?
    ensures var t, a := Next(s, Stage(req, answer)), answer.allocation.alloc;
            && ClaimedOnly(s, t, req.claim, id) && id in t.table
            && t.table[id].handle == a.handle && t.table[id].fd == a.fd && t.table[id].refCount == Some(1)
            && SizedFor(t.table[id].size, req) && OnItsGpu(req, answer, t.table[id].gpu)
            && t.memory == s.memory[a.handle := Memory(t.table[id].gpu, a.bytes)] && t.fds == s.fds[a.fd := a.handle]
            && t.servers == (if answer.sourceOk then s.servers + {id} else s.servers)
            && (StageOk(s, req, answer) <==> answer.sourceOk)
            && forall gpu :: NeedsCopy(t, id, gpu) <==> gpu != t.table[id].gpu
  {
    StagedGpuIs(req, answer);
    IdIsStaged(req);
    var t := Next(s, Stage(req, answer));
    forall gpu | RelocationKey(id, gpu) in s.table
      ensures false
    {
      R.CopyAtKey(s, id, gpu);
    }
    forall gpu
      ensures RelocationKey(id, gpu) !in t.table
    {
      RelocationKeyUnique(id, gpu, id, 0);
    }
    hide Sound, Tree, OnItsGpu, SizedFor, StagedGpu, StagedSize, RelocationKey, IsStagedId;
  }

  /** Staging a tracked buffer adds a reference and the claim, and nothing else; it succeeds. */
  lemma StagedAgain(s: State, req: StageRequest, answer: StageAnswer, id: string)
    requires Sound(s) && Tree(s) && Possible(s, Stage(req, answer)) && WellNamed(Stage(req, answer))
    requires NamedFor(id, req) && id in s.table
    ensures var t := Next(s, Stage(req, answer));
            && ClaimedOnly(s, t, req.claim, id) && id in t.table && StageOk(s, req, answer)
            && RefCount(t, id) == RefCount(s, id) + 1
            && t.table[id] == s.table[id].(refCount := t.table[id].refCount)
            && t.memory == s.memory && t.fds == s.fds && t.servers == s.servers
  {
    StagedGpuIs(req, answer);
    IdIsStaged(req);
    StagedIsCounted(s, id);
  }

  /** Staging without memory records the claim all the same and fails; an attempt that raised half-way leaves its
      memory, on the GPU of the shard. */
  lemma StagedInVain(s: State, req: StageRequest, answer: StageAnswer, id: string)
    requires Sound(s) && Possible(s, Stage(req, answer))
    requires NamedFor(id, req) && id !in s.table && !answer.allocation.Allocated?
    ensures var t := Next(s, Stage(req, answer));
            && ClaimedOnly(s, t, req.claim, id) && id !in t.table && t.servers == s.servers
            && !StageOk(s, req, answer)
            && match answer.allocation
               case Spoiled(spent) =>
                 && spent.handle in t.memory && OnItsGpu(req, answer, t.memory[spent.handle].gpu)
                 && t.memory - {spent.handle} == s.memory
                 && t.fds == (if spent.fd.Some? then s.fds[spent.fd.value := spent.handle] else s.fds)
               case _ => t.memory == s.memory && t.fds == s.fds
  {
    StagedGpuIs(req, answer);
    hide Sound, OnItsGpu, StagedGpu, StagedSize;
  }

  // ----- What unstaging takes away -----

  /** The entry goes when `id` is released: it is the buffer, or a copy of it on another GPU. */
  ghost predicate GoesWith(s: State, k: string, id: string) {
    k in s.table && (k == id || IsCopyOf(s, k, id))
  }

  ghost predicate OwnsHandle(s: State, id: string, h: nat) {
    exists k :: GoesWith(s, k, id) && s.table[k].handle == h
  }

  ghost predicate OwnsFd(s: State, id: string, f: nat) {
    exists k :: GoesWith(s, k, id) && s.table[k].fd == f
  }

  /** The buffer and its copies are gone from the table, their descriptors are closed, and their memory is freed as far
      as CUDA frees it; everything else is as before. */
  ghost predicate ReleasedOnly(s: State, t: State, id: string, unmapped: set<nat>) {
    && (forall k :: k in t.table <==> k in s.table && !GoesWith(s, k, id))
    && (forall k :: k in t.table ==> k in s.table && t.table[k] == s.table[k])
    && (forall h :: h in t.memory <==> h in s.memory && !(OwnsHandle(s, id, h) && h in unmapped))
    && (forall h :: h in t.memory ==> h in s.memory && t.memory[h] == s.memory[h])
    && (forall f :: f in t.fds <==> f in s.fds && !OwnsFd(s, id, f))
    && (forall f :: f in t.fds ==> f in s.fds && t.fds[f] == s.fds[f])
  }

  /** Unstaging forgets the claim and gives its one reference back; the last reference releases the buffer and its own
      copies. A claim that is not known, or whose buffer is not tracked, changes nothing else. */
  lemma UnstagedExactly(s: State, claim: string, unmapped: set<nat>)
    requires Sound(s) && Tree(s)
    ensures var t := Next(s, Unstage(claim, unmapped));
            && t.claims == s.claims - {claim} && t.servers == s.servers && t.gran == s.gran
            && if claim in s.claims && s.claims[claim] in s.table && RefCount(s, s.claims[claim]) == 1
               then ReleasedOnly(s, t, s.claims[claim], unmapped)
               else && t.memory == s.memory && t.fds == s.fds && t.table.Keys == s.table.Keys
                    && (forall k :: k in s.table ==> t.table[k] == s.table[k].(refCount := t.table[k].refCount))
                    && (forall k :: k in s.table && !(claim in s.claims && k == s.claims[claim]) ==>
                          t.table[k] == s.table[k])
                    && (claim in s.claims && s.claims[claim] in s.table ==>
                          RefCount(t, s.claims[claim]) == RefCount(s, s.claims[claim]) - 1)
  {
    if claim in s.claims && s.claims[claim] in s.table {
      var id := s.claims[claim];
      StagedIsCounted(s, id);
      if RefCount(s, id) == 1 {
        ReleasedByLast(s, claim, unmapped, id);
      }
    }
    hide Sound, Tree, ReleasedOnly, Discard, Related;
  }

  lemma ReleasedByLast(s: State, claim: string, unmapped: set<nat>, id: string)
    requires Sound(s) && Tree(s) && claim in s.claims && s.claims[claim] == id && RefCount(s, id) == 1
    ensures ReleasedOnly(s, UnstageNext(s, claim, unmapped), id, unmapped)
    ensures UnstageNext(s, claim, unmapped).claims == s.claims - {claim}
    ensures UnstageNext(s, claim, unmapped).servers == s.servers && UnstageNext(s, claim, unmapped).gran == s.gran
  {
    RelatedExactly(s, id);
    var keys := Related(s, id);
    assert forall k :: k in keys <==> GoesWith(s, k, id);
    assert forall h :: h in HandlesOf(s, keys) <==> OwnsHandle(s, id, h);
    assert forall f :: f in FdsOf(s, keys) <==> OwnsFd(s, id, f);
    hide Sound, Tree, Related, GoesWith, OwnsHandle, OwnsFd, HandlesOf, FdsOf;
  }

  // ----- Shards take turns on the GPUs, over every run -----

  /** Every stage call of the node sees c devices. */
  predicate SeesDevices(e: Event, c: nat) {
    e.Stage? ==> e.answer.gpuCount == Some(c)
  }

  predicate IsHome(key: Key, c: nat, gpu: int)
    requires c > 0
  {
    if key.shard.Some? then gpu == key.shard.value % c else gpu == 0
  }

  /** Every staged buffer is on the GPU of its shard. */
  ghost predicate Spread(s: State, c: nat)
    requires c > 0
  {
    forall key: Key :: key.Valid() && key.gpu.None? && Render(key) in s.table ==>
      IsHome(key, c, s.table[Render(key)].gpu)
  }

  lemma SpreadStep(s: State, e: Event, c: nat)
    requires Sound(s) && Tree(s) && Possible(s, e) && WellNamed(e) && c > 0 && Spread(s, c) && SeesDevices(e, c)
    ensures Spread(Next(s, e), c)
  {
    forall key: Key | key.Valid() && key.gpu.None? && Render(key) in Next(s, e).table
      ensures IsHome(key, c, Next(s, e).table[Render(key)].gpu)
    {
      if Render(key) in s.table {
        SameGpu(s, e, Render(key));
      } else {
        OnlyStagingAdds(s, e, key);
        StagedAnew(s, e.req, e.answer, Render(key));
        if Sharded(e.req) {
          RemainderIff(e.req.shardIndex, c, Next(s, e).table[Render(key)].gpu);
        }
        hide Next, Sound, Tree, Possible, Spread, NeedsCopy, ClaimedOnly;
      }
    }
  }

  /** No step moves an entry to another GPU. */
  lemma SameGpu(s: State, e: Event, k: string)
    requires Sound(s) && Possible(s, e) && k in s.table && k in Next(s, e).table
    ensures Next(s, e).table[k].gpu == s.table[k].gpu
  {}

  /** A new entry under a staged id comes from staging it. */
  lemma OnlyStagingAdds(s: State, e: Event, key: Key)
    requires Sound(s) && Tree(s) && Possible(s, e) && WellNamed(e) && key.Valid() && key.gpu.None?
    requires Render(key) !in s.table && Render(key) in Next(s, e).table
    ensures e.Stage? && Id(e.req) == Render(key) && e.answer.allocation.Allocated?
    ensures key == StagedKey(e.req.buffer, e.req.shardIndex, e.req.totalShards) && NamedFor(Render(key), e.req)
  {
    if e.RequestFd? {
      assert IsStagedId(Render(key));
      StagedServer(s, e);
      RelocationKeyUnique(e.id, e.gpu, Render(key), 0);
      assert false;
    } else if e.Stage? {
      StagedGpuIs(e.req, e.answer);
      RenderStaged(e.req.buffer, e.req.shardIndex, e.req.totalShards);
      RenderInjective(key, StagedKey(e.req.buffer, e.req.shardIndex, e.req.totalShards));
    }
  }

  lemma StagedServer(s: State, e: Event)
    requires Tree(s) && Possible(s, e) && e.RequestFd?
    ensures IsStagedId(e.id)
  {}

  /** On a node with c devices, shard i of a buffer is on GPU i % c, and a whole buffer on GPU 0, in every state that
      any run reaches. */
  lemma ShardsSpread(gran: nat, es: seq<Event>, c: nat)
    requires gran > 0 && c > 0 && Sound(Empty(gran)) && PossibleRun(Empty(gran), es)
    requires Throughout(Empty(gran), es, (t, e) => SeesDevices(e, c))
    ensures Spread(Run(Empty(gran), es), c)
  {
    EmptyIsSound(gran);
    SpreadRun(Empty(gran), es, c);
  }

  lemma {:induction false} SpreadRun(s: State, es: seq<Event>, c: nat)
    requires Sound(s) && Tree(s) && PossibleRun(s, es) && c > 0 && Spread(s, c)
    requires Throughout(s, es, (t, e) => SeesDevices(e, c))
    ensures Spread(Run(s, es), c)
    decreases es
  {
    if es != [] {
      SoundStep(s, es[0]);
      TreeStep(s, es[0]);
      SpreadStep(s, es[0], c);
      SpreadRun(Next(s, es[0]), es[1..], c);
    }
  }

  /** So two shards of a buffer share a GPU exactly when their indices agree modulo c, and a worker maps a shard itself,
      and no copy of it, exactly when its GPU is that of the shard. */
  lemma ShardsShareGpuIff(s: State, c: nat, buffer: string, i: nat, j: nat, total: nat, gpu: int)
    requires c > 0 && Spread(s, c) && Free('_', buffer) && total > 0
    requires EffectiveId(buffer, i, total) in s.table && EffectiveId(buffer, j, total) in s.table
    ensures var a, b := EffectiveId(buffer, i, total), EffectiveId(buffer, j, total);
            && (s.table[a].gpu == s.table[b].gpu <==> i % c == j % c)
            && (R.ServingKey(s, a, gpu) == a <==> gpu == i % c)
  {
    RenderStaged(buffer, i, total);
    RenderStaged(buffer, j, total);
    var k, k' := StagedKey(buffer, i, total), StagedKey(buffer, j, total);
    assert k.Valid() && k'.Valid() && Render(k) == EffectiveId(buffer, i, total);
    assert IsHome(k, c, s.table[Render(k)].gpu) && IsHome(k', c, s.table[Render(k')].gpu);
    assert |RelocationKey(EffectiveId(buffer, i, total), gpu)| > |EffectiveId(buffer, i, total)|;
  }

  // ----- Buffers that nobody serves -----

  /** The step opens the descriptor server of `id`: it gets memory for it and finds its source. */
  predicate Opens(s: State, e: Event, id: string) {
    e.Stage? && Id(e.req) == id && id !in s.table && e.answer.allocation.Allocated? && e.answer.sourceOk
  }

  /** Over every run, a buffer's descriptors have been served by nobody exactly when no step has both got memory for it
      and found its source: a staging that fails for its source leaves a buffer that later stagings count as theirs. */
  lemma UnservedIff(gran: nat, es: seq<Event>, id: string)
    requires gran > 0 && Sound(Empty(gran)) && PossibleRun(Empty(gran), es)
    ensures id !in Run(Empty(gran), es).servers <==> Throughout(Empty(gran), es, (t, e) => !Opens(t, e, id))
  {
    UnservedRun(Empty(gran), es, id);
  }

  lemma {:induction false} UnservedRun(s: State, es: seq<Event>, id: string)
    requires Sound(s) && PossibleRun(s, es)
    ensures id in s.servers ==> id in Run(s, es).servers
    ensures id !in s.servers ==> (id !in Run(s, es).servers <==> Throughout(s, es, (t, e) => !Opens(t, e, id)))
    decreases es
  {
    if es != [] {
      SoundStep(s, es[0]);
      ServersStep(s, es[0], id);
      UnservedRun(Next(s, es[0]), es[1..], id);
    }
  }

  lemma ServersStep(s: State, e: Event, id: string)
    requires Sound(s) && Possible(s, e)
    ensures id in Next(s, e).servers <==> id in s.servers || Opens(s, e, id)
  {}

  /** The failing input: a first staging gets memory and does not find its source, and fails; the second one succeeds,
      and still nobody serves the buffer. */
  lemma OkWithoutServer(s: State, r1: StageRequest, a1: StageAnswer, r2: StageRequest, a2: StageAnswer)
    requires Id(r1) == Id(r2) && Id(r1) !in s.table && Id(r1) !in s.servers
    requires a1.allocation.Allocated? && !a1.sourceOk
    ensures !StageOk(s, r1, a1) && StageOk(StageNext(s, r1, a1), r2, a2)
    ensures Id(r2) !in StageNext(StageNext(s, r1, a1), r2, a2).servers
  {}
}

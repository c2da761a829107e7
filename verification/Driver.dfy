/** The driver's handlers as they update the global maps. Every CUDA free and every close names an
    allocation that is live at that moment: the preconditions of `FreeAllocation` and `CloseFd`. */
module Driver {
  import opened Arithmetic
  import opened Text
  import opened Keys
  import opened DriverState
  import opened DriverInvariants

  /** Staging succeeds on a counted buffer, or with memory and a readable source. */
  predicate StageOk(s: State, req: StageRequest, answer: StageAnswer) {
    if Id(req) in s.table then s.table[Id(req)].refCount.Some? else answer.allocation.Allocated? && answer.sourceOk
  }

  class Driver {
    const gran: nat
    var claims: map<string, string>
    var table: map<string, Entry>
    var servers: set<string>
    var memory: map<nat, Memory>
    var fds: map<nat, nat>

    ghost function Abstract(): State
      reads this
    {
      State(gran, claims, table, servers, memory, fds)
    }

    ghost predicate Valid()
      reads this
    {
      Sound(Abstract())
    }

    constructor (gran: nat)
      requires gran > 0
      ensures Valid() && Abstract() == State(gran, map[], map[], {}, map[], map[])
    {
      this.gran := gran;
      claims, table, servers, memory, fds := map[], map[], {}, map[], map[];
    }

    method NodeStageWeight(req: StageRequest, answer: StageAnswer) returns (ok: bool)
      requires Valid() && Possible(Abstract(), Stage(req, answer))
      modifies this
      ensures Valid() && Abstract() == StageNext(old(Abstract()), req, answer)
      ensures ok <==> StageOk(old(Abstract()), req, answer)
    {
      SoundStage(Abstract(), req, answer);
      var isSharded := req.shardIndex >= 0 && req.totalShards > 0;
      var id := req.buffer;
      if isSharded {
        id := req.buffer + SHARD_SEPARATOR + Decimal(req.shardIndex);
      }
      var size := req.size;
      if size == 0 {
        size := DEFAULT_SIZE;
      }
      var gpu := 0;
      if isSharded && answer.gpuCount.Some? && answer.gpuCount.value != 0 {
        gpu := req.shardIndex % answer.gpuCount.value;
      }
      ok := StageUnderId(id, req.claim, size, gpu, answer);
    }

    /** Record the claim, then count a reference to the staged buffer or allocate it. */
    method StageUnderId(id: string, claim: string, size: nat, gpu: int, answer: StageAnswer) returns (ok: bool)
      modifies this
      ensures Abstract() == StageUnder(old(Abstract()), id, claim, size, gpu, answer)
      ensures ok <==> if id in old(table) then old(table)[id].refCount.Some?
                      else answer.allocation.Allocated? && answer.sourceOk
    {
      claims := claims[claim := id];
      if id in table {
        var info := table[id];
        if info.refCount.None? {
          return false;
        }
        table := table[id := info.(refCount := Some(info.refCount.value + 1))];
        return true;
      }
      if answer.allocation.Spoiled? {
        Leave(answer.allocation.spent, gpu);
      }
      if !answer.allocation.Allocated? {
        return false;
      }
      var a := answer.allocation.alloc;
      memory := memory[a.handle := Memory(gpu, a.bytes)];
      fds := fds[a.fd := a.handle];
      table := table[id := Entry(a.handle, a.fd, size, gpu, Some(1))];
      if !answer.sourceOk {
        return false;
      }
      servers := servers + {id};
      return true;
    }

    /** An attempt that raises after the memory was created: nothing frees or closes what it got. */
    method Leave(spent: Spent, gpu: int)
      modifies `memory, `fds
      ensures Abstract() == Littered(old(Abstract()), gpu, spent)
    {
      memory := memory[spent.handle := Memory(gpu, spent.bytes)];
      if spent.fd.Some? {
        fds := fds[spent.fd.value := spent.handle];
      }
    }

    /** `CudaAllocator.free`: the handle goes unless a CUDA call fails, which is only logged. */
    method FreeAllocation(handle: nat, unmapped: set<nat>)
      requires handle in memory
      modifies `memory
      ensures memory == old(memory) - ({handle} * unmapped)
    {
      if handle in unmapped {
        memory := memory - {handle};
      }
    }

    method CloseFd(fd: nat)
      requires fd in fds
      modifies `fds
      ensures fds == old(fds) - {fd}
    {
      fds := fds - {fd};
    }

    method NodeUnstageWeight(claim: string, unmapped: set<nat>) returns (ok: bool)
      requires Valid()
      modifies this
      ensures Valid() && Abstract() == UnstageNext(old(Abstract()), claim, unmapped)
      ensures ok <==> claim in old(claims) && old(claims)[claim] in old(table)
                      ==> old(table)[old(claims)[claim]].refCount.Some?
    {
      ghost var s := Abstract();
      SoundUnstage(s, claim, unmapped);
      if claim !in claims {
        return true;
      }
      var id := claims[claim];
      claims := claims - {claim};
      if id !in table {
        return true;
      }
      if table[id].refCount.None? {
        return false;
      }
      AllBacked(s, Related(s, id));
      DropReference(id, unmapped);
      return true;
    }

    /** Give one reference back; the last one releases the buffer and its relocated copies. */
    method DropReference(id: string, unmapped: set<nat>)
      requires id in table && table[id].refCount.Some?
      requires Freeable(table, memory, fds, Related(Abstract(), id))
      modifies `table, `memory, `fds
      ensures var s, e := old(Abstract()), old(table)[id];
              Abstract() == if e.refCount.value > 1
                            then s.(table := s.table[id := e.(refCount := Some(e.refCount.value - 1))])
                            else Discard(s, Related(s, id), unmapped)
    {
      ghost var s := Abstract();
      var info := table[id];
      var n := info.refCount.value - 1;
      table := table[id := info.(refCount := Some(n))];
      if n <= 0 {
        RelatedAfterDecrement(s, id, table[id]);
        hide Related, HandlesIn, FdsIn, HandlesOf, FdsOf, Freeable;
        var relocated := set k | k in table && id + GPU_SEPARATOR <= k;
        ReleaseAll(id, relocated, unmapped);
      }
    }

    /** The decremented count changes nothing of what a release takes. */
    static lemma RelatedAfterDecrement(s: State, id: string, e: Entry)
      requires id in s.table && e.handle == s.table[id].handle && e.fd == s.table[id].fd
      requires Freeable(s.table, s.memory, s.fds, Related(s, id))
      ensures var t, keys := s.table[id := e], Related(s, id);
              && keys <= t.Keys && keys <= s.table.Keys && {id} + (set k | k in t && id + GPU_SEPARATOR <= k) == keys
              && Freeable(t, s.memory, s.fds, keys) && t - keys == s.table - keys
              && HandlesIn(t, keys) == HandlesOf(s, keys) && FdsIn(t, keys) == FdsOf(s, keys)
    {}

    static ghost function HandlesIn(t: map<string, Entry>, keys: set<string>): set<nat>
      requires keys <= t.Keys
    {
      set k | k in keys :: t[k].handle
    }

    static ghost function FdsIn(t: map<string, Entry>, keys: set<string>): set<nat>
      requires keys <= t.Keys
    {
      set k | k in keys :: t[k].fd
    }

    /** What a release needs: each of the keys has a live handle and an open descriptor of its own. */
    static ghost predicate Freeable(t: map<string, Entry>, m: map<nat, Memory>, f: map<nat, nat>, keys: set<string>) {
      && keys <= t.Keys
      && (forall k :: k in keys ==> t[k].handle in m && t[k].fd in f)
      && (forall k, k' :: k in keys && k' in keys && k != k' ==> t[k].handle != t[k'].handle && t[k].fd != t[k'].fd)
    }

    static lemma AllBacked(s: State, keys: set<string>)
      requires Sound(s) && keys <= s.table.Keys
      ensures Freeable(s.table, s.memory, s.fds, keys)
    {
      assert forall k :: k in keys ==> Backed(s, s.table[k]);
    }

    /** `done` of the keys are released and `left` are not; `t0`, `m0` and `f0` are the maps as they were. */
    static ghost predicate Releasing(t0: map<string, Entry>, m0: map<nat, Memory>, f0: map<nat, nat>, id: string,
                                     unmapped: set<nat>, done: set<string>, left: set<string>,
                                     t: map<string, Entry>, m: map<nat, Memory>, f: map<nat, nat>) {
      && done <= t0.Keys && done !! left && Freeable(t0, m, f, left)
      && t == t0 - (done - {id}) && m == m0 - (HandlesIn(t0, done) * unmapped) && f == f0 - FdsIn(t0, done)
    }

    static lemma OneMoreReleased(t0: map<string, Entry>, m0: map<nat, Memory>, f0: map<nat, nat>, id: string,
                                 unmapped: set<nat>, done: set<string>, left: set<string>,
                                 t: map<string, Entry>, m: map<nat, Memory>, f: map<nat, nat>, k: string)
      requires Releasing(t0, m0, f0, id, unmapped, done, left, t, m, f) && k in left
      ensures k in t && k in t0 && t[k] == t0[k] && t[k].handle in m && t[k].fd in f
      ensures Releasing(t0, m0, f0, id, unmapped, done + {k}, left - {k},
                        if k != id then t - {k} else t, m - ({t0[k].handle} * unmapped), f - {t0[k].fd})
    {
      OneMore(t0, done, k);
    }

    static lemma OneMore(t: map<string, Entry>, done: set<string>, k: string)
      requires done <= t.Keys && k in t
      ensures HandlesIn(t, done + {k}) == HandlesIn(t, done) + {t[k].handle}
      ensures FdsIn(t, done + {k}) == FdsIn(t, done) + {t[k].fd}
    {}

    /** Frees, closes and untracks a buffer and its relocated copies, one after the other. */
    method ReleaseAll(id: string, relocated: set<string>, unmapped: set<nat>)
      requires Freeable(table, memory, fds, {id} + relocated)
      modifies `table, `memory, `fds
      ensures table == old(table) - ({id} + relocated)
      ensures memory == old(memory) - (HandlesIn(old(table), {id} + relocated) * unmapped)
      ensures fds == old(fds) - FdsIn(old(table), {id} + relocated)
    {
      var allToFree := {id} + relocated;
      ghost var t0, m0, f0 := table, memory, fds;
      ghost var done: set<string> := {};
      while allToFree != {}
        invariant done + allToFree == {id} + relocated
        invariant Releasing(t0, m0, f0, id, unmapped, done, allToFree, table, memory, fds)
        decreases allToFree
      {
        hide Releasing, Freeable;
        var k :| k in allToFree;
        OneMoreReleased(t0, m0, f0, id, unmapped, done, allToFree, table, memory, fds, k);
        var item := table[k];
        FreeAllocation(item.handle, unmapped);
        CloseFd(item.fd);
        if k != id {
          table := table - {k};
        }
        allToFree, done := allToFree - {k}, done + {k};
      }
      assert done == {id} + relocated;
      table := table - {id};
    }

    /** One connection to the FD server thread of `id`. */
    method PassFd(id: string, targetGpu: int, answer: Allocation) returns (reply: Option<nat>)
      requires Valid() && Possible(Abstract(), RequestFd(id, targetGpu, answer))
      modifies this
      ensures Valid() && Abstract() == FdNext(old(Abstract()), id, targetGpu, answer)
      ensures reply == FdReply(old(Abstract()), id, targetGpu, answer)
    {
      SoundFd(Abstract(), id, targetGpu, answer);
      if id !in table {
        return None;
      }
      var info := table[id];
      var fdToSend := info.fd;
      if targetGpu != info.gpu {
        var relocateKey := id + GPU_SEPARATOR + Show(targetGpu);
        if relocateKey in table {
          fdToSend := table[relocateKey].fd;
        } else {
          assert Backed(Abstract(), info);
          RoundUpBounds(info.size, gran);
          match answer {
            case NoMemory =>
              return None;
            case Spoiled(spent) =>
              Leave(spent, targetGpu);
              return None;
            case Allocated(a) =>
              var copied := HalfCopy(memory[info.handle].bytes, a.bytes, info.size);
              memory := memory[a.handle := Memory(targetGpu, copied)];
              fds := fds[a.fd := a.handle];
              table := table[relocateKey := Entry(a.handle, a.fd, info.size, targetGpu, None)];
              fdToSend := a.fd;
          }
        }
      }
      return Some(fdToSend);
    }
  }
}

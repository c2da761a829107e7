/** What every step and every run of the driver's buffer table keeps. */
module DriverInvariants {
  import opened Arithmetic
  import opened Text
  import opened Keys
  import opened DriverState

  // ----- No allocation is lost, shared or used after its free -----

  lemma SoundStep(s: State, e: Event)
    requires Sound(s) && Possible(s, e)
    ensures Sound(Next(s, e))
  {
    match e
    case Stage(req, answer) => SoundStage(s, req, answer);
    case Unstage(claim, unmapped) => SoundUnstage(s, claim, unmapped);
    case RequestFd(id, gpu, answer) => SoundFd(s, id, gpu, answer);
    case Overwrite(id, bytes) => SoundOverwrite(s, id, bytes);
  }

  lemma SoundTrack(s: State, k: string, e: Entry, bytes: seq<Byte>)
    requires Sound(s) && k !in s.table
    requires e.handle !in s.memory && e.fd !in s.fds && |bytes| == RoundUp(e.size, s.gran)
    ensures Sound(Track(s, k, e, bytes))
  {
    var t := Track(s, k, e, bytes);
    forall k' | k' in s.table
      ensures Backed(t, s.table[k']) && s.table[k'].handle != e.handle
    {
      assert Backed(s, s.table[k']);
    }
  }

  lemma SoundLittered(s: State, gpu: int, spent: Spent)
    requires Sound(s) && spent.handle !in s.memory && (spent.fd.Some? ==> spent.fd.value !in s.fds)
    ensures Sound(Littered(s, gpu, spent))
  {
    assert forall k :: k in s.table ==> Backed(s, s.table[k]);
  }

  lemma SoundStage(s: State, req: StageRequest, answer: StageAnswer)
    requires Sound(s) && Possible(s, Stage(req, answer))
    ensures Sound(StageNext(s, req, answer))
  {
    var id := Id(req);
    if id in s.table {
      assert forall k :: k in s.table ==> Backed(s, s.table[k]);
    } else if answer.allocation.Spoiled? {
      SoundLittered(s.(claims := s.claims[req.claim := id]), StagedGpu(req, answer), answer.allocation.spent);
    } else if answer.allocation.Allocated? {
      var a := answer.allocation.alloc;
      SoundTrack(s.(claims := s.claims[req.claim := id]), id,
                 Entry(a.handle, a.fd, StagedSize(req), StagedGpu(req, answer), Some(1)), a.bytes);
    }
  }

  lemma SoundFd(s: State, id: string, gpu: int, answer: Allocation)
    requires Sound(s) && Possible(s, RequestFd(id, gpu, answer))
    ensures Sound(FdNext(s, id, gpu, answer))
  {
    if NeedsCopy(s, id, gpu) {
      var e := s.table[id];
      assert Backed(s, e);
      RoundUpBounds(e.size, s.gran);
      match answer
      case NoMemory =>
      case Spoiled(spent) => SoundLittered(s, gpu, spent);
      case Allocated(a) =>
        SoundTrack(s, RelocationKey(id, gpu), Entry(a.handle, a.fd, e.size, gpu, None),
                   HalfCopy(s.memory[e.handle].bytes, a.bytes, e.size));
    }
  }

  lemma SoundOverwrite(s: State, id: string, bytes: seq<Byte>)
    requires Sound(s) && Possible(s, Overwrite(id, bytes))
    ensures Sound(Next(s, Overwrite(id, bytes)))
  {
    assert forall k :: k in s.table ==> Backed(s, s.table[k]);
  }

  lemma SoundUnstage(s: State, claim: string, unmapped: set<nat>)
    requires Sound(s)
    ensures Sound(UnstageNext(s, claim, unmapped))
  {
    if claim in s.claims {
      var s1 := s.(claims := s.claims - {claim});
      var keys := Related(s, s.claims[claim]);
      SoundDiscard(s1, keys, unmapped);
    }
  }

  lemma SoundDiscard(s: State, keys: set<string>, unmapped: set<nat>)
    requires Sound(s) && keys <= s.table.Keys
    ensures Sound(Discard(s, keys, unmapped))
  {
    var t := Discard(s, keys, unmapped);
    forall k | k in t.table
      ensures Backed(t, t.table[k])
    {
      assert Backed(s, s.table[k]);
      assert t.table[k].handle !in HandlesOf(s, keys);
      assert t.table[k].fd !in FdsOf(s, keys) by {
        forall k' | k' in keys
          ensures s.table[k'].fd != s.table[k].fd
        {
          assert Backed(s, s.table[k']);
        }
      }
    }
    forall f | f in t.fds
      ensures t.fds[f] !in HandlesOf(s, keys)
    {
      forall k | k in keys
        ensures s.table[k].handle != s.fds[f]
      {
        assert Backed(s, s.table[k]);
      }
    }
  }

  // ----- The table is a tree of staged buffers and their copies -----

  lemma IdIsStaged(req: StageRequest)
    requires Free('_', req.buffer)
    ensures IsStagedId(Id(req))
  {
    RenderStaged(req.buffer, req.shardIndex, req.totalShards);
    var key := StagedKey(req.buffer, req.shardIndex, req.totalShards);
    assert key.Valid() && key.gpu.None? && Render(key) == Id(req);
  }

  /** The entry under a staged id is a staged buffer, never a copy. */
  lemma StagedIsCounted(s: State, id: string)
    requires Tree(s) && id in s.table && IsStagedId(id)
    ensures s.table[id].refCount.Some? && s.table[id].refCount.value >= 1
  {
    assert WellFormed(s, id);
    if s.table[id].refCount.None? {
      var parent :| IsCopyOf(s, id, parent);
      RelocationKeyUnique(parent, s.table[id].gpu, id, 0);
      assert false;
    }
  }

  lemma TreeStep(s: State, e: Event)
    requires Sound(s) && Tree(s) && Possible(s, e) && WellNamed(e)
    ensures Tree(Next(s, e))
  {
    match e
    case Stage(req, answer) => TreeStage(s, req, answer);
    case Unstage(claim, unmapped) => TreeUnstage(s, claim, unmapped);
    case RequestFd(id, gpu, answer) => TreeFd(s, id, gpu, answer);
    case Overwrite(id, bytes) => TreeKept(s, Next(s, e));
  }

  /** Changing counts of staged buffers (or nothing in the table) keeps the tree. */
  lemma TreeKept(s: State, t: State)
    requires Tree(s)
    requires s.table.Keys == t.table.Keys
    requires forall k :: k in s.table ==>
                           && t.table[k].size == s.table[k].size && t.table[k].gpu == s.table[k].gpu
                           && (t.table[k] == s.table[k] ||
                               (s.table[k].refCount.Some? && t.table[k].refCount.Some?
                                && t.table[k].refCount.value >= 1))
    requires forall c :: c in t.claims ==> IsStagedId(t.claims[c])
    requires t.servers == s.servers
    ensures Tree(t)
  {
    forall k | k in t.table
      ensures WellFormed(t, k)
    {
      assert WellFormed(s, k);
      if t.table[k].refCount.None? {
        var id :| IsCopyOf(s, k, id);
        assert IsCopyOf(t, k, id);
      }
    }
  }

  lemma TreeTrack(s: State, k: string, e: Entry, bytes: seq<Byte>)
    requires Tree(s) && k !in s.table
    requires match e.refCount
             case Some(n) => n >= 1 && IsStagedId(k)
             case None => exists id :: IsCopyOf(Track(s, k, e, bytes), k, id)
    ensures Tree(Track(s, k, e, bytes))
  {
    var t := Track(s, k, e, bytes);
    forall k' | k' in s.table
      ensures WellFormed(t, k')
    {
      assert WellFormed(s, k');
      if s.table[k'].refCount.None? {
        var id :| IsCopyOf(s, k', id);
        assert IsCopyOf(t, k', id);
      }
    }
    assert WellFormed(t, k);
  }

  lemma TreeStage(s: State, req: StageRequest, answer: StageAnswer)
    requires Tree(s) && Possible(s, Stage(req, answer)) && Free('_', req.buffer)
    ensures Tree(StageNext(s, req, answer))
  {
    IdIsStaged(req);
    hide Tree;
    TreeUnder(s, Id(req), req.claim, StagedSize(req), StagedGpu(req, answer), answer);
  }

  lemma TreeUnder(s: State, id: string, claim: string, size: nat, gpu: int, answer: StageAnswer)
    requires Tree(s) && IsStagedId(id)
    ensures Tree(StageUnder(s, id, claim, size, gpu, answer))
  {
    var s1, t := s.(claims := s.claims[claim := id]), StageUnder(s, id, claim, size, gpu, answer);
    TreeKept(s, s1);
    if id in s.table {
      StagedIsCounted(s, id);
      TreeKept(s1, t);
    } else if answer.allocation.Allocated? {
      var a := answer.allocation.alloc;
      TreeTrack(s1, id, Entry(a.handle, a.fd, size, gpu, Some(1)), a.bytes);
      TreeServers(Track(s1, id, Entry(a.handle, a.fd, size, gpu, Some(1)), a.bytes), t.servers);
    } else {
      TreeKept(s1, t);
    }
  }

  lemma TreeServers(s: State, servers: set<string>)
    requires Tree(s) && forall id :: id in servers ==> IsStagedId(id)
    ensures Tree(s.(servers := servers))
  {
    forall k | k in s.table
      ensures WellFormed(s.(servers := servers), k)
    {
      assert WellFormed(s, k);
      if s.table[k].refCount.None? {
        var id :| IsCopyOf(s, k, id);
        assert IsCopyOf(s.(servers := servers), k, id);
      }
    }
  }

  /** A released staged id takes exactly itself and its own copies with it. */
  lemma RelatedExactly(s: State, id: string)
    requires Tree(s) && id in s.table && IsStagedId(id)
    ensures forall k :: k in s.table ==> (k in Related(s, id) <==> k == id || IsCopyOf(s, k, id))
  {
    StagedIsCounted(s, id);
    forall k | k in s.table
      ensures k in Related(s, id) <==> k == id || IsCopyOf(s, k, id)
    {
      assert WellFormed(s, k);
      if s.table[k].refCount.Some? {
        ReleaseSelects(id, k, 0);
        RelocationKeyUnique(id, s.table[k].gpu, k, 0);
      } else {
        var parent :| IsCopyOf(s, k, parent);
        ReleaseSelects(id, parent, s.table[k].gpu);
        RelocationKeyUnique(id, s.table[k].gpu, parent, s.table[k].gpu);
      }
    }
  }

  lemma TreeUnstage(s: State, claim: string, unmapped: set<nat>)
    requires Tree(s)
    ensures Tree(UnstageNext(s, claim, unmapped))
  {
    if claim in s.claims {
      var id := s.claims[claim];
      var s1 := s.(claims := s.claims - {claim});
      TreeKept(s, s1);
      if id in s.table {
        StagedIsCounted(s, id);
        if s.table[id].refCount.value > 1 {
          TreeKept(s1, UnstageNext(s, claim, unmapped));
        } else {
          TreeDiscard(s1, id, unmapped);
        }
      }
    }
  }

  lemma TreeDiscard(s: State, id: string, unmapped: set<nat>)
    requires Tree(s) && id in s.table && IsStagedId(id)
    ensures Tree(Discard(s, Related(s, id), unmapped))
  {
    RelatedExactly(s, id);
    var t := Discard(s, Related(s, id), unmapped);
    forall k | k in t.table
      ensures WellFormed(t, k)
    {
      assert WellFormed(s, k);
      if s.table[k].refCount.None? {
        var parent :| IsCopyOf(s, k, parent);
        StagedIsCounted(s, parent);
        assert parent != id && !IsCopyOf(s, parent, id) by {
          RelocationKeyUnique(id, s.table[parent].gpu, parent, 0);
        }
        assert IsCopyOf(t, k, parent);
      }
    }
  }

  lemma TreeFd(s: State, id: string, gpu: int, answer: Allocation)
    requires Sound(s) && Tree(s) && Possible(s, RequestFd(id, gpu, answer))
    ensures Tree(FdNext(s, id, gpu, answer))
  {
    var t := FdNext(s, id, gpu, answer);
    if NeedsCopy(s, id, gpu) && answer.Allocated? {
      StagedIsCounted(s, id);
      assert IsCopyOf(t, RelocationKey(id, gpu), id);
      var e, a := s.table[id], answer.alloc;
      assert Backed(s, e);
      RoundUpBounds(e.size, s.gran);
      TreeTrack(s, RelocationKey(id, gpu), Entry(a.handle, a.fd, e.size, gpu, None),
                HalfCopy(s.memory[e.handle].bytes, a.bytes, e.size));
    } else {
      TreeKept(s, t);
    }
  }
}

/** Copies of a buffer on other GPUs: which descriptor a request gets, and what such a copy shows. */
module Relocation {
  import opened Arithmetic
  import opened Text
  import opened Keys
  import opened DriverState
  import opened DriverInvariants
  import opened DriverAccounts

  /** The key whose descriptor answers a request for `id` on `gpu` that needs no copy. */
  function ServingKey(s: State, id: string, gpu: int): string
    requires id in s.table
  {
    if gpu == s.table[id].gpu then id else RelocationKey(id, gpu)
  }

  /** The descriptor `fd` is open and belongs to a live allocation of `id`'s size on `gpu`. */
  ghost predicate Serves(s: State, id: string, gpu: int, fd: nat)
    requires id in s.table && s.gran > 0
  {
    fd in s.fds && s.fds[fd] in s.memory && s.memory[s.fds[fd]].gpu == gpu
    && |s.memory[s.fds[fd]].bytes| == RoundUp(s.table[id].size, s.gran)
  }

  lemma ServingKeyServes(s: State, id: string, gpu: int)
    requires Sound(s) && Tree(s) && id in s.table && IsStagedId(id) && !NeedsCopy(s, id, gpu)
    ensures ServingKey(s, id, gpu) in s.table && Serves(s, id, gpu, s.table[ServingKey(s, id, gpu)].fd)
  {
    var k := ServingKey(s, id, gpu);
    assert Backed(s, s.table[k]);
    if gpu != s.table[id].gpu {
      CopyAtKey(s, id, gpu);
    }
  }

  lemma CopyAtKey(s: State, id: string, gpu: int)
    requires Tree(s) && IsStagedId(id) && RelocationKey(id, gpu) in s.table
    ensures IsCopyOf(s, RelocationKey(id, gpu), id) && s.table[RelocationKey(id, gpu)].gpu == gpu
  {
    var k := RelocationKey(id, gpu);
    assert WellFormed(s, k);
    if s.table[k].refCount.Some? {
      RelocationKeyUnique(id, gpu, k, 0);
      assert false;
    }
    var parent :| IsCopyOf(s, k, parent);
    RelocationKeyUnique(id, gpu, parent, s.table[k].gpu);
  }

  /** The first n bytes of both. */
  predicate SamePrefix(a: seq<Byte>, b: seq<Byte>, n: nat) {
    n <= |a| && n <= |b| && a[..n] == b[..n]
  }

  /** In `t` the entry `k` has the first n bytes that `id` has in `s`, and `id` is as it was. */
  predicate Copied(s: State, t: State, k: string, id: string, n: nat) {
    && Tracked(s, id) && Tracked(t, id) && Bytes(t, id) == Bytes(s, id)
    && Tracked(t, k) && SamePrefix(Bytes(t, k), Bytes(s, id), n)
  }

  /** A fresh copy holds the parent's whole half-float elements; the rest of it is as it was allocated. */
  lemma FreshCopyEqualsParent(s: State, id: string, gpu: int, a: Alloc)
    requires Sound(s) && Tree(s) && Possible(s, RequestFd(id, gpu, Allocated(a))) && NeedsCopy(s, id, gpu)
    ensures Copied(s, FdNext(s, id, gpu, Allocated(a)), RelocationKey(id, gpu), id, 2 * (s.table[id].size / 2))
    ensures var n := 2 * (s.table[id].size / 2);
            && n <= |a.bytes| && |Bytes(FdNext(s, id, gpu, Allocated(a)), RelocationKey(id, gpu))| == |a.bytes|
            && Bytes(FdNext(s, id, gpu, Allocated(a)), RelocationKey(id, gpu))[n..] == a.bytes[n..]
  {
    assert Backed(s, s.table[id]);
    RoundUpBounds(s.table[id].size, s.gran);
    assert id != RelocationKey(id, gpu);
  }

  /** The entry `k` serves `id` on `gpu`: it is the staged buffer there, or a copy of it there. */
  ghost predicate ServesAs(s: State, k: string, id: string, gpu: int)
    requires id in s.table
  {
    k in s.table && s.table[k].gpu == gpu && (k == id || IsCopyOf(s, k, id))
  }

  /** At most one entry serves a buffer on a GPU: the one at its serving key. */
  lemma OneCopyPerGpu(s: State, k: string, id: string, gpu: int)
    requires Tree(s) && id in s.table && IsStagedId(id)
    ensures ServesAs(s, k, id, gpu) <==> k in s.table && k == ServingKey(s, id, gpu)
  {
    if gpu != s.table[id].gpu && RelocationKey(id, gpu) in s.table {
      CopyAtKey(s, id, gpu);
    }
  }

  /** A descriptor is handed out exactly for a tracked buffer that is on the requested GPU, or has a copy there, or
      gets one now; it is that of the one entry which serves the buffer on this GPU. The same request after it gets
      the same descriptor without a copy. A request that needs no copy, or gets none, leaves the table as it was. */
  lemma FdHandedOutIff(s: State, id: string, gpu: int, answer: Allocation, again: Allocation)
    requires Sound(s) && Tree(s) && Possible(s, RequestFd(id, gpu, answer))
    ensures var t, reply := Next(s, RequestFd(id, gpu, answer)), FdReply(s, id, gpu, answer);
            && (reply.Some? <==> id in s.table && ((exists k :: ServesAs(s, k, id, gpu)) || answer.Allocated?))
            && (reply.Some? ==>
                  && id in t.table && (exists k :: ServesAs(t, k, id, gpu) && reply == Some(t.table[k].fd))
                  && FdReply(t, id, gpu, again) == reply)
            && (id in s.table && gpu == s.table[id].gpu ==> reply == Some(s.table[id].fd))
            && ((id in s.table ==> exists k :: ServesAs(s, k, id, gpu)) ==> t == s)
            && (reply.None? ==> t.table == s.table) && t.claims == s.claims && t.servers == s.servers
            && forall k :: k in s.table ==> k in t.table && t.table[k] == s.table[k]
  {
    var t := FdNext(s, id, gpu, answer);
    if id in s.table {
      TreeFd(s, id, gpu, answer);
      assert IsStagedId(id);
      ServedIff(s, id, gpu);
      ServedIff(t, id, gpu);
    }
    hide Sound, Tree, IsStagedId, ServesAs, HalfCopy, RelocationKey;
  }

  lemma ServedIff(s: State, id: string, gpu: int)
    requires Tree(s) && id in s.table && IsStagedId(id)
    ensures (exists k :: ServesAs(s, k, id, gpu)) <==> !NeedsCopy(s, id, gpu)
    ensures !NeedsCopy(s, id, gpu) ==> ServesAs(s, ServingKey(s, id, gpu), id, gpu)
  {
    OneCopyPerGpu(s, ServingKey(s, id, gpu), id, gpu);
    forall k
      ensures ServesAs(s, k, id, gpu) <==> k in s.table && k == ServingKey(s, id, gpu)
    {
      OneCopyPerGpu(s, k, id, gpu);
    }
    hide Tree, ServesAs, IsStagedId;
  }

  /** Every descriptor handed out is open, and belongs to a live allocation on the requested GPU, of the size of the
      buffer. */
  lemma FdOnRequestedGpu(s: State, id: string, gpu: int, answer: Allocation)
    requires Sound(s) && Tree(s) && Possible(s, RequestFd(id, gpu, answer))
    ensures var t, reply := Next(s, RequestFd(id, gpu, answer)), FdReply(s, id, gpu, answer);
            reply.Some? ==> t.gran > 0 && id in t.table && t.table[id] == s.table[id] && Serves(t, id, gpu, reply.value)
  {
    if FdReply(s, id, gpu, answer).Some? {
      var t := FdNext(s, id, gpu, answer);
      SoundFd(s, id, gpu, answer);
      TreeFd(s, id, gpu, answer);
      ServingKeyServes(t, id, gpu);
    }
  }

  // ----- Later transfers do not reach a copy -----

  /** The step neither releases `k` nor writes it. */
  predicate Spares(s: State, e: Event, k: string) {
    k !in Released(s, e) && !(e.Overwrite? && e.target == k)
  }

  /** The entry at `k` still names the same allocation, with the same content. */
  ghost predicate Kept(s: State, t: State, k: string) {
    && k in s.table && k in t.table && t.table[k].handle == s.table[k].handle
    && s.table[k].handle in s.memory && s.table[k].handle in t.memory
    && t.memory[s.table[k].handle] == s.memory[s.table[k].handle]
  }

  lemma SparedStep(s: State, e: Event, k: string)
    requires Sound(s) && Tree(s) && Possible(s, e) && k in s.table && Spares(s, e, k)
    ensures Kept(s, Next(s, e), k)
  {
    assert Backed(s, s.table[k]);
    match e
    case Stage(req, answer) =>
      SparedStage(s, Id(req), req.claim, StagedSize(req), StagedGpu(req, answer), answer, k);
    case Unstage(claim, unmapped) => SparedUnstage(s, claim, unmapped, k);
    case RequestFd(id, gpu, answer) => SparedFd(s, id, gpu, answer, k);
    case Overwrite(id, bytes) => assert Backed(s, s.table[id]);
  }

  lemma SparedStage(s: State, id: string, claim: string, size: nat, gpu: int, answer: StageAnswer, k: string)
    requires k in s.table && s.table[k].handle in s.memory
    requires id !in s.table ==> match answer.allocation
                                case NoMemory => true
                                case Spoiled(spent) => spent.handle !in s.memory
                                case Allocated(a) => a.handle !in s.memory
    ensures Kept(s, StageUnder(s, id, claim, size, gpu, answer), k)
  {}

  lemma SparedFd(s: State, id: string, gpu: int, answer: Allocation, k: string)
    requires Sound(s) && Possible(s, RequestFd(id, gpu, answer)) && k in s.table
    ensures Kept(s, FdNext(s, id, gpu, answer), k)
  {
    assert Backed(s, s.table[k]);
  }

  lemma SparedUnstage(s: State, claim: string, unmapped: set<nat>, k: string)
    requires Sound(s) && Tree(s) && k in s.table && k !in Released(s, Unstage(claim, unmapped))
    ensures Kept(s, UnstageNext(s, claim, unmapped), k)
  {
    assert Backed(s, s.table[k]);
    if claim in s.claims && s.claims[claim] in s.table {
      StagedIsCounted(s, s.claims[claim]);
    }
  }

  /** Over every run that does not release or write the entry, it keeps its content: a relocated copy is a
      snapshot, whatever happens to its parent. */
  lemma {:induction false} CopyIsSnapshot(s: State, es: seq<Event>, k: string)
    requires Sound(s) && Tree(s) && PossibleRun(s, es) && k in s.table
    requires Throughout(s, es, (t, e) => Spares(t, e, k))
    ensures var t := Run(s, es); Tracked(s, k) && Tracked(t, k) && Bytes(t, k) == Bytes(s, k)
    decreases es
  {
    assert Backed(s, s.table[k]);
    if es != [] {
      SoundStep(s, es[0]);
      TreeStep(s, es[0]);
      SparedStep(s, es[0], k);
      CopyIsSnapshot(Next(s, es[0]), es[1..], k);
    }
  }

  /** A copy made in `s`, seen after any later run: its whole half-float elements are those of the buffer
      exactly when the buffer has, at that time, the elements that it had when the copy was made. */
  lemma CachedCopyAfterOverwrite(s: State, id: string, gpu: int, a: Alloc, es: seq<Event>)
    requires Sound(s) && Tree(s) && Possible(s, RequestFd(id, gpu, Allocated(a))) && NeedsCopy(s, id, gpu)
    requires var s1 := FdNext(s, id, gpu, Allocated(a));
             Sound(s1) && PossibleRun(s1, es) && Throughout(s1, es, (t, e) => Spares(t, e, RelocationKey(id, gpu)))
    ensures var t, k := Run(FdNext(s, id, gpu, Allocated(a)), es), RelocationKey(id, gpu);
            var n := 2 * (s.table[id].size / 2);
            && Tracked(s, id) && Tracked(t, k)
            && (Tracked(t, id) ==>
                  (SamePrefix(Bytes(t, k), Bytes(t, id), n) <==> SamePrefix(Bytes(s, id), Bytes(t, id), n)))
  {
    FreshCopyEqualsParent(s, id, gpu, a);
    TreeFd(s, id, gpu, Allocated(a));
    CopyIsSnapshot(FdNext(s, id, gpu, Allocated(a)), es, RelocationKey(id, gpu));
  }
}

/** The driver's buffer table as a state machine: staging, unstaging, relocation to another GPU
    and overwriting of contents. One handler call is one step; what CUDA answers (fresh handles,
    failed allocations, copies and frees) is part of the step. */
module DriverState {
  import opened Arithmetic
  import opened Text
  import opened Keys

  newtype Byte = x: int | 0 <= x < 256

  const DEFAULT_SIZE: nat := 10 * 1024 * 1024 * 1024

  /** A tracked allocation. Only staged buffers carry a reference count. */
  datatype Entry = Entry(handle: nat, fd: nat, size: nat, gpu: int, refCount: Option<int>)

  /** A live CUDA allocation; the length of `bytes` is the mapped length. */
  datatype Memory = Memory(gpu: int, bytes: seq<Byte>)

  datatype State = State(
    gran: nat,                     // allocation granularity of the devices
    claims: map<string, string>,   // KNOWN_CLAIMS
    table: map<string, Entry>,     // ALLOCATED_BUFFERS
    servers: set<string>,          // ids with an FD server thread
    memory: map<nat, Memory>,      // live CUDA handles
    fds: map<nat, nat>)            // open exported descriptors and the handle behind each

  /** What CUDA returns for an allocation; `bytes` is the content when the step ends. */
  datatype Alloc = Alloc(handle: nat, fd: nat, bytes: seq<Byte>)

  /** What an attempt that raises half-way leaves behind: the memory was created, and exported or not. */
  datatype Spent = Spent(handle: nat, fd: Option<nat>, bytes: seq<Byte>)

  /** How an allocation, or an allocation with the copy into it, ends. */
  datatype Allocation = NoMemory | Spoiled(spent: Spent) | Allocated(alloc: Alloc)

  datatype StageRequest = StageRequest(claim: string, buffer: string, size: nat, shardIndex: int, totalShards: int)
  datatype StageAnswer = StageAnswer(gpuCount: Option<nat>, allocation: Allocation, sourceOk: bool)

  datatype Event =
    | Stage(req: StageRequest, answer: StageAnswer)
    | Unstage(claim: string, unmapped: set<nat>)      // handles whose free succeeds
    | RequestFd(id: string, gpu: int, copied: Allocation)
    | Overwrite(target: string, bytes: seq<Byte>)     // NCCL or a local process writes the buffer

  function Id(req: StageRequest): string {
    EffectiveId(req.buffer, req.shardIndex, req.totalShards)
  }

  function StagedSize(req: StageRequest): nat {
    if req.size == 0 then DEFAULT_SIZE else req.size
  }

  function StagedGpu(req: StageRequest, answer: StageAnswer): int {
    if req.shardIndex >= 0 && req.totalShards > 0 && answer.gpuCount.Some? && answer.gpuCount.value > 0
    then req.shardIndex % answer.gpuCount.value
    else 0
  }

  /** Record a new allocation under `k`. */
  function Track(s: State, k: string, e: Entry, bytes: seq<Byte>): State {
    s.(table := s.table[k := e],
       memory := s.memory[e.handle := Memory(e.gpu, bytes)],
       fds := s.fds[e.fd := e.handle])
  }

  /** What stays of an attempt that raised half-way: nothing of it is recorded. */
  function Littered(s: State, gpu: int, spent: Spent): State {
    s.(memory := s.memory[spent.handle := Memory(gpu, spent.bytes)],
       fds := if spent.fd.Some? then s.fds[spent.fd.value := spent.handle] else s.fds)
  }

  function StageNext(s: State, req: StageRequest, answer: StageAnswer): State {
    StageUnder(s, Id(req), req.claim, StagedSize(req), StagedGpu(req, answer), answer)
  }

  function StageUnder(s: State, id: string, claim: string, size: nat, gpu: int, answer: StageAnswer): State {
    var s1 := s.(claims := s.claims[claim := id]);
    if id in s.table then
      var e := s.table[id];
      if e.refCount.Some? then s1.(table := s.table[id := e.(refCount := Some(e.refCount.value + 1))])
      else s1    // no count to increment: the handler aborts
    else match answer.allocation
      case NoMemory => s1
      case Spoiled(spent) => Littered(s1, gpu, spent)
      case Allocated(a) =>
        Track(s1, id, Entry(a.handle, a.fd, size, gpu, Some(1)), a.bytes)
        .(servers := if answer.sourceOk then s.servers + {id} else s.servers)
  }

  /** The keys a release of `id` removes. */
  function Related(s: State, id: string): set<string> {
    set k | k in s.table && (k == id || id + GPU_SEPARATOR <= k)
  }

  function HandlesOf(s: State, keys: set<string>): set<nat>
    requires keys <= s.table.Keys
  {
    set k | k in keys :: s.table[k].handle
  }

  function FdsOf(s: State, keys: set<string>): set<nat>
    requires keys <= s.table.Keys
  {
    set k | k in keys :: s.table[k].fd
  }

  /** Free and untrack all of `keys`: a failed free leaves the handle live, the fd is closed all the same. */
  function Discard(s: State, keys: set<string>, unmapped: set<nat>): State
    requires keys <= s.table.Keys
  {
    s.(table := s.table - keys,
       memory := s.memory - (HandlesOf(s, keys) * unmapped),
       fds := s.fds - FdsOf(s, keys))
  }

  function UnstageNext(s: State, claim: string, unmapped: set<nat>): State {
    if claim !in s.claims then s else
    var id := s.claims[claim];
    var s1 := s.(claims := s.claims - {claim});
    if id !in s.table || s.table[id].refCount.None? then s1 else
    var e := s.table[id];
    var n := e.refCount.value - 1;
    if n > 0 then s1.(table := s.table[id := e.(refCount := Some(n))])
    else Discard(s1, Related(s, id), unmapped)
  }

  /** The half-float copy moves whole elements only: the first `2 * (size / 2)` bytes. */
  function HalfCopy(src: seq<Byte>, dst: seq<Byte>, size: nat): seq<Byte>
    requires size <= |src| && size <= |dst|
  {
    src[..2 * (size / 2)] + dst[2 * (size / 2)..]
  }

  predicate NeedsCopy(s: State, id: string, gpu: int) {
    id in s.table && gpu != s.table[id].gpu && RelocationKey(id, gpu) !in s.table
  }

  function FdReply(s: State, id: string, gpu: int, answer: Allocation): Option<nat> {
    if id !in s.table then None
    else if gpu == s.table[id].gpu then Some(s.table[id].fd)
    else if RelocationKey(id, gpu) in s.table then Some(s.table[RelocationKey(id, gpu)].fd)
    else if answer.Allocated? then Some(answer.alloc.fd) else None
  }

  function FdNext(s: State, id: string, gpu: int, answer: Allocation): State
    requires Possible(s, RequestFd(id, gpu, answer)) && Sound(s)
  {
    if !NeedsCopy(s, id, gpu) then s else
    var e := s.table[id];
    match answer
    case NoMemory => s
    case Spoiled(spent) => Littered(s, gpu, spent)
    case Allocated(a) =>
      RoundUpBounds(e.size, s.gran);
      Track(s, RelocationKey(id, gpu), Entry(a.handle, a.fd, e.size, gpu, None),
            HalfCopy(s.memory[e.handle].bytes, a.bytes, e.size))
  }

  predicate Tracked(s: State, id: string) {
    id in s.table && s.table[id].handle in s.memory
  }

  function Bytes(s: State, id: string): seq<Byte>
    requires Tracked(s, id)
  {
    s.memory[s.table[id].handle].bytes
  }

  function Overwritten(s: State, id: string, bytes: seq<Byte>): State
    requires Tracked(s, id)
  {
    var h := s.table[id].handle;
    s.(memory := s.memory[h := s.memory[h].(bytes := bytes)])
  }

  function Next(s: State, e: Event): State
    requires Sound(s) && Possible(s, e)
  {
    match e
    case Stage(req, answer) => StageNext(s, req, answer)
    case Unstage(claim, unmapped) => UnstageNext(s, claim, unmapped)
    case RequestFd(id, gpu, answer) => FdNext(s, id, gpu, answer)
    case Overwrite(id, bytes) => Overwritten(s, id, bytes)
  }

  // ----- What the environment may do -----

  predicate FreshAlloc(s: State, a: Alloc, size: nat) {
    s.gran > 0 && a.handle !in s.memory && a.fd !in s.fds && |a.bytes| == RoundUp(size, s.gran)
  }

  predicate FreshAnswer(s: State, answer: Allocation, size: nat) {
    match answer
    case NoMemory => true
    case Spoiled(spent) => spent.handle !in s.memory && (spent.fd.Some? ==> spent.fd.value !in s.fds)
    case Allocated(a) => FreshAlloc(s, a, size)
  }

  /** CUDA hands out fresh handles and descriptors; an FD request reaches a running server thread. */
  predicate Possible(s: State, e: Event) {
    match e
    case Stage(req, answer) =>
      Id(req) !in s.table ==> FreshAnswer(s, answer.allocation, StagedSize(req))
    case Unstage(_, _) => true
    case RequestFd(id, gpu, answer) =>
      id in s.servers &&
      (NeedsCopy(s, id, gpu) ==> FreshAnswer(s, answer, s.table[id].size))
    case Overwrite(id, bytes) =>
      Tracked(s, id) && |bytes| == |Bytes(s, id)|
  }

  /** Buffer ids come from Kubernetes object names: no underscore. */
  predicate WellNamed(e: Event) {
    e.Stage? ==> Free('_', e.req.buffer)
  }

  // ----- Invariants -----

  /** Every tracked allocation is live, of the rounded size, on its GPU, with its own open fd;
      no two entries share an allocation. */
  ghost predicate Sound(s: State) {
    && s.gran > 0
    && (forall k :: k in s.table ==> Backed(s, s.table[k]))
    && (forall k, k' :: k in s.table && k' in s.table && s.table[k].handle == s.table[k'].handle ==> k == k')
    && (forall f :: f in s.fds ==> s.fds[f] in s.memory)
    && (forall f, f' :: f in s.fds && f' in s.fds && s.fds[f] == s.fds[f'] ==> f == f')
  }

  ghost predicate Backed(s: State, e: Entry)
    requires s.gran > 0
  {
    && e.handle in s.memory && e.fd in s.fds && s.fds[e.fd] == e.handle
    && s.memory[e.handle].gpu == e.gpu && |s.memory[e.handle].bytes| == RoundUp(e.size, s.gran)
  }

  /** `k` is a relocated copy of the staged buffer `id`. */
  ghost predicate IsCopyOf(s: State, k: string, id: string)
    requires k in s.table
  {
    && id in s.table && s.table[id].refCount.Some? && IsStagedId(id)
    && k == RelocationKey(id, s.table[k].gpu)
    && s.table[k].size == s.table[id].size && s.table[k].gpu != s.table[id].gpu
  }

  ghost predicate WellFormed(s: State, k: string)
    requires k in s.table
  {
    match s.table[k].refCount
    case Some(n) => n >= 1 && IsStagedId(k)
    case None => exists id :: IsCopyOf(s, k, id)
  }

  /** The table is a set of counted staged buffers and of copies with a live parent. */
  ghost predicate Tree(s: State) {
    && (forall k :: k in s.table ==> WellFormed(s, k))
    && (forall c :: c in s.claims ==> IsStagedId(s.claims[c]))
    && (forall id :: id in s.servers ==> IsStagedId(id))
  }
}

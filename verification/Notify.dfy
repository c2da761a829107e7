/** PRE_UPDATE and READY: what the consumers of one buffer are told, and what they can conclude. */
module Notify {
  import D = DriverState

  datatype Signal = PreUpdate | Ready

  /** A signal as a consumer receives it, with the content of the buffer, the number of finished NCCL
      operations on it and the number of local writes to it when it is sent. */
  datatype Note = Note(signal: Signal, content: seq<D.Byte>, copies: nat, packs: nat)

  /** The consumers still listed, in order, and what each connection was sent. */
  datatype Listeners = Listeners(sockets: seq<nat>, logs: map<nat, seq<Note>>)

  predicate Distinct(s: seq<nat>) {
    s == [] || (s[0] !in s[1..] && Distinct(s[1..]))
  }

  /** No connection is listed twice, and each listed one has a log. */
  ghost predicate Valid(l: Listeners) {
    Distinct(l.sockets) && forall c :: c in l.sockets ==> c in l.logs
  }

  /** The list without `broken`, in order. */
  function Without(s: seq<nat>, broken: set<nat>): (r: seq<nat>)
    ensures forall c :: c in r <==> c in s && c !in broken
  {
    if s == [] then [] else (if s[0] in broken then [] else [s[0]]) + Without(s[1..], broken)
  }

  /** One pass over the list: `failing` are the connections whose send raises. */
  function Passed(l: Listeners, note: Note, failing: set<nat>): Listeners {
    Listeners(Without(l.sockets, failing),
              map c | c in l.logs :: if c in l.sockets && c !in failing then l.logs[c] + [note] else l.logs[c])
  }

  function WithListener(l: Listeners, c: nat): Listeners {
    Listeners(l.sockets + [c], l.logs[c := []])
  }

  lemma {:induction false} WithoutDistinct(s: seq<nat>, broken: set<nat>)
    requires Distinct(s)
    ensures Distinct(Without(s, broken))
  {
    if s != [] {
      var rest := Without(s[1..], broken);
      WithoutDistinct(s[1..], broken);
      assert s[0] !in rest;
      if s[0] in broken {
        assert Without(s, broken) == rest;
      } else {
        assert Without(s, broken)[1..] == rest;
      }
    }
  }

  lemma {:induction false} DistinctPrefix(s: seq<nat>, i: nat)
    requires Distinct(s) && i < |s|
    ensures s[i] !in s[..i]
  {
    if i > 0 {
      DistinctPrefix(s[1..], i - 1);
      assert s[..i] == [s[0]] + s[1..][..i - 1];
    }
  }

  lemma {:induction false} DistinctGrows(s: seq<nat>, c: nat)
    requires Distinct(s) && c !in s
    ensures Distinct(s + [c])
  {
    if s != [] {
      DistinctGrows(s[1..], c);
      assert (s + [c])[1..] == s[1..] + [c];
    }
  }

  lemma PassedValid(l: Listeners, note: Note, failing: set<nat>)
    requires Valid(l)
    ensures Valid(Passed(l, note, failing))
  {
    WithoutDistinct(l.sockets, failing);
  }

  // ----- The list as the handlers update it -----

  /** `list.remove(x)`: the first occurrence goes. */
  function Removed(s: seq<nat>, x: nat): seq<nat> {
    if s == [] then [] else if s[0] == x then s[1..] else [s[0]] + Removed(s[1..], x)
  }

  lemma {:induction false} WithoutNothing(s: seq<nat>, broken: set<nat>)
    requires forall c :: c in broken ==> c !in s
    ensures Without(s, broken) == s
  {
    if s != [] {
      WithoutNothing(s[1..], broken);
    }
  }

  lemma {:induction false} RemovedIsWithout(s: seq<nat>, x: nat)
    requires Distinct(s)
    ensures Removed(s, x) == Without(s, {x})
  {
    if s != [] {
      RemovedIsWithout(s[1..], x);
      if s[0] == x {
        WithoutNothing(s[1..], {x});
      }
    }
  }

  lemma {:induction false} WithoutTwice(s: seq<nat>, a: set<nat>, b: set<nat>)
    ensures Without(Without(s, a), b) == Without(s, a + b)
  {
    if s != [] {
      WithoutTwice(s[1..], a, b);
      var rest := Without(s[1..], a);
      if s[0] in a {
        assert Without(s, a) == rest;
      } else {
        assert Without(s, a)[0] == s[0] && Without(s, a)[1..] == rest;
      }
    }
  }

  /** Only the broken sockets that are listed matter. */
  lemma {:induction false} WithoutListed(s: seq<nat>, a: set<nat>, b: set<nat>)
    requires forall c :: c in s ==> (c in a <==> c in b)
    ensures Without(s, a) == Without(s, b)
  {
    if s != [] {
      WithoutListed(s[1..], a, b);
    }
  }

  ghost function ToSet(s: seq<nat>): set<nat> {
    set c | c in s
  }

  /** The note has gone to the connections in `told`, save the failing ones. */
  predicate Sent(was: map<nat, seq<Note>>, logs: map<nat, seq<Note>>, told: seq<nat>, note: Note, failing: set<nat>) {
    logs == map c | c in was :: if c in told && c !in failing then was[c] + [note] else was[c]
  }

  lemma SentOneMore(was: map<nat, seq<Note>>, logs: map<nat, seq<Note>>, told: seq<nat>, note: Note,
                    failing: set<nat>, s: nat)
    requires Sent(was, logs, told, note, failing) && s in was && s !in told
    ensures s in logs
    ensures s in failing ==> Sent(was, logs, told + [s], note, failing)
    ensures s !in failing ==> Sent(was, logs[s := logs[s] + [note]], told + [s], note, failing)
  {
    assert forall c :: c in told + [s] <==> c in told || c == s;
  }

  class NotifyList {
    var sockets: seq<nat>
    var logs: map<nat, seq<Note>>

    ghost function Abstract(): Listeners
      reads this
    {
      Listeners(sockets, logs)
    }

    constructor ()
      ensures Abstract() == Listeners([], map[]) && Valid(Abstract())
    {
      sockets, logs := [], map[];
    }

    /** `notify_server` accepts one more consumer; while the buffer is not tracked it closes the connection. */
    method Accept(c: nat, tracked: bool) returns (open: bool)
      requires Valid(Abstract()) && c !in logs
      modifies this
      ensures open == tracked && Valid(Abstract())
      ensures Abstract() == if tracked then WithListener(old(Abstract()), c) else old(Abstract())
      ensures sockets == if tracked then old(sockets) + [c] else old(sockets)
      ensures logs == if tracked then old(logs)[c := []] else old(logs)
    {
      if !tracked {
        return false;
      }
      DistinctGrows(sockets, c);
      sockets := sockets + [c];
      logs := logs[c := []];
      return true;
    }

    /** One pass of PRE_UPDATE or READY: send to all, then drop the connections that failed. */
    method SendToAll(note: Note, failing: set<nat>)
      requires Valid(Abstract())
      modifies this
      ensures Valid(Abstract()) && Abstract() == Passed(old(Abstract()), note, failing)
      ensures forall c :: c in sockets <==> c in old(sockets) && c !in failing
      ensures logs.Keys == old(logs).Keys
      ensures forall c :: c in logs ==>
                            logs[c] == old(logs)[c] + if c in old(sockets) && c !in failing then [note] else []
    {
      PassedValid(Abstract(), note, failing);
      var broken := Send(note, failing);
      Drop(broken);
      WithoutListed(old(sockets), ToSet(broken), failing);
    }

    method Send(note: Note, failing: set<nat>) returns (broken: seq<nat>)
      requires Valid(Abstract())
      modifies `logs
      ensures logs == Passed(old(Abstract()), note, failing).logs
      ensures forall c :: c in broken <==> c in sockets && c in failing
    {
      ghost var was := logs;
      broken := [];
      for i := 0 to |sockets|
        invariant forall c :: c in broken <==> c in sockets[..i] && c in failing
        invariant Sent(was, logs, sockets[..i], note, failing)
      {
        var s := sockets[i];
        DistinctPrefix(sockets, i);
        assert sockets[..i + 1] == sockets[..i] + [s];
        SentOneMore(was, logs, sockets[..i], note, failing, s);
        hide Sent;
        if s in failing {
          broken := broken + [s];
        } else {
          logs := logs[s := logs[s] + [note]];
        }
      }
      assert sockets[..|sockets|] == sockets;
    }

    method Drop(broken: seq<nat>)
      requires Distinct(sockets)
      modifies `sockets
      ensures sockets == Without(old(sockets), ToSet(broken))
    {
      ghost var dropped: set<nat> := {};
      WithoutNothing(sockets, {});
      for i := 0 to |broken|
        invariant dropped == ToSet(broken[..i])
        invariant Distinct(sockets) && sockets == Without(old(sockets), dropped)
      {
        var s := broken[i];
        assert broken[..i + 1] == broken[..i] + [s];
        WithoutTwice(old(sockets), dropped, {s});
        WithoutDistinct(sockets, {s});
        RemovedIsWithout(sockets, s);
        if s in sockets {
          sockets := Removed(sockets, s);
        } else {
          WithoutNothing(sockets, {s});
        }
        dropped := dropped + {s};
      }
      assert broken[..|broken|] == broken;
    }
  }

  // ----- The protocol -----

  /** Where the one transfer of a buffer is: none, consumers told, or NCCL done. Source and target take the
      same steps; on the source the NCCL operation only reads. */
  datatype Phase = Idle | Announced | Copied

  /** What a finished NCCL operation left in the buffer, and the number of local writes before. */
  datatype Deposit = Deposit(content: seq<D.Byte>, packs: nat)

  /** `packs` counts the local writes; `outside` are the consumers that joined while no transfer was going on. */
  datatype Hub = Hub(listeners: Listeners, content: seq<D.Byte>, phase: Phase, packs: nat, deposits: seq<Deposit>,
                     outside: set<nat>)

  datatype Step =
    | Join(c: nat)
    | Announce(failing: set<nat>)    // the PRE_UPDATE pass that opens a transfer
    | Copy(bytes: seq<D.Byte>)       // the NCCL operation, and the content after it
    | Finish(failing: set<nat>)      // the READY pass that ends it
    | GiveUp(bytes: seq<D.Byte>)     // the transfer ends by an exception: no READY, whatever NCCL has written
    | Pack(bytes: seq<D.Byte>)       // a local process writes the mapped buffer, at any time

  predicate Enabled(h: Hub, step: Step) {
    match step
    case Join(c) => c !in h.listeners.logs
    case Announce(_) => h.phase == Idle
    case Copy(_) => h.phase == Announced
    case Finish(_) => h.phase == Copied
    case GiveUp(bytes) => h.phase == Announced || (h.phase == Copied && bytes == h.content)
    case Pack(_) => true
  }

  function NoteOf(h: Hub, signal: Signal): Note {
    Note(signal, h.content, |h.deposits|, h.packs)
  }

  function Next(h: Hub, step: Step): Hub {
    match step
    case Join(c) =>
      h.(listeners := WithListener(h.listeners, c), outside := if h.phase == Idle then h.outside + {c} else h.outside)
    case Announce(failing) =>
      h.(listeners := Passed(h.listeners, NoteOf(h, PreUpdate), failing), phase := Announced)
    case Copy(bytes) =>
      h.(content := bytes, deposits := h.deposits + [Deposit(bytes, h.packs)], phase := Copied)
    case Finish(failing) =>
      h.(listeners := Passed(h.listeners, NoteOf(h, Ready), failing), phase := Idle)
    case GiveUp(bytes) => h.(content := bytes, phase := Idle)
    case Pack(bytes) => h.(content := bytes, packs := h.packs + 1)
  }

  /** A buffer just staged. */
  function Start(content: seq<D.Byte>): Hub {
    Hub(Listeners([], map[]), content, Idle, 0, [], {})
  }

  predicate EnabledRun(h: Hub, steps: seq<Step>)
    decreases |steps|
  {
    steps == [] || (Enabled(h, steps[0]) && EnabledRun(Next(h, steps[0]), steps[1..]))
  }

  function Run(h: Hub, steps: seq<Step>): Hub
    decreases |steps|
  {
    if steps == [] then h else Run(Next(h, steps[0]), steps[1..])
  }

  predicate Last(log: seq<Note>, signal: Signal) {
    log != [] && log[|log| - 1].signal == signal
  }

  /** A READY directly follows a PRE_UPDATE, sent exactly one NCCL operation earlier. Only as the first signal of a
      consumer that joined during a transfer may it stand alone. */
  predicate WellPlaced(log: seq<Note>, i: nat, outside: bool)
    requires i < |log|
  {
    log[i].signal == Ready ==>
      if i == 0 then !outside
      else log[i - 1].signal == PreUpdate && log[i].copies == log[i - 1].copies + 1
  }

  ghost predicate WellOrdered(log: seq<Note>, outside: bool) {
    forall i :: 0 <= i < |log| ==> WellPlaced(log, i, outside)
  }

  /** A READY is sent with what its transfer deposited, unless a local process wrote in between. */
  predicate Announces(deposits: seq<Deposit>, note: Note) {
    note.signal == Ready ==>
      && 1 <= note.copies <= |deposits| && deposits[note.copies - 1].packs <= note.packs
      && (deposits[note.copies - 1].packs == note.packs ==> note.content == deposits[note.copies - 1].content)
  }

  ghost predicate Truthful(deposits: seq<Deposit>, log: seq<Note>) {
    forall i :: 0 <= i < |log| ==> Announces(deposits, log[i])
  }

  /** What the last signal of a listed consumer tells in each phase. */
  predicate LastSignalTells(h: Hub, c: nat, log: seq<Note>) {
    match h.phase
    case Idle => Last(log, Ready) ==> StillTrue(h, log[|log| - 1])
    case Announced =>
      (Last(log, PreUpdate) && log[|log| - 1].copies == |h.deposits|) || (log == [] && c !in h.outside)
    case Copied =>
      (Last(log, PreUpdate) && log[|log| - 1].copies + 1 == |h.deposits|) || (log == [] && c !in h.outside)
  }

  /** No NCCL operation has finished since the note; nor has the content changed, save by local writes. */
  predicate StillTrue(h: Hub, note: Note) {
    note.copies == |h.deposits| && note.packs <= h.packs && (note.packs == h.packs ==> note.content == h.content)
  }

  ghost predicate GoodLog(h: Hub, log: seq<Note>, c: nat) {
    WellOrdered(log, c in h.outside) && Truthful(h.deposits, log)
  }

  ghost predicate Inv(h: Hub) {
    && Valid(h.listeners)
    && (forall c :: c in h.listeners.logs ==> GoodLog(h, h.listeners.logs[c], c))
    && (forall c :: c in h.listeners.sockets ==> LastSignalTells(h, c, h.listeners.logs[c]))
    && h.outside <= h.listeners.logs.Keys
    && (h.phase == Copied ==> Announces(h.deposits, NoteOf(h, Ready)))
  }

  /** One pass: who stays listed, and what the connections were sent. */
  lemma PassSends(l: Listeners, note: Note, failing: set<nat>)
    requires Valid(l)
    ensures var r := Passed(l, note, failing);
            && Valid(r) && r.logs.Keys == l.logs.Keys
            && (forall c :: c in r.sockets <==> c in l.sockets && c !in failing)
            && (forall c :: c in r.sockets ==> r.logs[c] == l.logs[c] + [note])
            && (forall c :: c in r.logs ==>
                  r.logs[c] == l.logs[c] || (c in l.sockets && r.logs[c] == l.logs[c] + [note]))
  {
    PassedValid(l, note, failing);
  }

  lemma WellOrderedGrows(log: seq<Note>, note: Note, outside: bool)
    requires WellOrdered(log, outside)
    requires note.signal == Ready ==> if log == [] then !outside
                                      else Last(log, PreUpdate) && note.copies == log[|log| - 1].copies + 1
    ensures WellOrdered(log + [note], outside)
  {
    forall i | 0 <= i < |log| + 1
      ensures WellPlaced(log + [note], i, outside)
    {
      assert i < |log| ==> WellPlaced(log, i, outside);
    }
  }

  lemma InvStep(h: Hub, step: Step)
    requires Inv(h) && Enabled(h, step)
    ensures Inv(Next(h, step))
  {
    var t := Next(h, step);
    match step
    case Join(c) => DistinctGrows(h.listeners.sockets, c);
    case Announce(failing) => InvPass(h, NoteOf(h, PreUpdate), failing, t);
    case Finish(failing) => InvPass(h, NoteOf(h, Ready), failing, t);
    case Copy(bytes) =>
      forall c | c in t.listeners.logs
        ensures GoodLog(t, t.listeners.logs[c], c)
      {
        assert GoodLog(h, h.listeners.logs[c], c);
      }
    case GiveUp(_) =>
    case Pack(_) =>
  }

  lemma InvPass(h: Hub, note: Note, failing: set<nat>, t: Hub)
    requires Inv(h) && t == h.(listeners := Passed(h.listeners, note, failing), phase := t.phase)
    requires if t.phase == Announced then note == NoteOf(h, PreUpdate) && h.phase == Idle
             else note == NoteOf(h, Ready) && h.phase == Copied && t.phase == Idle
    ensures Inv(t)
  {
    PassSends(h.listeners, note, failing);
    assert Announces(h.deposits, note);
    assert h.phase == Copied ==> Announces(h.deposits, NoteOf(h, Ready));
    hide Passed, GoodLog, LastSignalTells, Announces, Valid;
    forall c | c in t.listeners.logs
      ensures GoodLog(t, t.listeners.logs[c], c)
    {
      GoodLogAfterPass(h, note, c);
      GoodLogKept(h, t, t.listeners.logs[c], c);
    }
    forall c | c in t.listeners.sockets
      ensures LastSignalTells(t, c, t.listeners.logs[c])
    {
      TellsAfterPass(t, c, h.listeners.logs[c], note);
    }
  }

  lemma GoodLogKept(h: Hub, t: Hub, log: seq<Note>, c: nat)
    requires GoodLog(h, log, c) && t.outside == h.outside && t.deposits == h.deposits
    ensures GoodLog(t, log, c)
  {}

  lemma TellsAfterPass(t: Hub, c: nat, log: seq<Note>, note: Note)
    requires (t.phase == Announced && note == NoteOf(t, PreUpdate)) || (t.phase == Idle && note == NoteOf(t, Ready))
    ensures LastSignalTells(t, c, log + [note])
  {}

  /** The old log is good, and so is the log with the new note if the connection was listed. */
  lemma GoodLogAfterPass(h: Hub, note: Note, c: nat)
    requires Inv(h) && Announces(h.deposits, note) && c in h.listeners.logs
    requires note == NoteOf(h, PreUpdate) || (note == NoteOf(h, Ready) && h.phase == Copied)
    ensures GoodLog(h, h.listeners.logs[c], c)
    ensures c in h.listeners.sockets ==> GoodLog(h, h.listeners.logs[c] + [note], c)
  {
    assert GoodLog(h, h.listeners.logs[c], c);
    if c in h.listeners.sockets {
      assert LastSignalTells(h, c, h.listeners.logs[c]);
      WellOrderedGrows(h.listeners.logs[c], note, c in h.outside);
    }
  }

  lemma {:induction false} InvRun(h: Hub, steps: seq<Step>)
    requires Inv(h) && EnabledRun(h, steps)
    ensures Inv(Run(h, steps))
    decreases |steps|
  {
    if steps != [] {
      InvStep(h, steps[0]);
      InvRun(Next(h, steps[0]), steps[1..]);
    }
  }

  // ----- What consumers can conclude -----

  /** Over every run: each READY comes one NCCL operation after the PRE_UPDATE directly before it, save the
      first signal of a consumer that joined during the transfer. */
  lemma ReadyFollowsCopy(content: seq<D.Byte>, steps: seq<Step>, c: nat)
    requires EnabledRun(Start(content), steps) && c in Run(Start(content), steps).listeners.logs
    ensures var h := Run(Start(content), steps); WellOrdered(h.listeners.logs[c], c in h.outside)
  {
    InvRun(Start(content), steps);
  }

  /** Over every run: each READY is sent while the buffer holds what its transfer deposited, unless a local
      process has written the buffer between the copy and the READY. */
  lemma ReadyAnnouncesDeposit(content: seq<D.Byte>, steps: seq<Step>, c: nat, i: nat)
    requires EnabledRun(Start(content), steps)
    requires var h := Run(Start(content), steps); c in h.listeners.logs && i < |h.listeners.logs[c]|
    ensures var h := Run(Start(content), steps); Announces(h.deposits, h.listeners.logs[c][i])
  {
    InvRun(Start(content), steps);
  }

  /** A listed consumer whose last signal is READY: no transfer is open and none has copied since, so the buffer
      still has the announced content, unless a local process wrote it. */
  lemma ReadyStaysTrue(content: seq<D.Byte>, steps: seq<Step>, c: nat)
    requires EnabledRun(Start(content), steps)
    requires var h := Run(Start(content), steps);
             c in h.listeners.sockets && c in h.listeners.logs && Last(h.listeners.logs[c], Ready)
    ensures var h := Run(Start(content), steps);
            var note := h.listeners.logs[c][|h.listeners.logs[c]| - 1];
            h.phase == Idle && note.copies == |h.deposits| && (h.content == note.content || h.packs > note.packs)
  {
    InvRun(Start(content), steps);
  }

  /** What ends the truth of a READY: a local write sends no signal, and makes the announced content wrong exactly
      when it writes something else. */
  lemma WriteAfterReady(h: Hub, c: nat, bytes: seq<D.Byte>)
    requires Inv(h) && c in h.listeners.sockets && c in h.listeners.logs && Last(h.listeners.logs[c], Ready)
    requires h.packs == h.listeners.logs[c][|h.listeners.logs[c]| - 1].packs
    ensures var t, note := Next(h, Pack(bytes)), h.listeners.logs[c][|h.listeners.logs[c]| - 1];
            && Enabled(h, Pack(bytes)) && t.listeners == h.listeners && h.content == note.content
            && (t.content == note.content <==> bytes == note.content)
  {
    assert LastSignalTells(h, c, h.listeners.logs[c]);
  }

  /** The signals of some completed transfers, then of an unfinished one. */
  function Rounds(counts: seq<nat>, pending: nat): seq<Signal> {
    if counts == [] then seq(pending, _ => PreUpdate)
    else seq(counts[0], _ => PreUpdate) + [Ready] + Rounds(counts[1..], pending)
  }

  function Signals(log: seq<Note>): seq<Signal> {
    seq(|log|, i requires 0 <= i < |log| => log[i].signal)
  }

  /** The log of a consumer that joined outside a transfer is (PRE_UPDATE+ READY)* PRE_UPDATE*. */
  lemma {:induction false} LogShape(log: seq<Note>) returns (counts: seq<nat>, pending: nat)
    requires WellOrdered(log, true)
    ensures Signals(log) == Rounds(counts, pending) && forall i :: 0 <= i < |counts| ==> counts[i] >= 1
    decreases |log|
  {
    var k := 0;
    while k < |log| && log[k].signal == PreUpdate
      invariant k <= |log| && forall i :: 0 <= i < k ==> log[i].signal == PreUpdate
    {
      k := k + 1;
    }
    if k == |log| {
      counts, pending := [], k;
      assert Signals(log) == seq(k, _ => PreUpdate);
    } else {
      assert WellPlaced(log, k, true);
      var rest := log[k + 1..];
      forall i | 0 <= i < |rest|
        ensures WellPlaced(rest, i, true)
      {
        assert WellPlaced(log, k + 1 + i, true);
      }
      var counts', pending' := LogShape(rest);
      counts, pending := [k] + counts', pending';
      assert counts[1..] == counts';
      assert Signals(log) == seq(k, _ => PreUpdate) + [Ready] + Signals(rest);
    }
  }

  // ----- wait_for_ready -----

  /** `wait_for_ready` returns on any received chunk; READY in it is only logged. */
  datatype Wait = Blocks | Returns(sawReady: bool)

  /** With nothing to read the wait blocks, unless the driver has closed the connection. */
  function WaitForReady(chunk: seq<Signal>, closed: bool): Wait {
    if chunk == [] && !closed then Blocks else Returns(Ready in chunk)
  }

  /** What a consumer was sent from position p of its log on. */
  function SentSince(h: Hub, c: nat, p: nat): seq<Signal>
    requires c in h.listeners.logs && p <= |h.listeners.logs[c]|
  {
    Signals(h.listeners.logs[c][p..])
  }

  /** The wait blocks exactly while the consumer has read everything it was sent and the driver keeps its connection
      open, and reports READY exactly when one of the unread signals is READY. */
  lemma WaitBlocksIff(h: Hub, c: nat, p: nat, closed: bool)
    requires c in h.listeners.logs && p <= |h.listeners.logs[c]|
    ensures var log, wait := h.listeners.logs[c], WaitForReady(SentSince(h, c, p), closed);
            && (wait == Blocks <==> p == |log| && !closed)
            && (wait == Returns(true) <==> exists i :: p <= i < |log| && log[i].signal == Ready)
  {
    var log, sent := h.listeners.logs[c], SentSince(h, c, p);
    assert |sent| == |log| - p && forall i :: 0 <= i < |sent| ==> sent[i] == log[p + i].signal;
    if i :| p <= i < |log| && log[i].signal == Ready {
      assert sent[i - p] == Ready;
    }
  }

  /** A consumer that waits between transfers returns at the PRE_UPDATE of the next one, before its copy:
      returning does not mean that the update has arrived. */
  lemma WaitReturnsBeforeCopy(h: Hub, c: nat, failing: set<nat>, closed: bool)
    requires Inv(h) && h.phase == Idle && c in h.listeners.sockets && c !in failing
    ensures var t, p := Next(h, Announce(failing)), |h.listeners.logs[c]|;
            && c in t.listeners.sockets && p <= |t.listeners.logs[c]|
            && WaitForReady(SentSince(t, c, p), closed) == Returns(false)
            && t.content == h.content && t.deposits == h.deposits && t.phase == Announced
  {
    var t := Next(h, Announce(failing));
    assert t.listeners.logs[c][|h.listeners.logs[c]|..] == [NoteOf(h, PreUpdate)];
    assert Signals([NoteOf(h, PreUpdate)]) == [PreUpdate];
  }

  /** The consumer has read p signals of its log at `h`, and gets `chunk` next, at `t`. */
  predicate Received(h: Hub, t: Hub, c: nat, p: nat, chunk: seq<Signal>)
    requires c in h.listeners.logs && p <= |h.listeners.logs[c]|
  {
    && c in t.listeners.logs && |h.listeners.logs[c]| <= |t.listeners.logs[c]|
    && chunk <= SentSince(t, c, p)
  }

  /** In whatever way the chunk came about after `h`, an NCCL operation has finished in the meantime. */
  ghost predicate SurelyCopied(h: Hub, c: nat, p: nat, chunk: seq<Signal>)
    requires c in h.listeners.logs && p <= |h.listeners.logs[c]|
  {
    forall steps :: EnabledRun(h, steps) && Received(h, Run(h, steps), c, p, chunk) ==>
      |Run(h, steps).deposits| > |h.deposits|
  }

  /** The first position of a log, from `h` on, where a READY tells of an NCCL operation that has finished since:
      if one has finished already, the READY for it may still come first. */
  function FreshFrom(h: Hub, c: nat): nat
    requires c in h.listeners.logs
  {
    |h.listeners.logs[c]| + if h.phase == Copied then 1 else 0
  }

  /** The chunk holds a READY that was sent after `h`, and not for an operation that had finished by then. */
  ghost predicate FreshReady(h: Hub, c: nat, p: nat, chunk: seq<Signal>)
    requires c in h.listeners.logs && p <= |h.listeners.logs[c]|
  {
    exists i :: FreshFrom(h, c) - p <= i < |chunk| && chunk[i] == Ready
  }

  /** A READY from the fresh position on comes after a further NCCL operation. */
  ghost predicate Later(h: Hub, t: Hub, c: nat)
    requires c in h.listeners.logs
  {
    && c in t.listeners.logs && |h.listeners.logs[c]| <= |t.listeners.logs[c]| && |h.deposits| <= |t.deposits|
    && (t.phase == Copied ==> |h.deposits| < |t.deposits| || |t.listeners.logs[c]| < FreshFrom(h, c))
    && forall i :: FreshFrom(h, c) <= i < |t.listeners.logs[c]| && t.listeners.logs[c][i].signal == Ready ==>
         |h.deposits| < |t.deposits|
  }

  lemma {:induction false} LaterStep(h: Hub, t: Hub, c: nat, step: Step)
    requires c in h.listeners.logs && Later(h, t, c) && Enabled(t, step)
    ensures Later(h, Next(t, step), c)
  {}

  lemma {:induction false} LaterRun(h: Hub, t: Hub, c: nat, steps: seq<Step>)
    requires c in h.listeners.logs && Later(h, t, c) && EnabledRun(t, steps)
    ensures Later(h, Run(t, steps), c)
    decreases |steps|
  {
    if steps != [] {
      LaterStep(h, t, c, steps[0]);
      LaterRun(h, Next(t, steps[0]), c, steps[1..]);
    }
  }

  /** Transfers that are announced and given up, n times, and one that is announced. */
  function Announcements(content: seq<D.Byte>, n: nat): (steps: seq<Step>)
    ensures |steps| > 0
  {
    if n == 0 then [Announce({})] else [Announce({}), GiveUp(content)] + Announcements(content, n - 1)
  }

  /** `t` has sent n more PRE_UPDATEs than `h` to the consumer, and nothing else has happened. */
  ghost predicate OnlyAnnounced(h: Hub, t: Hub, c: nat, n: nat) {
    && t.deposits == h.deposits && t.content == h.content && c in t.listeners.sockets
    && c in h.listeners.logs && c in t.listeners.logs
    && |t.listeners.logs[c]| == |h.listeners.logs[c]| + n && h.listeners.logs[c] <= t.listeners.logs[c]
    && forall i :: |h.listeners.logs[c]| <= i < |t.listeners.logs[c]| ==> t.listeners.logs[c][i].signal == PreUpdate
  }

  lemma AnnouncedOnce(h: Hub, t: Hub, c: nat, n: nat)
    requires OnlyAnnounced(h, t, c, n)
    ensures OnlyAnnounced(h, Next(t, Announce({})), c, n + 1)
    ensures OnlyAnnounced(h, Next(Next(t, Announce({})), GiveUp(t.content)), c, n + 1)
  {
    var u := Next(t, Announce({}));
    assert u.listeners.logs[c] == t.listeners.logs[c] + [NoteOf(t, PreUpdate)];
  }

  lemma {:induction false} RunTwo(h: Hub, a: Step, b: Step, rest: seq<Step>)
    ensures Run(h, [a, b] + rest) == Run(Next(Next(h, a), b), rest)
    ensures EnabledRun(h, [a, b] + rest) <==>
            Enabled(h, a) && Enabled(Next(h, a), b) && EnabledRun(Next(Next(h, a), b), rest)
  {
    hide Next, Enabled;
    assert ([a, b] + rest)[1..] == [b] + rest && ([b] + rest)[1..] == rest;
  }

  lemma {:induction false} AnnouncementsRun(h: Hub, t: Hub, c: nat, m: nat, n: nat)
    requires OnlyAnnounced(h, t, c, m) && t.phase == Idle
    ensures EnabledRun(t, Announcements(t.content, n))
    ensures OnlyAnnounced(h, Run(t, Announcements(t.content, n)), c, m + n + 1)
    decreases n
  {
    AnnouncedOnce(h, t, c, m);
    if n == 0 {
      AnnouncementsStep(t, 0);
    } else {
      AnnouncementsRun(h, Next(Next(t, Announce({})), GiveUp(t.content)), c, m + 1, n - 1);
      AnnouncementsGrow(h, t, c, m, n);
    }
  }

  lemma AnnouncementsGrow(h: Hub, t: Hub, c: nat, m: nat, n: nat)
    requires t.phase == Idle && n > 0
    requires var u := Next(Next(t, Announce({})), GiveUp(t.content));
             EnabledRun(u, Announcements(u.content, n - 1))
             && OnlyAnnounced(h, Run(u, Announcements(u.content, n - 1)), c, m + n + 1)
    ensures EnabledRun(t, Announcements(t.content, n))
    ensures OnlyAnnounced(h, Run(t, Announcements(t.content, n)), c, m + n + 1)
  {
    hide *;
    AnnouncementsStep(t, n);
  }

  /** The announcements, from their first step on. */
  lemma {:induction false} AnnouncementsStep(t: Hub, n: nat)
    requires t.phase == Idle
    ensures var steps, t1 := Announcements(t.content, n), Next(t, Announce({}));
            var t2, rest := Next(t1, GiveUp(t.content)), if n == 0 then [] else Announcements(t.content, n - 1);
            && t2.content == t.content && t2.phase == Idle
            && Run(t, steps) == (if n == 0 then t1 else Run(t2, rest))
            && (EnabledRun(t, steps) <==> n == 0 || EnabledRun(t2, rest))
  {
    if n == 0 {
      assert Announcements(t.content, 0)[1..] == [];
    } else {
      RunTwo(t, Announce({}), GiveUp(t.content), Announcements(t.content, n - 1));
    }
  }

  /** n transfers of which the consumer only hears the PRE_UPDATE. */
  function QuietRest(content: seq<D.Byte>, n: nat): seq<Step> {
    if n == 0 then [] else Announcements(content, n - 1)
  }

  /** What may be sent after `h` without a further NCCL operation: in the phase after a copy perhaps its READY, and
      then PRE_UPDATEs of transfers that are given up. */
  function QuietSteps(h: Hub, sent: seq<Signal>): seq<Step> {
    if sent == [] || h.phase == Idle then QuietRest(h.content, |sent|)
    else if sent[0] == Ready then [Finish({})] + QuietRest(h.content, |sent| - 1)
    else [GiveUp(h.content)] + QuietRest(h.content, |sent|)
  }

  /** `t` has sent exactly `sent` more than `h` to the consumer, and no NCCL operation has finished. */
  ghost predicate QuietlySent(h: Hub, t: Hub, c: nat, sent: seq<Signal>) {
    && t.deposits == h.deposits && c in h.listeners.logs && c in t.listeners.logs
    && h.listeners.logs[c] <= t.listeners.logs[c] && SentSince(t, c, |h.listeners.logs[c]|) == sent
  }

  lemma OnlyAnnouncedSent(h: Hub, u: Hub, t: Hub, c: nat, first: seq<Signal>, sent: seq<Signal>)
    requires first <= sent && QuietlySent(h, u, c, first) && OnlyAnnounced(u, t, c, |sent| - |first|)
    requires forall i :: |first| <= i < |sent| ==> sent[i] == PreUpdate
    ensures QuietlySent(h, t, c, sent)
  {
    var p, q := |h.listeners.logs[c]|, |u.listeners.logs[c]|;
    assert q == p + |first|;
    forall i | 0 <= i < |sent|
      ensures t.listeners.logs[c][p + i].signal == sent[i]
    {
      if i < |first| {
        assert SentSince(u, c, p)[i] == first[i];
        assert t.listeners.logs[c][p + i] == u.listeners.logs[c][p + i];
      }
    }
  }

  /** The step after which only announcements follow. */
  lemma {:induction false} FirstQuietStep(h: Hub, c: nat, step: Step)
    requires c in h.listeners.sockets && c in h.listeners.logs && h.phase != Idle
    requires step == GiveUp(h.content) || (step == Finish({}) && h.phase == Copied)
    ensures var u := Next(h, step);
            && Enabled(h, step) && u.phase == Idle && u.content == h.content
            && c in u.listeners.sockets && c in u.listeners.logs
            && QuietlySent(h, u, c, if step.Finish? then [Ready] else [])
  {
    var u := Next(h, step);
    if step.Finish? {
      assert u.listeners.logs[c] == h.listeners.logs[c] + [NoteOf(h, Ready)];
      assert SentSince(u, c, |h.listeners.logs[c]|) == [Ready];
    }
  }

  lemma {:induction false} RunOne(h: Hub, a: Step, rest: seq<Step>)
    ensures Run(h, [a] + rest) == Run(Next(h, a), rest)
    ensures EnabledRun(h, [a] + rest) <==> Enabled(h, a) && EnabledRun(Next(h, a), rest)
  {
    hide Next, Enabled;
    assert ([a] + rest)[1..] == rest;
  }

  lemma {:induction false} QuietRun(h: Hub, c: nat, sent: seq<Signal>)
    requires c in h.listeners.sockets && c in h.listeners.logs
    requires forall i :: 0 <= i < |sent| && sent[i] == Ready ==> i == 0 && h.phase == Copied
    ensures EnabledRun(h, QuietSteps(h, sent)) && QuietlySent(h, Run(h, QuietSteps(h, sent)), c, sent)
  {
    hide Next, Enabled, QuietRest, Run, EnabledRun, QuietlySent, SentSince;
    assert forall i :: 0 <= i < |sent| ==> sent[i] == PreUpdate || sent[i] == Ready;
    NothingSent(h, c);
    if sent == [] || h.phase == Idle {
      QuietFrom(h, h, c, [], sent);
    } else if sent[0] == Ready {
      QuietAfter(h, c, Finish({}), [Ready], sent);
    } else {
      QuietAfter(h, c, GiveUp(h.content), [], sent);
    }
  }

  lemma NothingSent(h: Hub, c: nat)
    requires c in h.listeners.logs
    ensures QuietlySent(h, h, c, [])
  {
    assert SentSince(h, c, |h.listeners.logs[c]|) == [];
  }

  lemma {:induction false} QuietAfter(h: Hub, c: nat, step: Step, first: seq<Signal>, sent: seq<Signal>)
    requires c in h.listeners.sockets && c in h.listeners.logs && h.phase != Idle
    requires step == GiveUp(h.content) || (step == Finish({}) && h.phase == Copied)
    requires first == (if step.Finish? then [Ready] else []) && first <= sent
    requires forall i :: |first| <= i < |sent| ==> sent[i] == PreUpdate
    ensures var steps := [step] + QuietRest(h.content, |sent| - |first|);
            EnabledRun(h, steps) && QuietlySent(h, Run(h, steps), c, sent)
  {
    FirstQuietStep(h, c, step);
    RunOne(h, step, QuietRest(h.content, |sent| - |first|));
    hide *;
    QuietFrom(h, Next(h, step), c, first, sent);
  }

  lemma {:induction false} QuietFrom(h: Hub, u: Hub, c: nat, first: seq<Signal>, sent: seq<Signal>)
    requires QuietlySent(h, u, c, first) && c in u.listeners.sockets && c in u.listeners.logs
    requires first <= sent && (first < sent ==> u.phase == Idle)
    requires forall i :: |first| <= i < |sent| ==> sent[i] == PreUpdate
    ensures var steps := QuietRest(u.content, |sent| - |first|);
            EnabledRun(u, steps) && QuietlySent(h, Run(u, steps), c, sent)
  {
    if first < sent {
      QuietAnnouncements(h, u, c, first, sent);
    } else {
      assert first == sent;
    }
  }

  lemma {:induction false} QuietAnnouncements(h: Hub, u: Hub, c: nat, first: seq<Signal>, sent: seq<Signal>)
    requires QuietlySent(h, u, c, first) && u.phase == Idle && c in u.listeners.sockets && c in u.listeners.logs
    requires first < sent && forall i :: |first| <= i < |sent| ==> sent[i] == PreUpdate
    ensures var steps := Announcements(u.content, |sent| - |first| - 1);
            EnabledRun(u, steps) && QuietlySent(h, Run(u, steps), c, sent)
  {
    var n := |sent| - |first| - 1;
    AnnouncementsRun(u, u, c, 0, n);
    hide QuietlySent, OnlyAnnounced;
    OnlyAnnouncedSent(h, u, Run(u, Announcements(u.content, n)), c, first, sent);
  }

  /** The chunk may come about without a further NCCL operation. */
  lemma {:induction false} QuietChunk(h: Hub, c: nat, p: nat, chunk: seq<Signal>)
    requires c in h.listeners.sockets && c in h.listeners.logs && p <= |h.listeners.logs[c]|
    requires chunk <= SentSince(h, c, p) || SentSince(h, c, p) <= chunk
    requires !FreshReady(h, c, p, chunk)
    ensures !SurelyCopied(h, c, p, chunk)
  {
    var k := |h.listeners.logs[c]| - p;
    var sent := if |chunk| <= k then [] else chunk[k..];
    forall i | 0 <= i < |sent| && sent[i] == Ready
      ensures i == 0 && h.phase == Copied
    {
      assert chunk[k + i] == Ready;
    }
    QuietRun(h, c, sent);
    var t := Run(h, QuietSteps(h, sent));
    hide Run, EnabledRun, QuietSteps;
    ChunkOf(h, t, c, p, sent, chunk);
    assert Received(h, t, c, p, chunk);
  }

  lemma {:induction false} ChunkOf(h: Hub, t: Hub, c: nat, p: nat, sent: seq<Signal>, chunk: seq<Signal>)
    requires QuietlySent(h, t, c, sent) && p <= |h.listeners.logs[c]|
    requires var k := |h.listeners.logs[c]| - p; sent == if |chunk| <= k then [] else chunk[k..]
    requires chunk <= SentSince(h, c, p) || SentSince(h, c, p) <= chunk
    ensures Received(h, t, c, p, chunk)
  {
    var k, q := |h.listeners.logs[c]| - p, |h.listeners.logs[c]|;
    forall i | 0 <= i < |chunk|
      ensures i < |SentSince(t, c, p)| && SentSince(t, c, p)[i] == chunk[i]
    {
      if i < k {
        assert SentSince(h, c, p)[i] == chunk[i];
        assert t.listeners.logs[c][p + i] == h.listeners.logs[c][p + i];
      } else {
        assert SentSince(t, c, q)[i - k] == sent[i - k];
      }
    }
  }

  /** Exactly when a consumer may take the return of its wait for the arrival of an update. Whatever the phase, and
      whatever it has left unread, an NCCL operation has surely finished since `h` if and only if the chunk holds a
      READY that was sent after `h`, other than the first signal after `h` if that follows a copy. */
  lemma {:induction false} WaitCopiedIff(h: Hub, c: nat, p: nat, chunk: seq<Signal>)
    requires c in h.listeners.sockets && c in h.listeners.logs && p <= |h.listeners.logs[c]|
    requires chunk <= SentSince(h, c, p) || SentSince(h, c, p) <= chunk
    ensures SurelyCopied(h, c, p, chunk) <==> FreshReady(h, c, p, chunk)
  {
    if FreshReady(h, c, p, chunk) {
      forall steps | EnabledRun(h, steps) && Received(h, Run(h, steps), c, p, chunk)
        ensures |Run(h, steps).deposits| > |h.deposits|
      {
        LaterRun(h, h, c, steps);
        var i :| FreshFrom(h, c) - p <= i < |chunk| && chunk[i] == Ready;
        assert SentSince(Run(h, steps), c, p)[i] == Ready;
      }
    } else {
      QuietChunk(h, c, p, chunk);
    }
  }

  /** One transfer, from the PRE_UPDATE to the READY pass. */
  function Transfer(h: Hub, bytes: seq<D.Byte>, f: set<nat>, g: set<nat>): Hub {
    Next(Next(Next(h, Announce(f)), Copy(bytes)), Finish(g))
  }

  lemma TransferKeeps(h: Hub, bytes: seq<D.Byte>, f: set<nat>, g: set<nat>)
    requires Inv(h) && h.phase == Idle
    ensures var t := Transfer(h, bytes, f, g); Inv(t) && t.phase == Idle && t.content == bytes
  {
    InvStep(h, Announce(f));
    InvStep(Next(h, Announce(f)), Copy(bytes));
    InvStep(Next(Next(h, Announce(f)), Copy(bytes)), Finish(g));
    hide Inv, Passed;
  }

  /** What a transfer sends to a consumer that both passes reach. */
  lemma TransferSends(h: Hub, c: nat, bytes: seq<D.Byte>, f: set<nat>, g: set<nat>)
    requires Valid(h.listeners) && c in h.listeners.sockets && c !in f && c !in g
    ensures var t := Transfer(h, bytes, f, g);
            && c in t.listeners.sockets && c in t.listeners.logs
            && t.listeners.logs[c] == h.listeners.logs[c]
                                      + [NoteOf(h, PreUpdate), Note(Ready, bytes, |h.deposits| + 1, h.packs)]
  {
    var n1, n2 := NoteOf(h, PreUpdate), Note(Ready, bytes, |h.deposits| + 1, h.packs);
    PassReaches(h.listeners, n1, f, c);
    PassReaches(Passed(h.listeners, n1, f), n2, g, c);
    TransferPasses(h, bytes, f, g);
    hide *;
    assert h.listeners.logs[c] + [n1] + [n2] == h.listeners.logs[c] + [n1, n2];
  }

  lemma PassReaches(l: Listeners, note: Note, failing: set<nat>, c: nat)
    requires Valid(l) && c in l.sockets && c !in failing
    ensures var r := Passed(l, note, failing);
            Valid(r) && c in r.sockets && c in l.logs && c in r.logs && r.logs[c] == l.logs[c] + [note]
  {
    PassSends(l, note, failing);
  }

  lemma TransferPasses(h: Hub, bytes: seq<D.Byte>, f: set<nat>, g: set<nat>)
    ensures Transfer(h, bytes, f, g).listeners
         == Passed(Passed(h.listeners, NoteOf(h, PreUpdate), f), Note(Ready, bytes, |h.deposits| + 1, h.packs), g)
  {
    hide Passed;
  }

  /** A wait that gets READY out of what was unread already returns with READY although surely nothing need have
      been copied since. */
  lemma UnreadReady(h: Hub, c: nat, p: nat, chunk: seq<Signal>, closed: bool)
    requires c in h.listeners.sockets && c in h.listeners.logs && p <= |h.listeners.logs[c]|
    requires chunk <= SentSince(h, c, p) && Ready in chunk
    ensures WaitForReady(chunk, closed) == Returns(true) && !SurelyCopied(h, c, p, chunk)
  {
    WaitCopiedIff(h, c, p, chunk);
  }

  /** A consumer whose wait returned at the PRE_UPDATE leaves the READY of that transfer unread: its next wait
      returns at once, with READY, before the next transfer has begun; no copy need have happened since. */
  lemma StaleReady(h: Hub, c: nat, bytes: seq<D.Byte>, f: set<nat>, g: set<nat>, closed: bool)
    requires Inv(h) && h.phase == Idle && c in h.listeners.sockets && c !in f && c !in g
    ensures var t, p := Transfer(h, bytes, f, g), |h.listeners.logs[c]| + 1;
            && c in t.listeners.logs && p <= |t.listeners.logs[c]| && t.phase == Idle
            && WaitForReady(SentSince(t, c, p), closed) == Returns(true)
            && !SurelyCopied(t, c, p, SentSince(t, c, p))
  {
    TransferKeeps(h, bytes, f, g);
    TransferSends(h, c, bytes, f, g);
    var t, p := Transfer(h, bytes, f, g), |h.listeners.logs[c]| + 1;
    assert SentSince(t, c, p)[0] == Ready;
    UnreadReady(t, c, p, SentSince(t, c, p), closed);
  }
}

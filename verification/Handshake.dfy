/** The TCP handshake before an NCCL transfer: five text lines and a 128-byte NCCL id. A wire is a
    sequence of fragments; each char stands for one byte, text being its UTF-8 form. */
module Handshake {
  import opened Text

  const NCCL_ID_LENGTH: nat := 128
  const RECV_SIZE: nat := 1024
  const SCATTER := 1

  datatype Message = Message(bufferId: string, worldSize: int, rank: int, mode: int,
                             offset: int, length: int, ncclId: string)

  // ----- The sender -----

  function Fields(m: Message): seq<string> {
    [m.bufferId, Show(m.worldSize), Show(m.rank), Show(m.mode), Show(m.offset) + "," + Show(m.length)]
  }

  function Lines(fields: seq<string>): string {
    if fields == [] then "" else fields[0] + "\n" + Lines(fields[1..])
  }

  function Encode(m: Message): string {
    Lines(Fields(m)) + m.ncclId
  }

  /** What the source ever sends: 128 id bytes, ranks from 1 on, and a range only in scatter mode. */
  predicate Sendable(m: Message) {
    |m.ncclId| == NCCL_ID_LENGTH && m.rank > 0 && (m.mode != SCATTER ==> m.offset == 0 && m.length == 0)
  }

  // ----- The receiver -----

  function Flat(chunks: seq<string>): string {
    if chunks == [] then "" else chunks[0] + Flat(chunks[1..])
  }

  /** No fragment is empty: an empty `recv` means that the peer has closed. */
  predicate Fragments(chunks: seq<string>) {
    forall i :: 0 <= i < |chunks| ==> chunks[i] != ""
  }

  /** `conn.recv(n)`: bytes of one fragment, at most n. */
  function Recv(chunks: seq<string>, n: nat): (r: (string, seq<string>)) {
    if chunks == [] then ("", [])
    else if |chunks[0]| <= n then (chunks[0], chunks[1..])
    else (chunks[0][..n], [chunks[0][n..]] + chunks[1..])
  }

  lemma {:induction false} Reassociate(a: string, b: string, c: string)
    ensures a + b + c == a + (b + c)
  {}

  lemma {:induction false} RecvSplits(chunks: seq<string>, n: nat)
    requires Fragments(chunks) && n > 0
    ensures var (got, rest) := Recv(chunks, n);
            && Fragments(rest) && got + Flat(rest) == Flat(chunks) && |got| <= n
            && (got == "" <==> chunks == [])
  {
    if chunks != [] && |chunks[0]| > n {
      var (got, rest) := Recv(chunks, n);
      assert rest[1..] == chunks[1..];
      Reassociate(got, chunks[0][n..], Flat(chunks[1..]));
    }
  }

  /** `s.split(c, n)`. */
  function SplitN(s: string, c: char, n: nat): (parts: seq<string>)
    ensures 1 <= |parts| <= n + 1
    decreases n
  {
    var i := FirstAt(s, c);
    FirstAtBound(s, c);
    if n == 0 || i == |s| then [s] else [s[..i]] + SplitN(s[i + 1..], c, n - 1)
  }

  lemma {:induction false} FirstAtBound(s: string, c: char)
    ensures FirstAt(s, c) <= |s| && (FirstAt(s, c) < |s| ==> s[FirstAt(s, c)] == c)
    ensures forall i :: 0 <= i < |s| && s[i] == c ==> FirstAt(s, c) <= i
  {
    if s != "" && s[0] != c {
      FirstAtBound(s[1..], c);
      forall i | 0 <= i < |s| && s[i] == c
        ensures FirstAt(s, c) <= i
      {
        assert i > 0 && s[1..][i - 1] == c;
      }
    }
  }

  /** The header fields of the bytes held after the first loop; `tail` are the id bytes among them. */
  datatype Parsed = Parsed(bufferId: string, worldSize: int, rank: int, mode: int,
                           offset: int, length: int, tail: string)

  /** The two numbers of a range. */
  function ReadRange(text: string): Option<(int, int)> {
    var meta := SplitN(text, ',', 2);
    if |meta| < 2 || ParseInt(meta[0]).None? || ParseInt(meta[1]).None? then None
    else Some((ParseInt(meta[0]).value, ParseInt(meta[1]).value))
  }

  function ParseParts(parts: seq<string>): Option<Parsed> {
    if |parts| < 3 then None else
    var worldSize, rank := ParseInt(parts[1]), ParseInt(parts[2]);
    var mode := if |parts| > 4 then ParseInt(parts[3]) else Some(0);
    if worldSize.None? || rank.None? || mode.None? then None else
    var range := if mode.value == SCATTER && |parts| > 5 then ReadRange(parts[4]) else Some((0, 0));
    if range.None? then None else
    Some(Parsed(parts[0], worldSize.value, rank.value, mode.value, range.value.0, range.value.1, parts[|parts| - 1]))
  }

  /** None where the handler raises. */
  function ParseHeld(held: string): Option<Parsed> {
    ParseParts(SplitN(held, '\n', 5))
  }

  /** The first loop: receive until a newline is held or the peer has closed. */
  function Gather(held: string, chunks: seq<string>): (string, seq<string>)
    requires Fragments(chunks)
    decreases |Flat(chunks)|
  {
    if FirstAt(held, '\n') < |held| then (held, chunks) else
    var (got, rest) := Recv(chunks, RECV_SIZE);
    RecvSplits(chunks, RECV_SIZE);
    if got == "" then (held, rest) else Gather(held + got, rest)
  }

  /** The second loop: fill the id up to 128 bytes. None if the peer closes before: the loop spins. */
  function Fill(tail: string, rest: string): Option<string> {
    if |tail| >= NCCL_ID_LENGTH then Some(tail)
    else if |tail + rest| >= NCCL_ID_LENGTH then Some((tail + rest)[..NCCL_ID_LENGTH])
    else None
  }

  /** How a connection ends before the buffer lookup: nothing received, an exception, spinning on a
      closed peer, or a message. */
  datatype Outcome = Silent | Raised | Spinning | Received(message: Message)

  function Understand(chunks: seq<string>): Outcome
    requires Fragments(chunks)
  {
    var (held, rest) := Gather("", chunks);
    if held == "" then Silent else
    match ParseHeld(held)
    case None => Raised
    case Some(p) =>
      match Fill(p.tail, Flat(rest))
      case None => Spinning
      case Some(id) => Received(Message(p.bufferId, p.worldSize, p.rank, p.mode, p.offset, p.length, id))
  }

  class Connection {
    var chunks: seq<string>

    constructor (chunks: seq<string>)
      ensures this.chunks == chunks
    {
      this.chunks := chunks;
    }

    method Receive(n: nat) returns (got: string)
      modifies this
      ensures (got, chunks) == Recv(old(chunks), n)
    {
      if chunks == [] {
        got := "";
      } else if |chunks[0]| <= n {
        got, chunks := chunks[0], chunks[1..];
      } else {
        got, chunks := chunks[0][..n], [chunks[0][n..]] + chunks[1..];
      }
    }
  }

  /** Receives until a newline is held or the peer has closed. */
  method ReceiveHeader(conn: Connection) returns (buf: string)
    requires Fragments(conn.chunks)
    modifies conn
    ensures (buf, conn.chunks) == Gather("", old(conn.chunks)) && Fragments(conn.chunks)
  {
    buf := "";
    while FirstAt(buf, '\n') == |buf|
      invariant Fragments(conn.chunks)
      invariant Gather(buf, conn.chunks) == Gather("", old(conn.chunks))
      decreases |Flat(conn.chunks)|
    {
      RecvSplits(conn.chunks, RECV_SIZE);
      var chunk := conn.Receive(RECV_SIZE);
      if chunk == "" {
        break;
      }
      buf := buf + chunk;
    }
    FirstAtBound(buf, '\n');
  }

  /** Receives until the id has its 128 bytes; None when the peer closes before. */
  method ReceiveId(conn: Connection, tail: string) returns (id: Option<string>)
    requires Fragments(conn.chunks)
    modifies conn
    ensures id == Fill(tail, Flat(old(conn.chunks)))
  {
    var held := tail;
    ghost var rest := Flat(conn.chunks);
    while |held| < NCCL_ID_LENGTH
      invariant Fragments(conn.chunks)
      invariant held + Flat(conn.chunks) == tail + rest
      invariant |tail| >= NCCL_ID_LENGTH ==> held == tail
      invariant |tail| < NCCL_ID_LENGTH ==> |held| <= NCCL_ID_LENGTH
      decreases NCCL_ID_LENGTH - |held|
    {
      RecvSplits(conn.chunks, NCCL_ID_LENGTH - |held|);
      var chunk := conn.Receive(NCCL_ID_LENGTH - |held|);
      if chunk == "" {
        return None;
      }
      Reassociate(held, chunk, Flat(conn.chunks));
      held := held + chunk;
    }
    assert |tail| < NCCL_ID_LENGTH ==> (held + Flat(conn.chunks))[..NCCL_ID_LENGTH] == held;
    return Some(held);
  }

  /** The receiving half of `handle_target_connection`. */
  method ReceiveHandshake(conn: Connection) returns (outcome: Outcome)
    requires Fragments(conn.chunks)
    modifies conn
    ensures outcome == Understand(old(conn.chunks))
  {
    var buf := ReceiveHeader(conn);
    if buf == "" {
      return Silent;
    }
    var parsed := ParseHeld(buf);
    if parsed.None? {
      return Raised;
    }
    var p := parsed.value;
    var id := ReceiveId(conn, p.tail);
    if id.None? {
      return Spinning;
    }
    return Received(Message(p.bufferId, p.worldSize, p.rank, p.mode, p.offset, p.length, id.value));
  }
}

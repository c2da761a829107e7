/** Exactly when a sent handshake message is received as it was sent. */
module HandshakeRoundTrip {
  import opened Text
  import opened Handshake

  lemma {:induction false} SplitOne(a: string, rest: string, c: char, n: nat)
    requires Free(c, a)
    ensures SplitN(a + [c] + rest, c, n + 1) == [a] + SplitN(rest, c, n)
  {
    var s := a + [c] + rest;
    assert s == a + ([c] + rest);
    FirstAfterFree(a, [c] + rest, c);
    assert s[..|a|] == a && s[|a| + 1..] == rest;
  }

  lemma {:induction false} SplitLines(fields: seq<string>, rest: string)
    requires forall i :: 0 <= i < |fields| ==> Free('\n', fields[i])
    ensures SplitN(Lines(fields) + rest, '\n', |fields|) == fields + [rest]
  {
    if fields == [] {
      assert Lines(fields) + rest == rest;
    } else {
      var f, more := fields[0], Lines(fields[1..]) + rest;
      assert Lines(fields) + rest == f + ['\n'] + more;
      SplitOne(f, more, '\n', |fields| - 1);
      SplitLines(fields[1..], rest);
      assert fields + [rest] == [f] + (fields[1..] + [rest]);
    }
  }

  lemma {:induction false} SliceBehind(a: string, s: string, lo: nat, hi: nat)
    requires lo <= hi <= |s|
    ensures (a + s)[|a| + lo..|a| + hi] == s[lo..hi]
  {}

  lemma {:induction false} SlicePrefix(s: string, lo: nat, mid: nat, hi: nat)
    requires lo <= mid <= hi <= |s|
    ensures s[lo..hi][..mid - lo] == s[lo..mid]
  {}

  lemma {:induction false} ConsTake(s: seq<string>, k: nat, x: string)
    requires k < |s|
    ensures [s[0]] + (s[1..][..k] + [x]) == s[..k + 1] + [x]
  {}

  /** The line in which position h lies, and where that line starts. */
  function LineAt(fields: seq<string>, h: nat): (k: nat)
    requires h < |Lines(fields)|
    ensures k < |fields|
  {
    if h <= |fields[0]| then 0 else 1 + LineAt(fields[1..], h - |fields[0]| - 1)
  }

  function LineStart(fields: seq<string>, k: nat): nat
    requires k <= |fields|
  {
    if k == 0 then 0 else |fields[0]| + 1 + LineStart(fields[1..], k - 1)
  }

  /** Position h lies in its line, which is the k-th of the text. */
  lemma {:induction false} LineBounds(fields: seq<string>, h: nat)
    requires h < |Lines(fields)|
    ensures var k := LineAt(fields, h); LineStart(fields, k) <= h <= LineStart(fields, k) + |fields[k]|
    ensures var k := LineAt(fields, h);
            LineStart(fields, k) + |fields[k]| < |Lines(fields)|
            && Lines(fields)[LineStart(fields, k)..LineStart(fields, k) + |fields[k]|] == fields[k]
  {
    var f, s := fields[0], Lines(fields[1..]);
    assert Lines(fields) == f + ['\n'] + s;
    if h > |f| {
      var h' := h - |f| - 1;
      LineBounds(fields[1..], h');
      var k := LineAt(fields[1..], h');
      var lo := LineStart(fields[1..], k);
      SliceBehind(f + ['\n'], s, lo, lo + |fields[1..][k]|);
    }
  }

  /** Cut at h, the text splits into the lines before, and the beginning of the line that is cut. */
  lemma {:induction false} SplitCutLines(fields: seq<string>, h: nat, n: nat)
    requires forall i :: 0 <= i < |fields| ==> Free('\n', fields[i])
    requires h < |Lines(fields)| && n >= |fields|
    ensures LineStart(fields, LineAt(fields, h)) <= h
    ensures SplitN(Lines(fields)[..h], '\n', n)
         == fields[..LineAt(fields, h)] + [Lines(fields)[LineStart(fields, LineAt(fields, h))..h]]
    decreases |fields|
  {
    var f, s := fields[0], Lines(fields[1..]);
    assert Lines(fields) == f + ['\n'] + s;
    if h <= |f| {
      SplitFirstLine(f, s, h, n);
    } else {
      var h' := h - |f| - 1;
      SplitCutLines(fields[1..], h', n - 1);
      var k := LineAt(fields[1..], h');
      var lo := LineStart(fields[1..], k);
      assert LineAt(fields, h) == k + 1 && LineStart(fields, k + 1) == |f| + 1 + lo;
      hide SplitN, Lines, LineAt, LineStart;
      SplitBehindFirst(fields, s, h', n, k, lo);
    }
  }

  lemma {:induction false} SplitBehindFirst(fields: seq<string>, s: string, h: nat, n: nat, k: nat, lo: nat)
    requires fields != [] && Free('\n', fields[0]) && lo <= h < |s| && n > 0 && k < |fields[1..]|
    requires SplitN(s[..h], '\n', n - 1) == fields[1..][..k] + [s[lo..h]]
    ensures var f := fields[0];
            SplitN((f + ['\n'] + s)[..|f| + 1 + h], '\n', n)
            == fields[..k + 1] + [(f + ['\n'] + s)[|f| + 1 + lo..|f| + 1 + h]]
  {
    hide *;
    var f := fields[0];
    SplitLater(f, s, h, n);
    SliceBehind(f + ['\n'], s, lo, h);
    ConsTake(fields, k, s[lo..h]);
  }

  lemma {:induction false} SplitFirstLine(f: string, s: string, h: nat, n: nat)
    requires Free('\n', f) && h <= |f|
    ensures SplitN((f + ['\n'] + s)[..h], '\n', n) == [(f + ['\n'] + s)[..h]]
  {
    var last := (f + ['\n'] + s)[..h];
    assert last == f[..h] == last + "";
    FirstAfterFree(last, "", '\n');
  }

  lemma {:induction false} SplitLater(f: string, s: string, h: nat, n: nat)
    requires Free('\n', f) && h < |s| && n > 0
    ensures SplitN((f + ['\n'] + s)[..|f| + 1 + h], '\n', n) == [f] + SplitN(s[..h], '\n', n - 1)
  {
    assert (f + ['\n'] + s)[..|f| + 1 + h] == f + ['\n'] + s[..h];
    SplitOne(f, s[..h], '\n', n - 1);
  }

  lemma {:induction false} FieldsFree(m: Message)
    requires Free('\n', m.bufferId)
    ensures forall i :: 0 <= i < 5 ==> Free('\n', Fields(m)[i])
  {
    ShowIsFree(m.worldSize, '\n');
    ShowIsFree(m.rank, '\n');
    ShowIsFree(m.mode, '\n');
    ShowIsFree(m.offset, '\n');
    ShowIsFree(m.length, '\n');
  }

  lemma {:induction false} RangeReads(offset: int, length: int)
    ensures ReadRange(Show(offset) + "," + Show(length)) == Some((offset, length))
  {
    var a, b := Show(offset), Show(length);
    ShowIsFree(offset, ',');
    ShowIsFree(length, ',');
    hide Show, Decimal, ParseInt;
    assert a + "," + b == a + [','] + b;
    SplitOne(a, b, ',', 1);
    FirstAfterFree(b, "", ',');
    assert b + "" == b;
    assert SplitN(a + "," + b, ',', 2) == [a, b];
    ParseShow(offset);
    ParseShow(length);
  }

  /** The five fields and the id's beginning read back. */
  lemma {:induction false} PartsRead(m: Message, idPrefix: string)
    requires Sendable(m)
    ensures ParseParts(Fields(m) + [idPrefix])
         == Some(Parsed(m.bufferId, m.worldSize, m.rank, m.mode, m.offset, m.length, idPrefix))
  {
    ParseShow(m.worldSize);
    ParseShow(m.rank);
    ParseShow(m.mode);
    RangeReads(m.offset, m.length);
    hide Show, Decimal, ParseInt, ReadRange;
    assert (Fields(m) + [idPrefix])[4] == Show(m.offset) + "," + Show(m.length);
  }

  /** The whole header is held: every field reads back. */
  lemma {:induction false} ParseWhole(m: Message, idPrefix: string)
    requires Free('\n', m.bufferId) && Sendable(m)
    ensures ParseHeld(Lines(Fields(m)) + idPrefix)
         == Some(Parsed(m.bufferId, m.worldSize, m.rank, m.mode, m.offset, m.length, idPrefix))
  {
    FieldsFree(m);
    PartsRead(m, idPrefix);
    hide ParseParts, SplitN, Lines, Show;
    SplitLines(Fields(m), idPrefix);
  }

  lemma {:induction false} GatherHolds(held: string, chunks: seq<string>)
    requires Fragments(chunks)
    ensures var (buf, rest) := Gather(held, chunks);
            && Fragments(rest) && buf + Flat(rest) == held + Flat(chunks)
            && (FirstAt(buf, '\n') < |buf| || rest == [])
    decreases |Flat(chunks)|
  {
    FirstAtBound(held, '\n');
    if FirstAt(held, '\n') == |held| {
      var (got, rest) := Recv(chunks, RECV_SIZE);
      RecvSplits(chunks, RECV_SIZE);
      if got != "" {
        GatherHolds(held + got, rest);
        assert held + got + Flat(rest) == held + (got + Flat(rest));
      }
    }
  }

  lemma {:induction false} FirstAtPrefix(s: string, n: nat, c: char)
    requires n <= |s| && FirstAt(s[..n], c) < n
    ensures FirstAt(s, c) == FirstAt(s[..n], c)
  {
    if s[0] != c {
      assert s[..n][1..] == s[1..][..n - 1];
      FirstAtPrefix(s[1..], n - 1, c);
    }
  }

  /** What the first loop holds of a sent message: a prefix with the first newline in it. */
  lemma {:induction false} HeldPrefix(m: Message, chunks: seq<string>)
    requires Fragments(chunks) && Flat(chunks) == Encode(m)
    ensures var (held, rest) := Gather("", chunks);
            && |held| <= |Encode(m)| && held == Encode(m)[..|held|] && Flat(rest) == Encode(m)[|held|..]
            && FirstAt(held, '\n') == FirstAt(Encode(m), '\n') < |held|
  {
    var (held, rest) := Gather("", chunks);
    var s := Encode(m);
    GatherHolds("", chunks);
    assert "" + Flat(chunks) == s;
    assert held == s[..|held|] && Flat(rest) == s[|held|..];
    FirstAtBound(s, '\n');
    assert s[|m.bufferId|] == '\n';
    assert s[..|s|] == s;
    if rest == [] {
      assert held == s;
    }
    FirstAtPrefix(s, |held|, '\n');
  }

  lemma {:induction false} HeldWhole(s: string, header: string, id: string, held: string, rest: string)
    requires s == header + id && held + rest == s && |held| >= |header|
    ensures held == header + held[|header|..] && held[|header|..] + rest == id
  {
    assert held == s[..|held|] && rest == s[|held|..];
    assert held[|header|..] + rest == (held + rest)[|header|..];
  }

  /** A message whose header is held when the first loop ends is received as sent, whatever the id
      bytes are and however they are fragmented. */
  lemma {:induction false} RoundTrip(m: Message, chunks: seq<string>)
    requires Fragments(chunks) && Flat(chunks) == Encode(m) && Sendable(m)
    requires Free('\n', m.bufferId)
    requires |Gather("", chunks).0| >= |Lines(Fields(m))|
    ensures Understand(chunks) == Received(m)
  {
    var (held, rest) := Gather("", chunks);
    HeldPrefix(m, chunks);
    HeldWhole(Encode(m), Lines(Fields(m)), m.ncclId, held, Flat(rest));
    var idPrefix := held[|Lines(Fields(m))|..];
    hide Gather, ParseHeld, Flat, Fragments, Fields;
    ParseWhole(m, idPrefix);
    assert m.ncclId[..NCCL_ID_LENGTH] == m.ncclId;
  }

  // ----- Cut headers -----

  lemma {:induction false} NextLineStart(fields: seq<string>, k: nat)
    requires k < |fields|
    ensures LineStart(fields, k + 1) == LineStart(fields, k) + |fields[k]| + 1
  {
    if k > 0 {
      NextLineStart(fields[1..], k - 1);
    }
  }

  lemma {:induction false} PrefixAtMost(n: nat, i: nat)
    requires i <= |Decimal(n)|
    ensures DigitsValue(Decimal(n)[..i]) <= n
  {
    var s := Decimal(n);
    if i == |s| {
      ValueOfDecimal(n);
      assert s[..i] == s;
    } else if n >= 10 {
      assert s[..i] == Decimal(n / 10)[..i];
      PrefixAtMost(n / 10, i);
    }
  }

  /** The beginning of a positive numeral reads as the number only if it is the whole numeral. */
  lemma {:induction false} PrefixReads(n: int, i: nat)
    requires n > 0 && 0 < i <= |Show(n)|
    ensures ParseInt(Show(n)[..i]).Some?
    ensures ParseInt(Show(n)[..i]) == Some(n) <==> i == |Show(n)|
  {
    var s := Show(n);
    if i == |s| {
      assert s[..i] == s;
      ParseShow(n);
    } else if n >= 10 {
      assert s[..i] == Decimal(n / 10)[..i];
      PrefixAtMost(n / 10, i);
    }
  }

  /** The unfinished line of a header that is cut at h, and what is held of it. */
  function CutLine(m: Message, h: nat): nat
    requires h < |Lines(Fields(m))|
  {
    LineAt(Fields(m), h)
  }

  function CutTail(m: Message, h: nat): string
    requires h < |Lines(Fields(m))|
  {
    LineBounds(Fields(m), h);
    Lines(Fields(m))[LineStart(Fields(m), CutLine(m, h))..h]
  }

  /** The end of the second line: a header that is cut behind it can be parsed. */
  function Parsable(m: Message): nat {
    LineStart(Fields(m), 2)
  }

  /** The text held of the unfinished line is taken for the beginning of the id, and also for the rank if it
      stands in the rank's place; the mode is missed up to the last line, and the range always. */
  function CutParsed(m: Message, h: nat): Parsed
    requires h < |Lines(Fields(m))|
  {
    var k, tail := CutLine(m, h), CutTail(m, h);
    Parsed(m.bufferId, m.worldSize, if k == 2 && ParseInt(tail).Some? then ParseInt(tail).value else m.rank,
           if k == 4 then m.mode else 0, 0, 0, tail)
  }

  lemma {:induction false} CutParts(m: Message, k: nat, tail: string)
    requires Sendable(m) && 1 <= k < 5 && |tail| <= |Fields(m)[k]| && tail == Fields(m)[k][..|tail|]
    ensures ParseParts(Fields(m)[..k] + [tail])
         == if k == 1 || (k == 2 && tail == "") then None
            else Some(Parsed(m.bufferId, m.worldSize,
                             if k == 2 && ParseInt(tail).Some? then ParseInt(tail).value else m.rank,
                             if k == 4 then m.mode else 0, 0, 0, tail))
  {
    ParseShow(m.worldSize);
    ParseShow(m.rank);
    ParseShow(m.mode);
    if k == 2 && tail != "" {
      PrefixReads(m.rank, |tail|);
    }
    var parts := Fields(m)[..k] + [tail];
    assert |parts| == k + 1 && parts[k] == tail && forall i :: 0 <= i < k ==> parts[i] == Fields(m)[i];
    hide Show, Decimal, ReadRange;
  }

  lemma {:induction false} CutIsParsable(m: Message, h: nat)
    requires |m.bufferId| < h < |Lines(Fields(m))|
    ensures var k := CutLine(m, h);
            && 1 <= k < 5 && (h <= Parsable(m) <==> k == 1 || (k == 2 && CutTail(m, h) == ""))
            && |CutTail(m, h)| <= |Fields(m)[k]| && CutTail(m, h) == Fields(m)[k][..|CutTail(m, h)|]
  {
    var f := Fields(m);
    LineBounds(f, h);
    NextLineStart(f, 0);
    NextLineStart(f, 1);
    NextLineStart(f, 2);
    NextLineStart(f, 3);
    assert LineStart(f, 0) == 0;
    hide Lines, LineAt, LineStart, Show;
    var k := CutLine(m, h);
    var lo := LineStart(f, k);
    SlicePrefix(Lines(f), lo, h, lo + |f[k]|);
  }

  /** Parsing a header that is cut behind its first line raises up to the end of the second. */
  lemma {:induction false} ParseCut(m: Message, h: nat)
    requires Free('\n', m.bufferId) && Sendable(m) && |m.bufferId| < h < |Lines(Fields(m))|
    ensures ParseHeld(Lines(Fields(m))[..h]) == if h <= Parsable(m) then None else Some(CutParsed(m, h))
  {
    FieldsFree(m);
    SplitCutLines(Fields(m), h, 5);
    CutIsParsable(m, h);
    CutParts(m, CutLine(m, h), CutTail(m, h));
  }

  /** The id that is made of a cut header: 128 bytes from the start of the unfinished line on. */
  function CutId(m: Message, h: nat): string
    requires h < |Lines(Fields(m))| && |m.ncclId| == NCCL_ID_LENGTH
  {
    LineBounds(Fields(m), h);
    var lo := LineStart(Fields(m), CutLine(m, h));
    if |CutTail(m, h)| >= NCCL_ID_LENGTH then CutTail(m, h) else Encode(m)[lo..lo + NCCL_ID_LENGTH]
  }

  function CutMessage(m: Message, h: nat): Message
    requires h < |Lines(Fields(m))| && |m.ncclId| == NCCL_ID_LENGTH
  {
    var p := CutParsed(m, h);
    Message(p.bufferId, p.worldSize, p.rank, p.mode, p.offset, p.length, CutId(m, h))
  }

  lemma {:induction false} CutFill(m: Message, h: nat, rest: string)
    requires h < |Lines(Fields(m))| && |m.ncclId| == NCCL_ID_LENGTH && rest == Encode(m)[h..]
    ensures Fill(CutTail(m, h), rest) == Some(CutId(m, h))
  {
    LineBounds(Fields(m), h);
    var s, lo := Encode(m), LineStart(Fields(m), CutLine(m, h));
    assert CutTail(m, h) == s[lo..h];
    assert CutTail(m, h) + rest == s[lo..];
    assert s[lo..][..NCCL_ID_LENGTH] == s[lo..lo + NCCL_ID_LENGTH];
  }

  /** A header that the first loop cuts: the handler raises when at most the first two lines are held, and
      otherwise takes a wrong message for the one sent, without an error. */
  lemma {:induction false} CutHeader(m: Message, chunks: seq<string>)
    requires Fragments(chunks) && Flat(chunks) == Encode(m) && Sendable(m) && Free('\n', m.bufferId)
    requires |Gather("", chunks).0| < |Lines(Fields(m))|
    ensures var h := |Gather("", chunks).0|;
            Understand(chunks) == if h <= Parsable(m) then Raised else Received(CutMessage(m, h))
  {
    var (held, rest) := Gather("", chunks);
    HeldPrefix(m, chunks);
    FirstNewline(m);
    assert held == Lines(Fields(m))[..|held|];
    hide Gather, ParseHeld, CutTail, CutId, Fill;
    ParseCut(m, |held|);
    CutFill(m, |held|, Flat(rest));
  }

  lemma {:induction false} FirstNewline(m: Message)
    requires Free('\n', m.bufferId)
    ensures FirstAt(Encode(m), '\n') == |m.bufferId|
  {
    var s := Encode(m);
    FirstAtBound(s, '\n');
    assert s[|m.bufferId|] == '\n' && s[..|m.bufferId|] == m.bufferId;
  }

  /** Every cut between the first newline and the receive size happens, for one fragmentation. */
  lemma {:induction false} CutAnywhere(m: Message, h: nat)
    requires Free('\n', m.bufferId) && |m.bufferId| < h < |Encode(m)| && h <= RECV_SIZE
    ensures var chunks := [Encode(m)[..h], Encode(m)[h..]];
            Fragments(chunks) && Flat(chunks) == Encode(m) && Gather("", chunks).0 == Encode(m)[..h]
  {
    FirstNewline(m);
    FirstAtBound(Encode(m), '\n');
    hide Encode;
    GatherFirst(Encode(m), h, '\n');
  }

  lemma {:induction false} GatherFirst(s: string, h: nat, c: char)
    requires c == '\n' && FirstAt(s, c) < h < |s| && h <= RECV_SIZE && s[FirstAt(s, c)] == c
    ensures Fragments([s[..h], s[h..]]) && Flat([s[..h], s[h..]]) == s && Gather("", [s[..h], s[h..]]).0 == s[..h]
  {
    var a, b := s[..h], s[h..];
    FlatPair(a, b);
    assert a[FirstAt(s, c)] == c;
    FirstAtBound(a, c);
    GatherStep(a, b);
    GatherStops(a, [b]);
    hide Flat, Gather, FirstAt;
  }

  lemma {:induction false} GatherStops(held: string, chunks: seq<string>)
    requires Fragments(chunks) && FirstAt(held, '\n') < |held|
    ensures Gather(held, chunks) == (held, chunks)
  {}

  /** However much has arrived, the first receive takes 1024 bytes at most: with a newline among them a longer header is
      always cut there. */
  lemma {:induction false} CutAtReceiveSize(s: string, more: seq<string>)
    requires Fragments([s] + more) && |s| > 1024 && FirstAt(s, '\n') < 1024
    ensures Gather("", [s] + more).0 == s[..1024]
  {
    FirstAtBound(s, '\n');
    assert s[..1024][FirstAt(s, '\n')] == '\n';
    FirstAtBound(s[..1024], '\n');
    assert "" + s[..1024] == s[..1024] && ([s] + more)[1..] == more;
    hide Flat;
  }

  lemma {:induction false} FlatPair(a: string, b: string)
    ensures Flat([a, b]) == a + b
  {
    assert [a, b][1..] == [b] && [b][1..] == [];
    assert Flat([b]) == b + "" == b;
  }

  lemma {:induction false} GatherStep(a: string, b: string)
    requires a != "" && b != "" && |a| <= RECV_SIZE
    ensures Fragments([a, b]) && Fragments([b]) && Gather("", [a, b]) == Gather(a, [b])
  {
    assert [a, b][1..] == [b];
    assert "" + a == a;
  }

  /** A cut header is read as sent all the same when nothing that is lost matters: there is no range, the
      mode lost is 0, the rank is whole, and the id repeats the text behind the last newline held. */
  predicate Imitated(m: Message, h: nat)
    requires h < |Lines(Fields(m))| && |m.ncclId| == NCCL_ID_LENGTH
  {
    && Parsable(m) < h && m.offset == 0 && m.length == 0
    && (CutLine(m, h) == 2 ==> CutTail(m, h) == Show(m.rank))
    && (CutLine(m, h) < 4 ==> m.mode == 0)
    && m.ncclId == CutId(m, h)
  }

  lemma {:induction false} CutMessageIs(m: Message, h: nat)
    requires Sendable(m) && Parsable(m) < h < |Lines(Fields(m))| && |m.bufferId| < h
    ensures CutMessage(m, h) == m <==> Imitated(m, h)
  {
    CutIsParsable(m, h);
    if CutLine(m, h) == 2 {
      PrefixReads(m.rank, |CutTail(m, h)|);
    }
  }

  /** The round trip holds exactly when the id of the buffer has no newline, and the whole header is held at
      the end of the first loop or is imitated by the id. */
  lemma {:induction false} RoundTripExactly(m: Message, chunks: seq<string>)
    requires Fragments(chunks) && Flat(chunks) == Encode(m) && Sendable(m)
    ensures var h := |Gather("", chunks).0|;
            Understand(chunks) == Received(m) <==>
            Free('\n', m.bufferId) && (h < |Lines(Fields(m))| ==> Imitated(m, h))
  {
    var (held, rest) := Gather("", chunks);
    if Free('\n', m.bufferId) {
      if |held| >= |Lines(Fields(m))| {
        RoundTrip(m, chunks);
      } else {
        HeldPrefix(m, chunks);
        FirstNewline(m);
        CutHeader(m, chunks);
        if |held| > Parsable(m) {
          CutMessageIs(m, |held|);
        }
      }
    } else {
      NewlineLost(m, chunks);
    }
  }

  /** An id with a newline does not come through. */
  lemma {:induction false} NewlineLost(m: Message, chunks: seq<string>)
    requires Fragments(chunks) && Flat(chunks) == Encode(m) && !Free('\n', m.bufferId)
    ensures Understand(chunks) != Received(m)
  {
    var (held, rest) := Gather("", chunks);
    HeldPrefix(m, chunks);
    var i :| 0 <= i < |m.bufferId| && m.bufferId[i] == '\n';
    assert Encode(m)[i] == '\n';
    FirstAtBound(Encode(m), '\n');
    assert SplitN(held, '\n', 5)[0] == held[..FirstAt(held, '\n')];
  }

  /** When the peer sends everything, the fill loop never spins. */
  lemma {:induction false} WholeMessageNeverSpins(m: Message, chunks: seq<string>)
    requires Fragments(chunks) && Flat(chunks) == Encode(m) && Sendable(m) && Free('\n', m.bufferId)
    ensures Understand(chunks) != Spinning && Understand(chunks) != Silent
  {
    if |Gather("", chunks).0| >= |Lines(Fields(m))| {
      RoundTrip(m, chunks);
    } else {
      CutHeader(m, chunks);
    }
  }
}

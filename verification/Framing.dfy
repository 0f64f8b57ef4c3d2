/** The receive path: a 4096-byte buffer filled by socket reads, scanned for its last newline by the
    pool, and compacted in place. What the JSON layer says to a frame is an oracle. */
module Framing {
  import opened Words

  const RECV_SIZE: nat := 4096
  const NEWLINE: byte := 10

  predicate NoNewline(s: seq<byte>, from: nat) {
    forall k :: from <= k < |s| ==> s[k] != NEWLINE
  }

  /** The length of the part up to and with the last newline: the whole lines. */
  function WholeLines(s: seq<byte>): (w: nat)
    ensures w <= |s| && NoNewline(s, w)
    ensures w > 0 ==> s[w - 1] as char == '\n'
  {
    if s == [] then 0
    else if s[|s| - 1] == NEWLINE then |s|
    else WholeLines(s[..|s| - 1])
  }

  lemma WholeLinesIs(s: seq<byte>, w: nat)
    requires w <= |s| && NoNewline(s, w) && (w > 0 ==> s[w - 1] == NEWLINE)
    ensures w == WholeLines(s)
  {
  }

  lemma RestIsDone(t: seq<byte>)
    ensures WholeLines(Rest(t)) == 0 && FramesOf(Rest(t)) == [] && Rest(Rest(t)) == Rest(t)
  {
    WholeLinesIs(Rest(t), 0);
  }

  /** The frame a read completes, if it completes one, and what stays in the buffer. */
  function FramesOf(t: seq<byte>): seq<seq<byte>> {
    var w := WholeLines(t);
    if w > 0 then [t[..w]] else []
  }

  function Rest(t: seq<byte>): seq<byte> { t[WholeLines(t)..] }

  /** A part of the buffer that nobody wrote to. */
  lemma TailIsKept(before: seq<byte>, after: seq<byte>, off: nat, cut: nat, end: nat, s: seq<byte>)
    requires |before| == |after| && off <= cut <= end <= |before| && before[off..end] == s
    requires forall i :: cut <= i < |before| ==> after[i] == before[i]
    ensures after[cut..end] == s[cut - off..]
  {
    assert before[cut..end] == s[cut - off..];
  }

  class NetInterface {
    const recvBuf: array<byte>
    var recvPos: nat
    var handed: nat  // frames accepted so far
    ghost var frames: seq<seq<byte>>

    ghost predicate Valid()
      reads this
    {
      recvBuf.Length == RECV_SIZE && recvPos <= RECV_SIZE && handed == |frames|
    }

    function Kept(): seq<byte>
      requires Valid()
      reads this, recvBuf
    {
      recvBuf[..recvPos]
    }

    constructor ()
      ensures Valid() && fresh(recvBuf) && Kept() == [] && frames == []
    {
      recvBuf := new byte[RECV_SIZE];
      recvPos, handed, frames := 0, 0, [];
    }

    method AllocRecvBuffer() returns (base: nat, len: nat)
      requires Valid()
      ensures base == recvPos && base + len == recvBuf.Length == 4096
    {
      base, len := recvPos, recvBuf.Length - recvPos;
    }

    /** my_memrchr on recvBuf[off..off + len]: the last newline, or -1. */
    method LastNewline(off: nat, len: nat) returns (end: int)
      requires off + len <= recvBuf.Length
      ensures -1 <= end < len && end + 1 == WholeLines(recvBuf[off..off + len])
    {
      ghost var s := recvBuf[off..off + len];
      var n := len;
      while n > 0
        invariant 0 <= n <= len && NoNewline(s, n)
      {
        n := n - 1;
        if recvBuf[off + n] == NEWLINE {
          WholeLinesIs(s, n + 1);
          return n;
        }
      }
      WholeLinesIs(s, 0);
      end := -1;
    }

    /** The JSON parser works inside the frame, a terminated string, and leaves there whatever it likes: callers learn
        only that the rest of the buffer is untouched. */
    method ParseInsitu(off: nat, len: nat)
      requires 0 < len && off + len <= recvBuf.Length && recvBuf[off + len - 1] == 0
      modifies recvBuf
      ensures forall i :: 0 <= i < off || off + len <= i < recvBuf.Length ==> recvBuf[i] == old(recvBuf[i])
    {
    }

    /** net_on_data_recv on these bytes of the buffer: bytes consumed, or -1. */
    method NetOnDataRecv(off: nat, len: nat, accept: bool, ghost s: seq<byte>) returns (consumed: int)
      requires Valid() && off + len <= recvBuf.Length && recvBuf[off..off + len] == s
      modifies this`handed, this`frames, recvBuf
      ensures Valid()
      ensures consumed == if FramesOf(s) != [] && !accept then -1 else WholeLines(s)
      ensures frames == if FramesOf(s) != [] && accept then old(frames) + FramesOf(s) else old(frames)
      ensures recvBuf[off + WholeLines(s)..off + len] == Rest(s)
    {
      var end := LastNewline(off, len);
      if end == -1 {
        return 0;
      }
      ghost var before := recvBuf[..];
      recvBuf[off + end] := 0;
      ParseInsitu(off, end + 1);
      TailIsKept(before, recvBuf[..], off, off + end + 1, off + len, s);
      if !accept {
        return -1;
      }
      handed, frames := handed + 1, frames + [s[..end + 1]];
      consumed := end + 1;
    }

    /** consume_loop. The n-th frame ever handed over is accepted when `accepts(n)`. */
    method ConsumeLoop(accepts: nat -> bool) returns (ok: bool)
      requires Valid()
      modifies this, recvBuf
      ensures Valid()
      ensures ok <==> FramesOf(old(Kept())) == [] || accepts(old(handed))
      ensures ok ==> Kept() == Rest(old(Kept())) && frames == old(frames) + FramesOf(old(Kept()))
      ensures !ok ==> recvPos == old(recvPos) && frames == old(frames)
    {
      ghost var t, again := Kept(), false;
      ghost var rest := Rest(t);
      RestIsDone(t);
      var consumed := 0;
      while true
        invariant Valid() && recvPos == old(recvPos) && consumed <= recvPos
        invariant recvBuf[consumed..recvPos] == if again then rest else t
        invariant !again ==> consumed == 0 && frames == old(frames) && handed == old(handed)
        invariant again ==> FramesOf(t) != [] && accepts(old(handed)) && frames == old(frames) + FramesOf(t)
        decreases recvPos - consumed
      {
        ghost var left := if again then rest else t;
        var cd := NetOnDataRecv(consumed, recvPos - consumed, accepts(handed), left);
        if cd < 0 {
          return false;
        }
        consumed, again := consumed + cd, again || cd > 0;
        assert recvBuf[consumed..recvPos] == rest;
        if cd == 0 || recvPos == consumed {
          break;
        }
      }
      Compact(consumed);
      ok := true;
    }

    /** The end of consume_loop: the rest of the buffer moves to its start. */
    method Compact(consumed: nat)
      requires Valid() && consumed <= recvPos
      modifies this`recvPos, recvBuf
      ensures Valid() && Kept() == old(recvBuf[consumed..recvPos])
    {
      if recvPos > consumed && consumed > 0 {
        forall i | 0 <= i < recvPos - consumed {
          recvBuf[i] := recvBuf[consumed + i];
        }
      }
      recvPos := recvPos - consumed;
    }

    /** on_socket_read_st for a read of the given bytes into the buffer that was offered. */
    method OnSocketRead(chunk: seq<byte>, accepts: nat -> bool) returns (ok: bool)
      requires Valid() && |chunk| <= RECV_SIZE - recvPos
      modifies this, recvBuf
      ensures Valid()
      ensures ok <==> FramesOf(old(Kept()) + chunk) == [] || accepts(old(handed))
      ensures ok ==>
        Kept() == Rest(old(Kept()) + chunk) && frames == old(frames) + FramesOf(old(Kept()) + chunk)
    {
      ghost var before := Kept();
      forall i | 0 <= i < |chunk| {
        recvBuf[recvPos + i] := chunk[i];
      }
      recvPos := recvPos + |chunk|;
      assert Kept() == before + chunk;
      ok := ConsumeLoop(accepts);
    }
  }

  // ------------------------------------------------------------------ whole streams

  function Flatten(parts: seq<seq<byte>>): seq<byte> {
    if parts == [] then [] else Flatten(parts[..|parts| - 1]) + parts[|parts| - 1]
  }

  datatype Receiver = Receiver(frames: seq<seq<byte>>, kept: seq<byte>)

  /** Reads, first to last, all frames accepted: the fold of OnSocketRead's contract. */
  function Receive(chunks: seq<seq<byte>>): Receiver {
    if chunks == [] then Receiver([], [])
    else
      var r := Receive(chunks[..|chunks| - 1]);
      var t := r.kept + chunks[|chunks| - 1];
      Receiver(r.frames + FramesOf(t), Rest(t))
  }

  /** The stream in reads that fit the buffer they are offered, into a new connection: until a frame is
      refused, the buffer holds and has handed over what the fold says. */
  method ReceiveAll(net: NetInterface, chunks: seq<seq<byte>>, accepts: nat -> bool) returns (ok: bool)
    requires net.Valid() && net.Kept() == [] && net.frames == []
    requires forall i {:trigger chunks[i]} :: 0 <= i < |chunks| ==>
      |Receive(chunks[..i]).kept| + |chunks[i]| <= RECV_SIZE
    modifies net, net.recvBuf
    ensures net.Valid()
    ensures ok ==> net.frames == Receive(chunks).frames && net.Kept() == Receive(chunks).kept
    ensures (forall n :: accepts(n)) ==> ok
  {
    for i := 0 to |chunks|
      invariant net.Valid()
      invariant net.frames == Receive(chunks[..i]).frames && net.Kept() == Receive(chunks[..i]).kept
    {
      assert chunks[..i + 1][..i] == chunks[..i];
      ok := net.OnSocketRead(chunks[i], accepts);
      if !ok {
        return;
      }
    }
    assert chunks[..|chunks|] == chunks;
    ok := true;
  }

  predicate IsWhole(frame: seq<byte>) {
    frame != [] && frame[|frame| - 1] == NEWLINE
  }

  lemma {:induction false} FlattenMore(parts: seq<seq<byte>>, more: seq<seq<byte>>)
    requires |more| <= 1
    ensures Flatten(parts + more) == Flatten(parts) + Flatten(more)
  {
    if more == [] {
      assert parts + more == parts;
    } else {
      assert (parts + more)[..|parts|] == parts && more[..0] == [];
    }
  }

  lemma Associate<T>(a: seq<T>, b: seq<T>, c: seq<T>)
    ensures a + b + c == a + (b + c)
  {
  }

  /** Cutting off a frame loses nothing. */
  lemma CutIsExact(t: seq<byte>)
    ensures Flatten(FramesOf(t)) + Rest(t) == t
    ensures forall f :: f in FramesOf(t) ==> IsWhole(f)
  {
    var w := WholeLines(t);
    if w > 0 {
      assert FramesOf(t)[..0] == [];
      assert Flatten(FramesOf(t)) == t[..w];
    }
  }

  /** No byte is lost, duplicated or reordered: the frames followed by the kept bytes are the
      stream. The kept bytes hold no newline, and every frame ends with one. */
  lemma {:induction false} StreamIsConserved(chunks: seq<seq<byte>>)
    ensures var r := Receive(chunks);
      && Flatten(r.frames) + r.kept == Flatten(chunks)
      && NoNewline(r.kept, 0)
      && forall f :: f in r.frames ==> IsWhole(f)
  {
    if chunks != [] {
      var front, chunk := chunks[..|chunks| - 1], chunks[|chunks| - 1];
      StreamIsConserved(front);
      var r := Receive(front);
      var t := r.kept + chunk;
      CutIsExact(t);
      ReadIsConserved(r.frames, r.kept, chunk);
      RestIsDone(t);
    }
  }

  lemma ReadIsConserved(frames: seq<seq<byte>>, kept: seq<byte>, chunk: seq<byte>)
    ensures var t := kept + chunk;
      Flatten(frames + FramesOf(t)) + Rest(t) == Flatten(frames) + kept + chunk
  {
    var t := kept + chunk;
    CutIsExact(t);
    FlattenMore(frames, FramesOf(t));
    Associate(Flatten(frames), Flatten(FramesOf(t)), Rest(t));
    Associate(Flatten(frames), kept, chunk);
  }

  lemma {:induction false} FramesAreWhole(frames: seq<seq<byte>>)
    requires forall f :: f in frames ==> IsWhole(f)
    ensures Flatten(frames) == [] || IsWhole(Flatten(frames))
  {
    if frames != [] {
      assert frames[|frames| - 1] in frames;
      FramesAreWhole(frames[..|frames| - 1]);
    }
  }

  /** What has been delivered and what is kept depend on the stream alone, not on how it was cut
      into reads: all its whole lines, and the rest. */
  lemma DeliveryDependsOnTheStream(chunks: seq<seq<byte>>)
    ensures var r, stream := Receive(chunks), Flatten(chunks);
      Flatten(r.frames) == stream[..WholeLines(stream)] && r.kept == Rest(stream)
  {
    StreamIsConserved(chunks);
    var r := Receive(chunks);
    FramesAreWhole(r.frames);
    WholePart(Flatten(r.frames), r.kept);
  }

  lemma WholePart(whole: seq<byte>, rest: seq<byte>)
    requires (whole == [] || IsWhole(whole)) && NoNewline(rest, 0)
    ensures var s := whole + rest;
      whole == s[..WholeLines(s)] && rest == Rest(s)
  {
    var s, n := whole + rest, |whole|;
    assert forall k :: n <= k < |s| ==> s[k] == rest[k - n];
    assert n > 0 ==> s[n - 1] == whole[n - 1];
    WholeLinesIs(s, n);
  }

  // ------------------------------------------------------------------ lines

  /** Whole lines, each with its newline. */
  function Lines(s: seq<byte>): (lines: seq<seq<byte>>)
    requires s == [] || IsWhole(s)
    decreases |s|
  {
    if s == [] then []
    else
      var front := s[..|s| - 1];
      var w := WholeLines(front);
      Lines(front[..w]) + [s[w..]]
  }

  /** The lines of a run of whole lines are that run cut after each newline. */
  lemma {:induction false} LinesAreTheRun(s: seq<byte>)
    requires s == [] || IsWhole(s)
    ensures Flatten(Lines(s)) == s
    ensures forall l :: l in Lines(s) ==> IsWhole(l) && forall k :: 0 <= k < |l| - 1 ==> l[k] != NEWLINE
    decreases |s|
  {
    if s != [] {
      var w := WholeLines(s[..|s| - 1]);
      var lines, last := s[..w], s[w..];
      LinesUnfold(s, lines, last);
      LinesAreTheRun(lines);
      FlattenMore(Lines(lines), [last]);
      LastIsALine(s, lines, last);
    }
  }

  lemma FlattenOne(last: seq<byte>)
    ensures Flatten([last]) == last
  {
    assert [last][..0] == [] && Flatten([]) == [];
  }

  lemma LastIsALine(s: seq<byte>, lines: seq<byte>, last: seq<byte>)
    requires EndsWith(s, lines, last)
    ensures s == lines + last && Flatten([last]) == last && IsWhole(last)
    ensures forall k :: 0 <= k < |last| - 1 ==> last[k] != NEWLINE
  {
    FlattenOne(last);
    CutOff(s, WholeLines(s[..|s| - 1]));
  }

  lemma CutOff(s: seq<byte>, w: nat)
    requires IsWhole(s) && w < |s| && forall k :: w <= k < |s| - 1 ==> s[k] != NEWLINE
    ensures s == s[..w] + s[w..] && IsWhole(s[w..])
    ensures forall k :: 0 <= k < |s[w..]| - 1 ==> s[w..][k] != NEWLINE
  {
  }

  function Newlines(s: seq<byte>): nat {
    if s == [] then 0 else Newlines(s[..|s| - 1]) + if s[|s| - 1] == NEWLINE then 1 else 0
  }

  lemma WholeLinesOfSuffix(a: seq<byte>, b: seq<byte>)
    requires a == [] || IsWhole(a)
    ensures WholeLines(a + b) == |a| + WholeLines(b)
  {
    var w := WholeLines(b);
    assert forall k :: |a| + w <= k < |a + b| ==> (a + b)[k] == b[k - |a|];
    WholeLinesIs(a + b, |a| + w);
  }

  /** s is a run of whole lines followed by one more. */
  predicate EndsWith(s: seq<byte>, lines: seq<byte>, last: seq<byte>) {
    && IsWhole(s)
    && var w := WholeLines(s[..|s| - 1]);
       lines == s[..w] && last == s[w..]
  }

  lemma LinesUnfold(s: seq<byte>, lines: seq<byte>, last: seq<byte>)
    requires EndsWith(s, lines, last)
    ensures (lines == [] || IsWhole(lines)) && Lines(s) == Lines(lines) + [last]
  {
    var w := WholeLines(s[..|s| - 1]);
    assert s[..|s| - 1][..w] == s[..w];
  }

  lemma {:induction false} LinesAppend(a: seq<byte>, b: seq<byte>)
    requires a == [] || IsWhole(a)
    requires b == [] || IsWhole(b)
    ensures a + b == [] || IsWhole(a + b)
    ensures Lines(a + b) == Lines(a) + Lines(b)
    decreases |b|
  {
    if b == [] {
      assert a + b == a;
    } else {
      var w := WholeLines(b[..|b| - 1]);
      var lines, last := b[..w], b[w..];
      LastLine(a, b, lines, last);
      LinesUnfold(b, lines, last);
      LinesUnfold(a + b, a + lines, last);
      LinesAppend(a, lines);
      Associate(Lines(a), Lines(lines), [last]);
    }
  }

  /** The last line of a + b is the last line of b. */
  lemma LastLine(a: seq<byte>, b: seq<byte>, lines: seq<byte>, last: seq<byte>)
    requires (a == [] || IsWhole(a)) && EndsWith(b, lines, last)
    ensures EndsWith(a + b, a + lines, last)
  {
    assert (a + b)[..|a + b| - 1] == a + b[..|b| - 1];
    WholeLinesOfSuffix(a, b[..|b| - 1]);
  }

  function LinesOfFrames(frames: seq<seq<byte>>): seq<seq<byte>>
    requires forall f :: f in frames ==> IsWhole(f)
  {
    if frames == [] then []
    else
      assert frames[|frames| - 1] in frames;
      LinesOfFrames(frames[..|frames| - 1]) + Lines(frames[|frames| - 1])
  }

  lemma {:induction false} FrameLinesAreStreamLines(frames: seq<seq<byte>>)
    requires forall f :: f in frames ==> IsWhole(f)
    ensures Flatten(frames) == [] || IsWhole(Flatten(frames))
    ensures LinesOfFrames(frames) == Lines(Flatten(frames))
  {
    FramesAreWhole(frames);
    if frames != [] {
      var front, last := frames[..|frames| - 1], frames[|frames| - 1];
      assert last in frames;
      FramesAreWhole(front);
      FrameLinesAreStreamLines(front);
      LinesAppend(Flatten(front), last);
    }
  }

  /** Every frame is a run of consecutive whole lines: frame by frame, the lines delivered are the
      lines of the stream, in order, none split, lost or repeated. */
  lemma NoLineIsSplit(chunks: seq<seq<byte>>)
    ensures forall f :: f in Receive(chunks).frames ==> IsWhole(f)
    ensures var stream := Flatten(chunks);
      var whole := stream[..WholeLines(stream)];
      (whole == [] || IsWhole(whole)) && LinesOfFrames(Receive(chunks).frames) == Lines(whole)
  {
    StreamIsConserved(chunks);
    DeliveryDependsOnTheStream(chunks);
    FrameLinesAreStreamLines(Receive(chunks).frames);
  }

  lemma {:induction false} LinesCountNewlines(s: seq<byte>)
    requires s == [] || IsWhole(s)
    ensures |Lines(s)| == Newlines(s)
    decreases |s|
  {
    if s != [] {
      var front := s[..|s| - 1];
      var w := WholeLines(front);
      LinesCountNewlines(front[..w]);
      NewlinesStop(front, w);
    }
  }

  lemma {:induction false} NewlinesStop(s: seq<byte>, w: nat)
    requires w <= |s| && NoNewline(s, w)
    ensures Newlines(s) == Newlines(s[..w])
    decreases |s|
  {
    if w < |s| {
      var front := s[..|s| - 1];
      NewlinesStop(front, w);
      assert front[..w] == s[..w];
    } else {
      assert s[..w] == s;
    }
  }

  lemma {:induction false} NewlinesAppend(a: seq<byte>, b: seq<byte>)
    ensures Newlines(a + b) == Newlines(a) + Newlines(b)
  {
    if b == [] {
      assert a + b == a;
    } else {
      assert (a + b)[..|a + b| - 1] == a + b[..|b| - 1];
      NewlinesAppend(a, b[..|b| - 1]);
    }
  }

  /** The frame a read completes carries one line for each newline the read brought. So it is a
      single message exactly when the read brought one newline; several lines that arrive together
      go to the parser as one frame. */
  lemma FrameCarriesTheReadsLines(kept: seq<byte>, chunk: seq<byte>)
    requires NoNewline(kept, 0) && FramesOf(kept + chunk) != []
    ensures var frame := FramesOf(kept + chunk)[0];
      IsWhole(frame) && |Lines(frame)| == Newlines(chunk)
  {
    var t := kept + chunk;
    var frame := FramesOf(t)[0];
    LinesCountNewlines(frame);
    NewlinesStop(t, WholeLines(t));
    NewlinesAppend(kept, chunk);
    NewlinesStop(kept, 0);
    assert kept[..0] == [];
  }
}

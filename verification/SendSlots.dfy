/** The four send slots of a connection: handed out, filled by the caller, written, completed. */
module SendSlots {
  import opened Words

  const SLOTS: nat := 4
  const SEND_SIZE: nat := 2048

  datatype WriteResult = Sent | NoSlot | TooLong

  /** What becomes of a message printed into a slot. With no slot free the source goes on with an
      uninitialised slot number and size: its behaviour is then undefined. */
  datatype PrintResult = Whole | Cut | Overrun | NoBuffer

  /** A write as libuv is given it: the length asked for, and the bytes of the slot it covers. Bytes
      beyond the slot, if any, are whatever lies there. */
  datatype Write = Write(bytes: seq<char>, len: nat)

  function Covered(slot: seq<char>, len: nat): (c: seq<char>)
    ensures c <= slot && (|c| == len || (|c| == |slot| < len))
  {
    if len <= |slot| then slot[..len] else slot
  }

  predicate AllActive(active: seq<bool>) {
    forall i :: 0 <= i < |active| ==> active[i]
  }

  /** The first inactive slot, or the number of slots if there is none. */
  function FirstInactive(active: seq<bool>): (i: nat)
    ensures i <= |active| && (i == |active| <==> AllActive(active))
    ensures i < |active| ==> !active[i]
    ensures forall j :: 0 <= j < i ==> active[j]
  {
    if active == [] || !active[0] then 0
    else
      var rest := active[1..];
      assert forall j :: 0 <= j < |rest| ==> rest[j] == active[j + 1];
      1 + FirstInactive(rest)
  }

  /** What snprintf leaves of a text in a slot: all of it and a terminator, or what fits with one. */
  function Printed(text: seq<char>): (p: seq<char>)
    ensures 0 < |p| <= SEND_SIZE && p[|p| - 1] == '\0' && p[..|p| - 1] <= text
    ensures |p| == |text| + 1 || |p| == SEND_SIZE <= |text|
  {
    if |text| < SEND_SIZE then text + ['\0'] else text[..SEND_SIZE - 1] + ['\0']
  }

  function Fate(text: seq<char>, room: nat, noBuffer: bool): PrintResult {
    if noBuffer then NoBuffer
    else if |text| < room then Whole
    else if |text| == room then Cut
    else Overrun
  }

  class SendBuffers {
    const active: array<bool>
    const attached: array<bool>  // r_send.data points back to the connection
    const data: seq<array<char>>
    ghost var wire: seq<Option<Write>>  // what a write in flight was given

    ghost predicate Shape()
      reads this
    {
      && active.Length == SLOTS && attached.Length == SLOTS && active != attached
      && |data| == SLOTS && |wire| == SLOTS
      && (forall i :: 0 <= i < SLOTS ==> data[i].Length == SEND_SIZE)
      && (forall i, j :: 0 <= i < j < SLOTS ==> data[i] != data[j])
    }

    /** A write in flight has its request attached and its bytes untouched; an inactive slot has no
        request attached. */
    ghost predicate Valid()
      reads this, active, attached, data
    {
      && Shape()
      && (forall i :: 0 <= i < SLOTS && attached[i] ==> active[i])
      && InFlightKept()
    }

    ghost predicate InFlightKept()
      requires Shape()
      reads this, active, attached, data
    {
      forall i :: 0 <= i < SLOTS && wire[i].Some? ==>
        attached[i] && wire[i].value.bytes == Covered(data[i][..], wire[i].value.len)
    }

    constructor ()
      ensures Valid() && active.Length == 4 && (forall i :: 0 <= i < 4 ==> data[i].Length == 2048)
      ensures fresh(active) && fresh(attached)
      ensures forall i :: 0 <= i < SLOTS ==> !active[i] && wire[i].None? && fresh(data[i])
    {
      active, attached := new bool[SLOTS](i => false), new bool[SLOTS](i => false);
      var a, b, c, d := new char[SEND_SIZE], new char[SEND_SIZE], new char[SEND_SIZE], new char[SEND_SIZE];
      data := [a, b, c, d];
      wire := [None, None, None, None];
    }

    /** get_send_buffer: the first inactive slot, or none exactly when all four are active. A slot
        in flight is never handed out. */
    method GetSendBuffer() returns (slot: Option<nat>)
      requires Valid()
      modifies active
      ensures Valid()
      ensures slot.None? <==> AllActive(old(active[..]))
      ensures slot.None? ==> active[..] == old(active[..])
      ensures slot.Some? ==>
        && slot.value < SLOTS && wire[slot.value].None? && !attached[slot.value]
        && slot.value == FirstInactive(old(active[..])) && active[..] == old(active[..])[slot.value := true]
    {
      var i := 0;
      while i < SLOTS
        invariant 0 <= i <= SLOTS && forall j :: 0 <= j < i ==> active[j]
      {
        if !active[i] {
          break;
        }
        i := i + 1;
      }
      if i == SLOTS {
        return None;
      }
      active[i] := true;
      slot := Some(i);
    }

    /** The caller writes into the buffer it was given. */
    method FillBuffer(idx: nat, bytes: seq<char>)
      requires Valid() && idx < SLOTS && active[idx] && !attached[idx] && |bytes| <= SEND_SIZE
      modifies data[idx]
      ensures Valid() && data[idx][..|bytes|] == bytes
    {
      forall i | 0 <= i < |bytes| {
        data[idx][i] := bytes[i];
      }
      assert data[idx][..|bytes|] == bytes;
    }

    /** The length is not looked at: one beyond the slot is handed to libuv as it is. */
    method FinalizeSocketWrite(idx: nat, len: nat)
      requires Valid() && idx < SLOTS && active[idx] && !attached[idx]
      modifies this`wire, active, attached
      ensures Valid()
      ensures if len == 0 then
                wire == old(wire) && active[..] == old(active[..])[idx := false] && attached[..] == old(attached[..])
              else
                && wire == old(wire)[idx := Some(Write(Covered(data[idx][..], len), len))]
                && active[..] == old(active[..]) && attached[..] == old(attached[..])[idx := true]
    {
      if len == 0 {
        active[idx] := false;
        return;
      }
      attached[idx] := true;
      wire := wire[idx := Some(Write(Covered(data[idx][..], len), len))];
    }

    /** on_socket_write_st. A failed write leaves its slot active and its request attached. */
    method OnSocketWrite(idx: nat, failed: bool)
      requires Valid() && idx < SLOTS && wire[idx].Some?
      modifies this`wire, active, attached
      ensures Valid() && wire == old(wire)[idx := None]
      ensures if failed then active[..] == old(active[..]) && attached[..] == old(attached[..])
              else active[..] == old(active[..])[idx := false] && attached[..] == old(attached[..])[idx := false]
    {
      wire := wire[idx := None];
      if !failed {
        attached[idx] := false;
        active[idx] := false;
      }
    }

    /** do_socket_write. A message too long for a slot leaves that slot taken. */
    method DoSocketWrite(bytes: seq<char>) returns (r: WriteResult)
      requires Valid()
      modifies this`wire, active, attached, data
      ensures Valid()
      ensures r == NoSlot <==> AllActive(old(active[..]))
      ensures r == Sent ==> |bytes| <= SEND_SIZE
      ensures r != Sent || bytes == [] ==> wire == old(wire)
      ensures r == TooLong ==> |bytes| > SEND_SIZE && active[..] == old(active[..])[FirstInactive(old(active[..])) := true]
      ensures r == Sent && bytes != [] ==>
        wire == old(wire)[FirstInactive(old(active[..])) := Some(Write(bytes, |bytes|))]
    {
      var slot := GetSendBuffer();
      if slot.None? {
        return NoSlot;
      }
      if |bytes| > SEND_SIZE {
        return TooLong;
      }
      FillBuffer(slot.value, bytes);
      FinalizeSocketWrite(slot.value, |bytes|);
      r := Sent;
    }

    /** How the pool sends without TLS: get a buffer, snprintf into it, finalize with the length that
        snprintf returns, which is the whole text's. The slot is not checked, nor the length. */
    method PrintAndSend(text: seq<char>) returns (r: PrintResult)
      requires Valid()
      modifies this`wire, active, attached, data
      ensures Valid()
      ensures r == Fate(text, SEND_SIZE, AllActive(old(active[..])))
      ensures r == NoBuffer || text == [] ==> wire == old(wire)
      ensures r != NoBuffer && text != [] ==>
        wire == old(wire)[FirstInactive(old(active[..])) := Some(Write(Covered(Printed(text), |text|), |text|))]
    {
      var slot := GetSendBuffer();
      if slot.None? {
        return NoBuffer;
      }
      FillBuffer(slot.value, Printed(text));
      FinalizeSocketWrite(slot.value, |text|);
      assert Covered(data[slot.value][..], |text|) == Covered(Printed(text), |text|);
      r := Fate(text, SEND_SIZE, false);
    }

    /** on_socket_closed, after the pending writes have been cancelled. Slots are freed, attached
        requests are not cleared: the next connection starts from a valid state exactly when no
        write had failed or been cancelled. */
    method OnSocketClosed()
      requires Valid() && forall i :: 0 <= i < SLOTS ==> wire[i].None?
      modifies active
      ensures Shape() && forall i :: 0 <= i < SLOTS ==> !active[i]
      ensures Valid() <==> forall i :: 0 <= i < SLOTS ==> !old(attached[i])
    {
      for i := 0 to SLOTS
        invariant forall j :: 0 <= j < i ==> !active[j]
      {
        active[i] := false;
      }
      assert forall i :: 0 <= i < SLOTS ==> attached[i] == old(attached[i]) && !active[i];
    }
  }

  /** The write made of a printed text is the text, all of it and nothing else, if and only if the text
      fits a slot with its terminator. Otherwise it ends early, with the terminator, and the length
      asked for is the text's own, within the slot or beyond it. */
  lemma SentWholeExactly(text: seq<char>)
    requires '\0' !in text
    ensures Write(Covered(Printed(text), |text|), |text|) == Write(text, |text|)
            <==> Fate(text, SEND_SIZE, false) == Whole
    ensures Fate(text, SEND_SIZE, false) == Overrun <==> |text| > |Covered(Printed(text), |text|)|
  {
    if |text| >= SEND_SIZE {
      assert Covered(Printed(text), |text|)[SEND_SIZE - 1] == '\0';
    }
  }

  /** The input behind the condition of OnSocketClosed: on any connection, let the one write in
      flight fail and the socket close. Its slot is free again with its request still attached, so
      the next message for that slot trips the assertion of finalize_socket_write. */
  method FailThenClose(net: SendBuffers, idx: nat)
    requires net.Valid() && idx < SLOTS && net.wire[idx].Some?
    requires forall i :: 0 <= i < SLOTS && i != idx ==> net.wire[i].None?
    modifies net`wire, net.active, net.attached
    ensures net.Shape() && !net.Valid() && !net.active[idx] && net.attached[idx]
  {
    net.OnSocketWrite(idx, true);
    net.OnSocketClosed();
  }
}

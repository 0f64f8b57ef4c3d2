/** The pool's table of outstanding calls: eight slots, scanned in order, with wrapping call ids. */
module CallTables {
  import opened Words

  const TABLE_SIZE: nat := 8
  const INVALID_MINER: uint32 := 0xFFFF_FFFF

  datatype CallType = Invalid | Login | Result | Keepalive

  datatype Slot = Slot(callId: uint32, kind: CallType, timeMade: int, minerId: uint32)

  datatype Call = Call(kind: CallType, minerId: uint32)

  /** The table as a partial map from call ids; where two slots share an id the earlier one counts. */
  function Outstanding(slots: seq<Slot>): map<uint32, Call> {
    if slots == [] then map[]
    else if slots[0].kind == Invalid then Outstanding(slots[1..])
    else Outstanding(slots[1..])[slots[0].callId := Call(slots[0].kind, slots[0].minerId)]
  }

  predicate Answers(slot: Slot, callId: uint32) {
    slot.kind != Invalid && slot.callId == callId
  }

  predicate FirstAnswer(slots: seq<Slot>, callId: uint32, i: int) {
    0 <= i < |slots| && Answers(slots[i], callId) && forall j :: 0 <= j < i ==> !Answers(slots[j], callId)
  }

  function Cleared(slot: Slot): Slot { slot.(kind := Invalid, minerId := INVALID_MINER) }

  predicate DistinctIds(slots: seq<Slot>) {
    forall i, j :: 0 <= i < j < |slots| && slots[i].kind != Invalid ==> !Answers(slots[j], slots[i].callId)
  }

  predicate HasFree(slots: seq<Slot>) {
    exists i :: 0 <= i < |slots| && slots[i].kind == Invalid
  }

  predicate FirstFree(slots: seq<Slot>, i: int) {
    0 <= i < |slots| && slots[i].kind == Invalid && forall j :: 0 <= j < i ==> slots[j].kind != Invalid
  }

  /** Slots that hold a submitted share. */
  function Results(slots: seq<Slot>): nat {
    if slots == [] then 0 else (if slots[0].kind == Result then 1 else 0) + Results(slots[1..])
  }

  /** Every occupied slot was filled by a registration of its own since the flush. */
  ghost predicate Issued(slots: seq<Slot>, serials: seq<nat>, issued: nat) {
    && |serials| == |slots|
    && (forall i :: 0 <= i < |slots| && slots[i].kind != Invalid ==>
          serials[i] < issued && slots[i].callId == W32(serials[i]))
    && (forall i, j :: 0 <= i < j < |slots| && slots[i].kind != Invalid && slots[j].kind != Invalid ==>
          serials[i] != serials[j])
  }

  class CallTable {
    const slots: array<Slot>
    var nextId: uint32
    ghost var issued: nat  // registrations since the last flush
    ghost var serials: seq<nat>

    ghost predicate Valid()
      reads this, slots
    {
      slots.Length == TABLE_SIZE && nextId == W32(issued) && Issued(slots[..], serials, issued)
    }

    ghost function Calls(): map<uint32, Call>
      reads this, slots
    {
      Outstanding(slots[..])
    }

    /** The table starts uninitialised; the first connection flushes it. */
    constructor ()
      ensures slots.Length == TABLE_SIZE == 8 && fresh(slots)
    {
      slots := new Slot[TABLE_SIZE];
      nextId := 0;
    }

    method Flush()
      requires slots.Length == TABLE_SIZE
      modifies this, slots
      ensures Valid() && issued == 0 && nextId == 0
      ensures Calls() == map[] && Results(slots[..]) == 0 && HasFree(slots[..])
    {
      nextId := 0;
      for i := 0 to slots.Length
        invariant nextId == 0 && forall j :: 0 <= j < i ==> slots[j].kind == Invalid
      {
        slots[i] := slots[i].(kind := Invalid);
      }
      issued, serials := 0, seq(TABLE_SIZE, i => 0);
      NothingOutstanding(slots[..]);
      assert slots[..][0].kind == Invalid;
    }

    /** On failure the caller's call_id is left as it was: `unset` is whatever it held. */
    method RegisterCall(kind: CallType, minerId: uint32, now: int, unset: uint32)
      returns (ok: bool, callId: uint32)
      requires Valid() && kind != Invalid
      modifies this, slots
      ensures Valid()
      ensures ok <==> HasFree(old(slots[..]))
      ensures ok ==>
        && callId == old(nextId) && nextId == W32(callId + 1) && issued == old(issued) + 1
        && (callId !in old(Calls()) ==> Calls() == old(Calls())[callId := Call(kind, minerId)])
        && Results(slots[..]) == old(Results(slots[..])) + if kind == Result then 1 else 0
      ensures ok ==> exists i ::
        FirstFree(old(slots[..]), i) && slots[..] == old(slots[..])[i := Slot(callId, kind, now, minerId)]
      ensures !ok ==>
        callId == unset && nextId == old(nextId) && issued == old(issued) && slots[..] == old(slots[..])
    {
      ghost var before := slots[..];
      for i := 0 to slots.Length
        invariant Valid() && slots[..] == before && nextId == old(nextId) && issued == old(issued)
        invariant forall j :: 0 <= j < i ==> before[j].kind != Invalid
      {
        if slots[i].kind == Invalid {
          assert FirstFree(before, i);
          slots[i] := Slot(nextId, kind, now, minerId);
          callId := nextId;
          nextId := W32(nextId + 1);
          assert slots[..] == before[i := Slot(callId, kind, now, minerId)];
          FillSlot(before, i, Slot(callId, kind, now, minerId));
          issued, serials := issued + 1, serials[i := issued];
          assert FirstFree(before, i);
          return true, callId;
        }
      }
      return false, unset;
    }

    method FindCall(callId: uint32) returns (call: Call)
      requires Valid()
      modifies this, slots
      ensures Valid() && issued == old(issued) && nextId == old(nextId)
      ensures call.kind != Invalid <==> callId in old(Calls())
      ensures callId in old(Calls()) ==>
        && call == old(Calls())[callId]
        && Results(slots[..]) == old(Results(slots[..])) - (if call.kind == Result then 1 else 0)
        && (DistinctIds(old(slots[..])) ==> Calls() == old(Calls()) - {callId} && DistinctIds(slots[..]))
      ensures callId in old(Calls()) ==>
        exists i :: FirstAnswer(old(slots[..]), callId, i) && slots[..] == old(slots[..])[i := Cleared(old(slots[..])[i])]
      ensures callId !in old(Calls()) ==>
        call == Call(Invalid, INVALID_MINER) && slots[..] == old(slots[..])
    {
      ghost var before := slots[..];
      for i := 0 to slots.Length
        invariant Valid() && slots[..] == before && nextId == old(nextId) && issued == old(issued)
        invariant forall j :: 0 <= j < i ==> !Answers(before[j], callId)
      {
        if slots[i].kind != Invalid && slots[i].callId == callId {
          assert FirstAnswer(before, callId, i);
          call := Call(slots[i].kind, slots[i].minerId);
          slots[i] := Cleared(slots[i]);
          assert slots[..] == before[i := Cleared(before[i])];
          ClearSlot(before, i, callId);
          return;
        }
      }
      NobodyAnswers(before, callId);
      call := Call(Invalid, INVALID_MINER);
    }
  }

  // ------------------------------------------------------------------ the table as a map

  lemma {:induction false} NothingOutstanding(slots: seq<Slot>)
    requires forall i :: 0 <= i < |slots| ==> slots[i].kind == Invalid
    ensures Outstanding(slots) == map[] && Results(slots) == 0
  {
    if slots != [] { NothingOutstanding(slots[1..]); }
  }

  lemma {:induction false} NobodyAnswers(slots: seq<Slot>, callId: uint32)
    requires forall i :: 0 <= i < |slots| ==> !Answers(slots[i], callId)
    ensures callId !in Outstanding(slots)
  {
    if slots != [] { NobodyAnswers(slots[1..], callId); }
  }

  /** Filling a free slot adds its call. */
  lemma {:induction false} FillSlot(slots: seq<Slot>, i: nat, slot: Slot)
    requires i < |slots| && slots[i].kind == Invalid && slot.kind != Invalid
    ensures slot.callId !in Outstanding(slots) ==>
      Outstanding(slots[i := slot]) == Outstanding(slots)[slot.callId := Call(slot.kind, slot.minerId)]
    ensures Results(slots[i := slot]) == Results(slots) + if slot.kind == Result then 1 else 0
  {
    var after := slots[i := slot];
    if i == 0 {
      assert after[1..] == slots[1..];
    } else {
      assert after[1..] == slots[1..][i - 1 := slot];
      FillSlot(slots[1..], i - 1, slot);
    }
  }

  /** Clearing the first slot that answers an id yields its call and, if no other slot answers the
      id, removes exactly it. */
  lemma {:induction false} ClearSlot(slots: seq<Slot>, i: nat, callId: uint32)
    requires i < |slots| && Answers(slots[i], callId)
    requires forall j :: 0 <= j < i ==> !Answers(slots[j], callId)
    ensures callId in Outstanding(slots)
    ensures Outstanding(slots)[callId] == Call(slots[i].kind, slots[i].minerId)
    ensures var after := slots[i := Cleared(slots[i])];
      && Results(after) == Results(slots) - (if slots[i].kind == Result then 1 else 0)
      && (DistinctIds(slots) ==> Outstanding(after) == Outstanding(slots) - {callId} && DistinctIds(after))
  {
    var cleared := Cleared(slots[i]);
    var after := slots[i := cleared];
    if i == 0 {
      assert after[1..] == slots[1..];
      if DistinctIds(slots) {
        assert forall j :: 0 <= j < |slots[1..]| ==> slots[1..][j] == slots[j + 1];
        NobodyAnswers(slots[1..], callId);
      }
    } else {
      assert after[1..] == slots[1..][i - 1 := cleared];
      ClearSlot(slots[1..], i - 1, callId);
    }
  }

  /** With distinct ids the map has one entry for each slot in use, so a registration fails exactly
      when the map has all eight. */
  lemma {:induction false} SizeOfMap(slots: seq<Slot>)
    requires DistinctIds(slots)
    ensures |Outstanding(slots)| <= |slots|
    ensures |Outstanding(slots)| < |slots| <==> HasFree(slots)
  {
    if slots != [] {
      assert DistinctIds(slots[1..]);
      SizeOfMap(slots[1..]);
      if slots[0].kind != Invalid {
        assert forall j :: 0 <= j < |slots[1..]| ==> slots[1..][j] == slots[j + 1];
        NobodyAnswers(slots[1..], slots[0].callId);
      }
      assert HasFree(slots) <==> slots[0].kind == Invalid || HasFree(slots[1..]) by {
        if i :| 0 <= i < |slots[1..]| && slots[1..][i].kind == Invalid { assert slots[i + 1].kind == Invalid; }
        if i :| 0 < i < |slots| && slots[i].kind == Invalid { assert slots[1..][i - 1].kind == Invalid; }
      }
    }
  }

  // ------------------------------------------------------------------ wrapping ids

  /** Two registrations get the same id exactly when they are a multiple of 2^32 apart. */
  lemma SameId(s: nat, t: nat)
    requires s <= t
    ensures W32(s) == W32(t) <==> (t - s) % TWO32 == 0
  {
  }

  /** Up to 2^32 registrations after a flush, outstanding ids are distinct. */
  lemma IdsAreDistinct(slots: seq<Slot>, serials: seq<nat>, issued: nat)
    requires Issued(slots, serials, issued) && issued <= TWO32
    ensures DistinctIds(slots)
  {
  }

  /** The id a registration is about to take is outstanding exactly when a call registered some
      multiple of 2^32 registrations ago still is; never before the counter has wrapped. */
  lemma NextIdIsTaken(slots: seq<Slot>, serials: seq<nat>, issued: nat)
    requires Issued(slots, serials, issued)
    ensures W32(issued) in Outstanding(slots) <==>
      exists i :: 0 <= i < |slots| && slots[i].kind != Invalid && (issued - serials[i]) % TWO32 == 0
    ensures issued < TWO32 ==> W32(issued) !in Outstanding(slots)
  {
    var next := W32(issued);
    forall i | 0 <= i < |slots| && slots[i].kind != Invalid
      ensures Answers(slots[i], next) <==> (issued - serials[i]) % TWO32 == 0
    {
      SameId(serials[i], issued);
    }
    if i :| 0 <= i < |slots| && Answers(slots[i], next) {
      SomebodyAnswers(slots, i, next);
    } else {
      NobodyAnswers(slots, next);
    }
  }

  lemma {:induction false} SomebodyAnswers(slots: seq<Slot>, i: nat, callId: uint32)
    requires i < |slots| && Answers(slots[i], callId)
    ensures callId in Outstanding(slots)
  {
    if i > 0 { SomebodyAnswers(slots[1..], i - 1, callId); }
  }
}

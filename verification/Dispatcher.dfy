/** The receive dispatcher: buffers are cut into slots, and each slot is offered to the handlers
    in the order they registered. */
module Dispatcher {
  import opened Kernel
  import opened Transport

  datatype SizeRestriction = Static | Variable

  /** `struct guru_msg`; C names the callbacks. */
  datatype GuruMsg<C> = GuruMsg(msgId: u16, dataCount: byte, restriction: SizeRestriction,
                                callback: Option<C>)

  /** One invocation of a callback, with what the message accessors return during it. */
  datatype Call<C> = Call(callback: C, data: seq<byte>, size: byte, id: u16)

  type Slot = s: seq<byte> | |s| == SLOT_SIZE witness seq(SLOT_SIZE, _ => 0)

  predicate Fires<C>(h: GuruMsg<C>, slot: Slot) {
    && h.msgId == MsgId(slot)
    && (h.dataCount == MsgCount(slot) || h.restriction == Variable)
    && h.callback.Some?
  }

  function CallOf<C>(h: GuruMsg<C>, slot: Slot): Call<C>
    requires Fires(h, slot)
  {
    Call(h.callback.value, MsgData(slot), MsgCount(slot), MsgId(slot))
  }

  function SlotCalls<C>(handlers: seq<GuruMsg<C>>, slot: Slot): seq<Call<C>> {
    if handlers == [] then []
    else
      var h := handlers[|handlers| - 1];
      SlotCalls(handlers[..|handlers| - 1], slot) + if Fires(h, slot) then [CallOf(h, slot)] else []
  }

  function SlotsCalls<C>(handlers: seq<GuruMsg<C>>, slots: seq<Slot>): seq<Call<C>> {
    if slots == [] then []
    else SlotsCalls(handlers, slots[..|slots| - 1]) + SlotCalls(handlers, slots[|slots| - 1])
  }

  /** The first n consecutive slots of a buffer. */
  function SlotsOf(buf: seq<byte>, n: nat): (slots: seq<Slot>)
    requires n * SLOT_SIZE <= |buf|
    ensures |slots| == n
  {
    seq(n, i requires 0 <= i < n => buf[i * SLOT_SIZE..(i + 1) * SLOT_SIZE])
  }

  /** The positions of the handlers a slot fires. */
  function Firing<C>(handlers: seq<GuruMsg<C>>, slot: Slot): seq<nat> {
    if handlers == [] then []
    else
      var n := |handlers| - 1;
      Firing(handlers[..n], slot) + if Fires(handlers[n], slot) then [n] else []
  }

  /** These positions are in order and are all that fire. */
  lemma {:induction false} FiringExact<C>(handlers: seq<GuruMsg<C>>, slot: Slot)
    ensures forall k :: 0 <= k < |Firing(handlers, slot)| ==>
              Firing(handlers, slot)[k] < |handlers| && Fires(handlers[Firing(handlers, slot)[k]], slot)
    ensures forall j, k :: 0 <= j < k < |Firing(handlers, slot)| ==>
              Firing(handlers, slot)[j] < Firing(handlers, slot)[k]
    ensures forall i :: 0 <= i < |handlers| && Fires(handlers[i], slot) ==> i in Firing(handlers, slot)
    ensures forall i :: 0 <= i < |handlers| ==>
              var high: nat, h := slot[3], handlers[i];
              (Fires(h, slot) <==>
                 h.msgId == slot[2] + 0x100 * high && (h.dataCount == slot[4] || h.restriction.Variable?)
                 && h.callback != None)
  {
    if handlers != [] {
      var n := |handlers| - 1;
      var front := handlers[..n];
      FiringExact(front, slot);
      var before, which := Firing(front, slot), Firing(handlers, slot);
      assert forall i :: 0 <= i < n ==> front[i] == handlers[i];
      assert forall k :: 0 <= k < |before| ==> which[k] == before[k];
      forall i | 0 <= i < |handlers| && Fires(handlers[i], slot) ensures i in which {
        if i < n {
          assert i in before;
        } else {
          assert which[|before|] == i;
        }
      }
    }
  }

  /** The calls are those of exactly the handlers that fire, each once, in registration order. */
  lemma {:induction false} SlotCallsExact<C>(handlers: seq<GuruMsg<C>>, slot: Slot)
    ensures var which, calls := Firing(handlers, slot), SlotCalls(handlers, slot);
            && |which| == |calls|
            && forall k :: 0 <= k < |which| ==>
                 && which[k] < |handlers| && Fires(handlers[which[k]], slot)
                 && calls[k] == CallOf(handlers[which[k]], slot)
                 && var high: nat := slot[3];
                    calls[k] == Call(handlers[which[k]].callback.value, slot[5..], slot[4], slot[2] + 0x100 * high)
  {
    if handlers != [] {
      var n := |handlers| - 1;
      SlotCallsExact(handlers[..n], slot);
    }
  }

  lemma {:induction false} NoneFires<C>(handlers: seq<GuruMsg<C>>, slot: Slot)
    requires forall i :: 0 <= i < |handlers| ==> !Fires(handlers[i], slot)
    ensures SlotCalls(handlers, slot) == []
  {
    if handlers != [] {
      NoneFires(handlers[..|handlers| - 1], slot);
    }
  }

  /** With pairwise distinct ids a message fires one handler at most. */
  lemma {:induction false} AtMostOneFires<C>(handlers: seq<GuruMsg<C>>, slot: Slot)
    requires forall i, j :: 0 <= i < j < |handlers| ==> handlers[i].msgId != handlers[j].msgId
    ensures |SlotCalls(handlers, slot)| <= 1
  {
    if handlers != [] {
      var front := handlers[..|handlers| - 1];
      if Fires(handlers[|handlers| - 1], slot) {
        NoneFires(front, slot);
      } else {
        AtMostOneFires(front, slot);
      }
    }
  }

  lemma NextSlotCalls<C>(handlers: seq<GuruMsg<C>>, buf: seq<byte>, n: nat, pos: nat)
    requires pos == n * SLOT_SIZE && pos + SLOT_SIZE <= |buf|
    ensures SlotsCalls(handlers, SlotsOf(buf, n + 1))
            == SlotsCalls(handlers, SlotsOf(buf, n)) + SlotCalls(handlers, buf[pos..pos + SLOT_SIZE])
  {
    var slots := SlotsOf(buf, n + 1);
    assert slots[..|slots| - 1] == SlotsOf(buf, n);
  }

  /** Slot i of a buffer is its bytes 128 i to 128 i + 127, and the calls of several slots are those of
      each, one slot after the other. */
  lemma {:induction false} SlotsInOrder<C>(handlers: seq<GuruMsg<C>>, a: seq<Slot>, b: seq<Slot>,
                                           buf: seq<byte>, n: nat)
    requires n * SLOT_SIZE <= |buf|
    ensures SlotsCalls(handlers, a + b) == SlotsCalls(handlers, a) + SlotsCalls(handlers, b)
    ensures |a| == 1 ==> SlotsCalls(handlers, a) == SlotCalls(handlers, a[0])
    ensures |SlotsOf(buf, n)| == n
    ensures forall i, j :: 0 <= i < n && 0 <= j < 128 ==> SlotsOf(buf, n)[i][j] == buf[128 * i + j]
    decreases |b|
  {
    assert |a| == 1 ==> SlotsCalls(handlers, a[..0]) == [];
    if b == [] {
      assert a + b == a;
    } else {
      var front := b[..|b| - 1];
      SlotsInOrder(handlers, a, front, buf, n);
      assert (a + b)[..|a + b| - 1] == a + front;
    }
  }

  /** Subtraction of 32-bit unsigned integers. */
  function Sub32(a: u32, b: u32): (r: u32)
    ensures b <= a ==> r == a - b
  {
    (a - b) % 0x1_0000_0000
  }

  lemma Regrouped<T>(a: seq<T>, b: seq<T>, c: seq<T>)
    ensures a + b + c == a + (b + c)
  {
  }

  lemma WholeSlots(length: nat, n: nat, pos: nat)
    requires pos == n * SLOT_SIZE <= length < pos + SLOT_SIZE
    ensures n == length / SLOT_SIZE
  {
  }

  /** What becomes of a receive URB. */
  datatype Urb = Absent | Submitted(length: u32) | Retired

  predicate EndsReception(status: int) {
    status == -ENOENT || status == -EPIPE || status == -EPROTO || status == -ESHUTDOWN
  }

  function NextUrb(status: int, submitErr: int): Urb {
    if EndsReception(status) || submitErr != 0 then Retired else Submitted(SLOT_SIZE)
  }

  /** Reception ends on -ENOENT, -EPIPE, -EPROTO and -ESHUTDOWN and when the URB cannot be submitted
      again; on every other status, success or not, it asks for one slot more. */
  lemma UrbFate(status: int, submitErr: int)
    ensures NextUrb(status, submitErr) ==
              if status == -2 || status == -32 || status == -71 || status == -108 || submitErr != 0
              then Retired else Submitted(128)
  {
  }

  /** The parts of `struct guru_device` that reception uses. `calls` records the callbacks run;
      an empty `currMsgData` stands for NULL. */
  class GuruDevice<C(==)> {
    var currMsgData: seq<byte>
    var currMsgDataSize: byte
    var currMsgId: u16
    var msgList: seq<GuruMsg<C>>
    var calls: seq<Call<C>>

    constructor ()
      ensures Idle() && msgList == [] && calls == []
    {
      currMsgData, currMsgDataSize, currMsgId, msgList, calls := [], 0, 0, [], [];
    }

    /** No message is being processed. */
    ghost predicate Idle()
      reads this
    {
      currMsgData == [] && currMsgDataSize == 0 && currMsgId == 0
    }

    /** `guru_add_msg`. */
    method AddMsg(msg: GuruMsg<C>)
      modifies this`msgList
      ensures msgList == old(msgList) + [msg]
    {
      msgList := msgList + [msg];
    }

    method RunCallback(callback: C)
      modifies this`calls
      ensures calls == old(calls) + [Call(callback, currMsgData, currMsgDataSize, currMsgId)]
    {
      calls := calls + [Call(callback, currMsgData, currMsgDataSize, currMsgId)];
    }

    /** The slot at `pos` becomes the current message. */
    method BeginMsg(buf: array<byte>, pos: nat) returns (id: u16, count: byte)
      requires pos + SLOT_SIZE <= buf.Length
      modifies this`currMsgData, this`currMsgDataSize, this`currMsgId
      ensures var slot := buf[pos..pos + SLOT_SIZE];
              && id == currMsgId == MsgId(slot) && count == currMsgDataSize == MsgCount(slot)
              && currMsgData == MsgData(slot)
    {
      ghost var slot := buf[pos..pos + SLOT_SIZE];
      var high: nat := buf[pos + 3];
      id := buf[pos + 2] + 0x100 * high;
      count := buf[pos + 4];
      assert id == MsgId(slot) && count == MsgCount(slot);
      currMsgData := buf[pos + HEADER_SIZE..pos + SLOT_SIZE];
      assert currMsgData == MsgData(slot);
      currMsgDataSize := count;
      currMsgId := id;
    }

    /** There is no current message any more. */
    method EndMsg()
      modifies this`currMsgData, this`currMsgDataSize, this`currMsgId
      ensures Idle()
    {
      currMsgData := [];
      currMsgDataSize := 0;
      currMsgId := 0;
    }

    /** `canguru_process_msg_list`, on the slot at `pos`. */
    method ProcessMsgList(buf: array<byte>, pos: nat)
      requires pos + SLOT_SIZE <= buf.Length
      modifies this`currMsgData, this`currMsgDataSize, this`currMsgId, this`calls
      ensures Idle()
      ensures calls == old(calls) + SlotCalls(msgList, buf[pos..pos + SLOT_SIZE])
    {
      ghost var slot: Slot := buf[pos..pos + SLOT_SIZE];
      var id, count := BeginMsg(buf, pos);
      for i := 0 to |msgList|
        invariant currMsgData == MsgData(slot) && currMsgDataSize == MsgCount(slot)
                  && currMsgId == MsgId(slot)
        invariant calls == old(calls) + SlotCalls(msgList[..i], slot)
      {
        var item := msgList[i];
        assert msgList[..i + 1][..i] == msgList[..i];
        if item.msgId != id {
          continue;
        }
        if item.dataCount == count || item.restriction == Variable {
          if item.callback.Some? {
            RunCallback(item.callback.value);
          }
        }
      }
      assert msgList[..|msgList|] == msgList;
      EndMsg();
    }

    /** The loop of `canguru_read_bulk_callback`: as many whole slots as the buffer holds. */
    method DispatchBuffer(buf: array<byte>, length: u32)
      requires length <= buf.Length
      modifies this`currMsgData, this`currMsgDataSize, this`currMsgId, this`calls
      ensures calls == old(calls) + SlotsCalls(msgList, SlotsOf(buf[..], length / SLOT_SIZE))
      ensures old(Idle()) ==> Idle()
    {
      ghost var bytes := buf[..];
      var pos: u32 := 0;
      ghost var n := 0;
      ghost var done := [];
      while Sub32(length, pos) >= SLOT_SIZE
        invariant pos == n * SLOT_SIZE <= length
        invariant calls == old(calls) + done && done == SlotsCalls(msgList, SlotsOf(bytes, n))
        invariant old(Idle()) ==> Idle()
        decreases length - pos
      {
        ghost var next := SlotCalls(msgList, bytes[pos..pos + SLOT_SIZE]);
        NextSlotCalls(msgList, bytes, n, pos);
        ProcessMsgList(buf, pos);
        Regrouped(old(calls), done, next);
        pos, n, done := pos + SLOT_SIZE, n + 1, done + next;
      }
      WholeSlots(length, n, pos);
    }

    /** `canguru_read_bulk_callback`. The result says what becomes of the URB. */
    method ReadBulkCallback(buf: array<byte>, length: u32, status: int, submitErr: int)
      returns (urb: Urb)
      requires length <= buf.Length
      modifies this`currMsgData, this`currMsgDataSize, this`currMsgId, this`calls
      ensures urb == NextUrb(status, submitErr)
      ensures urb == Retired <==>
                status == -2 || status == -32 || status == -71 || status == -108 || submitErr != 0
      ensures urb != Retired ==> urb == Submitted(128)
      ensures calls == old(calls) +
                if status == 0 then SlotsCalls(msgList, SlotsOf(buf[..], length / SLOT_SIZE)) else []
      ensures old(Idle()) ==> Idle()
    {
      if EndsReception(status) {
        return Retired;
      }
      if status == 0 {
        DispatchBuffer(buf, length);
      }
      if submitErr != 0 {
        return Retired;
      }
      return Submitted(SLOT_SIZE);
    }
  }
}

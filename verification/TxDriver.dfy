/**
 * The transmit side as the driver holds it: one network device per channel, each with a reply
 * node of its own, and the shared list those nodes are linked into. Every operation is proved
 * to act on the heap as its counterpart in TxBus acts on the value `bus`.
 */
module TxDriver {
  import opened Kernel
  import opened IntrusiveList
  import B = TxBus

  /** One channel: the parts of `net_device` and `can_priv` the transmit path touches. */
  class NetDevice {
    const channelIdx: nat
    const reply: ListHead
    var open: bool
    var stopped: bool
    var echo: Option<B.Frame>
    var txPackets: nat
    var txErrors: nat
    var txDropped: nat
    var txBytes: nat
    var queued: nat
    var completed: nat

    constructor (channelIdx: nat)
      ensures this.channelIdx == channelIdx && Value() == B.NEW_CHANNEL
      ensures fresh(reply) && reply.entry == channelIdx
    {
      this.channelIdx := channelIdx;
      reply := new ListHead(channelIdx);
      open, stopped, echo := false, true, None;
      txPackets, txErrors, txDropped, txBytes := 0, 0, 0, 0;
      queued, completed := 0, 0;
    }

    ghost function Value(): B.Channel
      reads this
    {
      B.Channel(open, stopped, echo, B.Stats(txPackets, txErrors, txDropped, txBytes), queued, completed)
    }

    /** `canguru_send_callback` and `linguru_send_callback` of a channel. `unset` is what the frame
        length variable happens to hold; `can_get_echo_skb` leaves it alone when the slot is empty. */
    method SendCallback(status: byte, unset: nat)
      modifies this
      ensures Value() == B.Finish(old(Value()), status, unset)
    {
      var byteCount, frameLen := 0, unset;
      if echo.Some? {
        byteCount, frameLen := echo.value.byteCount, echo.value.frameLen;
        echo := None;
      }
      if status == B.STATUS_DONE {
        txPackets := txPackets + 1;
        txBytes := txBytes + byteCount;
      } else if status == B.STATUS_ERROR {
        txErrors := txErrors + 1;
      } else {
        txDropped := txDropped + 1;
      }
      completed := completed + frameLen;
      stopped := false;
    }
  }

  class MsgNet {
    const sendReplyList: ListHead
    const netdev: seq<NetDevice>
    ghost var bus: B.Bus
    ghost const Repr: set<object>

    /** The objects are all different, and each node knows its channel. */
    ghost predicate Layout() {
      && this in Repr && sendReplyList in Repr && Distinct(netdev)
      && (forall i :: 0 <= i < |netdev| ==>
            && netdev[i] in Repr && netdev[i].reply in Repr
            && netdev[i].reply != sendReplyList
            && netdev[i].channelIdx == netdev[i].reply.entry == i)
    }

    ghost function Nodes(replies: seq<nat>): (nodes: seq<ListHead>)
      requires forall i :: 0 <= i < |replies| ==> replies[i] < |netdev|
      ensures |nodes| == |replies|
      ensures forall i :: 0 <= i < |replies| ==> nodes[i] == netdev[replies[i]].reply
    {
      seq(|replies|, i requires 0 <= i < |replies| => netdev[replies[i]].reply)
    }

    lemma NodesTail(replies: seq<nat>)
      requires replies != [] && forall i :: 0 <= i < |replies| ==> replies[i] < |netdev|
      ensures Nodes(replies[1..]) == Nodes(replies)[..0] + Nodes(replies)[1..]
    {
    }

    ghost predicate Valid()
      reads Repr, this
    {
      && Layout()
      && |bus.chans| == |netdev|
      && (forall i :: 0 <= i < |netdev| ==> netdev[i].Value() == bus.chans[i])
      && B.InRange(bus)
      && Ring(sendReplyList, Nodes(bus.replies))
    }

    /** The neighbours the list operations touch belong to this object. */
    lemma Neighbours()
      requires Valid()
      ensures sendReplyList.prev in Repr
      ensures bus.replies != [] ==>
                var node := netdev[bus.replies[0]].reply;
                node.prev == sendReplyList && node.next in Repr
    {
      var nodes := Nodes(bus.replies);
      var circle := Circle(sendReplyList, nodes);
      assert circle[|nodes| + 1].prev == circle[|nodes|];
      if nodes != [] {
        assert circle[0].next == circle[1] == nodes[0] && circle[1].prev == circle[0];
        assert circle[1].next == circle[2];
      }
    }

    /** Creates the channels of one device and the empty list. */
    constructor (channelCount: nat)
      ensures Valid() && fresh(Repr)
      ensures |netdev| == channelCount
      ensures bus == B.Bus(seq(channelCount, i => B.NEW_CHANNEL), [])
    {
      var head := new ListHead(0);
      InitListHead(head);
      var devs: seq<NetDevice> := [];
      ghost var repr: set<object> := {head};
      for idx := 0 to channelCount
        invariant |devs| == idx
        invariant fresh(repr) && head in repr && Ring(head, [])
        invariant forall i :: 0 <= i < idx ==>
                    && devs[i] in repr && devs[i].reply in repr && devs[i].reply != head
                    && devs[i].channelIdx == devs[i].reply.entry == i
                    && devs[i].Value() == B.NEW_CHANNEL
      {
        var dev := new NetDevice(idx);
        devs := devs + [dev];
        repr := repr + {dev, dev.reply};
      }
      sendReplyList := head;
      netdev := devs;
      bus := B.Bus(seq(channelCount, i => B.NEW_CHANNEL), []);
      Repr := repr + {this};
      new;
      assert Nodes(bus.replies) == [];
    }

    method Open(c: nat, err: int)
      requires Valid() && c < |netdev| && !netdev[c].open
      modifies Repr
      ensures Valid() && bus == B.Open(old(bus), c, err)
      ensures err != 0 ==> bus == old(bus)
    {
      if err != 0 {
        return;
      }
      var dev := netdev[c];
      dev.open := true;
      dev.stopped := false;
      bus := B.Open(bus, c, err);
    }

    method Close(c: nat)
      requires Valid() && c < |netdev| && netdev[c].open
      modifies Repr
      ensures Valid() && bus == B.Close(old(bus), c)
    {
      var dev := netdev[c];
      dev.open := false;
      dev.stopped := true;
      if dev.echo.Some? {
        dev.echo := None;
        dev.txDropped := dev.txDropped + 1;
      }
      bus := B.Close(bus, c);
    }

    /** This call of start_xmit gets as far as linking a node that already is linked. */
    ghost predicate LinksAgain(c: nat, k: B.Outcome)
      requires c < |netdev|
      reads this, netdev[c]
    {
      c in bus.replies && !k.invalid && k.submitErr == 0 && !k.oom && netdev[c].echo.None?
    }

    /** `canguru_start_xmit` and `linguru_start_xmit`. Linking a node twice, which the driver does not
        guard against, leaves pointers that are no list. */
    method StartXmit(c: nat, f: B.Frame, k: B.Outcome)
      requires Valid() && c < |netdev|
      requires netdev[c].open && !netdev[c].stopped
      modifies Repr
      ensures !old(LinksAgain(c, k)) ==> Valid() && bus == B.StartXmit(old(bus), c, f, k)
      ensures old(LinksAgain(c, k)) ==> forall x: seq<ListHead> :: !Ring(sendReplyList, x)
    {
      var dev := netdev[c];
      if k.invalid {
        return;
      }
      dev.stopped := true;
      bus := B.Submit(bus, c);
      if k.submitErr != 0 {
        dev.stopped := false;
        bus := B.SubmitFail(old(bus), c);
        return;
      }
      if k.oom || dev.echo.Some? {
        return;
      }
      ParkFrame(c, f);
    }

    /** The end of start_xmit: echo slot, reply node, byte queue. */
    method ParkFrame(c: nat, f: B.Frame)
      requires Valid() && c < |netdev| && netdev[c].echo.None?
      modifies Repr
      ensures c !in old(bus.replies) ==>
                Valid() && bus == B.Account(B.Park(old(bus), c, f, false), c, f)
      ensures c in old(bus.replies) ==> forall x: seq<ListHead> :: !Ring(sendReplyList, x)
    {
      var dev := netdev[c];
      Neighbours();
      assert Nodes(bus.replies + [c]) == Nodes(bus.replies) + [dev.reply];
      dev.echo := Some(f);
      WaitSendReply(dev.reply, c);
      dev.queued := dev.queued + f.frameLen;
      bus := B.Account(B.Park(bus, c, f, false), c, f);
    }

    /** `canguru_wait_send_reply`. */
    method WaitSendReply(reply: ListHead, ghost c: nat)
      requires Layout()
      requires forall i :: 0 <= i < |bus.replies| ==> bus.replies[i] < |netdev|
      requires Ring(sendReplyList, Nodes(bus.replies))
      requires c < |netdev| && reply == netdev[c].reply
      modifies sendReplyList, netdev[c].reply, sendReplyList.prev
      ensures c !in bus.replies ==> Ring(sendReplyList, Nodes(bus.replies) + [reply])
      ensures c in bus.replies ==> forall x: seq<ListHead> :: !Ring(sendReplyList, x)
    {
      ghost var nodes := Nodes(bus.replies);
      NodeLinkedIff(c);
      ListAddTail(reply, sendReplyList, nodes);
    }

    lemma NodeLinkedIff(c: nat)
      requires Layout() && c < |netdev|
      requires forall i :: 0 <= i < |bus.replies| ==> bus.replies[i] < |netdev|
      ensures netdev[c].reply in Nodes(bus.replies) <==> c in bus.replies
    {
      var nodes := Nodes(bus.replies);
      forall i | 0 <= i < |nodes| ensures nodes[i] == netdev[c].reply <==> bus.replies[i] == c {
        assert nodes[i].entry == bus.replies[i] && netdev[c].reply.entry == c;
      }
      if c in bus.replies {
        var i :| 0 <= i < |bus.replies| && bus.replies[i] == c;
        assert nodes[i] == netdev[c].reply;
      }
    }

    /** `canguru_send_callback` and `linguru_send_callback` of the message layer: a status arrived,
        for whichever channel is first in line. */
    method HandleStatus(status: byte, unset: nat)
      requires Valid()
      modifies Repr
      ensures Valid() && bus == B.HandleStatus(old(bus), status, unset)
      ensures old(bus.replies) == [] ==> bus == old(bus)
    {
      ghost var nodes := Nodes(bus.replies);
      var empty := ListEmpty(sendReplyList, nodes);
      if empty {
        assert bus.replies == [];
        return;
      }
      Neighbours();
      var node := ListFirst(sendReplyList, nodes);
      netdev[node.entry].SendCallback(status, unset);
      Retire(node);
      bus := B.HandleStatus(bus, status, unset);
    }

    /** The last statement of the reply handler. */
    method Retire(node: ListHead)
      requires forall i :: 0 <= i < |bus.replies| ==> bus.replies[i] < |netdev|
      requires Ring(sendReplyList, Nodes(bus.replies))
      requires bus.replies != [] && node == netdev[bus.replies[0]].reply
      modifies node, node.prev, node.next
      ensures Ring(sendReplyList, Nodes(bus.replies[1..]))
    {
      ghost var nodes := Nodes(bus.replies);
      NodesTail(bus.replies);
      ListDel(node, sendReplyList, nodes, 0);
    }
  }
}

/**
 * The transmit side of one bus type as a value: its channels and the reply queue they share.
 * The CAN and the LIN driver run the same code here, each on a bus of its own.
 */
module TxBus {
  import opened Kernel

  const STATUS_DONE: byte := 0
  const STATUS_ERROR: byte := 2

  /** A frame on its way out: `tag` stands for its contents, `frameLen` is its length on the
      wire (byte queue accounting), `byteCount` the payload bytes `can_get_echo_skb` reports. */
  datatype Frame = Frame(tag: nat, frameLen: nat, byteCount: nat)

  datatype Stats = Stats(packets: nat, errors: nat, dropped: nat, bytes: nat)

  datatype Channel = Channel(
    open: bool,
    stopped: bool,           // the transmit queue of the network device
    echo: Option<Frame>,     // echo slot 0
    stats: Stats,
    queued: nat,             // bytes reported to netdev_sent_queue
    completed: nat)          // bytes reported to netdev_completed_queue

  /** `replies` lists the channels whose reply node is linked, first to be answered first. */
  datatype Bus = Bus(chans: seq<Channel>, replies: seq<nat>)

  /** A channel as the driver creates it. */
  const NEW_CHANNEL := Channel(false, true, None, Stats(0, 0, 0, 0), 0, 0)

  function SetChannel(b: Bus, c: nat, ch: Channel): Bus
    requires c < |b.chans|
  {
    b.(chans := b.chans[c := ch])
  }

  function Open(b: Bus, c: nat, err: int): Bus
    requires c < |b.chans|
  {
    if err != 0 then b else SetChannel(b, c, b.chans[c].(open := true, stopped := false))
  }

  /** Closing flushes the echo slot, which counts its frame as dropped, and leaves the reply node
      where it is. */
  function Close(b: Bus, c: nat): Bus
    requires c < |b.chans|
  {
    SetChannel(b, c, Flushed(b.chans[c]).(open := false, stopped := true))
  }

  /** `can_flush_echo_skb`. */
  function Flushed(ch: Channel): Channel {
    if ch.echo.None? then ch
    else ch.(echo := None, stats := ch.stats.(dropped := ch.stats.dropped + 1))
  }

  /** start_xmit up to a submission the USB core accepted. */
  function Submit(b: Bus, c: nat): Bus
    requires c < |b.chans|
  {
    SetChannel(b, c, b.chans[c].(stopped := true))
  }

  /** start_xmit when the submission is refused: the queue is woken again. */
  function SubmitFail(b: Bus, c: nat): Bus
    requires c < |b.chans|
  {
    SetChannel(b, c, b.chans[c].(stopped := false))
  }

  /** `can_put_echo_skb` fails when the slot is taken or no memory is left. */
  predicate ParkFails(b: Bus, c: nat, oom: bool)
    requires c < |b.chans|
  {
    oom || b.chans[c].echo.Some?
  }

  /** start_xmit after the submission: the echo slot is filled and the reply node linked. When the
      echo fails the driver returns without either, and without waking the queue. */
  function Park(b: Bus, c: nat, f: Frame, oom: bool): Bus
    requires c < |b.chans|
  {
    if ParkFails(b, c, oom) then b
    else SetChannel(b, c, b.chans[c].(echo := Some(f))).(replies := b.replies + [c])
  }

  /** start_xmit's last call, `netdev_sent_queue`. */
  function Account(b: Bus, c: nat, f: Frame): Bus
    requires c < |b.chans|
  {
    SetChannel(b, c, b.chans[c].(queued := b.chans[c].queued + f.frameLen))
  }

  function Count(st: Stats, status: byte, byteCount: nat): Stats {
    if status == STATUS_DONE then st.(packets := st.packets + 1, bytes := st.bytes + byteCount)
    else if status == STATUS_ERROR then st.(errors := st.errors + 1)
    else st.(dropped := st.dropped + 1)
  }

  function FramesCounted(st: Stats): nat {
    st.packets + st.errors + st.dropped
  }

  /** Every linked node belongs to a channel of the bus. */
  predicate InRange(b: Bus) {
    forall i :: 0 <= i < |b.replies| ==> b.replies[i] < |b.chans|
  }

  /** The channel at the head of the queue, if any, has a frame in its echo slot; without one the
      callback goes on with a frame length that nobody set. */
  predicate CallbackDefined(b: Bus) {
    b.replies != [] ==> b.replies[0] < |b.chans| && b.chans[b.replies[0]].echo.Some?
  }

  /** A channel's callback: its frame is counted, its bytes completed, its queue woken. An empty
      echo slot yields no payload bytes and leaves the frame length as it was, here `unset`. */
  function Finish(ch: Channel, status: byte, unset: nat): Channel {
    var byteCount := if ch.echo.Some? then ch.echo.value.byteCount else 0;
    var frameLen := if ch.echo.Some? then ch.echo.value.frameLen else unset;
    ch.(echo := None, stats := Count(ch.stats, status, byteCount),
        completed := ch.completed + frameLen, stopped := false)
  }

  /** The reply handler up to and including the channel's callback. */
  function Callback(b: Bus, status: byte, unset: nat): Bus
    requires InRange(b)
  {
    if b.replies == [] then b
    else
      var c := b.replies[0];
      SetChannel(b, c, Finish(b.chans[c], status, unset))
  }

  /** The reply handler's last statement. */
  function Unlink(b: Bus): Bus {
    if b.replies == [] then b else b.(replies := b.replies[1..])
  }

  /** What the kernel decides during one call of start_xmit. */
  datatype Outcome = Outcome(invalid: bool, submitErr: int, oom: bool)

  /** start_xmit run without interruption. */
  function StartXmit(b: Bus, c: nat, f: Frame, k: Outcome): Bus
    requires c < |b.chans|
  {
    if k.invalid then b
    else if k.submitErr != 0 then SubmitFail(b, c)
    else
      var b1 := Submit(b, c);
      if ParkFails(b1, c, k.oom) then b1 else Account(Park(b1, c, f, k.oom), c, f)
  }

  /** The reply handler run without interruption. */
  function HandleStatus(b: Bus, status: byte, unset: nat): (r: Bus)
    requires InRange(b)
    ensures InRange(r) && |r.chans| == |b.chans|
  {
    Unlink(Callback(b, status, unset))
  }

  // ---------------------------------------------------------------------------------------
  // The operations, field by field, in every state
  // ---------------------------------------------------------------------------------------

  /** The two buses have the same channels, c aside. */
  predicate OthersAlike(b: Bus, b': Bus, c: nat) {
    && |b'.chans| == |b.chans|
    && forall d :: 0 <= d < |b.chans| && d != c ==> b'.chans[d] == b.chans[d]
  }

  /** A failed open changes nothing; a successful one opens and wakes its channel, and no more. */
  lemma OpenEffect(b: Bus, c: nat, err: int)
    requires c < |b.chans|
    ensures err != 0 ==> Open(b, c, err) == b
    ensures err == 0 ==>
              var b', ch, ch' := Open(b, c, err), b.chans[c], Open(b, c, err).chans[c];
              && OthersAlike(b, b', c) && b'.replies == b.replies
              && ch'.open && !ch'.stopped
              && ch'.echo == ch.echo && ch'.stats == ch.stats
              && ch'.queued == ch.queued && ch'.completed == ch.completed
  {
  }

  /** Closing stops its channel and empties the echo slot, and a frame in there is one drop more; the
      list, the byte queue and every other channel stay as they are. */
  lemma CloseEffect(b: Bus, c: nat)
    requires c < |b.chans|
    ensures var b', ch, ch' := Close(b, c), b.chans[c], Close(b, c).chans[c];
            && OthersAlike(b, b', c) && b'.replies == b.replies
            && !ch'.open && ch'.stopped && ch'.echo == None
            && ch'.queued == ch.queued && ch'.completed == ch.completed
            && ch'.stats.packets == ch.stats.packets && ch'.stats.bytes == ch.stats.bytes
            && ch'.stats.errors == ch.stats.errors
            && ch'.stats.dropped == ch.stats.dropped + if ch.echo == None then 0 else 1
  {
  }

  /** start_xmit on a channel in any state. A dropped frame changes nothing. A refused submission
      leaves the queue awake and all else as it was. An accepted one stops the queue; the echo slot,
      the list and the byte queue take the frame if the slot was free and memory sufficed, and
      otherwise none of them changes. */
  lemma StartXmitEffect(b: Bus, c: nat, f: Frame, k: Outcome)
    requires c < |b.chans|
    ensures var b', ch, ch' := StartXmit(b, c, f, k), b.chans[c], StartXmit(b, c, f, k).chans[c];
            && OthersAlike(b, b', c)
            && ch'.open == ch.open && ch'.stats == ch.stats && ch'.completed == ch.completed
            && ch'.stopped == (if k.invalid then ch.stopped else k.submitErr == 0)
            && if !k.invalid && k.submitErr == 0 && !k.oom && ch.echo == None
               then b'.replies == b.replies + [c] && ch'.echo == Some(f) && ch'.queued == ch.queued + f.frameLen
               else b'.replies == b.replies && ch'.echo == ch.echo && ch'.queued == ch.queued
  {
  }

  /** The reply handler in any state. With an empty list it changes nothing. Otherwise the first
      channel in line, and no other, leaves the list: its queue is woken, its echo slot emptied, the
      frame's length completed, and the frame counted once: transmitted for status 0, failed for 2,
      dropped for any other. */
  lemma HandleStatusEffect(b: Bus, status: byte, unset: nat)
    requires InRange(b)
    ensures b.replies == [] ==> HandleStatus(b, status, unset) == b
    ensures b.replies != [] ==>
              var b', c := HandleStatus(b, status, unset), b.replies[0];
              && OthersAlike(b, b', c) && b'.replies == b.replies[1..]
              && var ch, ch' := b.chans[c], b'.chans[c];
                 && ch'.open == ch.open && !ch'.stopped && ch'.echo == None && ch'.queued == ch.queued
                 && ch'.completed == ch.completed + (if ch.echo == None then unset else ch.echo.value.frameLen)
                 && ch'.stats.packets == ch.stats.packets + (if status == 0 then 1 else 0)
                 && ch'.stats.errors == ch.stats.errors + (if status == 2 then 1 else 0)
                 && ch'.stats.dropped == ch.stats.dropped + (if status == 0 || status == 2 then 0 else 1)
                 && ch'.stats.bytes == ch.stats.bytes
                      + (if status == 0 && ch.echo != None then ch.echo.value.byteCount else 0)
  {
  }

  /** Closing the channel whose answer is next leaves the handler without a frame length: what it
      completes is then exactly the unset value, it wakes the queue of a closed device, and it counts
      a second time the frame that closing has counted as dropped. */
  lemma CloseUnsetsLength(b: Bus, status: byte, unset: nat)
    requires BusOk(b) && b.replies != []
    ensures b.replies[0] < |b.chans|
    ensures var c := b.replies[0];
            var r := HandleStatus(Close(b, c), status, unset);
            && !CallbackDefined(Close(b, c))
            && r.chans[c].completed == b.chans[c].completed + unset
            && !r.chans[c].open && !r.chans[c].stopped
            && FramesCounted(r.chans[c].stats) == FramesCounted(b.chans[c].stats) + 2
  {
    assert b.replies[0] < |b.chans|;
    assert Close(b, b.replies[0]).replies == b.replies;
  }

  /** What holds between uninterrupted calls, seen from the driver alone: on an open channel the
      queue is stopped exactly while the echo slot is taken and exactly while the reply node is
      linked; a closed channel has neither; no node is linked twice; and the bytes in flight are
      those of the parked frame. */
  ghost predicate BusOk(b: Bus) {
    && Distinct(b.replies) && InRange(b)
    && forall c :: 0 <= c < |b.chans| ==>
         var ch := b.chans[c];
         && (ch.echo.Some? <==> c in b.replies)
         && (ch.stopped <==> !ch.open || c in b.replies)
         && (!ch.open ==> c !in b.replies)
         && ch.queued == ch.completed + Parked(ch)
  }

  function Parked(ch: Channel): nat {
    match ch.echo
    case None => 0
    case Some(f) => f.frameLen
  }

  lemma HandleStatusKeepsBusOk(b: Bus, status: byte, unset: nat)
    requires BusOk(b)
    ensures CallbackDefined(b) && BusOk(HandleStatus(b, status, unset))
    ensures HandleStatus(b, status, unset) == HandleStatus(b, status, 0)
  {
    if b.replies != [] {
      assert b.replies[0] in b.replies;
      var b' := HandleStatus(b, status, unset);
      assert forall c :: c in b.replies <==> c == b.replies[0] || c in b'.replies;
    }
  }

  lemma StartXmitKeepsBusOk(b: Bus, c: nat, f: Frame, k: Outcome)
    requires BusOk(b) && c < |b.chans| && b.chans[c].open && !b.chans[c].stopped
    ensures c !in b.replies
    ensures BusOk(StartXmit(b, c, f, k)) <==> k.invalid || k.submitErr != 0 || !k.oom
    ensures !k.invalid && k.submitErr != 0 ==> StartXmit(b, c, f, k) == b
  {
    var b' := StartXmit(b, c, f, k);
    if !k.invalid && k.submitErr != 0 {
      assert b'.chans == b.chans;
    } else if !k.invalid && k.oom {
      assert b'.chans[c].stopped && c !in b'.replies && b'.chans[c].open;
    }
  }

  /** The replies that arrive one after another when nothing new is sent. No slot is empty, so the
      unset length is never looked at. */
  function Drain(b: Bus, statuses: seq<byte>): (r: Bus)
    requires BusOk(b)
    ensures BusOk(r) && |r.chans| == |b.chans|
    decreases statuses
  {
    if statuses == [] then b
    else
      HandleStatusKeepsBusOk(b, statuses[0], 0);
      Drain(HandleStatus(b, statuses[0], 0), statuses[1..])
  }

  /** A list that links no node twice never outgrows the channels. */
  lemma DistinctRepliesBounded(b: Bus)
    requires Distinct(b.replies) && InRange(b)
    ensures |b.replies| <= |b.chans|
  {
    DistinctBound(b.replies, |b.chans|);
  }

  /** Each reply retires exactly the next channel in line; so as many replies as there are linked
      nodes, and no fewer, empty the queue, and then every open channel is awake. */
  lemma {:induction false} DrainEmpties(b: Bus, statuses: seq<byte>)
    requires BusOk(b) && |statuses| <= |b.replies|
    ensures Drain(b, statuses).replies == b.replies[|statuses|..]
    ensures Drain(b, statuses).replies == [] <==> |statuses| == |b.replies|
    ensures |statuses| == |b.replies| ==>
              forall c :: 0 <= c < |b.chans| ==>
                Drain(b, statuses).chans[c].open == b.chans[c].open
                && (b.chans[c].open ==> !Drain(b, statuses).chans[c].stopped)
    decreases statuses
  {
    DrainKeepsOpen(b, statuses);
    if statuses != [] {
      HandleStatusKeepsBusOk(b, statuses[0], 0);
      DrainEmpties(HandleStatus(b, statuses[0], 0), statuses[1..]);
    }
  }

  lemma {:induction false} DrainKeepsOpen(b: Bus, statuses: seq<byte>)
    requires BusOk(b)
    ensures forall c :: 0 <= c < |b.chans| ==> Drain(b, statuses).chans[c].open == b.chans[c].open
    decreases statuses
  {
    if statuses != [] {
      HandleStatusKeepsBusOk(b, statuses[0], 0);
      DrainKeepsOpen(HandleStatus(b, statuses[0], 0), statuses[1..]);
    }
  }
}

/**
 * The transmit protocol over the shared reply queue. Channels submit, park and account frames, the
 * device answers in order, and the reply handler calls back and unlinks, each in a step of its
 * own; these steps interleave in every way. A reply carries a status and no channel number.
 *
 * Each step is atomic. In particular list_add_tail is one with the echo before it and list_del is
 * a step: two of them at once on different processors are outside the model.
 */
module TxProtocol {
  import opened Kernel
  import opened TxBus

  /** A frame the USB core accepted for a channel. */
  datatype Sub = Sub(chan: nat, frame: Frame)

  /** `subs` are all submissions so far, in the order the device receives them; `verdicts[i]` is
      the device's answer to `subs[i]`; the driver has consumed the first `handled` answers.
      `sending` are the start_xmit calls between their submission and the echo slot, `accounting`
      those between list_add_tail and netdev_sent_queue; `replying` says that the reply handler is
      between its callback and list_del. */
  datatype System = System(
    bus: Bus,
    subs: seq<Sub>,
    verdicts: seq<byte>,
    handled: nat,
    sending: seq<Sub>,
    accounting: seq<Sub>,
    replying: bool,
    log: seq<Event>)

  /** What the network stack sees: a frame taken over, and a frame completed. */
  datatype Event =
    | Accepted(chan: nat, frame: Frame)
    | Completed(chan: nat, frame: Frame, status: byte)

  datatype Label =
    | OpenDev(c: nat, err: int)
    | CloseDev(c: nat)
    | XmitInvalid(c: nat)
    | XmitRefused(c: nat)
    | XmitSubmit(c: nat, frame: Frame)
    | XmitPark(i: nat, oom: bool)
    | XmitAccount(i: nat)
    | Answer(status: byte)
    | ReplyCallback(unset: nat)
    | ReplyUnlink

  /** start_xmit is called on an open, awake channel, and not twice at once on one channel. */
  ghost predicate MayTransmit(s: System, c: nat) {
    && c < |s.bus.chans| && s.bus.chans[c].open && !s.bus.chans[c].stopped
    && (forall i :: 0 <= i < |s.sending| ==> s.sending[i].chan != c)
    && (forall i :: 0 <= i < |s.accounting| ==> s.accounting[i].chan != c)
  }

  /** The frame a completion is reported for: that in the echo slot, if there is one. */
  function FrameOf(ch: Channel): Frame {
    if ch.echo.Some? then ch.echo.value else Frame(0, 0, 0)
  }

  ghost predicate Enabled(s: System, l: Label) {
    match l
    case OpenDev(c, err) => c < |s.bus.chans| && !s.bus.chans[c].open
    case CloseDev(c) => c < |s.bus.chans| && s.bus.chans[c].open
    case XmitInvalid(c) => MayTransmit(s, c)
    case XmitRefused(c) => MayTransmit(s, c)
    case XmitSubmit(c, f) => MayTransmit(s, c)
    case XmitPark(i, oom) => i < |s.sending| && s.sending[i].chan < |s.bus.chans|
    case XmitAccount(i) => i < |s.accounting| && s.accounting[i].chan < |s.bus.chans|
    case Answer(status) => |s.verdicts| < |s.subs|
    case ReplyCallback(unset) => !s.replying && s.handled < |s.verdicts| && InRange(s.bus)
    case ReplyUnlink => s.replying
  }

  ghost function Next(s: System, l: Label): System
    requires Enabled(s, l)
  {
    match l
    case OpenDev(c, err) => s.(bus := Open(s.bus, c, err))
    case CloseDev(c) => s.(bus := Close(s.bus, c))
    case XmitInvalid(c) => s
    case XmitRefused(c) => s.(bus := SubmitFail(s.bus, c))
    case XmitSubmit(c, f) =>
      s.(bus := Submit(s.bus, c), subs := s.subs + [Sub(c, f)], sending := s.sending + [Sub(c, f)])
    case XmitPark(i, oom) =>
      var x := s.sending[i];
      var s1 := s.(sending := Without(s.sending, i));
      if ParkFails(s.bus, x.chan, oom) then s1
      else s1.(bus := Park(s.bus, x.chan, x.frame, oom), accounting := s.accounting + [x],
               log := s.log + [Accepted(x.chan, x.frame)])
    case XmitAccount(i) =>
      var x := s.accounting[i];
      s.(bus := Account(s.bus, x.chan, x.frame),
         accounting := Without(s.accounting, i))
    case Answer(status) => s.(verdicts := s.verdicts + [status])
    case ReplyCallback(unset) =>
      var status := s.verdicts[s.handled];
      if s.bus.replies == [] then s.(handled := s.handled + 1)
      else
        s.(bus := Callback(s.bus, status, unset), handled := s.handled + 1, replying := true,
           log := s.log + [Completed(s.bus.replies[0], FrameOf(s.bus.chans[s.bus.replies[0]]), status)])
    case ReplyUnlink => s.(bus := Unlink(s.bus), replying := false)
  }

  /** n channels, all closed, and nothing under way. */
  ghost function Start(n: nat): System {
    System(Bus(seq(n, i => NEW_CHANNEL), []), [], [], 0, [], [], false, [])
  }

  ghost predicate Init(s: System) {
    s == Start(|s.bus.chans|)
  }

  // ---------------------------------------------------------------------------------------
  // The invariant
  // ---------------------------------------------------------------------------------------

  /** The channels whose node is linked and whose callback is still to come. */
  function Active(s: System): seq<nat> {
    if s.replying && s.bus.replies != [] then s.bus.replies[1..] else s.bus.replies
  }

  /** Channel c has a frame the driver has not consumed an answer for. */
  ghost predicate Busy(s: System, c: nat)
    requires s.handled <= |s.subs|
  {
    exists i :: s.handled <= i < |s.subs| && s.subs[i].chan == c
  }

  /** As many submissions are unanswered as channels wait for an answer or are about to. */
  ghost predicate Counted(s: System) {
    && s.handled <= |s.verdicts| <= |s.subs|
    && |s.subs| - s.handled == |Active(s)| + |s.sending|
  }

  /** The first of them are those of the linked channels, in list order, with their echo frames. */
  ghost predicate ActiveInLine(s: System)
    requires Counted(s)
  {
    forall i :: 0 <= i < |Active(s)| ==>
      && Active(s)[i] == s.subs[s.handled + i].chan
      && Active(s)[i] < |s.bus.chans|
      && s.bus.chans[Active(s)[i]].echo == Some(s.subs[s.handled + i].frame)
  }

  /** The others are those of the start_xmit calls that have not parked yet. */
  ghost predicate SendingInLine(s: System)
    requires Counted(s)
  {
    forall i :: 0 <= i < |s.sending| ==>
      && s.sending[i] == s.subs[s.handled + |Active(s)| + i]
      && s.sending[i].chan < |s.bus.chans|
  }

  /** The driver's records and the unanswered submissions agree, one per channel. */
  ghost predicate InStep(s: System) {
    && Counted(s) && ActiveInLine(s) && SendingInLine(s)
    && forall i, j :: s.handled <= i < j < |s.subs| ==> s.subs[i].chan != s.subs[j].chan
  }

  ghost predicate ChannelOk(s: System, c: nat)
    requires s.handled <= |s.subs| && c < |s.bus.chans|
  {
    var ch := s.bus.chans[c];
    && (ch.echo.Some? <==> c in Active(s))
    && (ch.stopped <==> !ch.open || Busy(s, c))
    && (!ch.open ==> !Busy(s, c))
  }

  /** A call of start_xmit on channel c has linked the node but not yet reported the bytes. */
  ghost predicate Due(s: System, c: nat) {
    Has(s.accounting, c)
  }

  ghost predicate Has(subs: seq<Sub>, c: nat) {
    exists i :: 0 <= i < |subs| && subs[i].chan == c
  }

  /** Every call that still has to report its bytes does so for the frame in the echo slot, one call
      per channel; and the bytes reported and not completed are those of the parked frame, or none
      while the report is due. */
  ghost predicate Accounts(s: System) {
    && (forall i :: 0 <= i < |s.accounting| ==>
          && s.accounting[i].chan < |s.bus.chans| && s.accounting[i].chan in Active(s)
          && s.bus.chans[s.accounting[i].chan].echo == Some(s.accounting[i].frame))
    && (forall i, j :: 0 <= i < j < |s.accounting| ==> s.accounting[i].chan != s.accounting[j].chan)
    && forall c :: 0 <= c < |s.bus.chans| ==>
         s.bus.chans[c].queued == s.bus.chans[c].completed
                                  + (if Due(s, c) then 0 else Parked(s.bus.chans[c]))
  }

  ghost predicate Protocol(s: System) {
    && InStep(s)
    && Distinct(s.bus.replies)
    && (s.replying ==> s.bus.replies != [] && s.bus.replies[0] < |s.bus.chans|)
    && (forall c :: 0 <= c < |s.bus.chans| ==> ChannelOk(s, c))
    && Accounts(s)
  }

  /** The steps that keep the protocol intact. Each condition is visible before the step: a
      channel is closed only while its queue is awake; start_xmit calls park in the order they
      submitted, with memory for the echo, and not before the reply handler has unlinked the
      channel's previous node; and an answer is handled only once its node is linked and its bytes
      are reported. */
  ghost predicate Safe(s: System, l: Label)
    requires Enabled(s, l)
  {
    match l
    case CloseDev(c) => !s.bus.chans[c].stopped
    case XmitPark(i, oom) =>
      i == 0 && !oom && !(s.replying && s.bus.replies != [] && s.bus.replies[0] == s.sending[0].chan)
    case ReplyCallback(unset) => s.bus.replies != [] && !Due(s, s.bus.replies[0])
    case _ => true
  }

  lemma InitProtocol(s: System)
    requires Init(s)
    ensures Protocol(s)
  {
  }

  lemma BusyIff(s: System, s': System, c: nat)
    requires s.handled <= |s.subs| && s'.handled == s.handled && s'.subs == s.subs
    ensures Busy(s, c) <==> Busy(s', c)
  {
  }

  /** Steps that leave the list, the echoes and the byte counts alone leave the accounts alone. */
  lemma AccountsStay(s: System, s': System)
    requires Accounts(s) && Active(s') == Active(s) && s'.accounting == s.accounting
    requires |s'.bus.chans| == |s.bus.chans|
    requires forall c :: 0 <= c < |s.bus.chans| ==>
               && s'.bus.chans[c].echo == s.bus.chans[c].echo
               && s'.bus.chans[c].queued == s.bus.chans[c].queued
               && s'.bus.chans[c].completed == s.bus.chans[c].completed
    ensures Accounts(s')
  {
    forall c | 0 <= c < |s.bus.chans|
      ensures s'.bus.chans[c].queued == s'.bus.chans[c].completed
                                        + (if Due(s', c) then 0 else Parked(s'.bus.chans[c]))
    {
      assert Due(s', c) <==> Due(s, c);
    }
  }

  lemma OpenStep(s: System, c: nat, err: int)
    requires Protocol(s) && Enabled(s, OpenDev(c, err))
    ensures Protocol(Next(s, OpenDev(c, err)))
    ensures err != 0 ==> Next(s, OpenDev(c, err)) == s
  {
    var s' := Next(s, OpenDev(c, err));
    AccountsStay(s, s');
    forall d | 0 <= d < |s.bus.chans| ensures ChannelOk(s', d) {
      assert ChannelOk(s, d);
    }
  }

  lemma CloseStep(s: System, c: nat)
    requires Protocol(s) && Enabled(s, CloseDev(c))
    ensures Protocol(Next(s, CloseDev(c))) <==> Safe(s, CloseDev(c))
  {
    var s' := Next(s, CloseDev(c));
    assert ChannelOk(s, c);
    if s.bus.chans[c].stopped {
      assert Busy(s', c);
      assert !ChannelOk(s', c);
    } else {
      ActiveIsBusy(s, c);
      AccountsStay(s, s');
      forall d | 0 <= d < |s.bus.chans| ensures ChannelOk(s', d) {
        assert ChannelOk(s, d);
      }
    }
  }

  lemma ActiveIsBusy(s: System, c: nat)
    requires InStep(s)
    ensures c in Active(s) ==> Busy(s, c)
    ensures forall i :: 0 <= i < |s.sending| && s.sending[i].chan == c ==> Busy(s, c)
    ensures Busy(s, c) ==> c in Active(s) || exists i :: 0 <= i < |s.sending| && s.sending[i].chan == c
  {
    if c in Active(s) {
      var i :| 0 <= i < |Active(s)| && Active(s)[i] == c;
      assert s.subs[s.handled + i].chan == c;
    }
    forall i | 0 <= i < |s.sending| && s.sending[i].chan == c
      ensures Busy(s, c)
    {
      assert s.subs[s.handled + |Active(s)| + i].chan == c;
    }
    if Busy(s, c) {
      var i :| s.handled <= i < |s.subs| && s.subs[i].chan == c;
      var k := i - s.handled;
      if k < |Active(s)| {
        assert Active(s)[k] == c;
      } else {
        assert s.sending[k - |Active(s)|] == s.subs[i];
      }
    }
  }

  lemma RefusedStep(s: System, c: nat)
    requires Protocol(s) && Enabled(s, XmitRefused(c))
    ensures Next(s, XmitRefused(c)) == s
  {
    assert SubmitFail(s.bus, c).chans == s.bus.chans;
  }

  lemma SubmitStep(s: System, c: nat, f: Frame)
    requires Protocol(s) && Enabled(s, XmitSubmit(c, f))
    ensures Protocol(Next(s, XmitSubmit(c, f)))
  {
    var s' := Next(s, XmitSubmit(c, f));
    assert ChannelOk(s, c);
    assert !Busy(s, c);
    ActiveIsBusy(s, c);
    SubmitInStep(s, c, f);
    AccountsStay(s, s');
    forall d | 0 <= d < |s.bus.chans| ensures ChannelOk(s', d) {
      assert ChannelOk(s, d);
      if d == c {
        assert s'.subs[|s.subs|].chan == c;
      } else if Busy(s, d) {
        var i :| s.handled <= i < |s.subs| && s.subs[i].chan == d;
        assert s'.subs[i].chan == d;
      }
    }
  }

  lemma SubmitInStep(s: System, c: nat, f: Frame)
    requires InStep(s) && Enabled(s, XmitSubmit(c, f)) && !Busy(s, c) && c !in Active(s)
    ensures InStep(Next(s, XmitSubmit(c, f)))
  {
    var s' := Next(s, XmitSubmit(c, f));
    assert Active(s') == Active(s);
    assert Counted(s');
    assert ActiveInLine(s') by {
      forall i | 0 <= i < |Active(s)|
        ensures Active(s')[i] == s'.subs[s'.handled + i].chan && Active(s')[i] < |s'.bus.chans|
        ensures s'.bus.chans[Active(s')[i]].echo == Some(s'.subs[s'.handled + i].frame)
      {
        assert Active(s)[i] in Active(s) && s'.subs[s.handled + i] == s.subs[s.handled + i];
      }
    }
    SubmitSendingInLine(s, c, f);
    forall i, j | s.handled <= i < j < |s'.subs| ensures s'.subs[i].chan != s'.subs[j].chan {
      assert s'.subs[i] == s.subs[i];
      if j < |s.subs| {
        assert s'.subs[j] == s.subs[j];
      }
    }
  }

  lemma SubmitSendingInLine(s: System, c: nat, f: Frame)
    requires InStep(s) && Enabled(s, XmitSubmit(c, f))
    requires Counted(Next(s, XmitSubmit(c, f)))
    ensures SendingInLine(Next(s, XmitSubmit(c, f)))
  {
    var s' := Next(s, XmitSubmit(c, f));
    forall i | 0 <= i < |s'.sending|
      ensures s'.sending[i] == s'.subs[s'.handled + |Active(s')| + i]
      ensures s'.sending[i].chan < |s'.bus.chans|
    {
      if i < |s.sending| {
        assert s'.sending[i] == s.sending[i] == s.subs[s.handled + |Active(s)| + i];
      }
    }
  }

  /** A call of start_xmit that has not parked yet finds its echo slot free. */
  lemma SendingIsNotActive(s: System, i: nat)
    requires Protocol(s) && i < |s.sending|
    ensures s.sending[i].chan !in Active(s) && s.bus.chans[s.sending[i].chan].echo.None?
  {
    assert s.sending[i] == s.subs[s.handled + |Active(s)| + i];
    forall j | 0 <= j < |Active(s)| ensures Active(s)[j] != s.sending[i].chan {
      assert s.subs[s.handled + j].chan != s.subs[s.handled + |Active(s)| + i].chan;
    }
    assert ChannelOk(s, s.sending[i].chan);
  }

  lemma SafeParkStep(s: System)
    requires Protocol(s) && Enabled(s, XmitPark(0, false)) && Safe(s, XmitPark(0, false))
    ensures Protocol(Next(s, XmitPark(0, false)))
  {
    var s' := Next(s, XmitPark(0, false));
    var x := s.sending[0];
    SendingIsNotActive(s, 0);
    assert x.chan !in s.bus.replies by {
      assert s.replying ==> s.bus.replies == [s.bus.replies[0]] + Active(s);
    }
    assert Active(s') == Active(s) + [x.chan];
    SafeParkInStep(s);
    SafeParkAccounts(s);
    assert s'.subs == s.subs && s'.handled == s.handled;
    forall d | 0 <= d < |s.bus.chans| ensures ChannelOk(s', d) {
      assert ChannelOk(s, d);
      BusyIff(s, s', d);
    }
  }

  lemma SafeParkInStep(s: System)
    requires InStep(s) && Enabled(s, XmitPark(0, false))
    requires s.sending[0].chan !in Active(s) && s.bus.chans[s.sending[0].chan].echo.None?
    requires Active(Next(s, XmitPark(0, false))) == Active(s) + [s.sending[0].chan]
    ensures InStep(Next(s, XmitPark(0, false)))
  {
    var s' := Next(s, XmitPark(0, false));
    var x, n := s.sending[0], |Active(s)|;
    assert s.subs[s.handled + n + 0] == x;
    assert ActiveInLine(s') by {
      forall i | 0 <= i < n + 1
        ensures Active(s')[i] == s.subs[s.handled + i].chan && Active(s')[i] < |s.bus.chans|
        ensures s'.bus.chans[Active(s')[i]].echo == Some(s.subs[s.handled + i].frame)
      {
        if i < n {
          assert Active(s')[i] == Active(s)[i] && Active(s)[i] in Active(s);
        }
      }
    }
    SafeParkSending(s);
  }

  lemma SafeParkSending(s: System)
    requires InStep(s) && Enabled(s, XmitPark(0, false)) && s.bus.chans[s.sending[0].chan].echo.None?
    requires Active(Next(s, XmitPark(0, false))) == Active(s) + [s.sending[0].chan]
    ensures Counted(Next(s, XmitPark(0, false))) && SendingInLine(Next(s, XmitPark(0, false)))
  {
    var s', n := Next(s, XmitPark(0, false)), |Active(s)|;
    forall i | 0 <= i < |s.sending| - 1
      ensures s'.sending[i] == s.subs[s.handled + (n + 1) + i] && s'.sending[i].chan < |s.bus.chans|
    {
      assert s'.sending[i] == s.sending[i + 1];
    }
  }

  lemma SafeParkAccounts(s: System)
    requires Accounts(s) && Enabled(s, XmitPark(0, false))
    requires s.sending[0].chan !in Active(s) && s.bus.chans[s.sending[0].chan].echo.None?
    requires Active(Next(s, XmitPark(0, false))) == Active(s) + [s.sending[0].chan]
    ensures Accounts(Next(s, XmitPark(0, false)))
  {
    var s', x, n := Next(s, XmitPark(0, false)), s.sending[0], |s.accounting|;
    assert s'.accounting[n] == x;
    forall i | 0 <= i < n ensures s'.accounting[i] == s.accounting[i] && s.accounting[i].chan != x.chan {
    }
    forall c | 0 <= c < |s.bus.chans|
      ensures s'.bus.chans[c].queued == s'.bus.chans[c].completed
                                        + (if Due(s', c) then 0 else Parked(s'.bus.chans[c]))
    {
      if c == x.chan {
        assert Due(s', c) && !Due(s, c);
      } else if Due(s, c) {
        var i :| 0 <= i < n && s.accounting[i].chan == c;
        assert s'.accounting[i].chan == c;
      }
    }
  }

  lemma AccountStep(s: System, i: nat)
    requires Protocol(s) && Enabled(s, XmitAccount(i))
    ensures Protocol(Next(s, XmitAccount(i)))
  {
    var s' := Next(s, XmitAccount(i));
    assert Active(s') == Active(s);
    AccountAccounts(s, i);
    assert ActiveInLine(s') && SendingInLine(s');
    forall d | 0 <= d < |s.bus.chans| ensures ChannelOk(s', d) {
      assert ChannelOk(s, d);
      BusyIff(s, s', d);
    }
  }

  lemma HasWithout(subs: seq<Sub>, i: nat, c: nat)
    requires i < |subs| && forall j, k :: 0 <= j < k < |subs| ==> subs[j].chan != subs[k].chan
    ensures Has(Without(subs, i), c) <==> Has(subs, c) && c != subs[i].chan
  {
    var rest := Without(subs, i);
    if Has(rest, c) {
      var j :| 0 <= j < |rest| && rest[j].chan == c;
      assert rest[j] == subs[if j < i then j else j + 1];
    }
    if Has(subs, c) && c != subs[i].chan {
      var j :| 0 <= j < |subs| && subs[j].chan == c;
      assert rest[if j < i then j else j - 1].chan == c;
    }
  }

  lemma AccountAccounts(s: System, i: nat)
    requires Accounts(s) && Enabled(s, XmitAccount(i))
    ensures Accounts(Next(s, XmitAccount(i)))
  {
    var s', x := Next(s, XmitAccount(i)), s.accounting[i];
    assert Active(s') == Active(s);
    assert Due(s, x.chan);
    forall c | 0 <= c < |s.bus.chans|
      ensures s'.bus.chans[c].queued == s'.bus.chans[c].completed
                                        + (if Due(s', c) then 0 else Parked(s'.bus.chans[c]))
    {
      HasWithout(s.accounting, i, c);
    }
  }

  lemma UnsafeParkStep(s: System, i: nat, oom: bool)
    requires Protocol(s) && Enabled(s, XmitPark(i, oom)) && !Safe(s, XmitPark(i, oom))
    ensures !Protocol(Next(s, XmitPark(i, oom)))
  {
    var s' := Next(s, XmitPark(i, oom));
    var x := s.sending[i];
    SendingIsNotActive(s, i);
    if oom {
      assert Active(s') == Active(s);
      assert !InStep(s');
    } else if i > 0 {
      assert Active(s') == Active(s) + [x.chan];
      assert s.subs[s.handled + |Active(s)| + i] == x;
      assert s.subs[s.handled + |Active(s)|].chan != x.chan;
      assert Active(s')[|Active(s)|] != s'.subs[s.handled + |Active(s)|].chan;
      assert !InStep(s');
    } else {
      assert s'.bus.replies[0] == s'.bus.replies[|s.bus.replies|];
      assert !Distinct(s'.bus.replies);
    }
  }

  lemma AnswerStep(s: System, status: byte)
    requires Protocol(s) && Enabled(s, Answer(status))
    ensures Protocol(Next(s, Answer(status)))
  {
    var s' := Next(s, Answer(status));
    AccountsStay(s, s');
    forall d | 0 <= d < |s.bus.chans| ensures ChannelOk(s', d) {
      assert ChannelOk(s, d);
      BusyIff(s, s', d);
    }
  }

  lemma CallbackStep(s: System, unset: nat)
    requires Protocol(s) && Enabled(s, ReplyCallback(unset))
    ensures Protocol(Next(s, ReplyCallback(unset))) <==> Safe(s, ReplyCallback(unset))
    ensures s.bus.replies != [] ==>
              && s.bus.replies[0] == s.subs[s.handled].chan
              && s.bus.chans[s.bus.replies[0]].echo == Some(s.subs[s.handled].frame)
  {
    var s' := Next(s, ReplyCallback(unset));
    if s.bus.replies == [] {
      assert !InStep(s');
    } else {
      var c := s.bus.replies[0];
      assert Active(s) == s.bus.replies && Active(s') == s.bus.replies[1..];
      assert Active(s)[0] == s.subs[s.handled + 0].chan;
      assert ChannelOk(s, c);
      CallbackAccounts(s, unset);
      CallbackInStep(s, unset);
      forall d | 0 <= d < |s.bus.chans| ensures ChannelOk(s', d) {
        CallbackChannel(s, d, unset);
      }
    }
  }

  lemma CallbackAccounts(s: System, unset: nat)
    requires Accounts(s) && Enabled(s, ReplyCallback(unset)) && Distinct(s.bus.replies)
    requires s.bus.replies != [] && s.bus.chans[s.bus.replies[0]].echo.Some?
    ensures Accounts(Next(s, ReplyCallback(unset))) <==> !Due(s, s.bus.replies[0])
  {
    var s', c := Next(s, ReplyCallback(unset)), s.bus.replies[0];
    assert Active(s') == s.bus.replies[1..] && c !in Active(s');
    if Due(s, c) {
      var i :| 0 <= i < |s.accounting| && s.accounting[i].chan == c;
      assert s'.accounting[i].chan !in Active(s');
    } else {
      forall d | 0 <= d < |s.bus.chans| ensures Due(s', d) <==> Due(s, d) {
      }
      forall i | 0 <= i < |s.accounting| ensures s.accounting[i].chan in Active(s') {
        assert s.accounting[i].chan != c;
      }
    }
  }

  lemma CallbackInStep(s: System, unset: nat)
    requires Protocol(s) && Enabled(s, ReplyCallback(unset)) && s.bus.replies != []
    ensures InStep(Next(s, ReplyCallback(unset)))
  {
    var s' := Next(s, ReplyCallback(unset));
    forall i | 0 <= i < |Active(s')|
      ensures Active(s')[i] == s'.subs[s'.handled + i].chan && Active(s')[i] < |s'.bus.chans|
      ensures s'.bus.chans[Active(s')[i]].echo == Some(s'.subs[s'.handled + i].frame)
    {
      assert Active(s')[i] == Active(s)[i + 1];
    }
  }

  lemma CallbackChannel(s: System, d: nat, unset: nat)
    requires Protocol(s) && Enabled(s, ReplyCallback(unset)) && s.bus.replies != [] && d < |s.bus.chans|
    ensures ChannelOk(Next(s, ReplyCallback(unset)), d)
  {
    var s' := Next(s, ReplyCallback(unset));
    var c := s.bus.replies[0];
    assert ChannelOk(s, d) && ChannelOk(s, c);
    assert Active(s)[0] == s.subs[s.handled + 0].chan;
    if d != c && Busy(s, d) {
      var i :| s.handled <= i < |s.subs| && s.subs[i].chan == d;
      assert i > s.handled && s'.subs[i].chan == d;
    }
    assert d in Active(s) <==> d == c || d in Active(s');
  }

  /** In an intact state the reply handler can always run and the echo slot it empties is taken. */
  lemma HandlerIsDefined(s: System)
    requires Protocol(s) && !s.replying
    ensures InRange(s.bus) && CallbackDefined(s.bus)
  {
    forall i | 0 <= i < |s.bus.replies|
      ensures s.bus.replies[i] < |s.bus.chans| && s.bus.chans[s.bus.replies[i]].echo.Some?
    {
      assert Active(s)[i] == s.bus.replies[i];
    }
  }

  /** Whether or not the reply handler is at work, the nodes linked are those of channels. */
  lemma ProtocolInRange(s: System)
    requires Protocol(s)
    ensures InRange(s.bus)
  {
    forall i | 0 <= i < |s.bus.replies| ensures s.bus.replies[i] < |s.bus.chans| {
      if !s.replying {
        assert s.bus.replies[i] == Active(s)[i];
      } else if i > 0 {
        assert s.bus.replies[i] == Active(s)[i - 1];
      }
    }
  }

  lemma UnlinkStep(s: System)
    requires Protocol(s) && Enabled(s, ReplyUnlink)
    ensures Protocol(Next(s, ReplyUnlink))
  {
    var s' := Next(s, ReplyUnlink);
    assert Active(s') == Active(s);
    AccountsStay(s, s');
    forall d | 0 <= d < |s.bus.chans| ensures ChannelOk(s', d) {
      assert ChannelOk(s, d);
      BusyIff(s, s', d);
    }
  }

  /** One step from an intact state keeps it intact exactly when the step is safe. */
  lemma StepKeepsProtocolIffSafe(s: System, l: Label)
    requires Protocol(s)
    ensures Enabled(s, l) ==> (Protocol(Next(s, l)) <==> Safe(s, l))
  {
    if !Enabled(s, l) {
      return;
    }
    match l
    case OpenDev(c, err) => OpenStep(s, c, err);
    case CloseDev(c) => CloseStep(s, c);
    case XmitInvalid(c) =>
    case XmitRefused(c) => RefusedStep(s, c);
    case XmitSubmit(c, f) => SubmitStep(s, c, f);
    case XmitPark(i, oom) =>
      if Safe(s, l) {
        SafeParkStep(s);
      } else {
        UnsafeParkStep(s, i, oom);
      }
    case XmitAccount(i) => AccountStep(s, i);
    case Answer(status) => AnswerStep(s, status);
    case ReplyCallback(unset) => CallbackStep(s, unset);
    case ReplyUnlink => UnlinkStep(s);
  }
}

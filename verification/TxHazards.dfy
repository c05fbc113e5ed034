/**
 * What the unsafe steps of the transmit protocol lead to, each from every intact state that allows
 * the step. The device answers correctly throughout.
 */
module TxHazards {
  import opened Kernel
  import opened TxBus
  import opened TxProtocol
  import opened TxRuns

  lemma Extend(s: System, labels: seq<Label>, states: seq<System>, l: Label)
    returns (labels': seq<Label>, states': seq<System>)
    requires Performs(s, labels, states) && Enabled(states[|labels|], l)
    ensures labels' == labels + [l] && states' == states + [Next(states[|labels|], l)]
    ensures Performs(s, labels', states')
  {
    labels', states' := labels + [l], states + [Next(states[|labels|], l)];
  }

  // ---------------------------------------------------------------------------------------
  // A wedged channel
  // ---------------------------------------------------------------------------------------

  /** Channel c is stopped with nothing pending, so no reply will ever wake it. */
  ghost predicate Wedged(s: System, c: nat) {
    && c < |s.bus.chans|
    && s.bus.chans[c].stopped && s.bus.chans[c].echo.None?
    && c !in Active(s)
    && (s.replying ==> s.bus.replies != [])
    && !Has(s.sending, c)
  }

  /** When the echo cannot be stored the channel wedges at once. */
  lemma EchoFailureWedges(s: System, i: nat)
    requires Protocol(s) && Enabled(s, XmitPark(i, true))
    ensures Wedged(Next(s, XmitPark(i, true)), s.sending[i].chan)
  {
    var s', c := Next(s, XmitPark(i, true)), s.sending[i].chan;
    SendingIsNotActive(s, i);
    assert ChannelOk(s, c);
    ActiveIsBusy(s, c);
    SendingDistinct(s);
    HasWithout(s.sending, i, c);
  }

  lemma SendingDistinct(s: System)
    requires InStep(s)
    ensures forall i, j :: 0 <= i < j < |s.sending| ==> s.sending[i].chan != s.sending[j].chan
  {
    var base := s.handled + |Active(s)|;
    forall i, j | 0 <= i < j < |s.sending| ensures s.sending[i].chan != s.sending[j].chan {
      assert s.sending[i] == s.subs[base + i] && s.sending[j] == s.subs[base + j];
    }
  }

  lemma WedgedStep(s: System, l: Label, c: nat)
    requires Wedged(s, c) && Enabled(s, l) && !(l.OpenDev? && l.c == c)
    ensures Wedged(Next(s, l), c)
  {
    StoppedStartsNoCall(s, l, c);
    var s' := Next(s, l);
    match l
    case XmitPark(i, oom) => assert s.sending[i].chan != c;
    case _ =>
  }

  lemma StoppedStartsNoCall(s: System, l: Label, c: nat)
    requires c < |s.bus.chans| && s.bus.chans[c].stopped && !Has(s.sending, c) && Enabled(s, l)
    ensures !Has(Next(s, l).sending, c)
  {
    var s' := Next(s, l);
    forall j | 0 <= j < |s'.sending| ensures s'.sending[j].chan != c {
      match l
      case XmitPark(i, oom) => assert s'.sending[j] == s.sending[if j < i then j else j + 1];
      case _ => assert j < |s.sending| ==> s'.sending[j] == s.sending[j];
    }
  }

  /** And it stays wedged, whatever happens on this or any other channel, until it is opened
      again. */
  lemma {:induction false} WedgedUntilReopened(states: seq<System>, labels: seq<Label>, c: nat)
    requires |states| > 0 && Performs(states[0], labels, states) && Wedged(states[0], c)
    requires forall i :: 0 <= i < |labels| ==> !(labels[i].OpenDev? && labels[i].c == c)
    ensures forall i :: 0 <= i < |states| ==> Wedged(states[i], c)
  {
    var n := 0;
    while n < |labels|
      invariant 0 <= n <= |labels|
      invariant forall i :: 0 <= i <= n ==> Wedged(states[i], c)
    {
      WedgedStep(states[n], labels[n], c);
      n := n + 1;
    }
  }

  // ---------------------------------------------------------------------------------------
  // Answers that go astray
  // ---------------------------------------------------------------------------------------

  /** The driver has just reported the device's verdict on frame `x` as the verdict on frame `y`. */
  ghost predicate Astray(s: System, x: Sub, y: Sub, status: byte) {
    && x.chan != y.chan
    && 0 < s.handled <= |s.verdicts| && s.handled <= |s.subs|
    && s.subs[s.handled - 1] == x && s.verdicts[s.handled - 1] == status
    && s.log != [] && Last(s.log) == Completed(y.chan, y.frame, status)
  }

  /** Frame `x` is to be answered next, but the node of another frame's channel heads the list. */
  ghost predicate Skewed(s: System, x: Sub, y: Sub) {
    && x.chan != y.chan && !s.replying && InRange(s.bus)
    && s.handled <= |s.verdicts| <= |s.subs| && s.handled < |s.subs| && s.subs[s.handled] == x
    && s.bus.replies != [] && s.bus.replies[0] == y.chan < |s.bus.chans|
    && s.bus.chans[y.chan].echo == Some(y.frame)
  }

  /** From there the next answer goes astray. */
  lemma AnswerGoesAstray(s: System, labels0: seq<Label>, states0: seq<System>, x: Sub, y: Sub, status: byte)
    returns (labels: seq<Label>, states: seq<System>, verdict: byte)
    requires Performs(s, labels0, states0) && Skewed(states0[|labels0|], x, y)
    ensures Performs(s, labels, states) && labels0 <= labels
    ensures Astray(states[|labels|], x, y, verdict)
    ensures |states0[|labels0|].verdicts| == states0[|labels0|].handled ==> verdict == status
  {
    labels, states := EnsureAnswered(s, labels0, states0, status);
    verdict := states[|labels|].verdicts[states[|labels|].handled];
    labels, states := Extend(s, labels, states, ReplyCallback(0));
  }

  /** At rest with two calls under way: the first two in line, and that none of them is linked. */
  lemma AtRest(s: System)
    requires Protocol(s) && Ready(s) && s.bus.replies == []
    ensures |s.subs| - s.handled == |s.sending|
    ensures forall i :: 0 <= i < |s.sending| ==>
              && s.sending[i] == s.subs[s.handled + i] && s.sending[i].chan < |s.bus.chans|
              && s.bus.chans[s.sending[i].chan].echo.None?
    ensures forall i, j :: 0 <= i < j < |s.sending| ==> s.sending[i].chan != s.sending[j].chan
  {
    SendingDistinct(s);
    forall i | 0 <= i < |s.sending|
      ensures s.sending[i] == s.subs[s.handled + i] && s.bus.chans[s.sending[i].chan].echo.None?
    {
      SendingIsNotActive(s, i);
      assert s.sending[i] == s.subs[s.handled + |Active(s)| + i];
    }
  }

  /** Overtaking: whenever two calls of start_xmit are under way and one links its node before one
      that submitted earlier, the device's verdict on the earlier frame can be reported for the
      later one. */
  lemma OvertakingMisattributes(s: System, i: nat, status: byte)
    returns (labels: seq<Label>, states: seq<System>, verdict: byte)
    requires Protocol(s) && 0 < i < |s.sending|
    ensures Performs(s, labels, states) && XmitPark(i, false) in labels
    ensures Astray(states[|labels|], s.sending[0], s.sending[i], verdict)
  {
    labels, states := ComesToRest(s);
    var t := states[|labels|];
    AtRest(t);
    assert t.sending[0] == t.subs[t.handled + 0];
    var n := |labels|;
    labels, states := Extend(s, labels, states, XmitPark(i, false));
    var labels1 := labels;
    assert labels1[n] == XmitPark(i, false);
    labels, states, verdict := AnswerGoesAstray(s, labels, states, s.sending[0], s.sending[i], status);
    assert labels[n] == labels1[n];
  }

  /** From an intact state with a call under way and another channel open, safe steps lead to rest
      with two calls under way: the earliest there was, and the next or a new one. */
  lemma RestWithTwo(s: System, d: nat, g: Frame)
    returns (labels: seq<Label>, states: seq<System>, y: Sub)
    requires Protocol(s) && OtherOpen(s, d)
    ensures SafeRun(s, labels, states)
    ensures var t := states[|labels|];
            && Protocol(t) && Ready(t) && t.bus.replies == [] && |t.sending| >= 2
            && t.sending[0] == s.sending[0] && t.sending[1] == y && y.chan != s.sending[0].chan
    ensures y == if |s.sending| == 1 then Sub(d, g) else s.sending[1]
  {
    labels, states := ComesToRest(s);
    var t := states[|labels|];
    if |s.sending| == 1 {
      assert !Has(t.sending, d);
      SubmitStep(t, d, g);
      var more, rest := Single(t, XmitSubmit(d, g));
      Join(s, labels, states, more, rest);
      labels, states := labels + more, states[..|labels|] + rest;
      y := Sub(d, g);
    } else {
      y := t.sending[1];
      AtRest(t);
    }
  }

  /** A call of start_xmit is under way, and channel d is another open one. */
  ghost predicate OtherOpen(s: System, d: nat) {
    s.sending != [] && d < |s.bus.chans| && s.bus.chans[d].open && d != s.sending[0].chan
  }

  /** A failed echo: the next call that links its node is given the verdict on the frame without
      echo. */
  lemma EchoFailureMisattributes(s: System, d: nat, g: Frame, status: byte)
    returns (labels: seq<Label>, states: seq<System>, y: Sub, verdict: byte)
    requires Protocol(s) && OtherOpen(s, d)
    ensures Performs(s, labels, states) && XmitPark(0, true) in labels
    ensures Astray(states[|labels|], s.sending[0], y, verdict)
    ensures y == if |s.sending| == 1 then Sub(d, g) else s.sending[1]
  {
    labels, states, y := RestWithTwo(s, d, g);
    var t := states[|labels|];
    AtRest(t);
    assert t.sending[0] == t.subs[t.handled + 0];
    var n := |labels|;
    labels, states := Extend(s, labels, states, XmitPark(0, true));
    labels, states := Extend(s, labels, states, XmitPark(0, false));
    var labels1 := labels;
    assert labels1[n] == XmitPark(0, true);
    labels, states, verdict := AnswerGoesAstray(s, labels, states, s.sending[0], y, status);
    assert labels[n] == labels1[n];
  }

  /** A status handled before its node is linked is lost, and the channel is given the verdict on
      the frame after its own. */
  lemma EarlyStatusMisattributes(s: System, d: nat, g: Frame, status: byte)
    returns (labels: seq<Label>, states: seq<System>, x: Sub, verdict: byte)
    requires Protocol(s) && OtherOpen(s, d)
    ensures Performs(s, labels, states)
    ensures exists n :: 0 <= n < |labels| && labels[n] == ReplyCallback(0) && states[n].bus.replies == []
                        && states[n + 1].log == states[n].log
    ensures Astray(states[|labels|], x, s.sending[0], verdict)
    ensures x == if |s.sending| == 1 then Sub(d, g) else s.sending[1]
  {
    var n: nat;
    labels, states, n, x := StatusLost(s, d, g, status);
    var labels1, states1 := labels, states;
    labels, states, verdict := AnswerGoesAstray(s, labels, states, x, s.sending[0], status);
    PerformsDeterministic(s, labels1, states1, labels, states, n + 1);
    assert labels[n] == labels1[n];
  }

  lemma StatusLost(s: System, d: nat, g: Frame, status: byte)
    returns (labels: seq<Label>, states: seq<System>, n: nat, x: Sub)
    requires Protocol(s) && OtherOpen(s, d)
    ensures Performs(s, labels, states)
    ensures n < |labels| && labels[n] == ReplyCallback(0) && states[n].bus.replies == []
            && states[n + 1].log == states[n].log
    ensures Skewed(states[|labels|], x, s.sending[0])
    ensures x == if |s.sending| == 1 then Sub(d, g) else s.sending[1]
  {
    labels, states, x := RestWithTwo(s, d, g);
    var t := states[|labels|];
    AtRest(t);
    assert t.sending[0] == t.subs[t.handled + 0] && t.sending[1] == t.subs[t.handled + 1];
    labels, states := EnsureAnswered(s, labels, states, status);
    labels, states, n := LoseStatus(s, labels, states);
  }

  /** The oldest unanswered frame is answered unless it was already. */
  lemma EnsureAnswered(s: System, labels0: seq<Label>, states0: seq<System>, status: byte)
    returns (labels: seq<Label>, states: seq<System>)
    requires Performs(s, labels0, states0)
    requires var t := states0[|labels0|]; t.handled <= |t.verdicts| <= |t.subs| && t.handled < |t.subs|
    ensures Performs(s, labels, states)
    ensures var t, u := states0[|labels0|], states[|labels|];
            && u == t.(verdicts := u.verdicts) && t.handled < |u.verdicts| <= |u.subs|
            && (|t.verdicts| == t.handled ==> u.verdicts[t.handled] == status)
    ensures labels0 <= labels
  {
    labels, states := labels0, states0;
    if |states[|labels|].verdicts| == states[|labels|].handled {
      labels, states := Extend(s, labels, states, Answer(status));
    }
  }

  lemma LoseStatus(s: System, labels0: seq<Label>, states0: seq<System>)
    returns (labels: seq<Label>, states: seq<System>, n: nat)
    requires Performs(s, labels0, states0)
    requires var t := states0[|labels0|];
             && !t.replying && t.bus.replies == [] && |t.sending| >= 2
             && t.handled < |t.verdicts| <= |t.subs| && t.handled + 2 <= |t.subs|
             && t.sending[0] == t.subs[t.handled] && t.sending[1] == t.subs[t.handled + 1]
             && t.sending[0].chan != t.sending[1].chan && t.sending[0].chan < |t.bus.chans|
             && t.bus.chans[t.sending[0].chan].echo.None?
    ensures Performs(s, labels, states)
    ensures n < |labels| && labels[n] == ReplyCallback(0) && states[n].bus.replies == []
            && states[n + 1].log == states[n].log
    ensures var t := states0[|labels0|]; Skewed(states[|labels|], t.sending[1], t.sending[0])
  {
    n := |labels0|;
    labels, states := Extend(s, labels0, states0, ReplyCallback(0));
    labels, states := Extend(s, labels, states, XmitPark(0, false));
  }

  /** Two runs that begin with the same steps pass through the same states. */
  lemma {:induction false} PerformsDeterministic(s: System, labels: seq<Label>, states: seq<System>,
                                                 labels': seq<Label>, states': seq<System>, n: nat)
    requires Performs(s, labels, states) && Performs(s, labels', states') && labels <= labels'
    requires n <= |labels|
    ensures forall i :: 0 <= i <= n ==> states[i] == states'[i]
  {
    if n > 0 {
      PerformsDeterministic(s, labels, states, labels', states', n - 1);
      assert labels[n - 1] == labels'[n - 1];
      assert states[n - 1] == states'[n - 1];
    }
  }

  /** These hypotheses are met: two channels can have a call under way at once. */
  lemma TwoCallsUnderWay(f: Frame, g: Frame) returns (labels: seq<Label>, states: seq<System>)
    ensures IsRun(states, labels) && states[0] == Start(2) && AllSafe(states, labels)
    ensures Protocol(states[|labels|]) && states[|labels|].sending == [Sub(0, f), Sub(1, g)]
  {
    labels, states := BothOpen();
    var s2 := states[2];
    labels, states := Extend(Start(2), labels, states, XmitSubmit(0, f));
    var s3 := states[3];
    assert s3.sending == [Sub(0, f)] && s3.bus.chans[1] == s2.bus.chans[1];
    labels, states := Extend(Start(2), labels, states, XmitSubmit(1, g));
    OpensAndSubmitsAreSafe(states, labels);
  }

  lemma OpensAndSubmitsAreSafe(states: seq<System>, labels: seq<Label>)
    requires |states| > 0 && states[0] == Start(2) && Performs(Start(2), labels, states)
    requires forall i :: 0 <= i < |labels| ==> labels[i].OpenDev? || labels[i].XmitSubmit?
    ensures IsRun(states, labels) && AllSafe(states, labels) && Protocol(states[|labels|])
  {
    assert IsRun(states, labels) && AllSafe(states, labels);
    RunIntactIffSafe(states, labels);
  }

  lemma BothOpen() returns (labels: seq<Label>, states: seq<System>)
    ensures Performs(Start(2), labels, states) && labels == [OpenDev(0, 0), OpenDev(1, 0)]
    ensures var on := NEW_CHANNEL.(open := true, stopped := false);
            states[2] == System(Bus([on, on], []), [], [], 0, [], [], false, [])
  {
    labels, states := Extend(Start(2), [], [Start(2)], OpenDev(0, 0));
    labels, states := Extend(Start(2), labels, states, OpenDev(1, 0));
    var on := NEW_CHANNEL.(open := true, stopped := false);
    assert states[2].bus.chans == [on, on];
  }

  // ---------------------------------------------------------------------------------------
  // Bytes completed before they are sent, nodes linked twice
  // ---------------------------------------------------------------------------------------

  /** A status handled between list_add_tail and netdev_sent_queue of its channel completes bytes
      that nobody has reported sent. */
  lemma EarlyCallbackOvercompletes(s: System, unset: nat)
    requires Protocol(s) && Enabled(s, ReplyCallback(unset))
    requires s.bus.replies != [] && Due(s, s.bus.replies[0])
    ensures var c := s.bus.replies[0];
            var before, after := s.bus.chans[c], Next(s, ReplyCallback(unset)).bus.chans[c];
            && before.echo.Some?
            && after.completed == after.queued + before.echo.value.frameLen
  {
    CallbackStep(s, unset);
  }

  /** The callback wakes the channel before its node is unlinked. A new frame on it links the node
      a second time, from every intact state in which an answer is about to be handled. */
  lemma ParkBeforeUnlinkLinksTwice(s: System, f: Frame)
    returns (labels: seq<Label>, states: seq<System>)
    requires Protocol(s) && Quiet(s) && s.handled < |s.verdicts|
    ensures s.bus.replies != []
    ensures var c := s.bus.replies[0];
            && Performs(s, labels, states)
            && labels == [ReplyCallback(0), XmitSubmit(c, f), XmitPark(0, false)]
            && states[3].bus.replies == s.bus.replies + [c]
            && !Distinct(states[3].bus.replies)
  {
    AwakeBeforeUnlink(s);
    var c := s.bus.replies[0];
    labels, states := Extend(s, [], [s], ReplyCallback(0));
    labels, states := Extend(s, labels, states, XmitSubmit(c, f));
    labels, states := Extend(s, labels, states, XmitPark(0, false));
    assert states[3].bus.replies[0] == states[3].bus.replies[|s.bus.replies|];
  }

  lemma AwakeBeforeUnlink(s: System)
    requires Protocol(s) && Quiet(s) && s.handled < |s.verdicts|
    ensures s.bus.replies != [] && Enabled(s, ReplyCallback(0))
    ensures var s1, c := Next(s, ReplyCallback(0)), s.bus.replies[0];
            && MayTransmit(s1, c) && s1.bus.chans[c].echo.None? && s1.bus.replies == s.bus.replies
  {
    QuiescentIsOk(s);
    assert s.bus.replies[0] in s.bus.replies;
  }

  /** Closing a channel with a frame pending leaves its node linked, and opening it again wakes
      its queue. */
  lemma CloseAndReopen(s: System, c: nat) returns (labels: seq<Label>, states: seq<System>)
    requires Protocol(s) && Quiet(s) && c in s.bus.replies && c < |s.bus.chans|
    ensures Performs(s, labels, states) && labels == [CloseDev(c), OpenDev(c, 0)]
    ensures var ch := Flushed(s.bus.chans[c]).(open := true, stopped := false);
            states[2] == s.(bus := SetChannel(s.bus, c, ch))
  {
    assert ChannelOk(s, c);
    ActiveIsBusy(s, c);
    labels, states := Extend(s, [], [s], CloseDev(c));
    labels, states := Extend(s, labels, states, OpenDev(c, 0));
    var ch := Flushed(s.bus.chans[c]).(open := true, stopped := false);
    assert states[2].bus.chans == s.bus.chans[c := ch];
  }

  /** So its next frame links the same node a second time. */
  lemma CloseWhilePendingLinksTwice(s: System, c: nat, f: Frame)
    returns (labels: seq<Label>, states: seq<System>)
    requires Protocol(s) && Quiet(s) && c in s.bus.replies && c < |s.bus.chans|
    ensures Performs(s, labels, states)
    ensures labels == [CloseDev(c), OpenDev(c, 0), XmitSubmit(c, f), XmitPark(0, false)]
    ensures states[4].bus.replies == s.bus.replies + [c] && !Distinct(states[4].bus.replies)
  {
    labels, states := CloseAndReopen(s, c);
    labels, states := Extend(s, labels, states, XmitSubmit(c, f));
    labels, states := Extend(s, labels, states, XmitPark(0, false));
    assert states[4].bus.replies == s.bus.replies + [c];
    var k :| 0 <= k < |s.bus.replies| && s.bus.replies[k] == c;
    assert states[4].bus.replies[k] == states[4].bus.replies[|s.bus.replies|];
  }
}

/**
 * How long one mishap lasts. A single failed echo, or a single status handled before its node is
 * linked, puts every later verdict one frame off, however safe the steps that follow.
 *
 * Both proofs look at the run as it would be had the device not seen the frame, or not sent the
 * status: that run is intact.
 */
module TxShift {
  import opened Kernel
  import opened TxBus
  import opened TxProtocol
  import opened TxRuns

  /** Every step but the m-th is safe. */
  ghost predicate SafeExcept(states: seq<System>, labels: seq<Label>, m: nat)
    requires IsRun(states, labels)
  {
    forall i :: 0 <= i < |labels| && i != m ==> Safe(states[i], labels[i])
  }

  lemma {:induction false} IntactUpTo(states: seq<System>, labels: seq<Label>, m: nat, n: nat)
    requires IsRun(states, labels) && SafeExcept(states, labels, m) && n <= m < |states|
    ensures Protocol(states[n]) && Ledger(states[n])
  {
    if n == 0 {
      InitProtocol(states[0]);
      LedgerInit(states[0]);
    } else {
      IntactUpTo(states, labels, m, n - 1);
      StepKeepsProtocolIffSafe(states[n - 1], labels[n - 1]);
      StepKeepsLedger(states[n - 1], labels[n - 1]);
    }
  }

  ghost predicate SafeStep(s: System, l: Label, s': System) {
    Enabled(s, l) && Safe(s, l) && s' == Next(s, l)
  }

  /** From the m-th state on all steps are safe. */
  ghost predicate SafeFrom(states: seq<System>, labels: seq<Label>, m: nat) {
    |states| == |labels| + 1 && forall i {:trigger labels[i]} :: m <= i < |labels| ==>
      SafeStep(states[i], labels[i], states[i + 1])
  }

  lemma SafeAfter(states: seq<System>, labels: seq<Label>, m: nat)
    requires IsRun(states, labels) && SafeExcept(states, labels, m)
    ensures SafeFrom(states, labels, m + 1)
  {
  }

  /** What every step keeps is kept along the steps. */
  lemma {:induction false} HoldsAlong(inv: System -> bool, step: (System, Label, System) -> bool,
                                      states: seq<System>, labels: seq<Label>, m: nat, n: nat)
    requires |states| == |labels| + 1 && m <= n < |states| && inv(states[m])
    requires forall i {:trigger labels[i]} :: m <= i < |labels| ==> step(states[i], labels[i], states[i + 1])
    requires forall s, l, s' :: inv(s) && step(s, l, s') ==> inv(s')
    ensures inv(states[n])
  {
    if n > m {
      HoldsAlong(inv, step, states, labels, m, n - 1);
      assert step(states[n - 1], labels[n - 1], states[n]);
    }
  }

  ghost predicate Intact(s: System) {
    Protocol(s) && Ledger(s)
  }

  lemma IntactStep(s: System, l: Label)
    requires Intact(s) && Enabled(s, l) && Safe(s, l)
    ensures Intact(Next(s, l))
  {
    StepKeepsProtocolIffSafe(s, l);
    StepKeepsLedger(s, l);
  }

  // ---------------------------------------------------------------------------------------
  // A failed echo
  // ---------------------------------------------------------------------------------------

  /** Channel c as if it were closed. */
  function Shut(b: Bus, c: nat): Bus
    requires c < |b.chans|
  {
    SetChannel(b, c, b.chans[c].(open := false))
  }

  /** The system as if submission k had not happened, its channel c were closed, and the device
      answered no sooner than the driver looks. */
  ghost function Erased(s: System, k: nat, c: nat): System
    requires k < |s.subs| && c < |s.bus.chans| && s.handled <= |s.verdicts|
  {
    s.(bus := Shut(s.bus, c), subs := Without(s.subs, k), verdicts := s.verdicts[..s.handled])
  }

  /** Submission k is x, and the queue of its channel is stopped. */
  predicate Stuck(s: System, k: nat, x: Sub) {
    && k < |s.subs| && s.subs[k] == x && x.chan < |s.bus.chans| && s.handled <= |s.verdicts| <= |s.subs|
    && s.bus.chans[x.chan].open && s.bus.chans[x.chan].stopped
  }

  /** Submission k, which is x, has no echo and never will have one; all else is in order. */
  ghost predicate Missing(s: System, k: nat, x: Sub) {
    Stuck(s, k, x) && Intact(Erased(s, k, x.chan))
  }

  /** The state after the i-th call under way has failed to store its echo, without that call. */
  ghost function AfterFailure(s: System, i: nat): System
    requires Protocol(s) && i < |s.sending|
  {
    SendingAt(s, i);
    s.(bus := Shut(s.bus, s.sending[i].chan), subs := Without(s.subs, Place(s, i)),
       sending := Without(s.sending, i), verdicts := s.verdicts[..s.handled])
  }

  lemma SendingAt(s: System, i: nat)
    requires Protocol(s) && i < |s.sending|
    ensures Place(s, i) < |s.subs| && s.handled <= |s.verdicts|
    ensures s.subs[Place(s, i)] == s.sending[i] && s.sending[i].chan < |s.bus.chans|
  {
  }

  lemma EchoFails(s: System, i: nat)
    requires Intact(s) && Enabled(s, XmitPark(i, true))
    ensures Missing(Next(s, XmitPark(i, true)), Place(s, i), s.sending[i])
  {
    SendingAt(s, i);
    FailureStuck(s, i);
    FailureProtocol(s, i);
    FailureLedger(s, i);
  }

  lemma FailureStuck(s: System, i: nat)
    requires Protocol(s) && Enabled(s, XmitPark(i, true))
    ensures var k, s' := Place(s, i), Next(s, XmitPark(i, true));
            Stuck(s', k, s.sending[i]) && Erased(s', k, s.sending[i].chan) == AfterFailure(s, i)
  {
    SendingAt(s, i);
    assert ChannelOk(s, s.sending[i].chan);
    ActiveIsBusy(s, s.sending[i].chan);
  }

  lemma FailureProtocol(s: System, i: nat)
    requires Protocol(s) && i < |s.sending|
    ensures Protocol(AfterFailure(s, i))
  {
    FailureInStep(s, i);
    FailureChannels(s, i);
    FailureAccounts(s, i);
  }

  lemma FailureAccounts(s: System, i: nat)
    requires Protocol(s) && i < |s.sending|
    ensures Accounts(AfterFailure(s, i))
  {
    AccountsStay(s, AfterFailure(s, i));
  }

  lemma FailureLedger(s: System, i: nat)
    requires Intact(s) && i < |s.sending|
    ensures Ledger(AfterFailure(s, i))
  {
    var e := AfterFailure(s, i);
    assert Active(e) == Active(s) && e.log == s.log;
    forall d | 0 <= d < |e.bus.chans| ensures ChannelLedger(e, d) {
      assert ChannelLedger(s, d);
    }
  }

  lemma FailureChannels(s: System, i: nat)
    requires Protocol(s) && i < |s.sending|
    ensures var e := AfterFailure(s, i);
            e.handled <= |e.subs| && forall d :: 0 <= d < |e.bus.chans| ==> ChannelOk(e, d)
  {
    var k, c := Place(s, i), s.sending[i].chan;
    var e := AfterFailure(s, i);
    assert Active(e) == Active(s) && s.subs[k] == s.sending[i];
    SendingIsNotActive(s, i);
    forall d | 0 <= d < |s.bus.chans| ensures ChannelOk(e, d) {
      assert ChannelOk(s, d);
      BusyWithout(s.subs, s.handled, k, d);
      assert Busy(e, d) <==> Busy(s, d) && d != c;
    }
  }

  lemma FailureInStep(s: System, i: nat)
    requires Protocol(s) && i < |s.sending|
    ensures InStep(AfterFailure(s, i))
  {
    FailureSending(s, i);
    FailureActive(s, i);
    WithoutDistinct(s.subs, s.handled, Place(s, i));
  }

  lemma FailureSending(s: System, i: nat)
    requires Protocol(s) && i < |s.sending|
    ensures Counted(AfterFailure(s, i)) && SendingInLine(AfterFailure(s, i))
  {
    var e := AfterFailure(s, i);
    assert Active(e) == Active(s);
    WithoutLine(s.subs, s.sending, s.handled + |Active(s)|, i);
  }

  lemma FailureActive(s: System, i: nat)
    requires Protocol(s) && i < |s.sending|
    ensures Counted(AfterFailure(s, i)) && ActiveInLine(AfterFailure(s, i))
  {
    var e := AfterFailure(s, i);
    assert Active(e) == Active(s);
    forall j | 0 <= j < |Active(e)|
      ensures Active(e)[j] == e.subs[e.handled + j].chan && Active(e)[j] < |e.bus.chans|
      ensures e.bus.chans[Active(e)[j]].echo == Some(e.subs[e.handled + j].frame)
    {
      assert Active(e)[j] == Active(s)[j] && e.subs[e.handled + j] == s.subs[s.handled + j];
      assert e.bus.chans[Active(s)[j]].echo == s.bus.chans[Active(s)[j]].echo;
    }
  }

  lemma WithoutLine(subs: seq<Sub>, line: seq<Sub>, base: nat, i: nat)
    requires base + |line| == |subs| && i < |line|
    requires forall j :: 0 <= j < |line| ==> line[j] == subs[base + j]
    ensures forall j :: 0 <= j < |line| - 1 ==> Without(line, i)[j] == Without(subs, base + i)[base + j]
  {
  }

  lemma WithoutDistinct(subs: seq<Sub>, h: nat, k: nat)
    requires k < |subs| && forall i, j :: h <= i < j < |subs| ==> subs[i].chan != subs[j].chan
    ensures var rest := Without(subs, k);
            forall i, j :: h <= i < j < |rest| ==> rest[i].chan != rest[j].chan
  {
  }

  lemma BusyWithout(subs: seq<Sub>, h: nat, k: nat, d: nat)
    requires h <= k < |subs| && forall i, j :: h <= i < j < |subs| ==> subs[i].chan != subs[j].chan
    ensures var rest := Without(subs, k);
            (exists i :: h <= i < |rest| && rest[i].chan == d)
            <==> (exists i :: h <= i < |subs| && subs[i].chan == d) && d != subs[k].chan
  {
    var rest := Without(subs, k);
    if i :| h <= i < |rest| && rest[i].chan == d {
      assert rest[i] == subs[if i < k then i else i + 1];
    }
    if i :| h <= i < |subs| && subs[i].chan == d && d != subs[k].chan {
      assert rest[if i < k then i else i - 1] == subs[i];
    }
  }

  /** Channel c takes no part in what is under way. */
  ghost predicate Aside(s: System, c: nat) {
    c !in Active(s) && !Has(s.sending, c) && !Has(s.accounting, c)
  }

  lemma MissingIsAside(s: System, k: nat, x: Sub)
    requires Missing(s, k, x)
    ensures Aside(s, x.chan)
    ensures !s.replying && s.bus.replies != [] ==> InRange(s.bus) && s.handled < |s.subs| - 1
  {
    var e := Erased(s, k, x.chan);
    assert ChannelOk(e, x.chan);
    ActiveIsBusy(e, x.chan);
    ProtocolInRange(e);
    assert Active(e) == Active(s);
  }

  /** The other steps are the same without the submission. */
  lemma ErasedStep(s: System, l: Label, k: nat, x: Sub)
    requires Stuck(s, k, x) && Aside(s, x.chan) && Enabled(s, l) && Safe(s, l)
    requires !l.Answer? && !l.ReplyCallback?
    ensures Stuck(Next(s, l), k, x)
    ensures var e := Erased(s, k, x.chan);
            Enabled(e, l) && Safe(e, l) && Next(e, l) == Erased(Next(s, l), k, x.chan)
  {
    match l
    case OpenDev(d, err) => ErasedSet(s.bus, x.chan, d, s.bus.chans[d].(open := true, stopped := false));
    case CloseDev(d) =>
      ErasedSet(s.bus, x.chan, d, Flushed(s.bus.chans[d]).(open := false, stopped := true));
    case XmitRefused(d) => ErasedSet(s.bus, x.chan, d, s.bus.chans[d].(stopped := false));
    case XmitSubmit(d, f) => ErasedSubmit(s, d, f, k, x);
    case XmitPark(i, oom) => ErasedPark(s, i, oom, k, x);
    case XmitAccount(i) => ErasedAccount(s, i, k, x);
    case _ =>
  }

  /** Shutting channel c and setting another one can be done in either order. */
  lemma ErasedSet(b: Bus, c: nat, d: nat, ch: Channel)
    requires c < |b.chans| && d < |b.chans| && c != d
    ensures Shut(SetChannel(b, d, ch), c) == SetChannel(Shut(b, c), d, ch)
  {
    assert Shut(SetChannel(b, d, ch), c).chans == SetChannel(Shut(b, c), d, ch).chans;
  }

  lemma ErasedSubmit(s: System, d: nat, f: Frame, k: nat, x: Sub)
    requires Stuck(s, k, x) && Enabled(s, XmitSubmit(d, f))
    ensures var e, l := Erased(s, k, x.chan), XmitSubmit(d, f);
            Enabled(e, l) && Stuck(Next(s, l), k, x) && Next(e, l) == Erased(Next(s, l), k, x.chan)
  {
    assert Without(s.subs, k) + [Sub(d, f)] == Without(s.subs + [Sub(d, f)], k);
    ErasedSet(s.bus, x.chan, d, s.bus.chans[d].(stopped := true));
  }

  lemma ErasedPark(s: System, i: nat, oom: bool, k: nat, x: Sub)
    requires Stuck(s, k, x) && !Has(s.sending, x.chan) && Enabled(s, XmitPark(i, oom))
    ensures var e, l := Erased(s, k, x.chan), XmitPark(i, oom);
            Enabled(e, l) && Stuck(Next(s, l), k, x) && Next(e, l) == Erased(Next(s, l), k, x.chan)
  {
    var y := s.sending[i];
    assert y.chan != x.chan;
    ErasedSet(s.bus, x.chan, y.chan, s.bus.chans[y.chan].(echo := Some(y.frame)));
  }

  lemma ErasedAccount(s: System, i: nat, k: nat, x: Sub)
    requires Stuck(s, k, x) && !Has(s.accounting, x.chan) && Enabled(s, XmitAccount(i))
    ensures var e, l := Erased(s, k, x.chan), XmitAccount(i);
            Enabled(e, l) && Stuck(Next(s, l), k, x) && Next(e, l) == Erased(Next(s, l), k, x.chan)
  {
    var y := s.accounting[i];
    assert y.chan != x.chan;
    var ch := s.bus.chans[y.chan];
    ErasedSet(s.bus, x.chan, y.chan, ch.(queued := ch.queued + y.frame.frameLen));
  }

  /** The handler's callback is, with the answer given just before it. */
  lemma ErasedCallback(s: System, unset: nat, k: nat, x: Sub)
    requires Stuck(s, k, x) && Aside(s, x.chan) && s.handled < |s.subs| - 1
    requires Enabled(s, ReplyCallback(unset)) && Safe(s, ReplyCallback(unset))
    ensures Stuck(Next(s, ReplyCallback(unset)), k, x)
    ensures var e, l1, l2 := Erased(s, k, x.chan), Answer(s.verdicts[s.handled]), ReplyCallback(unset);
            && Enabled(e, l1) && Safe(e, l1) && Enabled(Next(e, l1), l2) && Safe(Next(e, l1), l2)
            && Next(Next(e, l1), l2) == Erased(Next(s, l2), k, x.chan)
  {
    var s', e := Next(s, ReplyCallback(unset)), Erased(s, k, x.chan);
    assert s.bus.replies[0] in Active(s);
    var e1 := Next(e, Answer(s.verdicts[s.handled]));
    assert e1.verdicts == s'.verdicts[..s'.handled];
    assert Next(e1, ReplyCallback(unset)).bus.chans == Erased(s', k, x.chan).bus.chans;
  }

  lemma MissingStep(s: System, l: Label, s': System, k: nat, x: Sub)
    requires Missing(s, k, x) && SafeStep(s, l, s')
    ensures Missing(s', k, x)
  {
    MissingIsAside(s, k, x);
    var e := Erased(s, k, x.chan);
    match l
    case Answer(status) =>
      assert Erased(s', k, x.chan) == e;
    case ReplyCallback(unset) =>
      ErasedCallback(s, unset, k, x);
      var answer := Answer(s.verdicts[s.handled]);
      IntactStep(e, answer);
      IntactStep(Next(e, answer), l);
    case _ =>
      ErasedStep(s, l, k, x);
      IntactStep(e, l);
  }

  lemma MissingClosed(k: nat, x: Sub)
    ensures forall s, l, s' :: Missing(s, k, x) && SafeStep(s, l, s') ==> Missing(s', k, x)
  {
    forall s, l, s' | Missing(s, k, x) && SafeStep(s, l, s') ensures Missing(s', k, x) {
      MissingStep(s, l, s', k, x);
    }
  }

  /** After a failed echo, in every run of otherwise safe steps: each verdict on the frame without
      echo or a later one is reported for the frame submitted next after it. The channel of the
      failed echo stays stopped, and the verdict on the last frame finds the list empty. */
  lemma FailedEchoShiftsVerdicts(states: seq<System>, labels: seq<Label>, m: nat, n: nat)
    requires IsRun(states, labels) && SafeExcept(states, labels, m) && m < n < |states|
    requires labels[m].XmitPark? && labels[m].oom
    ensures Shifted(states[n], Place(states[m], labels[m].i), states[m].sending[labels[m].i])
  {
    FailureAt(states, labels, m);
    SafeAfter(states, labels, m);
    ShiftedAlong(states, labels, Place(states[m], labels[m].i), states[m].sending[labels[m].i], m + 1, n);
  }

  /** The number of the submission made by the i-th call under way. */
  function Place(s: System, i: nat): nat {
    s.handled + |Active(s)| + i
  }

  lemma FailureAt(states: seq<System>, labels: seq<Label>, m: nat)
    requires IsRun(states, labels) && SafeExcept(states, labels, m) && m < |labels|
    requires labels[m].XmitPark? && labels[m].oom
    ensures Missing(states[m + 1], Place(states[m], labels[m].i), states[m].sending[labels[m].i])
  {
    IntactUpTo(states, labels, m, m);
    EchoFails(states[m], labels[m].i);
  }

  lemma ShiftedAlong(states: seq<System>, labels: seq<Label>, k: nat, x: Sub, m: nat, n: nat)
    requires SafeFrom(states, labels, m) && m <= n < |states| && Missing(states[m], k, x)
    ensures Shifted(states[n], k, x)
  {
    MissingClosed(k, x);
    HoldsAlong(s => Missing(s, k, x), SafeStep, states, labels, m, n);
    MissingReports(states[n], k, x);
  }

  /** Submission k, which is x, has no echo, and the driver reports verdict i, from the k-th on, for
      submission i + 1. */
  ghost predicate Shifted(s: System, k: nat, x: Sub) {
    && Stuck(s, k, x) && |Completions(s.log)| == s.handled < |s.subs|
    && (forall i :: 0 <= i < s.handled ==>
          var y := s.subs[if i < k then i else i + 1];
          Completions(s.log)[i] == Completed(y.chan, y.frame, s.verdicts[i]))
    && (s.handled == |s.subs| - 1 && !s.replying ==> s.bus.replies == [])
  }

  lemma MissingReports(s: System, k: nat, x: Sub)
    requires Missing(s, k, x)
    ensures Shifted(s, k, x)
  {
    var e := Erased(s, k, x.chan);
    assert Attributed(e) && Counted(e);
    assert Active(e) == Active(s);
  }

  /** What mends it is the other mishap, a status handled while the list is empty: but for the
      stopped channel the driver is then in step again exactly if the frame without echo is among
      those answered. */
  lemma EmptyListMendsIt(s: System, unset: nat, k: nat, x: Sub)
    requires Missing(s, k, x) && Enabled(s, ReplyCallback(unset)) && s.bus.replies == []
    ensures var s' := Next(s, ReplyCallback(unset));
            Protocol(s'.(bus := Shut(s'.bus, x.chan))) <==> k <= s.handled
  {
    var s' := Next(s, ReplyCallback(unset));
    var e, t := Erased(s, k, x.chan), s'.(bus := Shut(s'.bus, x.chan));
    MissingIsAside(s, k, x);
    if k <= s.handled {
      assert forall i :: t.handled <= i < |t.subs| ==> t.subs[i] == e.subs[i - 1];
      MendedInStep(e, t);
    } else {
      assert s.sending[0] == e.subs[e.handled + 0] == s.subs[s.handled];
      assert s.subs[s.handled + 1] != s.sending[0] by {
        assert k == s.handled + 1 || e.subs[e.handled + 1] == s.subs[s.handled + 1];
      }
      assert !(t.sending[0] == t.subs[t.handled + 0]);
      assert !InStep(t);
    }
  }

  /** One answer consumed more, one submission more before that: the same to the driver. */
  lemma MendedInStep(e: System, t: System)
    requires Protocol(e) && Active(e) == Active(t) == [] && !t.replying
    requires t.bus == e.bus && t.sending == e.sending && t.accounting == e.accounting
    requires t.handled == e.handled + 1 <= |t.verdicts| <= |t.subs| == |e.subs| + 1
    requires forall i :: t.handled <= i < |t.subs| ==> t.subs[i] == e.subs[i - 1]
    ensures Protocol(t)
  {
    assert SendingInLine(t) by {
      forall i | 0 <= i < |t.sending| ensures t.sending[i] == t.subs[t.handled + 0 + i] {
        assert e.sending[i] == e.subs[e.handled + 0 + i];
      }
    }
    forall d | 0 <= d < |t.bus.chans| ensures ChannelOk(t, d) {
      assert ChannelOk(e, d);
      if Busy(e, d) {
        var i :| e.handled <= i < |e.subs| && e.subs[i].chan == d;
        assert t.subs[i + 1].chan == d;
      }
    }
    AccountsStay(e, t);
  }

  // ---------------------------------------------------------------------------------------
  // A status handled too early
  // ---------------------------------------------------------------------------------------

  /** The system as if the device had not sent its h-th verdict. */
  ghost function Unsaid(s: System, h: nat): System
    requires h < s.handled && h < |s.verdicts|
  {
    s.(verdicts := Without(s.verdicts, h), handled := s.handled - 1)
  }

  /** Verdict h was consumed without being reported; all else is in order. */
  ghost predicate Lost(s: System, h: nat) {
    h < s.handled && h < |s.verdicts| <= |s.subs| && Intact(Unsaid(s, h))
  }

  lemma StatusComesEarly(s: System, unset: nat)
    requires Intact(s) && Enabled(s, ReplyCallback(unset)) && s.bus.replies == []
    ensures Lost(Next(s, ReplyCallback(unset)), s.handled)
  {
    var e := Unsaid(Next(s, ReplyCallback(unset)), s.handled);
    forall d | 0 <= d < |s.bus.chans| ensures ChannelOk(e, d) && ChannelLedger(e, d) {
      assert ChannelOk(s, d) && ChannelLedger(s, d);
      BusyIff(s, e, d);
    }
    AccountsStay(s, e);
  }

  /** Every step is the same without the verdict. */
  lemma UnsaidStep(s: System, l: Label, h: nat)
    requires h < s.handled <= |s.verdicts| <= |s.subs| && Enabled(s, l) && Safe(s, l)
    ensures var s' := Next(s, l); h < s'.handled <= |s'.verdicts| <= |s'.subs|
    ensures var e := Unsaid(s, h);
            Enabled(e, l) && Safe(e, l) && Next(e, l) == Unsaid(Next(s, l), h)
  {
    match l
    case Answer(status) => assert Without(Next(s, l).verdicts, h) == Without(s.verdicts, h) + [status];
    case ReplyCallback(unset) => UnsaidCallback(s, unset, h);
    case _ =>
  }

  lemma UnsaidCallback(s: System, unset: nat, h: nat)
    requires h < s.handled <= |s.verdicts| <= |s.subs| && Enabled(s, ReplyCallback(unset))
    ensures var e, l := Unsaid(s, h), ReplyCallback(unset);
            Enabled(e, l) && Next(e, l) == Unsaid(Next(s, l), h)
  {
    assert Without(s.verdicts, h)[s.handled - 1] == s.verdicts[s.handled];
  }

  lemma LostStep(s: System, l: Label, s': System, h: nat)
    requires Lost(s, h) && SafeStep(s, l, s')
    ensures Lost(s', h)
  {
    var e := Unsaid(s, h);
    assert Counted(e);
    UnsaidStep(s, l, h);
    IntactStep(e, l);
  }

  lemma LostClosed(h: nat)
    ensures forall s, l, s' :: Lost(s, h) && SafeStep(s, l, s') ==> Lost(s', h)
  {
    forall s, l, s' | Lost(s, h) && SafeStep(s, l, s') ensures Lost(s', h) {
      LostStep(s, l, s', h);
    }
  }

  /** After a status handled before its node was linked, in every run of otherwise safe steps: each
      frame from that one on is reported with the verdict on the frame submitted next after it, and
      one frame more waits than answers are to come, for good. */
  lemma EarlyStatusShiftsVerdicts(states: seq<System>, labels: seq<Label>, m: nat, n: nat)
    requires IsRun(states, labels) && SafeExcept(states, labels, m) && m < n < |states|
    requires labels[m].ReplyCallback? && states[m].bus.replies == []
    ensures var h, s := states[m].handled, states[n];
            && |Completions(s.log)| == s.handled - 1 && h < s.handled <= |s.verdicts| <= |s.subs|
            && (forall i :: 0 <= i < s.handled - 1 ==>
                  var status := s.verdicts[if i < h then i else i + 1];
                  Completions(s.log)[i] == Completed(s.subs[i].chan, s.subs[i].frame, status))
            && |Active(s)| + |s.sending| == |s.subs| - s.handled + 1
  {
    IntactUpTo(states, labels, m, m);
    var h := states[m].handled;
    StatusComesEarly(states[m], labels[m].unset);
    SafeAfter(states, labels, m);
    LostClosed(h);
    HoldsAlong(s => Lost(s, h), SafeStep, states, labels, m + 1, n);
    LostReports(states[n], h);
  }

  lemma LostReports(s: System, h: nat)
    requires Lost(s, h)
    ensures |Completions(s.log)| == s.handled - 1
    ensures forall i :: 0 <= i < s.handled - 1 ==>
              var status := s.verdicts[if i < h then i else i + 1];
              Completions(s.log)[i] == Completed(s.subs[i].chan, s.subs[i].frame, status)
    ensures s.handled <= |s.verdicts| && |Active(s)| + |s.sending| == |s.subs| - s.handled + 1
  {
    var e := Unsaid(s, h);
    assert Attributed(e) && Counted(e) && Active(e) == Active(s);
  }
}

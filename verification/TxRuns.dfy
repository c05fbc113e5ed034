/**
 * What the transmit protocol guarantees over whole runs: each reply reaches the channel whose
 * frame it answers, each channel is a stop-and-wait sender of its own, and the counters add up.
 */
module TxRuns {
  import opened Kernel
  import opened TxBus
  import opened TxProtocol

  /** Starting in `s`, the labels lead through these states. */
  ghost predicate Performs(s: System, labels: seq<Label>, states: seq<System>) {
    && |states| == |labels| + 1 && states[0] == s
    && forall i :: 0 <= i < |labels| ==>
         Enabled(states[i], labels[i]) && states[i + 1] == Next(states[i], labels[i])
  }

  ghost predicate IsRun(states: seq<System>, labels: seq<Label>) {
    |states| > 0 && Init(states[0]) && Performs(states[0], labels, states)
  }

  /** No call is under way. */
  predicate Quiet(s: System) {
    s.sending == [] && Ready(s)
  }

  /** The reply handler is not half done, and no call of start_xmit is between list and byte queue. */
  predicate Ready(s: System) {
    s.accounting == [] && !s.replying
  }

  /** A run of safe steps. */
  ghost predicate SafeRun(s: System, labels: seq<Label>, states: seq<System>) {
    && Performs(s, labels, states)
    && forall i :: 0 <= i < |labels| ==> Safe(states[i], labels[i])
  }

  lemma Join(s: System, labels: seq<Label>, states: seq<System>, more: seq<Label>, rest: seq<System>)
    requires SafeRun(s, labels, states) && SafeRun(states[|labels|], more, rest)
    ensures SafeRun(s, labels + more, states[..|labels|] + rest)
    ensures (states[..|labels|] + rest)[|labels + more|] == rest[|more|]
  {
    var all, through := labels + more, states[..|labels|] + rest;
    forall i | 0 <= i < |all|
      ensures Enabled(through[i], all[i]) && through[i + 1] == Next(through[i], all[i])
      ensures Safe(through[i], all[i])
    {
      if i >= |labels| {
        assert all[i] == more[i - |labels|] && through[i] == rest[i - |labels|];
      } else {
        assert all[i] == labels[i] && through[i] == states[i];
        assert through[i + 1] == states[i + 1];
      }
    }
  }

  ghost predicate AllSafe(states: seq<System>, labels: seq<Label>)
    requires IsRun(states, labels)
  {
    forall i :: 0 <= i < |labels| ==> Safe(states[i], labels[i])
  }

  /** A run is intact in every state exactly when each of its steps is safe. */
  lemma {:induction false} RunIntactIffSafe(states: seq<System>, labels: seq<Label>)
    requires IsRun(states, labels)
    ensures (forall i :: 0 <= i < |states| ==> Protocol(states[i])) <==> AllSafe(states, labels)
  {
    if forall i :: 0 <= i < |states| ==> Protocol(states[i]) {
      forall i | 0 <= i < |labels| ensures Safe(states[i], labels[i]) {
        assert Protocol(states[i]) && Protocol(states[i + 1]);
        StepKeepsProtocolIffSafe(states[i], labels[i]);
      }
    }
    if AllSafe(states, labels) {
      InitProtocol(states[0]);
      var n := 0;
      while n < |labels|
        invariant 0 <= n <= |labels|
        invariant forall i :: 0 <= i <= n ==> Protocol(states[i])
      {
        StepKeepsProtocolIffSafe(states[n], labels[n]);
        n := n + 1;
      }
    }
  }

  // ---------------------------------------------------------------------------------------
  // Reading the log
  // ---------------------------------------------------------------------------------------

  ghost function Front(log: seq<Event>): seq<Event>
    requires log != []
  {
    log[..|log| - 1]
  }

  ghost function Last(log: seq<Event>): Event
    requires log != []
  {
    log[|log| - 1]
  }

  /** The events of one channel. */
  ghost function Project(log: seq<Event>, c: nat): seq<Event> {
    if log == [] then []
    else if Last(log).chan == c then Project(Front(log), c) + [Last(log)]
    else Project(Front(log), c)
  }

  ghost function Acceptances(log: seq<Event>): seq<Event> {
    if log == [] then []
    else if Last(log).Accepted? then Acceptances(Front(log)) + [Last(log)]
    else Acceptances(Front(log))
  }

  ghost function Completions(log: seq<Event>): seq<Event> {
    if log == [] then []
    else if Last(log).Completed? then Completions(Front(log)) + [Last(log)]
    else Completions(Front(log))
  }

  /** A stop-and-wait sender on its own: it takes a frame, then completes that frame. */
  datatype Sender = Idle | Waiting(frame: Frame)

  ghost function SenderStep(st: Option<Sender>, e: Event): Option<Sender> {
    match (st, e)
    case (Some(Idle), Accepted(_, f)) => Some(Waiting(f))
    case (Some(Waiting(f)), Completed(_, g, _)) => if f == g then Some(Idle) else None
    case _ => None
  }

  /** Where the sender ends up on a sequence of events, or None if it cannot perform them. */
  ghost function Perform(events: seq<Event>): Option<Sender> {
    if events == [] then Some(Idle) else SenderStep(Perform(Front(events)), Last(events))
  }

  ghost function SenderOf(ch: Channel): Sender {
    match ch.echo
    case None => Idle
    case Some(f) => Waiting(f)
  }

  /** A channel's account, computed from its events alone. */
  datatype Account = Account(accepted: nat, done: nat, failed: nat, other: nat,
                             doneBytes: nat, sentLen: nat, completedLen: nat)

  ghost function Settle(events: seq<Event>): Account {
    if events == [] then Account(0, 0, 0, 0, 0, 0, 0)
    else
      var a := Settle(Front(events));
      match Last(events)
      case Accepted(_, f) => a.(accepted := a.accepted + 1, sentLen := a.sentLen + f.frameLen)
      case Completed(_, f, status) =>
        var a' := a.(completedLen := a.completedLen + f.frameLen);
        if status == STATUS_DONE then a'.(done := a.done + 1, doneBytes := a.doneBytes + f.byteCount)
        else if status == STATUS_ERROR then a'.(failed := a.failed + 1)
        else a'.(other := a.other + 1)
  }

  // ---------------------------------------------------------------------------------------
  // The log and the state agree
  // ---------------------------------------------------------------------------------------

  ghost predicate ChannelLedger(s: System, c: nat)
    requires c < |s.bus.chans|
  {
    var ch := s.bus.chans[c];
    var a := Settle(Project(s.log, c));
    && Perform(Project(s.log, c)) == Some(SenderOf(ch))
    && a.done == ch.stats.packets && a.failed == ch.stats.errors && a.other == ch.stats.dropped
    && a.doneBytes == ch.stats.bytes
    && a.sentLen == ch.completed + Parked(ch) && a.completedLen == ch.completed
    && a.accepted == a.done + a.failed + a.other + (if ch.echo.Some? then 1 else 0)
  }

  ghost predicate Attributed(s: System) {
    && s.handled <= |s.verdicts| <= |s.subs|
    && |Completions(s.log)| == s.handled
    && forall i :: 0 <= i < s.handled ==>
         Completions(s.log)[i] == Completed(s.subs[i].chan, s.subs[i].frame, s.verdicts[i])
  }

  ghost predicate AcceptedInOrder(s: System) {
    && |Acceptances(s.log)| == s.handled + |Active(s)| <= |s.subs|
    && forall i :: 0 <= i < |Acceptances(s.log)| ==>
         Acceptances(s.log)[i] == Accepted(s.subs[i].chan, s.subs[i].frame)
  }

  ghost predicate Ledger(s: System) {
    && (forall c :: 0 <= c < |s.bus.chans| ==> ChannelLedger(s, c))
    && Attributed(s)
    && AcceptedInOrder(s)
  }

  lemma Appended(log: seq<Event>, e: Event)
    ensures Project(log + [e], e.chan) == Project(log, e.chan) + [e]
    ensures forall c: nat :: c != e.chan ==> Project(log + [e], c) == Project(log, c)
    ensures Acceptances(log + [e]) == if e.Accepted? then Acceptances(log) + [e] else Acceptances(log)
    ensures Completions(log + [e]) == if e.Completed? then Completions(log) + [e] else Completions(log)
    ensures Perform(log + [e]) == SenderStep(Perform(log), e)
  {
    assert Front(log + [e]) == log && Last(log + [e]) == e;
  }

  lemma SettleAppended(events: seq<Event>, e: Event)
    ensures var a := Settle(events); var b := Settle(events + [e]);
            match e
            case Accepted(_, f) =>
              b == a.(accepted := a.accepted + 1, sentLen := a.sentLen + f.frameLen)
            case Completed(_, f, status) =>
              && b.accepted == a.accepted && b.sentLen == a.sentLen
              && b.completedLen == a.completedLen + f.frameLen
              && b.done == a.done + (if status == STATUS_DONE then 1 else 0)
              && b.doneBytes == a.doneBytes + (if status == STATUS_DONE then f.byteCount else 0)
              && b.failed == a.failed + (if status == STATUS_ERROR then 1 else 0)
              && b.other == a.other + (if status == STATUS_DONE || status == STATUS_ERROR then 0 else 1)
  {
    assert Front(events + [e]) == events && Last(events + [e]) == e;
  }

  lemma LedgerInit(s: System)
    requires Init(s)
    ensures Ledger(s)
  {
  }

  /** Steps that write nothing to the log leave the parts of the channels the ledger reads. */
  lemma LedgerUnlogged(s: System, l: Label)
    requires Protocol(s) && Ledger(s) && Enabled(s, l) && Safe(s, l)
    requires !l.XmitPark? && !l.ReplyCallback?
    ensures Ledger(Next(s, l))
  {
    var s' := Next(s, l);
    if l.CloseDev? {
      assert ChannelOk(s, l.c);
      ActiveIsBusy(s, l.c);
    }
    assert Active(s') == Active(s);
    forall c | 0 <= c < |s'.bus.chans| ensures ChannelLedger(s', c) {
      UnloggedChannel(s, l, c);
    }
  }

  lemma UnloggedChannel(s: System, l: Label, c: nat)
    requires c < |s.bus.chans| && ChannelLedger(s, c) && Enabled(s, l)
    requires !l.XmitPark? && !l.ReplyCallback?
    requires l.CloseDev? ==> s.bus.chans[l.c].echo.None?
    ensures ChannelLedger(Next(s, l), c)
  {
  }

  /** One more event on channel e.chan, matched by the change of that channel's state. */
  lemma ChannelLedgerGrows(s: System, s': System, e: Event, c: nat)
    requires c < |s.bus.chans| == |s'.bus.chans| && ChannelLedger(s, c)
    requires s'.log == s.log + [e]
    requires c != e.chan ==> s'.bus.chans[c] == s.bus.chans[c]
    requires c == e.chan ==>
               var ch := s.bus.chans[c]; var ch' := s'.bus.chans[c];
               match e
               case Accepted(_, f) =>
                 && ch.echo.None? && ch'.echo == Some(f) && ch'.stats == ch.stats
                 && ch'.completed == ch.completed
               case Completed(_, f, status) =>
                 && ch.echo == Some(f) && ch'.echo.None?
                 && ch'.stats == Count(ch.stats, status, f.byteCount)
                 && ch'.completed == ch.completed + f.frameLen
    ensures ChannelLedger(s', c)
  {
    Appended(s.log, e);
    if c == e.chan {
      Appended(Project(s.log, c), e);
      SettleAppended(Project(s.log, c), e);
    }
  }

  lemma LedgerPark(s: System)
    requires Protocol(s) && Ledger(s) && Enabled(s, XmitPark(0, false)) && Safe(s, XmitPark(0, false))
    ensures Ledger(Next(s, XmitPark(0, false)))
  {
    var s' := Next(s, XmitPark(0, false));
    var x := s.sending[0];
    var e := Accepted(x.chan, x.frame);
    SendingIsNotActive(s, 0);
    forall c | 0 <= c < |s'.bus.chans| ensures ChannelLedger(s', c) {
      ChannelLedgerGrows(s, s', e, c);
    }
    assert |Active(s')| == |Active(s)| + 1;
    assert x == s.subs[s.handled + |Active(s)| + 0];
    HistoriesGrow(s, s', e);
  }

  /** The order part of the ledger, when the next submission in line is taken over. */
  lemma HistoriesGrow(s: System, s': System, e: Event)
    requires Attributed(s) && AcceptedInOrder(s)
    requires e.Accepted? && s'.log == s.log + [e]
    requires s'.subs == s.subs && s'.handled == s.handled && s'.verdicts == s.verdicts
    requires |Active(s')| == |Active(s)| + 1
    requires var k := s.handled + |Active(s)|; k < |s.subs| && e == Accepted(s.subs[k].chan, s.subs[k].frame)
    ensures Attributed(s') && AcceptedInOrder(s')
  {
    Appended(s.log, e);
    assert Completions(s'.log) == Completions(s.log);
    var k := |Acceptances(s.log)|;
    assert Acceptances(s'.log) == Acceptances(s.log) + [e] && k == s.handled + |Active(s)|;
    forall i | 0 <= i < k + 1
      ensures Acceptances(s'.log)[i] == Accepted(s.subs[i].chan, s.subs[i].frame)
    {
    }
  }

  lemma LedgerCallback(s: System, unset: nat)
    requires Protocol(s) && Ledger(s)
    requires Enabled(s, ReplyCallback(unset)) && Safe(s, ReplyCallback(unset))
    ensures Ledger(Next(s, ReplyCallback(unset)))
  {
    var s' := Next(s, ReplyCallback(unset));
    CallbackStep(s, unset);
    var e := Completed(s.subs[s.handled].chan, s.subs[s.handled].frame, s.verdicts[s.handled]);
    forall c | 0 <= c < |s'.bus.chans| ensures ChannelLedger(s', c) {
      ChannelLedgerGrows(s, s', e, c);
    }
    Appended(s.log, e);
    assert |Active(s')| == |Active(s)| - 1;
    assert AcceptedInOrder(s') && Attributed(s');
  }

  lemma StepKeepsLedger(s: System, l: Label)
    requires Protocol(s) && Ledger(s) && Enabled(s, l) && Safe(s, l)
    ensures Ledger(Next(s, l))
  {
    match l
    case XmitPark(i, oom) => LedgerPark(s);
    case ReplyCallback(unset) => LedgerCallback(s, unset);
    case _ => LedgerUnlogged(s, l);
  }

  lemma {:induction false} RunKeepsLedger(states: seq<System>, labels: seq<Label>, n: nat)
    requires IsRun(states, labels) && AllSafe(states, labels) && n < |states|
    ensures Protocol(states[n]) && Ledger(states[n])
  {
    RunIntactIffSafe(states, labels);
    if n == 0 {
      LedgerInit(states[0]);
    } else {
      RunKeepsLedger(states, labels, n - 1);
      StepKeepsLedger(states[n - 1], labels[n - 1]);
    }
  }

  // ---------------------------------------------------------------------------------------
  // Main theorems
  // ---------------------------------------------------------------------------------------

  /** Reply attribution. The i-th completion the driver reports names the channel and the frame of
      the i-th submission, and carries the device's verdict on that very submission. */
  lemma ReplyAttribution(states: seq<System>, labels: seq<Label>, n: nat)
    requires IsRun(states, labels) && AllSafe(states, labels) && n < |states|
    ensures var s := states[n];
            && |Completions(s.log)| == s.handled <= |s.verdicts| <= |s.subs|
            && forall i :: 0 <= i < s.handled ==>
                 Completions(s.log)[i] == Completed(s.subs[i].chan, s.subs[i].frame, s.verdicts[i])
  {
    RunKeepsLedger(states, labels, n);
  }

  /** The next status to arrive goes to the channel it is about, and the bytes completed for it are
      bytes that were reported sent. */
  lemma NextReplyIsOwn(states: seq<System>, labels: seq<Label>, n: nat)
    requires IsRun(states, labels) && AllSafe(states, labels) && n < |labels|
    requires labels[n].ReplyCallback?
    ensures var s := states[n];
            && s.handled < |s.verdicts| <= |s.subs| && s.subs[s.handled].chan < |s.bus.chans|
            && states[n + 1].log == s.log + [Completed(s.subs[s.handled].chan, s.subs[s.handled].frame,
                                                       s.verdicts[s.handled])]
            && var ch := s.bus.chans[s.subs[s.handled].chan];
               ch.completed + s.subs[s.handled].frame.frameLen == ch.queued
  {
    RunKeepsLedger(states, labels, n);
    CallbackStep(states[n], labels[n].unset);
  }

  /** Every channel behaves like a stop-and-wait sender that has the device to itself. */
  lemma RefinesIndependentSenders(states: seq<System>, labels: seq<Label>, n: nat, c: nat)
    requires IsRun(states, labels) && AllSafe(states, labels) && n < |states|
    requires c < |states[n].bus.chans|
    ensures Perform(Project(states[n].log, c)) == Some(SenderOf(states[n].bus.chans[c]))
    ensures Alternates(Project(states[n].log, c))
  {
    RunKeepsLedger(states, labels, n);
    assert ChannelLedger(states[n], c);
    PerformAlternates(Project(states[n].log, c));
  }

  /** Frames are taken over at even positions and completed, each the frame just taken over, at
      odd ones. */
  ghost predicate Alternates(events: seq<Event>) {
    forall i :: 0 <= i < |events| ==> AlternatesAt(events, i)
  }

  ghost predicate AlternatesAt(events: seq<Event>, i: nat)
    requires i < |events|
  {
    if i % 2 == 0 then events[i].Accepted?
    else events[i].Completed? && events[i].frame == events[i - 1].frame
  }

  lemma {:induction false} PerformAlternates(events: seq<Event>)
    requires Perform(events).Some?
    ensures Alternates(events)
    ensures Perform(events).value.Idle? <==> |events| % 2 == 0
    ensures Perform(events).value.Waiting? ==> Perform(events).value.frame == Last(events).frame
  {
    if events != [] {
      var front, k := Front(events), |events| - 1;
      PerformAlternates(front);
      assert AlternatesAt(events, k);
      forall i | 0 <= i < k ensures AlternatesAt(events, i) {
        assert AlternatesAt(front, i);
      }
    }
  }

  /** Conservation of frames and bytes. Frames taken over are accounted for as transmitted, failed,
      dropped or pending; `bytes` sums the frames the device reported DONE; and the byte queue
      holds the pending frame's length once its call has reported it, so no completion exceeds
      what was sent. */
  lemma Conservation(states: seq<System>, labels: seq<Label>, n: nat, c: nat)
    requires IsRun(states, labels) && AllSafe(states, labels) && n < |states|
    requires c < |states[n].bus.chans|
    ensures var ch := states[n].bus.chans[c];
            var a := Settle(Project(states[n].log, c));
            && a.accepted == ch.stats.packets + ch.stats.errors + ch.stats.dropped
                             + (if ch.echo.Some? then 1 else 0)
            && a.done == ch.stats.packets && a.failed == ch.stats.errors && a.other == ch.stats.dropped
            && a.doneBytes == ch.stats.bytes
            && a.sentLen == ch.completed + Parked(ch) && a.completedLen == ch.completed <= ch.queued
            && ch.queued == ch.completed + (if Due(states[n], c) then 0 else Parked(ch))
  {
    RunKeepsLedger(states, labels, n);
    assert ChannelLedger(states[n], c) && Accounts(states[n]);
  }

  /** With no call under way, the driver's own view of an intact state is in order too. */
  lemma QuiescentIsOk(s: System)
    requires Protocol(s) && Quiet(s)
    ensures BusOk(s.bus) && |s.bus.replies| == |s.subs| - s.handled
  {
    forall i | 0 <= i < |s.bus.replies| ensures s.bus.replies[i] < |s.bus.chans| {
      assert Active(s)[i] == s.bus.replies[i];
    }
    forall c | 0 <= c < |s.bus.chans|
      ensures s.bus.chans[c].echo.Some? <==> c in s.bus.replies
      ensures s.bus.chans[c].stopped <==> !s.bus.chans[c].open || c in s.bus.replies
      ensures !s.bus.chans[c].open ==> c !in s.bus.replies
      ensures s.bus.chans[c].queued == s.bus.chans[c].completed + Parked(s.bus.chans[c])
    {
      assert ChannelOk(s, c);
      ActiveIsBusy(s, c);
      assert !Due(s, c);
    }
  }

  /** Between calls the three records of "a frame is pending" agree on every open channel, as many
      nodes are linked as answers are missing, and they are no more than there are channels. */
  lemma QuiescentStateIsOk(states: seq<System>, labels: seq<Label>, n: nat)
    requires IsRun(states, labels) && AllSafe(states, labels) && n < |states|
    requires Quiet(states[n])
    ensures BusOk(states[n].bus)
    ensures |states[n].bus.replies| == |states[n].subs| - states[n].handled <= |states[n].bus.chans|
  {
    RunKeepsLedger(states, labels, n);
    QuiescentIsOk(states[n]);
    QueueBounded(states, labels, n);
  }

  /** At every moment of every run the list links no node twice, and so no more nodes than there are
      channels. */
  lemma QueueBounded(states: seq<System>, labels: seq<Label>, n: nat)
    requires IsRun(states, labels) && AllSafe(states, labels) && n < |states|
    ensures Distinct(states[n].bus.replies) && InRange(states[n].bus)
    ensures |states[n].bus.replies| <= |states[n].bus.chans|
  {
    RunKeepsLedger(states, labels, n);
    ProtocolInRange(states[n]);
    DistinctRepliesBounded(states[n].bus);
  }

  /** Steps of the device and of the reply handler only. */
  predicate OnlyReplies(labels: seq<Label>) {
    forall i :: 0 <= i < |labels| ==>
      labels[i].Answer? || labels[i].ReplyCallback? || labels[i].ReplyUnlink?
  }

  /** One outstanding frame is answered, unless it was already, and the answer handled. Calls of
      start_xmit that have not reached the echo slot stay where they are. */
  lemma OneReply(s: System, status: byte) returns (labels: seq<Label>, states: seq<System>)
    requires Protocol(s) && Ready(s) && s.bus.replies != []
    requires s.handled < |s.verdicts| ==> status == s.verdicts[s.handled]
    ensures SafeRun(s, labels, states) && OnlyReplies(labels)
    ensures var t := states[|labels|];
            && Protocol(t) && Ready(t) && t.sending == s.sending
            && InRange(s.bus) && t.bus == HandleStatus(s.bus, status, 0)
            && t.subs == s.subs && t.handled == s.handled + 1
            && t.verdicts == if s.handled < |s.verdicts| then s.verdicts else s.verdicts + [status]
  {
    if s.handled < |s.verdicts| {
      labels, states := HandleOne(s);
    } else {
      var s1 := Next(s, Answer(status));
      AnswerStep(s, status);
      var more, rest := HandleOne(s1);
      Join(s, [Answer(status)], [s, s1], more, rest);
      labels, states := [Answer(status)] + more, [s, s1][..1] + rest;
    }
  }

  lemma HandleOne(s: System) returns (labels: seq<Label>, states: seq<System>)
    requires Protocol(s) && Ready(s) && s.bus.replies != [] && s.handled < |s.verdicts|
    ensures SafeRun(s, labels, states) && OnlyReplies(labels)
    ensures var t := states[|labels|];
            && Protocol(t) && Ready(t) && t.sending == s.sending
            && InRange(s.bus) && t.bus == HandleStatus(s.bus, s.verdicts[s.handled], 0)
            && t.subs == s.subs && t.handled == s.handled + 1 && t.verdicts == s.verdicts
  {
    HandlerIsDefined(s);
    UninterruptedReply(s, 0);
    CallbackStep(s, 0);
    var s1 := Next(s, ReplyCallback(0));
    UnlinkStep(s1);
    labels, states := [ReplyCallback(0), ReplyUnlink], [s, s1, Next(s1, ReplyUnlink)];
  }

  /** One answer more, and the answers still to come are one fewer. */
  lemma AnsweredNext(verdicts: seq<byte>, handled: nat, statuses: seq<byte>, verdicts': seq<byte>)
    requires handled <= |verdicts| && verdicts[handled..] <= statuses && statuses != []
    requires verdicts' == if handled < |verdicts| then verdicts else verdicts + [statuses[0]]
    ensures verdicts'[handled + 1..] <= statuses[1..]
    ensures verdicts'[..handled + 1] + statuses[1..] == verdicts[..handled] + statuses
  {
    var rest := verdicts[handled..];
    assert statuses == [statuses[0]] + statuses[1..];
    if handled < |verdicts| {
      assert rest == statuses[..|rest|] && rest[0] == statuses[0];
      assert verdicts'[handled + 1..] == rest[1..] == statuses[1..][..|rest| - 1];
    } else {
      assert verdicts'[handled + 1..] == [];
    }
    assert verdicts'[..handled + 1] == verdicts[..handled] + [statuses[0]];
  }

  /** From an intact state with no call under way the device can answer what is outstanding, with
      any statuses, and the driver handle it, safely, without a new frame. */
  lemma {:induction false} DrainRun(s: System, statuses: seq<byte>)
    returns (labels: seq<Label>, states: seq<System>)
    requires Protocol(s) && Quiet(s)
    requires |statuses| == |s.subs| - s.handled && s.verdicts[s.handled..] <= statuses
    ensures BusOk(s.bus)
    ensures SafeRun(s, labels, states) && OnlyReplies(labels)
    ensures states[|labels|].bus == Drain(s.bus, statuses) && states[|labels|].handled == |s.subs|
    ensures states[|labels|].verdicts == s.verdicts[..s.handled] + statuses
    decreases |statuses|
  {
    QuiescentIsOk(s);
    labels, states := [], [s];
    if statuses != [] {
      assert s.handled < |s.verdicts| ==> s.verdicts[s.handled..][0] == statuses[0];
      labels, states := OneReply(s, statuses[0]);
      var t := states[|labels|];
      AnsweredNext(s.verdicts, s.handled, statuses, t.verdicts);
      var more, rest := DrainRun(t, statuses[1..]);
      Join(s, labels, states, more, rest);
      labels, states := labels + more, states[..|labels|] + rest;
    }
  }

  /** From any intact state, safe steps alone bring the driver to rest: every call past the list
      reports its bytes, every linked node is answered, and the calls that have not reached the
      echo slot are left as they were. Then every open channel without such a call is awake. */
  lemma {:induction false} ComesToRest(s: System) returns (labels: seq<Label>, states: seq<System>)
    requires Protocol(s)
    ensures SafeRun(s, labels, states)
    ensures var t := states[|labels|];
            && Protocol(t) && Ready(t) && t.bus.replies == []
            && t.sending == s.sending && t.subs == s.subs && SameOpen(s, t)
            && forall c :: 0 <= c < |t.bus.chans| && t.bus.chans[c].open && !Has(t.sending, c) ==>
                 MayTransmit(t, c)
    decreases |s.bus.replies|, |s.accounting|
  {
    if Ready(s) && s.bus.replies == [] {
      labels, states := [], [s];
      forall c | 0 <= c < |s.bus.chans| && s.bus.chans[c].open && !Has(s.sending, c)
        ensures MayTransmit(s, c)
      {
        assert ChannelOk(s, c);
        ActiveIsBusy(s, c);
      }
    } else {
      labels, states := RestStep(s);
      var more, rest := ComesToRest(states[|labels|]);
      Join(s, labels, states, more, rest);
      labels, states := labels + more, states[..|labels|] + rest;
    }
  }

  /** The same channels are open. */
  predicate SameOpen(s: System, t: System) {
    && |s.bus.chans| == |t.bus.chans|
    && forall c :: 0 <= c < |s.bus.chans| ==> s.bus.chans[c].open == t.bus.chans[c].open
  }

  lemma Single(s: System, l: Label) returns (labels: seq<Label>, states: seq<System>)
    requires Enabled(s, l) && Safe(s, l)
    ensures labels == [l] && states == [s, Next(s, l)] && SafeRun(s, labels, states)
  {
    labels, states := [l], [s, Next(s, l)];
  }

  lemma RestStep(s: System) returns (labels: seq<Label>, states: seq<System>)
    requires Protocol(s) && !(Ready(s) && s.bus.replies == [])
    ensures SafeRun(s, labels, states)
    ensures var t := states[|labels|];
            && Protocol(t) && t.sending == s.sending && t.subs == s.subs && SameOpen(s, t)
            && |t.bus.replies| <= |s.bus.replies|
            && (|t.bus.replies| < |s.bus.replies| || |t.accounting| < |s.accounting|)
  {
    if s.replying {
      UnlinkStep(s);
      labels, states := Single(s, ReplyUnlink);
    } else if s.accounting != [] {
      AccountStep(s, 0);
      labels, states := Single(s, XmitAccount(0));
      assert states[1].bus.replies == s.bus.replies;
    } else {
      labels, states := OneReply(s, if s.handled < |s.verdicts| then s.verdicts[s.handled] else STATUS_DONE);
    }
  }

  /** So from every state a run can reach between calls, as many replies as frames are pending, and
      no new sends, empty the list and leave every open queue awake. */
  lemma PendingFramesDrain(states: seq<System>, labels: seq<Label>, n: nat, statuses: seq<byte>)
    returns (more: seq<Label>, rest: seq<System>)
    requires IsRun(states, labels) && AllSafe(states, labels) && n < |states|
    requires Quiet(states[n])
    requires states[n].handled <= |states[n].verdicts| <= |states[n].subs|
    requires |statuses| == |states[n].subs| - states[n].handled
    requires states[n].verdicts[states[n].handled..] <= statuses
    ensures SafeRun(states[n], more, rest) && OnlyReplies(more)
    ensures rest[|more|].bus.replies == []
    ensures |rest[|more|].bus.chans| == |states[n].bus.chans|
    ensures forall c :: 0 <= c < |states[n].bus.chans| && states[n].bus.chans[c].open ==>
              rest[|more|].bus.chans[c].open && !rest[|more|].bus.chans[c].stopped
  {
    RunKeepsLedger(states, labels, n);
    QuiescentIsOk(states[n]);
    more, rest := DrainRun(states[n], statuses);
    DrainEmpties(states[n].bus, statuses);
  }

  /** A call of start_xmit that nothing interrupts does what StartXmit says, in every state in which
      one may begin and for every answer of the kernel. */
  lemma XmitSteps(s: System, c: nat, f: Frame, k: Outcome)
    requires MayTransmit(s, c)
    ensures k.invalid ==> Next(s, XmitInvalid(c)).bus == StartXmit(s.bus, c, f, k)
    ensures !k.invalid && k.submitErr != 0 ==> Next(s, XmitRefused(c)).bus == StartXmit(s.bus, c, f, k)
    ensures var s1, park, acc := Next(s, XmitSubmit(c, f)), XmitPark(|s.sending|, k.oom), XmitAccount(|s.accounting|);
            && Enabled(s1, park)
            && var s2 := Next(s1, park);
               && s2.sending == s.sending && s2.subs == s.subs + [Sub(c, f)]
               && (!k.invalid && k.submitErr == 0 ==>
                     if k.oom || s.bus.chans[c].echo.Some?
                     then s2.bus == StartXmit(s.bus, c, f, k) && s2.accounting == s.accounting && s2.log == s.log
                     else Enabled(s2, acc) && Next(s2, acc).bus == StartXmit(s.bus, c, f, k)
                          && Next(s2, acc).accounting == s.accounting
                          && Next(s2, acc).log == s.log + [Accepted(c, f)])
  {
    var s1 := Next(s, XmitSubmit(c, f));
    assert s1.sending[|s.sending|] == Sub(c, f);
    var s2 := Next(s1, XmitPark(|s.sending|, k.oom));
    assert s2.sending == s.sending;
    if !k.oom && s.bus.chans[c].echo.None? {
      assert s2.accounting[|s.accounting|] == Sub(c, f);
      assert Next(s2, XmitAccount(|s.accounting|)).accounting == s.accounting;
    }
  }

  /** From an intact state with no call under way only a missing echo buffer can spoil it. */
  lemma UninterruptedXmit(s: System, c: nat, f: Frame, oom: bool)
    requires Protocol(s) && Quiet(s) && Enabled(s, XmitSubmit(c, f))
    ensures var s1 := Next(s, XmitSubmit(c, f));
            && Safe(s, XmitSubmit(c, f)) && Enabled(s1, XmitPark(0, oom))
            && (Safe(s1, XmitPark(0, oom)) <==> !oom)
            && var s2 := Next(s1, XmitPark(0, oom));
               && s2.sending == []
               && (oom ==> s2.bus == StartXmit(s.bus, c, f, Outcome(false, 0, oom)))
               && (!oom ==>
                     && Enabled(s2, XmitAccount(0)) && Safe(s2, XmitAccount(0))
                     && Quiet(Next(s2, XmitAccount(0)))
                     && Next(s2, XmitAccount(0)).bus == StartXmit(s.bus, c, f, Outcome(false, 0, oom)))
  {
    assert ChannelOk(s, c);
    ActiveIsBusy(s, c);
    assert s.bus.chans[c].echo.None?;
  }

  /** The reply handler that nothing interrupts does what HandleStatus says, in every state in which
      it can run. With an empty list it consumes the status and changes nothing else, which is not
      safe; otherwise it reports one completion, and that is safe when no call is between list and
      byte queue. */
  lemma UninterruptedReply(s: System, unset: nat)
    requires Enabled(s, ReplyCallback(unset))
    ensures var l, status := ReplyCallback(unset), s.verdicts[s.handled];
            var s1 := Next(s, l);
            if s.bus.replies == []
            then s1 == s.(handled := s.handled + 1) && s1.bus == HandleStatus(s.bus, status, unset) && !Safe(s, l)
            else
              && Enabled(s1, ReplyUnlink) && Safe(s1, ReplyUnlink)
              && Next(s1, ReplyUnlink).bus == HandleStatus(s.bus, status, unset)
              && (Ready(s) ==> Safe(s, l) && Ready(Next(s1, ReplyUnlink)))
              && var c := s.bus.replies[0];
                 Next(s1, ReplyUnlink) ==
                   s.(bus := HandleStatus(s.bus, status, unset), handled := s.handled + 1,
                      log := s.log + [Completed(c, FrameOf(s.bus.chans[c]), status)])
  {
  }

  /** A submission the USB core refuses leaves no trace on any channel. */
  lemma RefusalIsNoOp(states: seq<System>, labels: seq<Label>, n: nat)
    requires IsRun(states, labels) && AllSafe(states, labels) && n < |labels|
    requires labels[n].XmitRefused?
    ensures states[n + 1] == states[n]
  {
    RunKeepsLedger(states, labels, n);
    RefusedStep(states[n], labels[n].c);
  }

  /** When a call of start_xmit reaches the echo slot, the slot is free, the channel's node is
      not linked, and its queue is still stopped. */
  lemma ParkFindsSlotFree(states: seq<System>, labels: seq<Label>, n: nat)
    requires IsRun(states, labels) && AllSafe(states, labels) && n < |labels|
    requires labels[n].XmitPark?
    ensures var s := states[n]; var c := s.sending[labels[n].i].chan;
            && c < |s.bus.chans| && s.bus.chans[c].echo.None? && s.bus.chans[c].stopped
            && c !in s.bus.replies
            && states[n + 1].bus.chans[c].echo.Some?
            && states[n + 1].bus.replies == s.bus.replies + [c]
  {
    var s := states[n];
    RunKeepsLedger(states, labels, n);
    SendingIsNotActive(s, 0);
    var c := s.sending[0].chan;
    assert ChannelOk(s, c);
    ActiveIsBusy(s, c);
    assert s.replying ==> s.bus.replies == [s.bus.replies[0]] + Active(s);
  }
}

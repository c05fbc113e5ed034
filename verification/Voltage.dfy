/**
 * The voltage handshake: readers take a mutex, reset a completion, send a request and wait for
 * the completion with a timeout, while replies store a value and then signal the completion.
 * Any number of readers; replies may be late, extra or missing; every interleaving.
 */
module Voltage {
  import opened Kernel

  const UINT_MAX := 0xFFFF_FFFF

  /** A 32-bit unsigned value assigned to an `int`. */
  function AsInt(v: u32): int {
    if v < 0x8000_0000 then v else v - 0x1_0000_0000
  }

  /** Where a reader stands. `since` and `begun0` record how many replies had been finished, and
      begun, when the reader reset the completion; the driver itself does not keep them. */
  datatype Reader =
    | Locked
    | Armed(since: nat, begun0: nat)
    | Waiting(since: nat, begun0: nat)
    | Signalled(since: nat, begun0: nat)
    | TimedOut
    | Got(since: nat, begun0: nat, k: nat, value: int)

  /** What a call returned to its caller. */
  datatype Outcome =
    | Value(reader: nat, since: nat, begun0: nat, k: nat, value: int)
    | Error(reader: nat, err: int)

  /** `history` are the values of all replies begun so far; `finished` of them have signalled.
      Readers absent from `readers` are outside the function. */
  datatype State = State(
    voltage: u32,
    done: nat,                 // the completion's counter
    holder: Option<nat>,       // the owner of the mutex
    readers: map<nat, Reader>,
    history: seq<u32>,
    finished: nat,
    outcomes: seq<Outcome>)

  datatype Label =
    | WrongMask(t: nat)
    | Lock(t: nat)
    | Reinit(t: nat)
    | SendFails(t: nat, err: int)
    | SendWorks(t: nat)
    | Wake(t: nat)
    | Expire(t: nat)
    | ReadValue(t: nat)
    | Unlock(t: nat)
    | ReplyStore(v: u32)
    | ReplySignal

  predicate Enabled(s: State, l: Label) {
    match l
    case WrongMask(t) => t !in s.readers
    case Lock(t) => t !in s.readers && s.holder == None
    case Reinit(t) => t in s.readers && s.readers[t].Locked?
    case SendFails(t, err) => t in s.readers && s.readers[t].Armed? && err != 0
    case SendWorks(t) => t in s.readers && s.readers[t].Armed?
    case Wake(t) => t in s.readers && s.readers[t].Waiting? && s.done > 0
    case Expire(t) => t in s.readers && s.readers[t].Waiting? && s.done == 0
    case ReadValue(t) => t in s.readers && s.readers[t].Signalled?
    case Unlock(t) => t in s.readers && (s.readers[t].Got? || s.readers[t].TimedOut?)
    case ReplyStore(v) => |s.history| == s.finished
    case ReplySignal => |s.history| > s.finished
  }

  function Next(s: State, l: Label): State
    requires Enabled(s, l)
  {
    match l
    case WrongMask(t) => s.(outcomes := s.outcomes + [Error(t, -EINVAL)])
    case Lock(t) => s.(holder := Some(t), readers := s.readers[t := Locked])
    case Reinit(t) => s.(done := 0, readers := s.readers[t := Armed(s.finished, |s.history|)])
    case SendFails(t, err) =>
      s.(holder := None, readers := s.readers - {t}, outcomes := s.outcomes + [Error(t, err)])
    case SendWorks(t) =>
      s.(readers := s.readers[t := Waiting(s.readers[t].since, s.readers[t].begun0)])
    case Wake(t) =>
      s.(done := if s.done == UINT_MAX then s.done else s.done - 1,
         readers := s.readers[t := Signalled(s.readers[t].since, s.readers[t].begun0)])
    case Expire(t) => s.(readers := s.readers[t := TimedOut])
    case ReadValue(t) =>
      var r := s.readers[t];
      s.(readers := s.readers[t := Got(r.since, r.begun0, if s.history == [] then 0 else |s.history| - 1,
                                       AsInt(s.voltage))])
    case Unlock(t) =>
      var r := s.readers[t];
      s.(holder := None, readers := s.readers - {t},
         outcomes := s.outcomes + [if r.TimedOut? then Error(t, -ETIMEDOUT)
                                   else Value(t, r.since, r.begun0, r.k, r.value)])
    case ReplyStore(v) => s.(voltage := v, history := s.history + [v])
    case ReplySignal =>
      s.(done := if s.done == UINT_MAX then s.done else s.done + 1, finished := s.finished + 1)
  }

  const INITIAL := State(0, 0, None, map[], [], 0, [])

  /** The value `v` is that of reply `k`, which was unfinished when its reader reset the
      completion. */
  predicate Fresh(history: seq<u32>, since: nat, begun0: nat, k: nat, v: int) {
    since <= k < |history| && AsInt(history[k]) == v && since <= begun0 <= since + 1
  }

  /** The counter of a completion after n calls of `complete`: it stays where it is at UINT_MAX. */
  function Signals(n: nat): nat {
    if n < UINT_MAX then n else UINT_MAX
  }

  predicate ReaderOk(s: State, r: Reader) {
    match r
    case Locked => true
    case TimedOut => true
    case Armed(since, begun0) =>
      since <= s.finished && since <= begun0 <= since + 1 && s.done == Signals(s.finished - since)
    case Waiting(since, begun0) =>
      since <= s.finished && since <= begun0 <= since + 1 && s.done == Signals(s.finished - since)
    case Signalled(since, begun0) =>
      && s.finished > since && since <= begun0 <= since + 1
      && (s.finished - since < UINT_MAX ==> s.done == s.finished - since - 1)
    case Got(since, begun0, k, v) => Fresh(s.history, since, begun0, k, v)
  }

  /** At most one reader is between lock and unlock, and it is the one holding the mutex; the
      stored voltage is the latest reply's; and a signal seen stems from a reply that finished
      after the reader reset the completion. */
  ghost predicate Inv(s: State) {
    && s.finished <= |s.history| <= s.finished + 1
    && s.voltage == (if s.history == [] then 0 else s.history[|s.history| - 1])
    && (forall t :: t in s.readers <==> s.holder == Some(t))
    && (forall t :: t in s.readers ==> ReaderOk(s, s.readers[t]))
    && (forall i :: 0 <= i < |s.outcomes| ==>
          match s.outcomes[i]
          case Value(_, since, begun0, k, v) => Fresh(s.history, since, begun0, k, v)
          case Error(_, err) => err != 0)
  }

  lemma StepKeepsInv(s: State, l: Label)
    requires Inv(s) && Enabled(s, l)
    ensures Inv(Next(s, l))
  {
    var s' := Next(s, l);
    forall i | 0 <= i < |s'.outcomes|
      ensures match s'.outcomes[i]
              case Value(_, since, begun0, k, v) => Fresh(s'.history, since, begun0, k, v)
              case Error(_, err) => err != 0
    {
      if i < |s.outcomes| {
        assert s'.outcomes[i] == s.outcomes[i];
      }
    }
  }

  ghost predicate IsRun(states: seq<State>, labels: seq<Label>) {
    && |states| == |labels| + 1 && states[0] == INITIAL
    && forall i :: 0 <= i < |labels| ==>
         Enabled(states[i], labels[i]) && states[i + 1] == Next(states[i], labels[i])
  }

  lemma {:induction false} RunKeepsInv(states: seq<State>, labels: seq<Label>, n: nat)
    requires IsRun(states, labels) && n < |states|
    ensures Inv(states[n])
  {
    if n > 0 {
      RunKeepsInv(states, labels, n - 1);
      StepKeepsInv(states[n - 1], labels[n - 1]);
    }
  }

  /** Mutual exclusion, and the mutex is free exactly when no reader is inside: every way out that
      took the lock has released it. */
  lemma OneReaderInside(states: seq<State>, labels: seq<Label>, n: nat)
    requires IsRun(states, labels) && n < |states|
    ensures forall t, u :: t in states[n].readers && u in states[n].readers ==> t == u
    ensures states[n].holder == None <==> states[n].readers == map[]
  {
    RunKeepsInv(states, labels, n);
    var s := states[n];
    if s.holder == None {
      assert forall t :: t !in s.readers;
    } else {
      assert s.holder.value in s.readers;
    }
  }

  /** Freshness. A successful read returns the value of the latest reply begun when it was read, as a
      signed number, and that reply had not finished when the reader reset the completion. */
  lemma ReadIsFresh(states: seq<State>, labels: seq<Label>, n: nat, t: nat)
    requires IsRun(states, labels) && n < |labels| && labels[n] == ReadValue(t)
    ensures var s := states[n]; var r := states[n + 1].readers[t];
            && s.history != [] && r.Got?
            && r.k == |s.history| - 1 && r.value == AsInt(s.history[r.k])
            && -0x8000_0000 <= r.value < 0x8000_0000
            && (var v: int := s.history[r.k]; r.value == if v < 0x8000_0000 then v else v - 0x1_0000_0000)
            && r.since <= r.k && r.since < s.finished
    ensures forall m :: 0 <= m < n && labels[m] == Reinit(t)
              && (forall i :: m < i < n ==> labels[i] != Reinit(t))
              ==> states[n].readers[t].since == states[m].finished
                  && states[n].readers[t].begun0 == |states[m].history|
  {
    RunKeepsInv(states, labels, n);
    assert ReaderOk(states[n], states[n].readers[t]);
    forall m | 0 <= m < n && labels[m] == Reinit(t) && (forall i :: m < i < n ==> labels[i] != Reinit(t))
      ensures states[n].readers[t].since == states[m].finished
      ensures states[n].readers[t].begun0 == |states[m].history|
    {
      MarksPersist(states, labels, m, n, t);
    }
  }

  /** A waiting reader can be woken exactly when a reply has finished since its reset, and can time out
      exactly when none has: no signal is missed and none is left over. */
  lemma WokenIffReplied(states: seq<State>, labels: seq<Label>, m: nat, n: nat, t: nat)
    requires IsRun(states, labels) && m < n <= |labels| && labels[m] == Reinit(t)
    requires forall i :: m < i < n ==> labels[i] != Reinit(t)
    requires t in states[n].readers && states[n].readers[t].Waiting?
    ensures Enabled(states[n], Wake(t)) <==> states[n].finished > states[m].finished
    ensures Enabled(states[n], Expire(t)) <==> states[n].finished == states[m].finished
  {
    RunKeepsInv(states, labels, n);
    assert ReaderOk(states[n], states[n].readers[t]);
    MarksPersist(states, labels, m, n, t);
  }

  /** What a call returns besides a value: -EINVAL for another mask, without touching anything; the error
      of a failed send; -ETIMEDOUT after the wait ran out. Each way out, and no other step, returns
      once. */
  lemma ReturnsOf(s: State, l: Label)
    requires Enabled(s, l)
    ensures l.WrongMask? ==> Next(s, l) == s.(outcomes := s.outcomes + [Error(l.t, -22)])
    ensures l.SendFails? ==> Next(s, l).outcomes == s.outcomes + [Error(l.t, l.err)]
    ensures l.Unlock? && s.readers[l.t].TimedOut? ==> Next(s, l).outcomes == s.outcomes + [Error(l.t, -110)]
    ensures l.Unlock? && s.readers[l.t].Got? ==>
              |Next(s, l).outcomes| == |s.outcomes| + 1 && Next(s, l).outcomes[|s.outcomes|].Value?
              && Next(s, l).outcomes[|s.outcomes|].value == s.readers[l.t].value
    ensures !l.WrongMask? && !l.SendFails? && !l.Unlock? ==> Next(s, l).outcomes == s.outcomes
  {
  }

  /** A reader carries the marks of its reset until it leaves. */
  ghost predicate Carries(s: State, t: nat, since: nat, begun0: nat) {
    t in s.readers && !s.readers[t].Locked? && !s.readers[t].TimedOut? ==>
      s.readers[t].since == since && s.readers[t].begun0 == begun0
  }

  lemma {:induction false} MarksPersist(states: seq<State>, labels: seq<Label>, m: nat, n: nat, t: nat)
    requires IsRun(states, labels) && m < n <= |labels| && labels[m] == Reinit(t)
    requires forall i :: m < i < n ==> labels[i] != Reinit(t)
    ensures Carries(states[n], t, states[m].finished, |states[m].history|)
    decreases n
  {
    if m + 1 < n {
      MarksPersist(states, labels, m, n - 1, t);
    }
  }

  /** Every reader past its reset carries the marks of its own last reset. */
  lemma {:induction false} ReaderHasReset(states: seq<State>, labels: seq<Label>, n: nat, t: nat)
    returns (m: nat)
    requires IsRun(states, labels) && n < |states|
    requires t in states[n].readers && !states[n].readers[t].Locked? && !states[n].readers[t].TimedOut?
    ensures m < n && labels[m] == Reinit(t)
    ensures forall j :: m < j < n ==> labels[j] != Reinit(t)
    ensures states[n].readers[t].since == states[m].finished
    ensures states[n].readers[t].begun0 == |states[m].history|
  {
    assert n > 0;
    if labels[n - 1] == Reinit(t) {
      m := n - 1;
    } else {
      m := ReaderHasReset(states, labels, n - 1, t);
    }
  }

  /** So does every value returned. */
  lemma {:induction false} OutcomeHasReset(states: seq<State>, labels: seq<Label>, n: nat, i: nat)
    returns (m: nat)
    requires IsRun(states, labels) && n < |states|
    requires i < |states[n].outcomes| && states[n].outcomes[i].Value?
    ensures var o := states[n].outcomes[i];
            && m < n && labels[m] == Reinit(o.reader)
            && o.since == states[m].finished && o.begun0 == |states[m].history|
  {
    assert n > 0;
    if i < |states[n - 1].outcomes| {
      m := OutcomeHasReset(states, labels, n - 1, i);
    } else {
      m := ReaderHasReset(states, labels, n - 1, labels[n - 1].t);
    }
  }

  /** Every value a run has returned is that of some reply `k`, and there was a reset by its reader
      at which that reply was unfinished. It was stored before that reset if and only if a reply was
      half done at the reset and is the one read. */
  lemma OutcomesAreFresh(states: seq<State>, labels: seq<Label>, n: nat, i: nat)
    returns (m: nat)
    requires IsRun(states, labels) && n < |states|
    requires i < |states[n].outcomes| && states[n].outcomes[i].Value?
    ensures var o := states[n].outcomes[i];
            && m < n && labels[m] == Reinit(o.reader)
            && states[m].finished <= o.k < |states[n].history|
            && -0x8000_0000 <= o.value < 0x8000_0000
            && (var v: int := states[n].history[o.k];
                o.value == if v < 0x8000_0000 then v else v - 0x1_0000_0000)
            && (o.k < |states[m].history| <==>
                  |states[m].history| > states[m].finished && o.k == states[m].finished)
  {
    RunKeepsInv(states, labels, n);
    m := OutcomeHasReset(states, labels, n, i);
    RunKeepsInv(states, labels, m);
  }

  /** At the moment of reading: the value was stored before the reader's reset if and only if no
      reply has been stored since. */
  lemma StaleIffNothingStored(states: seq<State>, labels: seq<Label>, n: nat, t: nat) returns (m: nat)
    requires IsRun(states, labels) && n < |labels| && labels[n] == ReadValue(t)
    ensures m < n && labels[m] == Reinit(t) && forall j :: m < j < n ==> labels[j] != Reinit(t)
    ensures var k := states[n + 1].readers[t].k;
            && states[m].finished <= k == |states[n].history| - 1
            && (k < |states[m].history| <==> |states[n].history| == |states[m].history|)
            && (k < |states[m].history| ==> |states[m].history| == states[m].finished + 1)
  {
    RunKeepsInv(states, labels, n);
    assert ReaderOk(states[n], states[n].readers[t]);
    m := ReaderHasReset(states, labels, n, t);
    RunKeepsInv(states, labels, m);
    HistoryGrows(states, labels, m, n);
  }

  lemma {:induction false} HistoryGrows(states: seq<State>, labels: seq<Label>, m: nat, n: nat)
    requires IsRun(states, labels) && m <= n < |states|
    ensures |states[m].history| <= |states[n].history|
    decreases n
  {
    if m < n {
      HistoryGrows(states, labels, m, n - 1);
    }
  }

  /** That exception is real: a reply that stored its value before the reset and signals after it
      makes the reader return a value stored before the reset. */
  lemma HalfDoneReplyIsRead(v: u32) returns (states: seq<State>, labels: seq<Label>)
    ensures IsRun(states, labels)
    ensures states[|labels|].outcomes ==
              [Value(0, 0, 1, 0, if v < 0x8000_0000 then v else v - 0x1_0000_0000)]
  {
    labels := [Lock(0), ReplyStore(v), Reinit(0), SendWorks(0), ReplySignal, Wake(0), ReadValue(0),
               Unlock(0)];
    var me := Some(0);
    states := [
      INITIAL,
      State(0, 0, me, map[0 := Locked], [], 0, []),
      State(v, 0, me, map[0 := Locked], [v], 0, []),
      State(v, 0, me, map[0 := Armed(0, 1)], [v], 0, []),
      State(v, 0, me, map[0 := Waiting(0, 1)], [v], 0, []),
      State(v, 1, me, map[0 := Waiting(0, 1)], [v], 1, []),
      State(v, 0, me, map[0 := Signalled(0, 1)], [v], 1, []),
      State(v, 0, me, map[0 := Got(0, 1, 0, AsInt(v))], [v], 1, []),
      State(v, 0, None, map[], [v], 1, [Value(0, 0, 1, 0, AsInt(v))])];
    forall i | 0 <= i < 8
      ensures Enabled(states[i], labels[i]) && states[i + 1] == Next(states[i], labels[i])
    {
      assert states[i + 1].readers == Next(states[i], labels[i]).readers;
    }
  }
}

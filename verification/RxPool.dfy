/** The pool of receive URBs: how it is filled, and what any run of completions does to it. */
module RxPool {
  import opened Kernel
  import opened Transport
  import opened Dispatcher

  const MAX_URBS := 32

  /** What the kernel decides for one URB during initialisation. */
  datatype InitStep = NoUrb | NoBuffer | SubmitFails(err: int) | Works

  predicate StepOk(s: InitStep) {
    s.Works? || (s.SubmitFails? && s.err == 0)
  }

  function StepError(s: InitStep): int {
    match s
    case NoUrb => -ENOBUFS
    case NoBuffer => -ENOBUFS
    case SubmitFails(err) => err
    case Works => 0
  }

  /** How many URBs are submitted before the first failure. */
  function FirstSubmitted(steps: seq<InitStep>): (k: nat)
    ensures k <= |steps|
    ensures forall i :: 0 <= i < k ==> StepOk(steps[i])
    ensures k < |steps| ==> !StepOk(steps[k])
  {
    if steps == [] || !StepOk(steps[0]) then 0 else 1 + FirstSubmitted(steps[1..])
  }

  /** `canguru_usb_rx_init`: on return exactly the URBs before the first failure are submitted and
      their buffers recorded, and the result is 0 only when that is all of them. */
  method RxInit(steps: seq<InitStep>, urbs: array<Urb>, rxbuf: array<bool>) returns (err: int)
    requires |steps| == urbs.Length == rxbuf.Length == MAX_URBS
    requires forall i :: 0 <= i < MAX_URBS ==> urbs[i] == Absent && !rxbuf[i]
    modifies urbs, rxbuf
    ensures var k := FirstSubmitted(steps);
            && (forall i :: 0 <= i < MAX_URBS ==>
                  urbs[i] == (if i < k then Submitted(SLOT_SIZE) else Absent) && rxbuf[i] == (i < k))
            && err == (if k == MAX_URBS then 0 else StepError(steps[k]))
            && (err == 0 <==> k == MAX_URBS)
            && (k < MAX_URBS && (steps[k].NoUrb? || steps[k].NoBuffer?) ==> err == -105)
            && (k < MAX_URBS && steps[k].SubmitFails? ==> err == steps[k].err)
  {
    err := 0;
    var idx := 0;
    while idx < MAX_URBS
      invariant 0 <= idx <= MAX_URBS && err == 0
      invariant forall i :: 0 <= i < idx ==> StepOk(steps[i])
      invariant forall i :: 0 <= i < MAX_URBS ==>
                  urbs[i] == (if i < idx then Submitted(SLOT_SIZE) else Absent) && rxbuf[i] == (i < idx)
    {
      if steps[idx] == NoUrb {
        err := -ENOBUFS;
        break;
      }
      if steps[idx] == NoBuffer {
        err := -ENOBUFS;
        break;
      }
      err := StepError(steps[idx]);
      if err != 0 {
        break;
      }
      urbs[idx] := Submitted(SLOT_SIZE);
      rxbuf[idx] := true;
      idx := idx + 1;
    }
    FirstSubmittedIs(steps, idx);
  }

  lemma {:induction false} FirstSubmittedIs(steps: seq<InitStep>, k: nat)
    requires k <= |steps|
    requires forall i :: 0 <= i < k ==> StepOk(steps[i])
    requires k < |steps| ==> !StepOk(steps[k])
    ensures FirstSubmitted(steps) == k
  {
    if k > 0 {
      FirstSubmittedIs(steps[1..], k - 1);
    }
  }

  // ---------------------------------------------------------------------------------------
  // Runs
  // ---------------------------------------------------------------------------------------

  /** URB `i` completes with a status; `submitErr` is the answer to a resubmission. */
  datatype Completion = Completion(i: nat, status: int, submitErr: int, buf: Slot)

  /** The URBs and the slots dispatched so far. */
  datatype Pool = Pool(urbs: seq<Urb>, dispatched: seq<Slot>)

  function AfterInit(steps: seq<InitStep>): Pool
    requires |steps| == MAX_URBS
  {
    var k := FirstSubmitted(steps);
    Pool(seq(MAX_URBS, i => if i < k then Submitted(SLOT_SIZE) else Absent), [])
  }

  /** Only a submitted URB completes, and its length is what its buffer holds. */
  predicate CanComplete(p: Pool, e: Completion) {
    e.i < |p.urbs| && p.urbs[e.i].Submitted? && p.urbs[e.i].length <= |e.buf|
  }

  function Complete(p: Pool, e: Completion): Pool
    requires CanComplete(p, e)
  {
    Pool(p.urbs[e.i := NextUrb(e.status, e.submitErr)],
         p.dispatched +
           if e.status == 0 then SlotsOf(e.buf, p.urbs[e.i].length / SLOT_SIZE) else [])
  }

  /** A completion concerns its own URB only, which is retired or submitted for one slot again. */
  lemma CompleteEffect(p: Pool, e: Completion)
    requires CanComplete(p, e)
    ensures var p' := Complete(p, e);
            && |p'.urbs| == |p.urbs|
            && (forall i :: 0 <= i < |p.urbs| && i != e.i ==> p'.urbs[i] == p.urbs[i])
            && p'.urbs[e.i] == (if e.status == -2 || e.status == -32 || e.status == -71 || e.status == -108
                                   || e.submitErr != 0
                                then Retired else Submitted(128))
            && (e.status != 0 ==> p'.dispatched == p.dispatched)
            && (e.status == 0 && p.urbs[e.i].length == 128 ==> p'.dispatched == p.dispatched + [e.buf])
  {
    if e.status == 0 && p.urbs[e.i].length == 128 {
      assert e.buf[0..SLOT_SIZE] == e.buf;
      assert SlotsOf(e.buf, 1) == [e.buf];
    }
  }

  ghost predicate IsPoolRun(pools: seq<Pool>, events: seq<Completion>) {
    && |pools| == |events| + 1
    && forall i :: 0 <= i < |events| ==>
         CanComplete(pools[i], events[i]) && pools[i + 1] == Complete(pools[i], events[i])
  }

  function CountSubmitted(urbs: seq<Urb>): nat {
    if urbs == [] then 0 else CountSubmitted(urbs[1..]) + if urbs[0].Submitted? then 1 else 0
  }

  function CountRetired(urbs: seq<Urb>): nat {
    if urbs == [] then 0 else CountRetired(urbs[1..]) + if urbs[0].Retired? then 1 else 0
  }

  /** The slots of the completions that succeeded. */
  function Successes(events: seq<Completion>): seq<Slot> {
    if events == [] then []
    else
      var e := events[|events| - 1];
      Successes(events[..|events| - 1]) + if e.status == 0 then [e.buf] else []
  }

  lemma {:induction false} CountsUpdate(urbs: seq<Urb>, i: nat, u: Urb)
    requires i < |urbs| && urbs[i].Submitted? && !u.Absent?
    ensures CountSubmitted(urbs[i := u]) + CountRetired(urbs[i := u])
            == CountSubmitted(urbs) + CountRetired(urbs)
    ensures CountSubmitted(urbs[i := u]) == CountSubmitted(urbs) - if u.Retired? then 1 else 0
  {
    var v := urbs[i := u];
    if i == 0 {
      assert v[1..] == urbs[1..];
    } else {
      assert v[1..] == urbs[1..][i - 1 := u];
      CountsUpdate(urbs[1..], i - 1, u);
    }
  }

  lemma {:induction false} CountsPrefix(urbs: seq<Urb>, k: nat)
    requires k <= |urbs|
    requires forall i :: 0 <= i < |urbs| ==> urbs[i] == if i < k then Submitted(SLOT_SIZE) else Absent
    ensures CountSubmitted(urbs) == k && CountRetired(urbs) == 0
  {
    if urbs != [] {
      CountsPrefix(urbs[1..], if k == 0 then 0 else k - 1);
    }
  }

  /** k URBs are in circulation or retired, and each success dispatched one slot. */
  ghost predicate PoolOk(p: Pool, k: nat, events: seq<Completion>) {
    && |p.urbs| == MAX_URBS
    && CountSubmitted(p.urbs) + CountRetired(p.urbs) == k
    && (forall i :: 0 <= i < MAX_URBS && p.urbs[i].Submitted? ==> p.urbs[i].length == SLOT_SIZE)
    && p.dispatched == Successes(events)
  }

  lemma CompleteKeepsPoolOk(p: Pool, k: nat, events: seq<Completion>, e: Completion)
    requires PoolOk(p, k, events) && CanComplete(p, e)
    ensures PoolOk(Complete(p, e), k, events + [e])
  {
    CountsUpdate(p.urbs, e.i, NextUrb(e.status, e.submitErr));
    assert e.buf[0..SLOT_SIZE] == e.buf;
    assert SlotsOf(e.buf, 1) == [e.buf];
    assert (events + [e])[..|events|] == events;
  }

  /** Over every run: submitted and retired URBs together stay the number first submitted, every
      submitted URB still asks for one slot, and what was dispatched is one slot for each
      completion that succeeded, in order. */
  lemma {:induction false} PoolRun(steps: seq<InitStep>, pools: seq<Pool>, events: seq<Completion>)
    requires |steps| == MAX_URBS && IsPoolRun(pools, events) && pools[0] == AfterInit(steps)
    ensures PoolOk(pools[|events|], FirstSubmitted(steps), events)
    decreases |events|
  {
    var k := FirstSubmitted(steps);
    if events == [] {
      CountsPrefix(pools[0].urbs, k);
    } else {
      var n := |events| - 1;
      assert IsPoolRun(pools[..n + 1], events[..n]);
      PoolRun(steps, pools[..n + 1], events[..n]);
      CompleteKeepsPoolOk(pools[n], k, events[..n], events[n]);
      assert events[..n] + [events[n]] == events;
    }
  }

  /** A retired URB never comes back. */
  lemma {:induction false} RetiredForGood(pools: seq<Pool>, events: seq<Completion>, m: nat, n: nat, i: nat)
    requires IsPoolRun(pools, events) && m <= n < |pools|
    requires i < |pools[m].urbs| && pools[m].urbs[i].Retired?
    ensures i < |pools[n].urbs| && pools[n].urbs[i].Retired?
    decreases n - m
  {
    if m < n {
      RetiredForGood(pools, events, m + 1, n, i);
    }
  }
}

/**
 * The minor-number table of the character devices: sixteen slots, each NULL or pointing to the
 * device that owns that minor number.
 */
module BootTable {
  import opened Kernel

  const GURU_DEV_MAX := 16
  const GURU_SN_SIZE := 16

  /** A `struct guru_boot`, by identity. */
  type Handle = nat

  /** The table, and the `minor_num` field of every device that has one. */
  datatype Table = Table(slots: seq<Option<Handle>>, minor: map<Handle, nat>)

  function FirstFree(slots: seq<Option<Handle>>): (r: nat)
    ensures r <= |slots|
    ensures r < |slots| ==> slots[r] == None
    ensures forall i :: 0 <= i < r ==> slots[i].Some?
  {
    if slots == [] || slots[0] == None then 0 else 1 + FirstFree(slots[1..])
  }

  /** What the kernel answers during one call of guru_boot_create, and the length of the serial
      number the device reports. */
  datatype Answers = Answers(cdevErr: int, deviceErr: int, serialLen: nat)

  function CreateError(t: Table, a: Answers): int {
    if FirstFree(t.slots) == |t.slots| then -ENOMEM
    else if a.cdevErr != 0 then a.cdevErr
    else if a.deviceErr != 0 then a.deviceErr
    else if a.serialLen != GURU_SN_SIZE then -EINVAL
    else 0
  }

  /** The table after a create: the least free slot points to the new device if the call succeeded,
      and no slot has changed otherwise. */
  function Create(t: Table, self: Handle, a: Answers): Table {
    var r := FirstFree(t.slots);
    if r == |t.slots| then t
    else
      Table(if CreateError(t, a) == 0 then t.slots[r := Some(self)] else t.slots, t.minor[self := r])
  }

  /** Destroying clears the slot the device's minor number names, whoever is in it. */
  function Destroy(t: Table, self: Handle): Table
    requires self in t.minor && t.minor[self] < |t.slots|
  {
    t.(slots := t.slots[t.minor[self] := None])
  }

  /** A create in any state. With all slots taken it reports short memory and changes nothing. Otherwise
      the device is given the least free number, and the call fails with the answer of cdev_add, else
      with that of device_create, else for a serial number that is not sixteen long; only if it does
      not fail does a slot change, and only the one of that number. */
  lemma CreateEffect(t: Table, self: Handle, a: Answers, r: nat)
    requires r <= |t.slots| && (r < |t.slots| ==> t.slots[r] == None)
    requires forall i :: 0 <= i < r ==> t.slots[i].Some?
    ensures r == |t.slots| ==> CreateError(t, a) == -12 && Create(t, self, a) == t
    ensures r < |t.slots| ==>
              var err, t' := CreateError(t, a), Create(t, self, a);
              && err == (if a.cdevErr != 0 then a.cdevErr else if a.deviceErr != 0 then a.deviceErr
                         else if a.serialLen != 16 then -22 else 0)
              && t'.minor == t.minor[self := r]
              && |t'.slots| == |t.slots|
              && (forall i :: 0 <= i < |t.slots| && i != r ==> t'.slots[i] == t.slots[i])
              && t'.slots[r] == if err == 0 then Some(self) else None
  {
    FirstFreeIs(t.slots, r);
  }

  /** A destroy changes no slot but the device's own. */
  lemma DestroyEffect(t: Table, self: Handle)
    requires self in t.minor && t.minor[self] < |t.slots|
    ensures var t' := Destroy(t, self);
            && t'.minor == t.minor && |t'.slots| == |t.slots| && t'.slots[t.minor[self]] == None
            && forall i :: 0 <= i < |t.slots| && i != t.minor[self] ==> t'.slots[i] == t.slots[i]
  {
  }

  class BootDriver {
    var table: array<Option<Handle>>
    var minorNum: map<Handle, nat>

    ghost predicate Valid()
      reads this
    {
      table.Length == GURU_DEV_MAX
    }

    ghost function Value(): Table
      reads this, table
    {
      Table(table[..], minorNum)
    }

    constructor ()
      ensures Valid() && fresh(table)
      ensures Value() == Table(seq(GURU_DEV_MAX, i => None), map[])
    {
      table := new Option<Handle>[GURU_DEV_MAX](i => None);
      minorNum := map[];
    }

    /** `guru_boot_create`. */
    method BootCreate(self: Handle, a: Answers) returns (err: int)
      requires Valid()
      modifies this, table
      ensures Valid() && table == old(table)
      ensures err == CreateError(old(Value()), a) && Value() == Create(old(Value()), self, a)
    {
      ghost var before := table[..];
      var idx := 0;
      while idx < GURU_DEV_MAX
        invariant 0 <= idx < GURU_DEV_MAX
        invariant table == old(table) && table[..] == before && minorNum == old(minorNum)
        invariant forall i :: 0 <= i < idx ==> before[i].Some?
        decreases GURU_DEV_MAX - idx
      {
        if table[idx] == None {
          FirstFreeIs(before, idx);
          minorNum := minorNum[self := idx];
          break;
        }
        if idx >= GURU_DEV_MAX - 1 {
          FirstFreeIs(before, GURU_DEV_MAX);
          return -ENOMEM;
        }
        idx := idx + 1;
      }
      err := a.cdevErr;
      if err != 0 {
        return;
      }
      if a.deviceErr != 0 {
        return a.deviceErr;
      }
      table[minorNum[self]] := Some(self);
      if a.serialLen != GURU_SN_SIZE {
        BootDestroy(self);
        assert table[..] == before;
        return -EINVAL;
      }
      return 0;
    }

    /** `guru_boot_destroy`. */
    method BootDestroy(self: Handle)
      requires Valid() && self in minorNum && minorNum[self] < GURU_DEV_MAX
      modifies table
      ensures Valid() && Value() == Destroy(old(Value()), self)
    {
      table[minorNum[self]] := None;
    }
  }

  lemma {:induction false} FirstFreeIs(slots: seq<Option<Handle>>, r: nat)
    requires r <= |slots| && (r < |slots| ==> slots[r] == None)
    requires forall i :: 0 <= i < r ==> slots[i].Some?
    ensures FirstFree(slots) == r
  {
    if r > 0 {
      FirstFreeIs(slots[1..], r - 1);
    }
  }

  // ---------------------------------------------------------------------------------------
  // Runs
  // ---------------------------------------------------------------------------------------

  datatype Op = CreateOp(self: Handle, a: Answers) | DestroyOp(self: Handle)

  /** The table together with the devices that exist: created with result 0, not destroyed since. */
  datatype World = World(t: Table, live: set<Handle>)

  /** The callers create a device that does not exist, and destroy one that once got a number. */
  predicate CanDo(w: World, op: Op) {
    match op
    case CreateOp(self, a) => self !in w.live
    case DestroyOp(self) => self in w.t.minor && w.t.minor[self] < |w.t.slots|
  }

  function Do(w: World, op: Op): World
    requires CanDo(w, op)
  {
    match op
    case CreateOp(self, a) =>
      World(Create(w.t, self, a), if CreateError(w.t, a) == 0 then w.live + {self} else w.live)
    case DestroyOp(self) => World(Destroy(w.t, self), w.live - {self})
  }

  function Empty(): World {
    World(Table(seq(GURU_DEV_MAX, i => None), map[]), {})
  }

  /** Slot i points to d exactly when d exists and has minor number i. */
  ghost predicate TableOk(w: World) {
    && |w.t.slots| == GURU_DEV_MAX
    && (forall d :: d in w.live ==> d in w.t.minor && w.t.minor[d] < GURU_DEV_MAX)
    && (forall i, d :: 0 <= i < GURU_DEV_MAX && w.t.slots[i] == Some(d) ==>
          d in w.live && w.t.minor[d] == i)
    && (forall d :: d in w.live ==> w.t.slots[w.t.minor[d]] == Some(d))
  }

  /** Creates of any outcome keep the table right; a destroy does exactly when its device exists or
      the slot it clears is empty. */
  lemma DoKeepsTableOkIff(w: World, op: Op)
    requires TableOk(w) && CanDo(w, op)
    ensures op.CreateOp? ==> TableOk(Do(w, op))
    ensures op.DestroyOp? ==>
              (TableOk(Do(w, op)) <==> op.self in w.live || w.t.slots[w.t.minor[op.self]] == None)
  {
    var w' := Do(w, op);
    if op.DestroyOp? {
      var m := w.t.minor[op.self];
      if op.self !in w.live && w.t.slots[m].Some? {
        var d := w.t.slots[m].value;
        assert d in w'.live && w'.t.slots[w'.t.minor[d]] == None;
      }
    }
  }

  /** A destroy that breaks it: a create that fails on the serial number has given the device a minor
      number, the next device takes that number, and destroying the first one clears its slot. */
  lemma DestroyOfFailedCreate(d: Handle, e: Handle)
    requires d != e
    ensures var bad, good := Answers(0, 0, 0), Answers(0, 0, GURU_SN_SIZE);
            var w1 := Do(Empty(), CreateOp(d, bad));
            var w2 := Do(w1, CreateOp(e, good));
            && CreateError(Empty().t, bad) == -EINVAL && CreateError(w1.t, good) == 0
            && TableOk(w2) && CanDo(w2, DestroyOp(d)) && d !in w2.live && e in w2.live
            && !TableOk(Do(w2, DestroyOp(d)))
            && Do(w2, DestroyOp(d)).t.slots[w2.t.minor[e]] == None
  {
    var bad, good := Answers(0, 0, 0), Answers(0, 0, GURU_SN_SIZE);
    FirstFreeIs(Empty().t.slots, 0);
    var w1 := Do(Empty(), CreateOp(d, bad));
    assert TableOk(Empty());
    DoKeepsTableOkIff(Empty(), CreateOp(d, bad));
    assert w1.t.slots == Empty().t.slots;
    var w2 := Do(w1, CreateOp(e, good));
    DoKeepsTableOkIff(w1, CreateOp(e, good));
    assert w2.t.minor[d] == 0 == w2.t.minor[e];
    DoKeepsTableOkIff(w2, DestroyOp(d));
  }

  ghost predicate IsBootRun(worlds: seq<World>, ops: seq<Op>) {
    && |worlds| == |ops| + 1 && worlds[0] == Empty()
    && forall i :: 0 <= i < |ops| ==>
         && CanDo(worlds[i], ops[i]) && worlds[i + 1] == Do(worlds[i], ops[i])
         && (ops[i].DestroyOp? ==> ops[i].self in worlds[i].live)
  }

  lemma {:induction false} BootRunOk(worlds: seq<World>, ops: seq<Op>, n: nat)
    requires IsBootRun(worlds, ops) && n < |worlds|
    ensures TableOk(worlds[n])
  {
    if n > 0 {
      BootRunOk(worlds, ops, n - 1);
      DoKeepsTableOkIff(worlds[n - 1], ops[n - 1]);
    }
  }

  /** Over every run of creates and of destroys of existing devices: the table mirrors the devices
      that exist, no two of them share a minor number, and there are at most sixteen. */
  lemma MinorsAreDistinct(worlds: seq<World>, ops: seq<Op>, n: nat)
    requires IsBootRun(worlds, ops) && n < |worlds|
    ensures var w := worlds[n];
            && |w.t.slots| == GURU_DEV_MAX
            && (forall i, d :: 0 <= i < GURU_DEV_MAX ==>
                  (w.t.slots[i] == Some(d) <==> d in w.live && d in w.t.minor && w.t.minor[d] == i))
            && (forall d, e :: d in w.live && e in w.live && d != e ==>
                  d in w.t.minor && e in w.t.minor && w.t.minor[d] != w.t.minor[e])
            && |w.live| <= GURU_DEV_MAX
  {
    BootRunOk(worlds, ops, n);
    LiveBounded(worlds[n].live, worlds[n].t.minor, GURU_DEV_MAX);
  }

  /** Devices with distinct minor numbers below m are at most m. */
  lemma {:induction false} LiveBounded(live: set<Handle>, minor: map<Handle, nat>, m: nat)
    requires forall d :: d in live ==> d in minor && minor[d] < m
    requires forall d, e :: d in live && e in live && d != e ==> minor[d] != minor[e]
    ensures |live| <= m
  {
    if live != {} {
      if d :| d in live && minor[d] == m - 1 {
        LiveBounded(live - {d}, minor, m - 1);
      } else {
        var d :| d in live;
        assert minor[d] < m;
        LiveBounded(live, minor, m - 1);
      }
    }
  }

  /** A create in such a run takes the least free minor number, fails for want of one exactly when
      all sixteen are taken, and changes no slot when it fails for any reason. */
  lemma CreateInRun(worlds: seq<World>, ops: seq<Op>, n: nat)
    requires IsBootRun(worlds, ops) && n < |ops| && ops[n].CreateOp?
    ensures var w, w', d, a := worlds[n], worlds[n + 1], ops[n].self, ops[n].a;
            && |w.t.slots| == GURU_DEV_MAX
            && (CreateError(w.t, a) != 0 ==> w'.t.slots == w.t.slots && w'.live == w.live)
            && (CreateError(w.t, a) == 0 ==>
                  && d in w'.live && w'.t.minor[d] < GURU_DEV_MAX
                  && w.t.slots[w'.t.minor[d]] == None
                  && (forall i :: 0 <= i < w'.t.minor[d] ==> w.t.slots[i].Some?)
                  && w'.t.slots == w.t.slots[w'.t.minor[d] := Some(d)])
            && ((forall i :: 0 <= i < GURU_DEV_MAX ==> w.t.slots[i].Some?)
                <==> FirstFree(w.t.slots) == GURU_DEV_MAX)
            && (FirstFree(w.t.slots) == GURU_DEV_MAX ==> CreateError(w.t, a) == -ENOMEM)
            && (CreateError(w.t, Answers(0, 0, GURU_SN_SIZE)) == -ENOMEM
                <==> FirstFree(w.t.slots) == GURU_DEV_MAX)
  {
    BootRunOk(worlds, ops, n);
  }
}

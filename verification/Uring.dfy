/** The io_uring layer: a slab of operations, an asynchronous kernel that answers
    each submission once, and cancellation when an operation is dropped early. */
module Uring {
  import opened Common

  /** A completion queue entry. */
  datatype Cqe = Cqe(userData: nat, result: int)

  datatype Lifecycle = Submitted | Waiting(waker: nat) | Completed(cqe: Cqe)

  /** The operations of one ring. */
  type Slab = map<nat, Lifecycle>

  datatype Poll = Pending | Ready(cqe: Cqe)

  // ---- What is done to the slab ----

  /** `OpInner::poll`: remember the waker, or give the recorded completion. */
  function PollSlot<K>(slab: map<K, Lifecycle>, index: K, waker: nat): (map<K, Lifecycle>, Poll)
    requires index in slab
  {
    match slab[index]
    case Completed(cqe) => (slab, Ready(cqe))
    case _ => (slab[index := Waiting(waker)], Pending)
  }

  /** One turn of `handle_cqe`: record the completion; a second one for the same
      slot is only reported. */
  function Record<K>(slab: map<K, Lifecycle>, index: K, cqe: Cqe): map<K, Lifecycle>
    requires index in slab
  {
    if slab[index].Completed? then slab else slab[index := Completed(cqe)]
  }

  /** Who waits there, to be woken by a completion. */
  function Waiter(l: Lifecycle): seq<nat> {
    if l.Waiting? then [l.waker] else []
  }

  function RecordAll(slab: Slab, cqes: seq<Cqe>): Slab
    requires forall i :: 0 <= i < |cqes| ==> cqes[i].userData in slab
  {
    if cqes == [] then slab else RecordAll(Record(slab, cqes[0].userData, cqes[0]), cqes[1..])
  }

  /** The slab as it is changed in place. */
  class IoUringAsync {
    var slab: Slab

    constructor ()
      ensures slab == map[]
    {
      slab := map[];
    }

    /** `push`: the slab picks a vacant key, which becomes the user data. */
    method Push(vacant: nat) returns (userData: nat)
      requires vacant !in slab
      modifies this
      ensures userData == vacant && slab == old(slab)[vacant := Submitted]
    {
      slab := slab[vacant := Submitted];
      userData := vacant;
    }

    method PollInner(index: nat, waker: nat) returns (poll: Poll)
      requires index in slab
      modifies this
      ensures (slab, poll) == PollSlot(old(slab), index, waker)
    {
      match slab[index]
      case Submitted =>
        slab := slab[index := Waiting(waker)];
        poll := Pending;
      case Waiting(_) =>
        slab := slab[index := Waiting(waker)];
        poll := Pending;
      case Completed(cqe) =>
        poll := Ready(cqe);
    }

    /** `OpInner::drop`, which panics on an operation that is not complete. */
    method DropInner(index: nat)
      requires index in slab && slab[index].Completed?
      modifies this
      ensures slab == old(slab) - {index}
    {
      slab := slab - {index};
    }

    /** `handle_cqe`: all completions in the queue. The wakers that it calls are those of
        the slots that somebody waited on and that are complete now, each once. */
    method HandleCqe(cqes: seq<Cqe>) returns (woken: seq<nat>, ghost slots: seq<nat>)
      requires forall i :: 0 <= i < |cqes| ==> cqes[i].userData in slab
      modifies this
      ensures slab == RecordAll(old(slab), cqes)
      ensures WakesExactly(old(slab), slab, slots, woken)
    {
      woken, slots := [], [];
      for i := 0 to |cqes|
        invariant slab.Keys == old(slab).Keys && RecordAll(slab, cqes[i..]) == RecordAll(old(slab), cqes)
        invariant WakesExactly(old(slab), slab, slots, woken)
      {
        var cqe := cqes[i];
        assert cqes[i..][1..] == cqes[i + 1..];
        WakeOne(old(slab), slab, slots, woken, cqe);
        match slab[cqe.userData]
        case Submitted => slab := slab[cqe.userData := Completed(cqe)];
        case Waiting(waker) =>
          woken := woken + [waker];
          slots := slots + [cqe.userData];
          slab := slab[cqe.userData := Completed(cqe)];
        case Completed(_) =>
      }
      assert cqes[|cqes|..] == [];
    }
  }

  /** The slots that were waited on and are complete now, each once, with their wakers; the
      others are waited on as before. */
  ghost predicate WakesExactly(before: Slab, after: Slab, slots: seq<nat>, woken: seq<nat>) {
    && before.Keys == after.Keys && |slots| == |woken|
    && (forall i, j :: 0 <= i < j < |slots| ==> slots[i] != slots[j])
    && (forall i :: 0 <= i < |slots| ==>
          slots[i] in before && before[slots[i]] == Waiting(woken[i]) && after[slots[i]].Completed?)
    && (forall k :: k in before && before[k].Waiting? ==> k in slots || after[k] == before[k])
    && (forall k :: k in before && !before[k].Waiting? ==> !after[k].Waiting?)
  }

  lemma WakeOne(before: Slab, after: Slab, slots: seq<nat>, woken: seq<nat>, cqe: Cqe)
    requires WakesExactly(before, after, slots, woken) && cqe.userData in after
    ensures var waiter := Waiter(after[cqe.userData]);
            WakesExactly(before, Record(after, cqe.userData, cqe), if waiter == [] then slots else slots + [cqe.userData],
                         woken + waiter)
  {
    var k := cqe.userData;
    if after[k].Waiting? {
      assert k !in slots;
    }
    assert woken + [] == woken;
  }

  // ---- The whole system ----

  /** A slot of the slab of a ring. */
  datatype Slot = Slot(ring: nat, key: nat)

  /** The thread's own ring, which `get_ring` gives. */
  const LOCAL := 0

  /** An `OpInner`: the slot it owns. `token` tells apart the operations that used
      a slot one after another. */
  datatype OpRef = OpRef(slot: Slot, token: nat)

  /** Who holds an `OpInner`: a user's `Op`; or a task that `Op::drop` spawned, which
      first awaits a cancel operation, then the operation itself. */
  datatype Holder =
    | User
    | TaskAwaitingCancel(inner: OpRef)
    | TaskAfterCancel(cancel: OpRef)
    | TaskAwaitingInner

  /** The slabs of all rings; the holder of each operation that owns a slot; the entries
      the kernels have not answered, with the slot that a cancel aims at; and the wakers that
      were called, in order. */
  datatype System = System(
    slab: map<Slot, Lifecycle>, holders: map<OpRef, Holder>, inflight: map<OpRef, Option<Slot>>, nextToken: nat,
    wakes: seq<nat>)

  datatype Action =
    | Push(slot: Slot)
    | PollUser(op: OpRef, waker: nat)
    | DropUser(op: OpRef, vacant: nat)
    | Complete(op: OpRef, result: int)
    | PollCancel(op: OpRef, waker: nat)
    | PollInnerOfTask(op: OpRef, waker: nat)

  /** What can happen next: the slab hands out vacant keys, users act on the
      operations they hold, the kernel answers an entry in flight, tasks run. */
  predicate Enabled(s: System, a: Action) {
    match a
    case Push(slot) => slot !in s.slab
    case PollUser(op, _) => op in s.holders && s.holders[op].User?
    case DropUser(op, vacant) => op in s.holders && s.holders[op].User? && Slot(LOCAL, vacant) !in s.slab
    case Complete(op, _) => op in s.inflight
    case PollCancel(op, _) => op in s.holders && s.holders[op].TaskAwaitingCancel?
    case PollInnerOfTask(op, _) => op in s.holders && s.holders[op].TaskAwaitingInner?
  }

  /** Indexing a vacant slot panics. */
  predicate Panics(s: System, a: Action) {
    !a.Push? && a.op.slot !in s.slab
  }

  function Submit(s: System, slot: Slot, holder: Holder, target: Option<Slot>): System {
    var op := OpRef(slot, s.nextToken);
    s.(slab := s.slab[slot := Submitted], holders := s.holders[op := holder],
       inflight := s.inflight[op := target], nextToken := s.nextToken + 1)
  }

  /** The `OpInner` of a complete operation is dropped and its slot removed. */
  function Release(s: System, op: OpRef): System {
    s.(slab := s.slab - {op.slot}, holders := s.holders - {op})
  }

  /** A cancel goes to the thread's own ring, whatever ring the operation is on, and names
      the operation by its key alone. */
  function Target(op: OpRef): Slot {
    Slot(LOCAL, op.slot.key)
  }

  function CancelOf(s: System, vacant: nat): OpRef {
    OpRef(Slot(LOCAL, vacant), s.nextToken)
  }

  function Step(s: System, a: Action): System
    requires Enabled(s, a) && !Panics(s, a)
  {
    match a
    case Push(slot) => Submit(s, slot, User, None)
    case PollUser(op, waker) => s.(slab := PollSlot(s.slab, op.slot, waker).0)
    case DropUser(op, vacant) =>
      if s.slab[op.slot].Completed? then Release(s, op)
      else
        var cancel := CancelOf(s, vacant);
        var submitted := Submit(s, cancel.slot, TaskAwaitingCancel(op), Some(Target(op)));
        submitted.(holders := submitted.holders[op := TaskAfterCancel(cancel)])
    case Complete(op, result) =>
      s.(slab := Record(s.slab, op.slot, Cqe(op.slot.key, result)), inflight := s.inflight - {op},
         wakes := s.wakes + Waiter(s.slab[op.slot]))
    case PollCancel(op, waker) =>
      if s.slab[op.slot].Completed? then
        var released := Release(s, op);
        released.(holders := released.holders[s.holders[op].inner := TaskAwaitingInner])
      else s.(slab := PollSlot(s.slab, op.slot, waker).0)
    case PollInnerOfTask(op, waker) =>
      if s.slab[op.slot].Completed? then Release(s, op)
      else s.(slab := PollSlot(s.slab, op.slot, waker).0)
  }

  // ---- Slot safety ----

  /** Every operation that is held owns an occupied slot of its own. */
  ghost predicate SlotsOwned(s: System) {
    && (forall op :: op in s.holders ==> op.slot in s.slab && op.token < s.nextToken)
    && (forall a, b :: a in s.holders && b in s.holders && a.slot == b.slot ==> a == b)
  }

  /** In flight are exactly the held operations whose slots are not complete. */
  ghost predicate InFlightExact(s: System)
    requires SlotsOwned(s)
  {
    && (forall op :: op in s.inflight ==> op in s.holders && !s.slab[op.slot].Completed?)
    && (forall op :: op in s.holders && !s.slab[op.slot].Completed? ==> op in s.inflight)
  }

  /** A task that awaits a cancel also holds the operation the cancel aims at. */
  ghost predicate Paired(holders: map<OpRef, Holder>) {
    && (forall c, i :: c in holders && holders[c] == TaskAwaitingCancel(i) ==>
          i in holders && holders[i] == TaskAfterCancel(c))
    && (forall c, i :: i in holders && holders[i] == TaskAfterCancel(c) ==>
          c in holders && holders[c] == TaskAwaitingCancel(i))
  }

  ghost predicate TasksPaired(s: System) {
    Paired(s.holders)
  }

  lemma NewUser(holders: map<OpRef, Holder>, op: OpRef)
    requires Paired(holders) && op !in holders
    ensures Paired(holders[op := User])
  {
  }

  lemma DropUnpaired(holders: map<OpRef, Holder>, op: OpRef)
    requires Paired(holders) && op in holders && (holders[op].User? || holders[op].TaskAwaitingInner?)
    ensures Paired(holders - {op})
  {
  }

  lemma EndPair(holders: map<OpRef, Holder>, c: OpRef, i: OpRef)
    requires Paired(holders) && c in holders && holders[c] == TaskAwaitingCancel(i)
    ensures i in holders && i != c && Paired((holders - {c})[i := TaskAwaitingInner])
  {
  }

  lemma StartPair(holders: map<OpRef, Holder>, c: OpRef, i: OpRef)
    requires Paired(holders) && c !in holders && i in holders && holders[i].User?
    ensures Paired(holders[c := TaskAwaitingCancel(i)][i := TaskAfterCancel(c)])
  {
  }

  ghost predicate AimedAt(s: System, cancel: OpRef, target: Slot) {
    cancel in s.holders && s.holders[cancel].TaskAwaitingCancel? && s.holders[cancel].inner.slot == target
  }

  ghost predicate CancelsAimed(s: System) {
    forall op :: op in s.inflight && s.inflight[op].Some? ==> AimedAt(s, op, s.inflight[op].value)
  }

  ghost predicate Recorded(s: System) {
    forall i :: i in s.slab && s.slab[i].Completed? ==> s.slab[i].cqe.userData == i.key
  }

  ghost predicate Safe(s: System) {
    SlotsOwned(s) && InFlightExact(s) && TasksPaired(s) && Recorded(s)
  }

  function Start(): System {
    System(map[], map[], map[], 0, [])
  }

  lemma StartIsSafe()
    ensures Safe(Start()) && CancelsAimed(Start()) && NoneLeaked(Start())
  {
  }

  /** Nothing that can happen panics, and every completion finds the slot of its own
      operation, occupied and not complete. */
  lemma NothingPanics(s: System, a: Action)
    requires Safe(s) && Enabled(s, a)
    ensures !Panics(s, a)
    ensures a.Complete? ==> a.op in s.holders && !s.slab[a.op.slot].Completed?
  {
  }

  /** A slot that is handed out anew is no one's: no operation in flight uses it, and
      no cancel in flight aims at it while cancels aim at their own operations. */
  lemma NoSlotRecycledEarly(s: System, vacant: Slot, op: OpRef)
    requires Safe(s) && vacant !in s.slab && op in s.inflight
    ensures op.slot != vacant && (CancelsAimed(s) ==> s.inflight[op] != Some(vacant))
  {
  }

  // ---- One action keeps it ----

  /** A submission adds one owner, whose name is new, and one entry in flight. */
  lemma SubmitSlots(s: System, vacant: Slot, holder: Holder, target: Option<Slot>)
    requires SlotsOwned(s) && InFlightExact(s) && vacant !in s.slab
    ensures var t := Submit(s, vacant, holder, target);
            SlotsOwned(t) && InFlightExact(t) && OpRef(vacant, s.nextToken) !in s.holders
  {
    var t := Submit(s, vacant, holder, target);
    var new1 := OpRef(vacant, s.nextToken);
    assert new1 !in s.holders;
    forall op | op in s.holders
      ensures op.slot != vacant && t.slab[op.slot] == s.slab[op.slot]
    {
    }
  }

  lemma SubmitKeepsSafe(s: System, vacant: Slot)
    requires Safe(s) && vacant !in s.slab
    ensures Safe(Submit(s, vacant, User, None))
  {
    SubmitSlots(s, vacant, User, None);
    NewUser(s.holders, OpRef(vacant, s.nextToken));
  }

  lemma PollKeepsSafe(s: System, op: OpRef, waker: nat)
    requires Safe(s) && op in s.holders
    ensures Safe(s.(slab := PollSlot(s.slab, op.slot, waker).0))
  {
  }

  lemma ReleaseKeepsSlots(s: System, op: OpRef)
    requires SlotsOwned(s) && InFlightExact(s) && Recorded(s) && op in s.holders && s.slab[op.slot].Completed?
    ensures SlotsOwned(Release(s, op)) && InFlightExact(Release(s, op)) && Recorded(Release(s, op))
    ensures op !in s.inflight
  {
    var t := Release(s, op);
    forall o | o in s.holders && o != op
      ensures o.slot != op.slot && o.slot in t.slab && t.slab[o.slot] == s.slab[o.slot]
    {
    }
  }

  lemma ReleaseKeepsSafe(s: System, op: OpRef)
    requires Safe(s) && op in s.holders && s.slab[op.slot].Completed?
    requires s.holders[op].User? || s.holders[op].TaskAwaitingInner?
    ensures Safe(Release(s, op))
  {
    ReleaseKeepsSlots(s, op);
    DropUnpaired(s.holders, op);
  }

  lemma StartCancelKeepsSafe(s: System, op: OpRef, vacant: nat)
    requires Safe(s) && Enabled(s, DropUser(op, vacant)) && !s.slab[op.slot].Completed?
    ensures Safe(Step(s, DropUser(op, vacant)))
  {
    var t, cancel := Step(s, DropUser(op, vacant)), CancelOf(s, vacant);
    var submitted := Submit(s, cancel.slot, TaskAwaitingCancel(op), Some(Target(op)));
    SubmitSlots(s, cancel.slot, TaskAwaitingCancel(op), Some(Target(op)));
    assert t.holders.Keys == submitted.holders.Keys;
    HolderChange(submitted, t);
    StartPair(s.holders, cancel, op);
  }

  /** Slots and entries depend on who is held, not on the holder. */
  lemma HolderChange(s: System, t: System)
    requires SlotsOwned(s) && InFlightExact(s) && Recorded(s) && t.holders.Keys == s.holders.Keys
    requires t.slab == s.slab && t.inflight == s.inflight && t.nextToken == s.nextToken
    ensures SlotsOwned(t) && InFlightExact(t) && Recorded(t)
  {
  }

  lemma EndCancelKeepsSafe(s: System, op: OpRef, waker: nat)
    requires Safe(s) && Enabled(s, PollCancel(op, waker)) && s.slab[op.slot].Completed?
    ensures Safe(Step(s, PollCancel(op, waker)))
  {
    var t := Step(s, PollCancel(op, waker));
    var inner := s.holders[op].inner;
    assert inner in s.holders && s.holders[inner] == TaskAfterCancel(op);
    ReleaseKeepsSlots(s, op);
    assert t.holders.Keys == Release(s, op).holders.Keys;
    HolderChange(Release(s, op), t);
    EndPair(s.holders, op, inner);
    assert t.holders == (s.holders - {op})[inner := TaskAwaitingInner];
  }

  lemma CompleteKeepsSafe(s: System, op: OpRef, result: int)
    requires Safe(s) && op in s.inflight
    ensures Safe(Step(s, Complete(op, result)))
  {
  }

  lemma StepKeepsSafe(s: System, a: Action)
    requires Safe(s) && Enabled(s, a)
    ensures !Panics(s, a) && Safe(Step(s, a))
  {
    NothingPanics(s, a);
    match a
    case Push(slot) => SubmitKeepsSafe(s, slot);
    case PollUser(op, waker) => PollKeepsSafe(s, op, waker);
    case DropUser(op, vacant) =>
      if s.slab[op.slot].Completed? {
        ReleaseKeepsSafe(s, op);
      } else {
        StartCancelKeepsSafe(s, op, vacant);
      }
    case Complete(op, result) => CompleteKeepsSafe(s, op, result);
    case PollCancel(op, waker) =>
      if s.slab[op.slot].Completed? {
        EndCancelKeepsSafe(s, op, waker);
      } else {
        PollKeepsSafe(s, op, waker);
      }
    case PollInnerOfTask(op, waker) =>
      if s.slab[op.slot].Completed? {
        ReleaseKeepsSafe(s, op);
      } else {
        PollKeepsSafe(s, op, waker);
      }
  }

  // ---- No slot is lost ----

  ghost function Slots(holders: map<OpRef, Holder>): set<Slot> {
    set op | op in holders :: op.slot
  }

  /** No slot is occupied but those of held operations. */
  ghost predicate NoneLeaked(s: System) {
    s.slab.Keys == Slots(s.holders)
  }

  lemma SlotsWith(holders: map<OpRef, Holder>, op: OpRef, holder: Holder)
    ensures Slots(holders[op := holder]) == Slots(holders) + {op.slot}
  {
    assert forall o :: o in holders[op := holder] <==> o in holders || o == op;
  }

  lemma SlotsWithout(s: System, op: OpRef)
    requires SlotsOwned(s) && op in s.holders
    ensures Slots(s.holders - {op}) == Slots(s.holders) - {op.slot}
  {
  }

  lemma StepLeaksNone(s: System, a: Action)
    requires Safe(s) && NoneLeaked(s) && Enabled(s, a) && !Panics(s, a)
    ensures NoneLeaked(Step(s, a))
  {
    match a
    case Push(slot) => SlotsWith(s.holders, OpRef(slot, s.nextToken), User);
    case PollUser(_, _) =>
    case DropUser(op, vacant) =>
      SlotsWithout(s, op);
      var cancel := CancelOf(s, vacant);
      SlotsWith(s.holders, cancel, TaskAwaitingCancel(op));
      SlotsWith(s.holders[cancel := TaskAwaitingCancel(op)], op, TaskAfterCancel(cancel));
    case Complete(_, _) =>
    case PollCancel(op, _) =>
      SlotsWithout(s, op);
      EndPair(s.holders, op, s.holders[op].inner);
      SlotsWith(s.holders - {op}, s.holders[op].inner, TaskAwaitingInner);
    case PollInnerOfTask(op, _) => SlotsWithout(s, op);
  }

  // ---- Where cancels aim ----

  /** A user drops an operation of another ring before it is complete. */
  predicate MissesTarget(s: System, a: Action) {
    a.DropUser? && a.op.slot in s.slab && !s.slab[a.op.slot].Completed? && a.op.slot.ring != LOCAL
  }

  /** An aim is kept while the cancel that has it is held as it was. */
  lemma AimKept(s: System, t: System, c: OpRef)
    requires CancelsAimed(s) && c in s.inflight && c in t.inflight && t.inflight[c] == s.inflight[c]
    requires s.inflight[c].Some? ==> c in t.holders && t.holders[c] == s.holders[c]
    ensures t.inflight[c].Some? ==> AimedAt(t, c, t.inflight[c].value)
  {
    assert s.inflight[c].Some? ==> AimedAt(s, c, s.inflight[c].value);
  }

  /** A cancel in flight stays held as it is, whatever is done. */
  lemma CancelIsHeld(s: System, a: Action, c: OpRef)
    requires Safe(s) && CancelsAimed(s) && Enabled(s, a) && !Panics(s, a)
    requires c in s.inflight && s.inflight[c].Some? && c in Step(s, a).inflight
    ensures c in s.holders && c in Step(s, a).holders && Step(s, a).holders[c] == s.holders[c]
    ensures Step(s, a).inflight[c] == s.inflight[c]
  {
    assert AimedAt(s, c, s.inflight[c].value);
  }

  /** The entries after an action are those before it, but for a new one. */
  lemma NewEntries(s: System, a: Action, c: OpRef)
    requires Safe(s) && Enabled(s, a) && !Panics(s, a) && c in Step(s, a).inflight
    ensures c in s.inflight || (a.Push? && Step(s, a).inflight[c].None?)
            || (a.DropUser? && !s.slab[a.op.slot].Completed? && c == CancelOf(s, a.vacant))
    ensures c in s.inflight ==> Step(s, a).inflight[c] == s.inflight[c]
  {
    assert c in s.inflight ==> c in s.holders && c.token < s.nextToken;
  }

  /** Cancels aim at the operations they are for until an operation of another ring is
      dropped before it is complete: exactly that breaks it. */
  lemma AimKeptIff(s: System, a: Action)
    requires Safe(s) && CancelsAimed(s) && Enabled(s, a)
    ensures !Panics(s, a) && (CancelsAimed(Step(s, a)) <==> !MissesTarget(s, a))
  {
    NothingPanics(s, a);
    var t := Step(s, a);
    if MissesTarget(s, a) {
      WrongTarget(s, a.op, a.vacant);
    } else {
      forall c | c in t.inflight && t.inflight[c].Some?
        ensures AimedAt(t, c, t.inflight[c].value)
      {
        NewEntries(s, a, c);
        if c in s.inflight {
          CancelIsHeld(s, a, c);
          AimKept(s, t, c);
        }
      }
    }
  }

  /** The cancel of such an operation aims at whatever has its key on the thread's own ring. */
  lemma WrongTarget(s: System, op: OpRef, vacant: nat)
    requires Safe(s) && Enabled(s, DropUser(op, vacant)) && MissesTarget(s, DropUser(op, vacant))
    ensures var t, cancel := Step(s, DropUser(op, vacant)), CancelOf(s, vacant);
            && cancel in t.inflight && t.inflight[cancel] == Some(Slot(LOCAL, op.slot.key))
            && !AimedAt(t, cancel, Slot(LOCAL, op.slot.key)) && !CancelsAimed(t)
  {
    var t, cancel := Step(s, DropUser(op, vacant)), CancelOf(s, vacant);
    assert cancel != op;
    assert t.holders[cancel] == TaskAwaitingCancel(op);
  }

  // ---- Runs ----

  ghost predicate Run(s: System, actions: seq<Action>, t: System)
    decreases |actions|
  {
    if actions == [] then s == t
    else Enabled(s, actions[0]) && (Panics(s, actions[0]) || Run(Step(s, actions[0]), actions[1..], t))
  }

  /** No operation of another ring is dropped before it is complete. */
  ghost predicate NoneMisses(s: System, actions: seq<Action>)
    decreases |actions|
  {
    actions == [] ||
    (!MissesTarget(s, actions[0])
     && (Enabled(s, actions[0]) && !Panics(s, actions[0]) ==> NoneMisses(Step(s, actions[0]), actions[1..])))
  }

  /** In every run on any number of rings, whatever the interleaving, no action panics, the
      end is safe and no slot is lost; and cancels aim at their own operations, if no operation of a ring
      other than the thread's is dropped before it is complete. */
  lemma {:induction false} RunsAreSafe(s: System, actions: seq<Action>, t: System)
    requires Safe(s) && Run(s, actions, t)
    ensures Safe(t) && (NoneLeaked(s) ==> NoneLeaked(t)) && (CancelsAimed(s) && NoneMisses(s, actions) ==> CancelsAimed(t))
    decreases |actions|
  {
    if actions != [] {
      StepKeepsSafe(s, actions[0]);
      if NoneLeaked(s) {
        StepLeaksNone(s, actions[0]);
      }
      if CancelsAimed(s) {
        AimKeptIff(s, actions[0]);
      }
      RunsAreSafe(Step(s, actions[0]), actions[1..], t);
    }
  }

  /** Two operations on two rings: the one of the other ring is dropped, and its cancel aims
      at the one on the thread's own ring, which a user still holds. */
  lemma CancelHitsAnother(ring: nat) returns (actions: seq<Action>, t: System, cancel: OpRef, victim: OpRef)
    requires ring != LOCAL
    ensures Run(Start(), actions, t) && cancel in t.inflight && t.inflight[cancel] == Some(victim.slot)
    ensures victim in t.holders && t.holders[victim].User? && victim in t.inflight
  {
    var other := Slot(ring, 0);
    var first, second, third := Push(other), Push(Slot(LOCAL, 0)), DropUser(OpRef(other, 0), 1);
    var s1 := Step(Start(), first);
    var s2 := Step(s1, second);
    t := Step(s2, third);
    actions := [first, second, third];
    cancel, victim := CancelOf(s2, 1), OpRef(Slot(LOCAL, 0), 1);
    RunOfThree(Start(), first, second, third);
  }

  lemma RunOfThree(s: System, a: Action, b: Action, c: Action)
    requires Enabled(s, a) && !Panics(s, a) && Enabled(Step(s, a), b) && !Panics(Step(s, a), b)
    requires Enabled(Step(Step(s, a), b), c) && !Panics(Step(Step(s, a), b), c)
    ensures Run(s, [a, b, c], Step(Step(Step(s, a), b), c))
  {
    var t := Step(Step(Step(s, a), b), c);
    assert [a, b, c][1..] == [b, c] && [b, c][1..] == [c] && [c][1..] == [];
    assert Run(t, [], t) && Run(Step(Step(s, a), b), [c], t) && Run(Step(s, a), [b, c], t);
  }

  /** A completion that was recorded for a user's operation stays there whatever
      happens, until that user drops it: so the next poll returns it. */
  lemma {:induction false} CompletionIsKept(s: System, op: OpRef, cqe: Cqe, actions: seq<Action>, t: System)
    requires Safe(s) && op in s.holders && s.holders[op].User? && s.slab[op.slot] == Completed(cqe)
    requires Run(s, actions, t)
    requires forall i :: 0 <= i < |actions| ==> !(actions[i].DropUser? && actions[i].op == op)
    ensures op in t.holders && op.slot in t.slab
    ensures forall waker :: PollSlot(t.slab, op.slot, waker) == (t.slab, Ready(cqe))
    decreases |actions|
  {
    if actions != [] {
      StepKeepsSafe(s, actions[0]);
      CompletionSurvives(s, op, cqe, actions[0]);
      CompletionIsKept(Step(s, actions[0]), op, cqe, actions[1..], t);
    }
  }

  lemma CompletionSurvives(s: System, op: OpRef, cqe: Cqe, a: Action)
    requires Safe(s) && op in s.holders && s.holders[op].User? && s.slab[op.slot] == Completed(cqe)
    requires Enabled(s, a) && !Panics(s, a) && !(a.DropUser? && a.op == op)
    ensures var t := Step(s, a);
            op in t.holders && t.holders[op].User? && op.slot in t.slab && t.slab[op.slot] == Completed(cqe)
  {
    if !a.Push? && a.op != op {
      assert a.op in s.holders;
      assert a.op.slot != op.slot;
    }
  }
  // ---- Nobody waits for ever ----

  /** The poll of an operation, by whoever holds it. */
  predicate Polls(a: Action, op: OpRef) {
    (a.PollUser? || a.PollCancel? || a.PollInnerOfTask?) && a.op == op
  }

  /** A poll gives the completion, or leaves the waker there. */
  lemma PollParks(s: System, a: Action, op: OpRef)
    requires Safe(s) && Enabled(s, a) && !Panics(s, a) && Polls(a, op) && !s.slab[op.slot].Completed?
    ensures var t := Step(s, a); op in t.holders && op.slot in t.slab && t.slab[op.slot] == Waiting(a.waker)
  {
  }

  lemma StillWaits(s: System, a: Action, op: OpRef, waker: nat)
    requires Safe(s) && Enabled(s, a) && !Panics(s, a) && !Polls(a, op)
    requires op in s.holders && s.slab[op.slot] == Waiting(waker)
    ensures var t := Step(s, a);
            s.wakes <= t.wakes &&
            if a.Complete? && a.op == op then t.wakes == s.wakes + [waker]
            else op in t.holders && op.slot in t.slab && t.slab[op.slot] == Waiting(waker)
  {
  }

  lemma {:induction false} WakesGrow(s: System, actions: seq<Action>, t: System)
    requires Safe(s) && Run(s, actions, t)
    ensures s.wakes <= t.wakes
    decreases |actions|
  {
    if actions != [] {
      StepKeepsSafe(s, actions[0]);
      WakesGrow(Step(s, actions[0]), actions[1..], t);
    }
  }

  ghost predicate CalledSince(t: System, n: nat, waker: nat) {
    exists i :: n <= i < |t.wakes| && t.wakes[i] == waker
  }

  /** No wake-up is lost: over every run in which an operation is not polled again after it
      was polled with some waker, it is still incomplete and waits with that waker, or that
      waker was called since. */
  lemma {:induction false} NoLostWakeup(s: System, op: OpRef, waker: nat, actions: seq<Action>, t: System)
    requires Safe(s) && op in s.holders && s.slab[op.slot] == Waiting(waker) && Run(s, actions, t)
    requires forall i :: 0 <= i < |actions| ==> !Polls(actions[i], op)
    ensures s.wakes <= t.wakes
    ensures || CalledSince(t, |s.wakes|, waker)
            || (op in t.holders && op.slot in t.slab && t.slab[op.slot] == Waiting(waker))
    decreases |actions|
  {
    if actions != [] {
      var a, next := actions[0], Step(s, actions[0]);
      StepKeepsSafe(s, a);
      StillWaits(s, a, op, waker);
      WakesGrow(next, actions[1..], t);
      if a.Complete? && a.op == op {
        assert t.wakes[|s.wakes|] == waker;
      } else {
        NoLostWakeup(next, op, waker, actions[1..], t);
      }
    }
  }

  /** Whoever drops or awaits an operation that is complete frees its slot; a task that has its
      cancel goes on to await the operation. */
  lemma CompleteIsFreed(s: System, a: Action)
    requires Safe(s) && Enabled(s, a) && !Panics(s, a) && (a.DropUser? || a.PollCancel? || a.PollInnerOfTask?)
    requires s.slab[a.op.slot].Completed?
    ensures var t := Step(s, a);
            && a.op !in t.holders && t.slab == s.slab - {a.op.slot} && t.inflight == s.inflight
            && (a.PollCancel? ==> s.holders[a.op].inner in t.holders && t.holders[s.holders[a.op].inner] == TaskAwaitingInner)
  {
    if a.PollCancel? {
      EndPair(s.holders, a.op, s.holders[a.op].inner);
    }
  }

  /** What the kernel answered for a user's operation is what its next poll returns, whatever
      happens in between. */
  lemma ResultIsReturned(s: System, op: OpRef, result: int, actions: seq<Action>, t: System)
    requires Safe(s) && Enabled(s, Complete(op, result)) && op in s.holders && s.holders[op].User?
    requires Run(s, [Complete(op, result)] + actions, t)
    requires forall i :: 0 <= i < |actions| ==> !(actions[i].DropUser? && actions[i].op == op)
    ensures op in t.holders && op.slot in t.slab
    ensures forall waker :: PollSlot(t.slab, op.slot, waker) == (t.slab, Ready(Cqe(op.slot.key, result)))
  {
    var a := Complete(op, result);
    StepKeepsSafe(s, a);
    assert ([a] + actions)[1..] == actions;
    CompletionIsKept(Step(s, a), op, Cqe(op.slot.key, result), actions, t);
  }
}

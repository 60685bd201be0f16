/** Rolling buffers and their views on one pool, any number of them: when the bytes a view
    shows stay what they were. Box storage is shared by counting every view; pool storage
    is not, because `filled` makes its view with `freeze_slice`. */
module RollPool {
  import opened Common
  import Pool = BufPool

  // ---- Storage and handles ----

  /** Where bytes are: a block of the pool, or a box of their own. */
  datatype Place = InPool(index: nat) | InBox(box: nat)

  /** A stretch of storage. */
  datatype Window = Window(place: Place, off: nat, len: nat) {
    function End(): nat {
      off + len
    }
  }

  /** A `RollMut` with its filled part, which writes from the end of it on, or a `Roll`. */
  datatype Handle = Writer(window: Window) | Reader(window: Window)

  /** Counters and blocks of the pool, boxes, live handles by name, and how often a view
      was made of each block without counting it. */
  datatype System = System(
    counters: Pool.Counters, memory: seq<Bytes>, boxes: map<nat, Bytes>, handles: map<nat, Handle>, freezes: seq<nat>)
  {
    predicate Has(place: Place) {
      match place
      case InPool(index) => index < |memory|
      case InBox(box) => box in boxes
    }

    function Block(place: Place): Bytes
      requires Has(place)
    {
      match place
      case InPool(index) => memory[index]
      case InBox(box) => boxes[box]
    }

    predicate Fits(w: Window) {
      Has(w.place) && w.End() <= |Block(w.place)|
    }

    /** The bytes in a window now. */
    function Shows(w: Window): Bytes
      requires Fits(w)
    {
      Block(w.place)[w.off..w.End()]
    }

    function WithBlock(place: Place, bytes: Bytes): System
      requires Has(place)
    {
      match place
      case InPool(index) => this.(memory := memory[index := bytes])
      case InBox(box) => this.(boxes := boxes[box := bytes])
    }
  }

  ghost predicate StorageShaped(s: System) {
    && |s.memory| == |s.counters.counts| == |s.freezes|
    && (forall b :: 0 <= b < |s.memory| ==> |s.memory[b]| == Pool.BUF_SIZE)
    && (forall i :: 0 <= i < |s.counters.free| ==> s.counters.free[i] < |s.memory|)
  }

  ghost predicate Shaped(s: System) {
    StorageShaped(s) && forall h :: h in s.handles ==> s.Fits(s.handles[h].window)
  }

  // ---- What rolling buffers and views do ----

  /** The operations of `RollMut` and `Roll` are made of these: `grow` is `ToBox`,
      `compact` is `ToBox` or `ToPool`, `filled`, `take_at_most` and `put_to_roll` hand out.
      A closure of `put_to_roll` that fails has scribbled past the filled part. */
  datatype Action =
    | Alloc(new1: nat)
    | Append(h: nat, bytes: Bytes)
    | Scribble(h: nat, bytes: Bytes)
    | HandOut(h: nat, n: nat, new1: nat)
    | Skip(h: nat, n: nat)
    | ToBox(h: nat, size: nat, box: nat)
    | ToPool(h: nat)
    | Clone(h: nat, new1: nat)
    | Narrow(h: nat, from: nat, to: nat)
    | Split(h: nat, at: nat, new1: nat)
    | Drop(h: nat)

  predicate IsWriter(s: System, h: nat) {
    h in s.handles && s.handles[h].Writer? && s.Fits(s.handles[h].window)
  }

  predicate IsReader(s: System, h: nat) {
    h in s.handles && s.handles[h].Reader? && s.Fits(s.handles[h].window)
  }

  /** Counts are kept for pool blocks only. */
  predicate Countable(s: System, place: Place) {
    place.InPool? ==> place.index < |s.counters.counts| && place.index < |s.freezes|
  }

  predicate HasFree(s: System) {
    s.counters.free != [] && s.counters.free[0] < |s.memory| && s.counters.free[0] < |s.counters.counts|
    && |s.memory[s.counters.free[0]]| == Pool.BUF_SIZE
  }

  predicate Enabled(s: System, a: Action) {
    match a
    case Alloc(new1) => HasFree(s) && new1 !in s.handles
    case Append(h, bytes) => IsWriter(s, h) && s.handles[h].window.End() + |bytes| <= |s.Block(s.handles[h].window.place)|
    case Scribble(h, bytes) => IsWriter(s, h) && s.handles[h].window.End() + |bytes| <= |s.Block(s.handles[h].window.place)|
    case HandOut(h, n, new1) =>
      IsWriter(s, h) && Countable(s, s.handles[h].window.place) && n <= s.handles[h].window.len && new1 !in s.handles
    case Skip(h, n) => IsWriter(s, h) && n <= s.handles[h].window.len
    case ToBox(h, size, box) =>
      IsWriter(s, h) && Countable(s, s.handles[h].window.place) && s.handles[h].window.len <= size && box !in s.boxes
    case ToPool(h) =>
      IsWriter(s, h) && Countable(s, s.handles[h].window.place) && HasFree(s) && s.handles[h].window.len <= Pool.BUF_SIZE
    case Clone(h, new1) => IsReader(s, h) && Countable(s, s.handles[h].window.place) && new1 !in s.handles
    case Narrow(h, from, to) => IsReader(s, h) && from <= to <= s.handles[h].window.len
    case Split(h, at, new1) =>
      IsReader(s, h) && Countable(s, s.handles[h].window.place) && at <= s.handles[h].window.len && new1 !in s.handles
    case Drop(h) => h in s.handles && Countable(s, s.handles[h].window.place)
  }

  function Inc(c: Pool.Counters, place: Place): Pool.Counters
    requires place.InPool? ==> place.index < |c.counts|
  {
    if place.InPool? then Pool.Inc(c, place.index) else c
  }

  function Dec(c: Pool.Counters, place: Place): Pool.Counters
    requires place.InPool? ==> place.index < |c.counts|
  {
    if place.InPool? then Pool.Dec(c, place.index) else c
  }

  function Step(s: System, a: Action): System
    requires Enabled(s, a)
  {
    match a
    case Alloc(new1) =>
      s.(counters := Pool.Allocated(s.counters), handles := s.handles[new1 := Writer(Window(InPool(s.counters.free[0]), 0, 0))])
    case Append(h, bytes) =>
      var w := s.handles[h].window;
      s.WithBlock(w.place, Pool.Put(s.Block(w.place), w.End(), bytes)).(
        handles := s.handles[h := Writer(w.(len := w.len + |bytes|))])
    case Scribble(h, bytes) =>
      var w := s.handles[h].window;
      s.WithBlock(w.place, Pool.Put(s.Block(w.place), w.End(), bytes))
    case HandOut(h, n, new1) =>
      var w := s.handles[h].window;
      s.(handles := s.handles[new1 := Reader(w.(len := n))],
         freezes := if w.place.InPool? then s.freezes[w.place.index := s.freezes[w.place.index] + 1] else s.freezes)
    case Skip(h, n) =>
      var w := s.handles[h].window;
      s.(handles := s.handles[h := Writer(Window(w.place, w.off + n, w.len - n))])
    case ToBox(h, size, box) =>
      var w := s.handles[h].window;
      s.(boxes := s.boxes[box := s.Shows(w) + Zeros(size - w.len)], counters := Dec(s.counters, w.place),
         handles := s.handles[h := Writer(Window(InBox(box), 0, w.len))])
    case ToPool(h) =>
      var w, b := s.handles[h].window, s.counters.free[0];
      s.(memory := s.memory[b := Pool.Put(s.memory[b], 0, s.Shows(w))], counters := Dec(Pool.Allocated(s.counters), w.place),
         handles := s.handles[h := Writer(Window(InPool(b), 0, w.len))])
    case Clone(h, new1) =>
      s.(counters := Inc(s.counters, s.handles[h].window.place), handles := s.handles[new1 := s.handles[h]])
    case Narrow(h, from, to) =>
      var w := s.handles[h].window;
      s.(handles := s.handles[h := Reader(Window(w.place, w.off + from, to - from))])
    case Split(h, at, new1) =>
      var w := s.handles[h].window;
      s.(counters := Inc(s.counters, w.place),
         handles := s.handles[h := Reader(w.(len := at))][new1 := Reader(Window(w.place, w.off + at, w.len - at))])
    case Drop(h) =>
      s.(counters := Dec(s.counters, s.handles[h].window.place), handles := s.handles - {h})
  }

  lemma StepKeepsStorage(s: System, a: Action)
    requires StorageShaped(s) && Enabled(s, a)
    ensures StorageShaped(Step(s, a))
  {
  }

  lemma StepKeepsSizes(s: System, a: Action, place: Place)
    requires StorageShaped(s) && Enabled(s, a) && s.Has(place)
    ensures Step(s, a).Has(place) && |Step(s, a).Block(place)| == |s.Block(place)|
  {
  }

  lemma StepKeepsFit(s: System, a: Action, h: nat)
    requires Shaped(s) && Enabled(s, a) && h in Step(s, a).handles
    ensures Step(s, a).Fits(Step(s, a).handles[h].window)
  {
    if h in s.handles {
      StepKeepsSizes(s, a, s.handles[h].window.place);
    }
    if a.HandOut? || a.Clone? || a.Split? {
      StepKeepsSizes(s, a, s.handles[a.h].window.place);
    }
  }

  lemma StepKeepsShape(s: System, a: Action)
    requires Shaped(s) && Enabled(s, a)
    ensures Shaped(Step(s, a))
  {
    StepKeepsStorage(s, a);
    forall h | h in Step(s, a).handles
      ensures Step(s, a).Fits(Step(s, a).handles[h].window)
    {
      StepKeepsFit(s, a, h);
    }
  }

  // ---- Views that nobody can write into ----

  /** Every buffer on the same storage writes past the window. */
  ghost predicate Covered(s: System, w: Window) {
    forall h :: h in s.handles && s.handles[h].Writer? && s.handles[h].window.place == w.place ==>
      w.End() <= s.handles[h].window.End()
  }

  /** The pool hands out this storage. */
  predicate HandsOut(s: System, a: Action, place: Place) {
    (a.Alloc? || a.ToPool?) && s.counters.free != [] && place == InPool(s.counters.free[0])
  }

  lemma AppendShows(block: Bytes, end: nat, bytes: Bytes, from: nat, to: nat)
    requires end + |bytes| <= |block| && from <= to <= end
    ensures Pool.Put(block, end, bytes)[from..to] == block[from..to]
  {
  }

  /** A covered window shows the same bytes after any action, and stays covered, unless the
      action hands its block out again. */
  lemma StepKeepsCovered(s: System, a: Action, w: Window)
    requires Shaped(s) && Enabled(s, a) && s.Fits(w) && Covered(s, w) && !HandsOut(s, a, w.place)
    ensures var t := Step(s, a); t.Fits(w) && t.Shows(w) == s.Shows(w) && Covered(t, w)
  {
    var t := Step(s, a);
    if (a.Append? || a.Scribble?) && s.handles[a.h].window.place == w.place {
      AppendShows(s.Block(w.place), s.handles[a.h].window.End(), a.bytes, w.off, w.End());
    }
  }

  /** Appending these bytes changes what the window shows. */
  ghost predicate Changes(s: System, w: Window, h: nat, bytes: Bytes)
    requires s.Fits(w)
  {
    Enabled(s, Append(h, bytes)) && Step(s, Append(h, bytes)).Fits(w) && Step(s, Append(h, bytes)).Shows(w) != s.Shows(w)
  }

  /** Some buffer can do that. */
  ghost predicate Exposed(s: System, w: Window)
    requires s.Fits(w)
  {
    exists h, bytes :: Changes(s, w, h, bytes)
  }

  /** Bytes that go on to this one as they were, and change it. */
  lemma OneByteChanges(block: Bytes, end: nat, at: nat, other: Byte)
    requires end <= at < |block|
    ensures var after := Pool.Put(block, end, block[end..at] + [other]); |after| == |block| && after[at] == other
  {
  }

  lemma AppendedBlock(s: System, h: nat, bytes: Bytes)
    requires Enabled(s, Append(h, bytes))
    ensures var w, t := s.handles[h].window, Step(s, Append(h, bytes));
            t.Has(w.place) && t.Block(w.place) == Pool.Put(s.Block(w.place), w.End(), bytes)
  {
  }

  lemma UncoveredIsExposed(s: System, w: Window, h: nat)
    requires Shaped(s) && s.Fits(w) && w.len > 0
    requires IsWriter(s, h) && s.handles[h].window.place == w.place && s.handles[h].window.End() < w.End()
    ensures Exposed(s, w)
  {
    var block, end := s.Block(w.place), s.handles[h].window.End();
    var at := if end < w.off then w.off else end;
    var other: Byte := if block[at] == 0 then 1 else 0;
    var bytes := block[end..at] + [other];
    OneByteChanges(block, end, at, other);
    AppendedBlock(s, h, bytes);
    var t := Step(s, Append(h, bytes));
    assert t.Shows(w)[at - w.off] == other && s.Shows(w)[at - w.off] == block[at];
    assert Changes(s, w, h, bytes);
  }

  /** The condition is exact: what a window shows can be changed by a write exactly when it
      is not covered. */
  lemma ExposedIff(s: System, w: Window)
    requires Shaped(s) && s.Fits(w) && w.len > 0
    ensures Exposed(s, w) <==> !Covered(s, w)
  {
    if !Covered(s, w) {
      var h :| h in s.handles && s.handles[h].Writer? && s.handles[h].window.place == w.place
               && s.handles[h].window.End() < w.End();
      UncoveredIsExposed(s, w, h);
    } else {
      forall h, bytes
        ensures !Changes(s, w, h, bytes)
      {
        if Enabled(s, Append(h, bytes)) {
          StepKeepsCovered(s, Append(h, bytes), w);
        }
      }
    }
  }

  /** What handles show after each action: an append is seen at the end of the filled part,
      which a skip, a new view, a move to a box or to a block otherwise keeps or cuts; the
      parts of a view are parts of its bytes. */
  ghost predicate ShowsRight(s: System, a: Action)
    requires Shaped(s) && Enabled(s, a) && Shaped(Step(s, a))
  {
    var t := Step(s, a);
    match a
    case Alloc(new1) => t.handles[new1].Writer? && t.Shows(t.handles[new1].window) == []
    case Append(h, bytes) => t.handles[h].Writer? && t.Shows(t.handles[h].window) == s.Shows(s.handles[h].window) + bytes
    case Scribble(h, _) => t.handles == s.handles && t.Shows(s.handles[h].window) == s.Shows(s.handles[h].window)
    case HandOut(h, n, new1) =>
      t.handles[new1].Reader? && t.Shows(t.handles[new1].window) == s.Shows(s.handles[h].window)[..n]
    case Skip(h, n) => t.handles[h].Writer? && t.Shows(t.handles[h].window) == s.Shows(s.handles[h].window)[n..]
    case ToBox(h, _, _) => t.handles[h].Writer? && t.Shows(t.handles[h].window) == s.Shows(s.handles[h].window)
    case ToPool(h) => t.handles[h].Writer? && t.Shows(t.handles[h].window) == s.Shows(s.handles[h].window)
    case Clone(h, new1) => t.handles[new1].Reader? && t.Shows(t.handles[new1].window) == s.Shows(s.handles[h].window)
    case Narrow(h, from, to) => t.handles[h].Reader? && t.Shows(t.handles[h].window) == s.Shows(s.handles[h].window)[from..to]
    case Split(h, at, new1) =>
      && t.handles[h].Reader? && t.handles[new1].Reader? && |t.Shows(t.handles[h].window)| == at
      && t.Shows(t.handles[h].window) + t.Shows(t.handles[new1].window) == s.Shows(s.handles[h].window)
    case Drop(h) => h !in t.handles
  }

  lemma ActionShows(s: System, a: Action)
    requires Shaped(s) && Enabled(s, a)
    ensures Shaped(Step(s, a)) && ShowsRight(s, a)
  {
    StepKeepsShape(s, a);
    match a
    case Append(h, bytes) => AppendIsSeen(s, h, bytes);
    case Scribble(h, bytes) => ScribbleIsNot(s, h, bytes);
    case ToPool(h) => PoolCopyIsSeen(s, h);
    case HandOut(_, _, _) => HandOutShows(s, a);
    case Skip(_, _) => SkipShows(s, a);
    case Narrow(_, _, _) => NarrowShows(s, a);
    case Split(_, _, _) => SplitShows(s, a);
    case _ => WholeShows(s, a);
  }

  lemma SameBytes(s: System, t: System, w: Window)
    requires t.memory == s.memory && t.boxes == s.boxes && s.Fits(w)
    ensures t.Fits(w) && t.Shows(w) == s.Shows(w)
  {
  }

  lemma HandOutShows(s: System, a: Action)
    requires Shaped(s) && Enabled(s, a) && Shaped(Step(s, a)) && a.HandOut?
    ensures ShowsRight(s, a)
  {
    CutOf(s, a.h, 0, a.n);
    SameBytes(s, Step(s, a), Step(s, a).handles[a.new1].window);
  }

  lemma SkipShows(s: System, a: Action)
    requires Shaped(s) && Enabled(s, a) && Shaped(Step(s, a)) && a.Skip?
    ensures ShowsRight(s, a)
  {
    CutOf(s, a.h, a.n, s.handles[a.h].window.len);
    SameBytes(s, Step(s, a), Step(s, a).handles[a.h].window);
  }

  lemma NarrowShows(s: System, a: Action)
    requires Shaped(s) && Enabled(s, a) && Shaped(Step(s, a)) && a.Narrow?
    ensures ShowsRight(s, a)
  {
    CutOf(s, a.h, a.from, a.to);
    SameBytes(s, Step(s, a), Step(s, a).handles[a.h].window);
  }

  lemma SplitWindow(s: System, w: Window, at: nat)
    requires s.Fits(w) && at <= w.len
    ensures var left, right := w.(len := at), Window(w.place, w.off + at, w.len - at);
            s.Fits(left) && s.Fits(right) && |s.Shows(left)| == at && s.Shows(left) + s.Shows(right) == s.Shows(w)
  {
    Pool.PartsOf(s.Block(w.place), w.off, w.len, at);
  }

  lemma SplitWindows(s: System, a: Action)
    requires Shaped(s) && Enabled(s, a) && a.Split?
    ensures var t, w := Step(s, a), s.handles[a.h].window;
            && t.handles[a.h] == Reader(w.(len := a.at)) && t.memory == s.memory && t.boxes == s.boxes
            && t.handles[a.new1] == Reader(Window(w.place, w.off + a.at, w.len - a.at))
  {
  }

  lemma SplitShows(s: System, a: Action)
    requires Shaped(s) && Enabled(s, a) && Shaped(Step(s, a)) && a.Split?
    ensures ShowsRight(s, a)
  {
    var t, w := Step(s, a), s.handles[a.h].window;
    SplitWindow(s, w, a.at);
    SplitWindows(s, a);
    SameBytes(s, t, t.handles[a.h].window);
    SameBytes(s, t, t.handles[a.new1].window);
  }

  lemma WholeShows(s: System, a: Action)
    requires Shaped(s) && Enabled(s, a) && Shaped(Step(s, a)) && (a.Alloc? || a.ToBox? || a.Clone? || a.Drop?)
    ensures ShowsRight(s, a)
  {
    if a.ToBox? {
      var filled := s.Shows(s.handles[a.h].window);
      assert (filled + Zeros(a.size - |filled|))[0..|filled|] == filled;
    }
  }

  lemma CutOf(s: System, h: nat, from: nat, to: nat)
    requires h in s.handles && s.Fits(s.handles[h].window) && from <= to <= s.handles[h].window.len
    ensures var w := s.handles[h].window;
            s.Shows(Window(w.place, w.off + from, to - from)) == s.Shows(w)[from..to]
  {
    var w := s.handles[h].window;
    Pool.PartOf(s.Block(w.place), w.off, w.len, from, to);
  }

  lemma AppendIsSeen(s: System, h: nat, bytes: Bytes)
    requires Enabled(s, Append(h, bytes))
    ensures var t := Step(s, Append(h, bytes));
            IsWriter(t, h) && t.Shows(t.handles[h].window) == s.Shows(s.handles[h].window) + bytes
  {
    var w := s.handles[h].window;
    AppendedBlock(s, h, bytes);
    PutSeen(s.Block(w.place), w.off, w.End(), bytes);
  }

  lemma PutSeen(block: Bytes, off: nat, end: nat, bytes: Bytes)
    requires off <= end && end + |bytes| <= |block|
    ensures Pool.Put(block, end, bytes)[off..end + |bytes|] == block[off..end] + bytes
    ensures Pool.Put(block, end, bytes)[off..end] == block[off..end]
  {
  }

  lemma ScribbleIsNot(s: System, h: nat, bytes: Bytes)
    requires Enabled(s, Scribble(h, bytes))
    ensures var t, w := Step(s, Scribble(h, bytes)), s.handles[h].window; t.Fits(w) && t.Shows(w) == s.Shows(w)
  {
    var w := s.handles[h].window;
    PutSeen(s.Block(w.place), w.off, w.End(), bytes);
  }

  lemma PoolCopyIsSeen(s: System, h: nat)
    requires Enabled(s, ToPool(h))
    ensures var t := Step(s, ToPool(h));
            IsWriter(t, h) && t.Shows(t.handles[h].window) == s.Shows(s.handles[h].window)
  {
    var filled, block := s.Shows(s.handles[h].window), s.memory[s.counters.free[0]];
    PutSeen(block, 0, 0, filled);
    assert block[0..0] + filled == filled;
  }

  // ---- Runs ----

  ghost predicate RunsTo(s: System, actions: seq<Action>, t: System)
    decreases |actions|
  {
    if actions == [] then s == t
    else Enabled(s, actions[0]) && RunsTo(Step(s, actions[0]), actions[1..], t)
  }

  /** No action of the run hands this storage out. */
  ghost predicate NeverHandsOut(s: System, actions: seq<Action>, place: Place)
    decreases |actions|
  {
    actions == [] ||
    (Enabled(s, actions[0]) && !HandsOut(s, actions[0], place) && NeverHandsOut(Step(s, actions[0]), actions[1..], place))
  }

  /** Over every run of any number of buffers and views: what a covered window shows does
      not change until its block was on the free list and is handed out again. */
  lemma {:induction false} StableUntilHandedOut(s: System, actions: seq<Action>, t: System, w: Window)
    requires Shaped(s) && s.Fits(w) && Covered(s, w) && RunsTo(s, actions, t) && NeverHandsOut(s, actions, w.place)
    ensures Shaped(t) && t.Fits(w) && t.Shows(w) == s.Shows(w) && Covered(t, w)
    decreases |actions|
  {
    if actions != [] {
      StepKeepsCovered(s, actions[0], w);
      StepKeepsShape(s, actions[0]);
      StableUntilHandedOut(Step(s, actions[0]), actions[1..], t, w);
    }
  }

  // ---- Box storage ----

  /** A box has one buffer at most. */
  ghost predicate BoxesSole(s: System) {
    forall a, b :: (a in s.handles && b in s.handles && s.handles[a].Writer? && s.handles[b].Writer?
                    && s.handles[a].window.place == s.handles[b].window.place && s.handles[a].window.place.InBox?) ==> a == b
  }

  lemma StepKeepsBoxesSole(s: System, a: Action)
    requires Shaped(s) && Enabled(s, a) && BoxesSole(s)
    ensures BoxesSole(Step(s, a))
  {
  }

  /** Every view of a box is covered. */
  ghost predicate BoxViewsCovered(s: System) {
    forall v :: v in s.handles && s.handles[v].Reader? && s.handles[v].window.place.InBox? ==> Covered(s, s.handles[v].window)
  }

  lemma SubwindowCovered(s: System, w: Window, part: Window)
    requires Covered(s, w) && part.place == w.place && part.End() <= w.End()
    ensures Covered(s, part)
  {
  }

  /** Each view after an action is part of one before it, or is what a buffer has filled. */
  lemma ViewsComeFrom(s: System, a: Action, v: nat) returns (w: Window)
    requires Shaped(s) && Enabled(s, a) && BoxesSole(s) && BoxViewsCovered(s)
    requires v in Step(s, a).handles && Step(s, a).handles[v].Reader? && Step(s, a).handles[v].window.place.InBox?
    ensures s.Fits(w) && Covered(s, w) && w.place == Step(s, a).handles[v].window.place
    ensures Step(s, a).handles[v].window.End() <= w.End()
  {
    if a.HandOut? && v == a.new1 {
      w := s.handles[a.h].window;
    } else if (a.Clone? || a.Split?) && v == a.new1 {
      w := s.handles[a.h].window;
    } else {
      w := s.handles[v].window;
    }
  }

  lemma StepKeepsBoxViews(s: System, a: Action)
    requires Shaped(s) && Enabled(s, a) && BoxesSole(s) && BoxViewsCovered(s)
    ensures BoxViewsCovered(Step(s, a))
  {
    var t := Step(s, a);
    forall v | v in t.handles && t.handles[v].Reader? && t.handles[v].window.place.InBox?
      ensures Covered(t, t.handles[v].window)
    {
      var w := ViewsComeFrom(s, a, v);
      StepKeepsCovered(s, a, w);
      SubwindowCovered(t, w, t.handles[v].window);
    }
  }

  /** Everything that is kept whatever happens. */
  ghost predicate Kept(s: System) {
    Shaped(s) && BoxesSole(s) && BoxViewsCovered(s) && Counted(s)
  }

  /** Views of box storage never change, over every run. */
  lemma {:induction false} BoxViewsNeverChange(s: System, actions: seq<Action>, t: System, v: nat)
    requires Kept(s) && RunsTo(s, actions, t) && IsReader(s, v) && s.handles[v].window.place.InBox?
    ensures Kept(t) && t.Fits(s.handles[v].window) && t.Shows(s.handles[v].window) == s.Shows(s.handles[v].window)
    decreases |actions|
  {
    RunIsKept(s, actions, t);
    NeverHandsOutBox(s, actions, t, s.handles[v].window.place);
    StableUntilHandedOut(s, actions, t, s.handles[v].window);
  }

  lemma {:induction false} NeverHandsOutBox(s: System, actions: seq<Action>, t: System, place: Place)
    requires RunsTo(s, actions, t) && place.InBox?
    ensures NeverHandsOut(s, actions, place)
    decreases |actions|
  {
    if actions != [] {
      NeverHandsOutBox(Step(s, actions[0]), actions[1..], t, place);
    }
  }

  lemma {:induction false} RunIsKept(s: System, actions: seq<Action>, t: System)
    requires Kept(s) && RunsTo(s, actions, t)
    ensures Kept(t)
    decreases |actions|
  {
    if actions != [] {
      StepKeepsShape(s, actions[0]);
      StepKeepsBoxesSole(s, actions[0]);
      StepKeepsBoxViews(s, actions[0]);
      CountLaw(s, actions[0]);
      RunIsKept(Step(s, actions[0]), actions[1..], t);
    }
  }

  // ---- When a block is free ----

  ghost function HandlesOn(handles: map<nat, Handle>, b: nat): set<nat> {
    set h | h in handles && handles[h].window.place == InPool(b)
  }

  /** Each count is the number of live handles on the block, less the views that were made
      without counting them. */
  ghost predicate Counted(s: System) {
    forall b :: 0 <= b < |s.counters.counts| && b < |s.freezes| ==>
      s.counters.counts[b] == |HandlesOn(s.handles, b)| - s.freezes[b]
  }

  lemma SetHandle(handles: map<nat, Handle>, h: nat, handle: Handle, b: nat)
    ensures |HandlesOn(handles[h := handle], b)| ==
            |HandlesOn(handles, b)| + (if handle.window.place == InPool(b) then 1 else 0)
            - (if h in handles && handles[h].window.place == InPool(b) then 1 else 0)
  {
    var after, here := HandlesOn(handles[h := handle], b), handle.window.place == InPool(b);
    var rest := HandlesOn(handles, b) - {h};
    assert after == if here then rest + {h} else rest;
    assert h in HandlesOn(handles, b) <==> h in handles && handles[h].window.place == InPool(b);
  }

  lemma DropHandle(handles: map<nat, Handle>, h: nat, b: nat)
    requires h in handles
    ensures |HandlesOn(handles - {h}, b)| == |HandlesOn(handles, b)| - (if handles[h].window.place == InPool(b) then 1 else 0)
  {
    assert HandlesOn(handles - {h}, b) == HandlesOn(handles, b) - {h};
    assert h in HandlesOn(handles, b) <==> handles[h].window.place == InPool(b);
  }

  lemma CountLawAt(s: System, a: Action, b: nat)
    requires Shaped(s) && Counted(s) && Enabled(s, a) && b < |s.freezes|
    ensures var t := Step(s, a);
            b < |t.counters.counts| && b < |t.freezes| && t.counters.counts[b] == |HandlesOn(t.handles, b)| - t.freezes[b]
  {
    var t := Step(s, a);
    match a
    case Alloc(new1) => SetHandle(s.handles, new1, t.handles[new1], b);
    case Append(h, _) => SetHandle(s.handles, h, t.handles[h], b);
    case Scribble(_, _) => assert t.handles == s.handles;
    case HandOut(h, _, new1) => SetHandle(s.handles, new1, t.handles[new1], b);
    case Skip(h, _) => SetHandle(s.handles, h, t.handles[h], b);
    case ToBox(h, _, _) => SetHandle(s.handles, h, t.handles[h], b);
    case ToPool(h) => SetHandle(s.handles, h, t.handles[h], b);
    case Clone(_, new1) => SetHandle(s.handles, new1, t.handles[new1], b);
    case Narrow(h, _, _) => SetHandle(s.handles, h, t.handles[h], b);
    case Split(h, at, new1) =>
      var left := Reader(s.handles[h].window.(len := at));
      SetHandle(s.handles, h, left, b);
      SetHandle(s.handles[h := left], new1, t.handles[new1], b);
    case Drop(h) => DropHandle(s.handles, h, b);
  }

  lemma CountLaw(s: System, a: Action)
    requires Shaped(s) && Counted(s) && Enabled(s, a)
    ensures Counted(Step(s, a))
  {
    StepKeepsStorage(s, a);
    forall b | 0 <= b < |Step(s, a).freezes|
      ensures Step(s, a).counters.counts[b] == |HandlesOn(Step(s, a).handles, b)| - Step(s, a).freezes[b]
    {
      CountLawAt(s, a, b);
    }
  }

  /** A block goes on the free list when a handle on it is dropped exactly if the counted
      handles are used up: the live ones outnumber the uncounted views by one. */
  lemma FreedExactlyWhen(s: System, h: nat, b: nat)
    requires Kept(s) && Enabled(s, Drop(h)) && s.handles[h].window.place == InPool(b)
    ensures var t := Step(s, Drop(h));
            t.counters.free == s.counters.free + if |HandlesOn(s.handles, b)| == s.freezes[b] + 1 then [b] else []
  {
  }

  /** So it is when the buffer moves to a box, although its views still read the block. */
  lemma FreedByGrowing(s: System, h: nat, size: nat, box: nat, b: nat)
    requires Kept(s) && Enabled(s, ToBox(h, size, box)) && s.handles[h].window.place == InPool(b)
    ensures var t := Step(s, ToBox(h, size, box));
            t.counters.free == s.counters.free + if |HandlesOn(s.handles, b)| == s.freezes[b] + 1 then [b] else []
  {
  }

  lemma FrontOf(block: Bytes, off: nat, len: nat, n: nat)
    requires n <= len && off + len <= |block|
    ensures block[off..off + n] == block[off..off + len][..n]
  {
  }

  /** A new view is covered exactly when every other buffer on the block writes past it; so
      it is, if its maker is alone on the block. */
  lemma NewViewCovered(s: System, h: nat, n: nat, v: nat)
    requires Kept(s) && Enabled(s, HandOut(h, n, v))
    ensures var t, w := Step(s, HandOut(h, n, v)), s.handles[h].window.(len := n);
            && t.handles[v] == Reader(w) && t.Fits(w) && t.Shows(w) == s.Shows(s.handles[h].window)[..n]
            && (Covered(t, w) <==> Covered(s, w))
            && ((forall other :: IsWriter(s, other) && s.handles[other].window.place == w.place ==> other == h) ==> Covered(t, w))
  {
    var t, w := Step(s, HandOut(h, n, v)), s.handles[h].window.(len := n);
    assert t.Block(w.place) == s.Block(w.place);
    FrontOf(s.Block(w.place), w.off, s.handles[h].window.len, n);
    forall other
      ensures other in t.handles && t.handles[other].Writer? <==> other in s.handles && s.handles[other].Writer?
    {
    }
  }

  // ---- Two runs in which bytes change ----

  function NewSystem(numBufs: nat): System {
    System(Pool.FreshCounters(numBufs), seq(numBufs, i => Zeros(Pool.BUF_SIZE)), map[], map[], seq(numBufs, i => 0))
  }

  lemma NewSystemIsKept(numBufs: nat)
    ensures Kept(NewSystem(numBufs))
  {
    var s := NewSystem(numBufs);
    assert forall b :: HandlesOn(s.handles, b) == {};
  }

  lemma RunsToMore(s: System, a: Action, actions: seq<Action>, t: System)
    requires Enabled(s, a) && RunsTo(Step(s, a), actions, t)
    ensures RunsTo(s, [a] + actions, t)
  {
    assert ([a] + actions)[1..] == actions;
  }

  /** One block, one buffer on it with one byte, and a view of that byte. */
  ghost predicate OneView(s: System, first: Byte) {
    && Shaped(s) && |s.memory| == 1 && s.counters == Pool.Counters([], [1]) && s.freezes == [1] && s.boxes == map[]
    && s.handles == map[0 := Writer(Window(InPool(0), 0, 1)), 1 := Reader(Window(InPool(0), 0, 1))]
    && s.memory[0][0] == first
  }

  lemma FirstAlloc(s: System)
    requires s == NewSystem(1)
    ensures Enabled(s, Alloc(0))
    ensures Step(s, Alloc(0)) == System(Pool.Counters([], [1]), s.memory, map[], map[0 := Writer(Window(InPool(0), 0, 0))], [0])
  {
    assert s.counters == Pool.Counters([0], [0]);
  }

  /** What an append to a pool block does to a system. */
  lemma AppendInPool(s: System, h: nat, bytes: Bytes)
    requires Enabled(s, Append(h, bytes)) && s.handles[h].window.place.InPool?
    ensures var w, t := s.handles[h].window, Step(s, Append(h, bytes));
            && t.counters == s.counters && t.boxes == s.boxes && t.freezes == s.freezes
            && t.handles == s.handles[h := Writer(w.(len := w.len + |bytes|))]
            && t.memory == s.memory[w.place.index := Pool.Put(s.memory[w.place.index], w.End(), bytes)]
  {
  }

  lemma PutShows(memory: seq<Bytes>, i: nat, bytes: Bytes)
    requires i < |memory| && 0 < |bytes| <= |memory[i]|
    ensures var after := memory[i := Pool.Put(memory[i], 0, bytes)];
            |after| == |memory| && after[i] != [] && after[i][0] == bytes[0]
  {
  }

  /** A buffer at the start of a pool block. */
  predicate AtStart(s: System, h: nat) {
    IsWriter(s, h) && s.handles[h].window.place.InPool? && s.handles[h].window.End() == 0
    && s.memory[s.handles[h].window.place.index] != []
  }

  lemma FirstByteEnabled(s: System, h: nat, bytes: Bytes)
    requires AtStart(s, h) && |bytes| == 1
    ensures Enabled(s, Append(h, bytes))
  {
    var w := s.handles[h].window;
    assert |s.Block(w.place)| >= |bytes|;
  }

  lemma FirstView(s: System)
    requires Shaped(s) && |s.memory| == 1 && s.counters == Pool.Counters([], [1]) && s.boxes == map[] && s.freezes == [0]
    requires s.handles == map[0 := Writer(Window(InPool(0), 0, 1))]
    ensures Enabled(s, HandOut(0, 1, 1)) && OneView(Step(s, HandOut(0, 1, 1)), s.memory[0][0])
  {
    StepKeepsShape(s, HandOut(0, 1, 1));
  }

  lemma RunToOneView() returns (actions: seq<Action>, s: System)
    ensures RunsTo(NewSystem(1), actions, s) && OneView(s, 97)
  {
    var s0 := NewSystem(1);
    NewSystemIsKept(1);
    FirstAlloc(s0);
    var s1 := Step(s0, Alloc(0));
    StepKeepsShape(s0, Alloc(0));
    FirstByteEnabled(s1, 0, [97]);
    var s2 := Step(s1, Append(0, [97]));
    AppendInPool(s1, 0, [97]);
    PutShows(s1.memory, 0, [97]);
    StepKeepsShape(s1, Append(0, [97]));
    FirstView(s2);
    actions, s := RunOfThree(s0, Alloc(0), Append(0, [97]), HandOut(0, 1, 1));
  }

  lemma RunOfThree(s: System, a: Action, b: Action, c: Action) returns (actions: seq<Action>, t: System)
    requires Enabled(s, a) && Enabled(Step(s, a), b) && Enabled(Step(Step(s, a), b), c)
    ensures t == Step(Step(Step(s, a), b), c) && RunsTo(s, actions, t)
  {
    t := Step(Step(Step(s, a), b), c);
    assert RunsTo(t, [], t);
    RunsToMore(Step(Step(s, a), b), c, [], t);
    RunsToMore(Step(s, a), b, [c] + [], t);
    RunsToMore(s, a, [b] + ([c] + []), t);
    actions := [a] + ([b] + ([c] + []));
  }

  /** The only block is free although handle 0 or 1 is still on it: the next buffer gets it. */
  lemma FreeBlockIsShared(s: System, old1: nat)
    requires Shaped(s) && |s.memory| == 1 && s.counters == Pool.Counters([0], [0]) && 2 !in s.handles
    requires old1 in s.handles && s.handles[old1].window == Window(InPool(0), 0, 1)
    ensures Enabled(s, Alloc(2)) && Enabled(Step(s, Alloc(2)), Append(2, [99]))
    ensures var t := Step(Step(s, Alloc(2)), Append(2, [99]));
            old1 in t.handles && t.handles[old1] == s.handles[old1] && t.Fits(s.handles[old1].window)
            && t.Shows(s.handles[old1].window) == [99]
  {
    StepKeepsShape(s, Alloc(2));
    StepKeepsShape(Step(s, Alloc(2)), Append(2, [99]));
  }

  /** The buffer moves to a box, its block is handed to another buffer, and the view shows
      what that one writes. */
  lemma RecycledViewChanges() returns (before: seq<Action>, s: System, actions: seq<Action>, t: System, v: nat)
    ensures RunsTo(NewSystem(1), before, s) && RunsTo(s, actions, t) && IsReader(s, v) && v in t.handles
    ensures t.handles[v] == s.handles[v] && t.Fits(s.handles[v].window)
    ensures s.Shows(s.handles[v].window) == [97] && t.Shows(s.handles[v].window) == [99]
  {
    before, s := RunToOneView();
    v := 1;
    var first := ToBox(0, 2 * Pool.BUF_SIZE, 0);
    assert Step(s, first).counters == Pool.Counters([0], [0]);
    StepKeepsShape(s, first);
    FreeBlockIsShared(Step(s, first), 1);
    actions, t := RunOfThree(s, first, Alloc(2), Append(2, [99]));
  }

  /** Dropping a view is enough to give the block of a live buffer to another one, whose
      writes then change the filled part of the first. */
  lemma DroppedViewSharesBlock() returns (before: seq<Action>, s: System, actions: seq<Action>, t: System)
    ensures RunsTo(NewSystem(1), before, s) && RunsTo(s, actions, t) && IsWriter(s, 0) && 0 in t.handles
    ensures t.handles[0] == s.handles[0] && t.Fits(s.handles[0].window)
    ensures s.Shows(s.handles[0].window) == [97] && t.Shows(s.handles[0].window) == [99]
  {
    before, s := RunToOneView();
    var first := Drop(1);
    assert Step(s, first).counters == Pool.Counters([0], [0]);
    StepKeepsShape(s, first);
    FreeBlockIsShared(Step(s, first), 0);
    actions, t := RunOfThree(s, first, Alloc(2), Append(2, [99]));
  }
}

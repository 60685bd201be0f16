/** The evicting dynamic table of HPACK and the merged index address space. */
module HpackTable {
  import opened Common

  datatype Header = Header(name: Bytes, value: Bytes)

  /** Section 4.1 of RFC 7541. */
  function EntrySize(h: Header): nat {
    |h.name| + |h.value| + 32
  }

  function TableSize(entries: seq<Header>): nat {
    if entries == [] then 0 else EntrySize(entries[0]) + TableSize(entries[1..])
  }

  lemma {:induction false} SizeSnoc(entries: seq<Header>, h: Header)
    ensures TableSize(entries + [h]) == TableSize(entries) + EntrySize(h)
  {
    if entries == [] {
      assert [h][1..] == [];
      assert entries + [h] == [h];
    } else {
      assert (entries + [h])[1..] == entries[1..] + [h];
      SizeSnoc(entries[1..], h);
    }
  }

  lemma SizeDropLast(entries: seq<Header>)
    requires entries != []
    ensures TableSize(entries) == TableSize(entries[..|entries| - 1]) + EntrySize(entries[|entries| - 1])
  {
    assert entries == entries[..|entries| - 1] + [entries[|entries| - 1]];
    SizeSnoc(entries[..|entries| - 1], entries[|entries| - 1]);
  }

  /** Evict the oldest entries until the rest fits. The newest entry is first. */
  function Fit(entries: seq<Header>, maxSize: nat): seq<Header> {
    if TableSize(entries) <= maxSize then entries
    else
      assert entries != [];
      Fit(entries[..|entries| - 1], maxSize)
  }

  lemma {:induction false} PrefixSizeMonotone(entries: seq<Header>, j: nat, k: nat)
    requires j <= k <= |entries|
    ensures TableSize(entries[..j]) <= TableSize(entries[..k])
    decreases k - j
  {
    if j < k {
      assert entries[..k][..k - 1] == entries[..k - 1];
      SizeDropLast(entries[..k]);
      PrefixSizeMonotone(entries, j, k - 1);
    }
  }

  /** What survives is a newest-first prefix, and it is the longest that fits. */
  lemma {:induction false} FitIsLongestPrefix(entries: seq<Header>, maxSize: nat)
    ensures Fit(entries, maxSize) <= entries
    ensures forall k :: 0 <= k <= |entries| ==>
      (TableSize(entries[..k]) <= maxSize <==> k <= |Fit(entries, maxSize)|)
  {
    if TableSize(entries) <= maxSize {
      assert entries[..|entries|] == entries;
      forall k | 0 <= k <= |entries|
        ensures TableSize(entries[..k]) <= maxSize
      {
        PrefixSizeMonotone(entries, k, |entries|);
      }
    } else {
      var shorter := entries[..|entries| - 1];
      FitIsLongestPrefix(shorter, maxSize);
      assert entries[..|entries|] == entries;
      forall k | 0 <= k < |entries|
        ensures entries[..k] == shorter[..k]
      {
      }
    }
  }

  lemma FitFits(entries: seq<Header>, maxSize: nat)
    ensures TableSize(Fit(entries, maxSize)) <= maxSize
  {
    FitIsLongestPrefix(entries, maxSize);
    var kept := Fit(entries, maxSize);
    assert entries[..|kept|] == kept;
  }

  /** A shorter table under a smaller limit keeps a prefix of what the longer
      table keeps under the larger limit. */
  lemma FitOfPrefix(shorter: seq<Header>, longer: seq<Header>, smaller: nat, larger: nat)
    requires shorter <= longer && smaller <= larger
    ensures Fit(shorter, smaller) <= Fit(longer, larger)
  {
    FitIsLongestPrefix(shorter, smaller);
    FitIsLongestPrefix(longer, larger);
    var k := |Fit(shorter, smaller)|;
    assert shorter[..k] == longer[..k];
    assert TableSize(shorter[..k]) <= smaller;
  }

  /** Section 4.4 of RFC 7541: first evict until the table plus the new entry
      fits or the table is empty, then insert the entry if it fits. */
  function EvictThenInsert(entries: seq<Header>, h: Header, maxSize: nat): seq<Header> {
    if EntrySize(h) <= maxSize then [h] + Fit(entries, maxSize - EntrySize(h)) else []
  }

  /** Pushing the new entry and then evicting gives the table that section 4.4
      of RFC 7541 describes the other way round. */
  lemma {:induction false} PushThenEvict(entries: seq<Header>, h: Header, maxSize: nat)
    ensures Fit([h] + entries, maxSize) == EvictThenInsert(entries, h, maxSize)
  {
    var pushed := [h] + entries;
    assert pushed[1..] == entries;
    if TableSize(pushed) > maxSize {
      if entries == [] {
        assert pushed[..|pushed| - 1] == [];
      } else {
        assert pushed[..|pushed| - 1] == [h] + entries[..|entries| - 1];
        PushThenEvict(entries[..|entries| - 1], h, maxSize);
        SizeDropLast(entries);
      }
    }
  }

  /** Each entry takes 32 octets at least, so few fit. */
  lemma {:induction false} EntryCount(entries: seq<Header>)
    ensures 32 * |entries| <= TableSize(entries)
  {
    if entries != [] {
      EntryCount(entries[1..]);
    }
  }

  class DynamicTable {
    var table: seq<Header>
    var size: nat
    var maxSize: nat

    ghost predicate Valid()
      reads this
    {
      size == TableSize(table) && size <= maxSize
    }

    constructor WithSize(maxSize: nat)
      ensures Valid() && table == [] && this.maxSize == maxSize
    {
      table, size, this.maxSize := [], 0, maxSize;
    }

    method SetMaxTableSize(newMaxSize: nat)
      requires Valid()
      modifies this
      ensures Valid()
      ensures maxSize == newMaxSize && table == Fit(old(table), newMaxSize)
    {
      maxSize := newMaxSize;
      ConsolidateTable();
    }

    method AddHeader(h: Header)
      requires Valid()
      modifies this
      ensures Valid()
      ensures maxSize == old(maxSize) && table == EvictThenInsert(old(table), h, maxSize)
    {
      size := size + |h.name| + |h.value| + 32;
      table := [h] + table;
      assert table[1..] == old(table);
      ConsolidateTable();
      PushThenEvict(old(table), h, maxSize);
    }

    /** The eviction loop. Its panic branch, "no headers left", is dead. */
    method ConsolidateTable()
      requires size == TableSize(table)
      modifies this`table, this`size
      ensures Valid() && table == Fit(old(table), maxSize)
    {
      while size > maxSize
        invariant size == TableSize(table)
        invariant Fit(table, maxSize) == Fit(old(table), maxSize)
        decreases |table|
      {
        SizeDropLast(table);
        var last := table[|table| - 1];
        size := size - (|last.name| + |last.value| + 32);
        table := table[..|table| - 1];
      }
    }
  }

  /** `HeaderTable`: the static table followed by the dynamic one. */
  datatype HeaderTable = HeaderTable(statics: seq<Header>, dynamic: seq<Header>, maxSize: nat) {
    function All(): seq<Header> {
      statics + dynamic
    }

    /** `get_from_table`: indices count from one across both tables. */
    function Get(index: nat): Option<Header> {
      if index == 0 then None
      else if index - 1 < |statics| then Some(statics[index - 1])
      else if index - 1 - |statics| < |dynamic| then Some(dynamic[index - 1 - |statics|])
      else None
    }

    lemma GetIsIndexing(index: nat)
      ensures Get(index) == if 1 <= index <= |All()| then Some(All()[index - 1]) else None
    {
    }

    function Add(h: Header): HeaderTable {
      this.(dynamic := EvictThenInsert(dynamic, h, maxSize))
    }

    function Resize(newMaxSize: nat): HeaderTable {
      this.(dynamic := Fit(dynamic, newMaxSize), maxSize := newMaxSize)
    }

    ghost predicate Valid() {
      TableSize(dynamic) <= maxSize
    }

    lemma StaysValid(h: Header, newMaxSize: nat)
      ensures Add(h).Valid() && Resize(newMaxSize).Valid()
    {
      PushThenEvict(dynamic, h, maxSize);
      FitFits([h] + dynamic, maxSize);
      FitFits(dynamic, newMaxSize);
    }
  }

  /** `find_header`: the first entry equal to `h`; failing that the last entry
      with its name; the flag says which. */
  ghost predicate Finds(entries: seq<Header>, h: Header, found: Option<(nat, bool)>) {
    match found
    case None => forall i :: 0 <= i < |entries| ==> entries[i].name != h.name
    case Some((index, exact)) =>
      1 <= index <= |entries| &&
      if exact then
        entries[index - 1] == h && forall i :: 0 <= i < index - 1 ==> entries[i] != h
      else
        entries[index - 1].name == h.name && h !in entries &&
        forall i :: index <= i < |entries| ==> entries[i].name != h.name
  }

  function FindFrom(entries: seq<Header>, h: Header, i: nat, matchingName: Option<nat>): Option<(nat, bool)>
    requires i <= |entries|
    decreases |entries| - i
  {
    if i == |entries| then (if matchingName.None? then None else Some((matchingName.value, false)))
    else if entries[i] == h then Some((i + 1, true))
    else FindFrom(entries, h, i + 1, if entries[i].name == h.name then Some(i + 1) else matchingName)
  }

  /** The scan meets its specification from any point of it. */
  lemma {:induction false} FindFromFinds(entries: seq<Header>, h: Header, i: nat, matchingName: Option<nat>)
    requires i <= |entries| && h !in entries[..i]
    requires matchingName.None? ==> forall j :: 0 <= j < i ==> entries[j].name != h.name
    requires matchingName.Some? ==> 1 <= matchingName.value <= i && entries[matchingName.value - 1].name == h.name
                                    && forall j :: matchingName.value <= j < i ==> entries[j].name != h.name
    ensures Finds(entries, h, FindFrom(entries, h, i, matchingName))
    decreases |entries| - i
  {
    if i == |entries| {
      assert entries[..i] == entries;
    } else if entries[i] == h {
      forall j | 0 <= j < i
        ensures entries[j] != h
      {
        assert entries[..i][j] == entries[j];
      }
    } else {
      assert entries[..i + 1] == entries[..i] + [entries[i]];
      FindFromFinds(entries, h, i + 1, if entries[i].name == h.name then Some(i + 1) else matchingName);
    }
  }

  function Find(entries: seq<Header>, h: Header): (found: Option<(nat, bool)>)
    ensures Finds(entries, h, found)
  {
    FindFromFinds(entries, h, 0, None);
    FindFrom(entries, h, 0, None)
  }

  method FindHeader(entries: seq<Header>, h: Header) returns (found: Option<(nat, bool)>)
    ensures found == Find(entries, h)
  {
    var matchingName: Option<nat> := None;
    for i := 0 to |entries|
      invariant Find(entries, h) == FindFrom(entries, h, i, matchingName)
    {
      if entries[i].name == h.name {
        if entries[i].value == h.value {
          return Some((i + 1, true));
        }
        matchingName := Some(i + 1);
      }
    }
    found := if matchingName.None? then None else Some((matchingName.value, false));
  }
}

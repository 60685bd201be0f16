/** Pieces, piece lists, and the retry loops that write all of them. */
module VectoredIo {
  import opened Common

  /** `Piece`: shared bytes, or a window on them. */
  datatype Piece = Full(core: Bytes) | Slice(core: Bytes, start: nat, len: nat) {
    predicate Valid() {
      Slice? ==> start + len <= |core|
    }

    /** `as_ref`. */
    function AsRef(): Bytes
      requires Valid()
    {
      if Full? then core else core[start..][..len]
    }

    /** `split_at`: both halves share the bytes, and together they are the piece. */
    function SplitAt(middle: nat): (r: (Piece, Piece))
      requires Valid() && middle <= |AsRef()|
      ensures r.0.Valid() && r.1.Valid()
      ensures r.0.AsRef() == AsRef()[..middle] && r.1.AsRef() == AsRef()[middle..]
      ensures r.0.core == core == r.1.core
    {
      if Full? then (Slice(core, 0, middle), Slice(core, middle, |core| - middle))
      else
        assert core[start..][..middle] == core[start..][..len][..middle];
        assert core[start + middle..][..len - middle] == core[start..][..len][middle..];
        (Slice(core, start, middle), Slice(core, start + middle, len - middle))
    }
  }

  type PieceList = seq<Piece>

  predicate AllValid(list: PieceList) {
    forall i :: 0 <= i < |list| ==> list[i].Valid()
  }

  /** The bytes of a list, and their number. */
  function Contents(list: PieceList): Bytes
    requires AllValid(list)
  {
    if list == [] then [] else list[0].AsRef() + Contents(list[1..])
  }

  function Length(list: PieceList): (n: nat)
    requires AllValid(list)
    ensures n == |Contents(list)|
  {
    if list == [] then 0 else |list[0].AsRef()| + Length(list[1..])
  }

  lemma {:induction false} ContentsSplit(list: PieceList, k: nat)
    requires AllValid(list) && k <= |list|
    ensures Contents(list) == Contents(list[..k]) + Contents(list[k..])
  {
    if k == 0 {
      assert list[0..] == list && list[..0] == [];
    } else {
      ContentsSplit(list[1..], k - 1);
      assert list[..k][1..] == list[1..][..k - 1] && list[1..][k - 1..] == list[k..];
      Reassociate(list[0].AsRef(), Contents(list[1..][..k - 1]), Contents(list[k..]));
    }
  }

  lemma ContentsSnoc(list: PieceList, k: nat)
    requires AllValid(list) && k < |list|
    ensures Contents(list[..k + 1]) == Contents(list[..k]) + list[k].AsRef()
  {
    ContentsSplit(list[..k + 1], k);
    assert list[..k + 1][..k] == list[..k] && list[..k + 1][k..] == [list[k]];
    assert [list[k]][1..] == [];
    assert Contents([list[k]]) == list[k].AsRef() + Contents([]);
  }

  datatype WriteError = WriteZero | SinkError

  /** The write half of a connection: a write takes a prefix of its bytes,
      possibly none, or fails without taking any. */
  class Sink {
    var written: Bytes

    constructor ()
      ensures written == []
    {
      written := [];
    }

    method WriteOwned(piece: Piece) returns (r: Result<nat, WriteError>)
      requires piece.Valid()
      modifies this
      ensures r.Ok? ==> r.value <= |piece.AsRef()| && written == old(written) + piece.AsRef()[..r.value]
      ensures r.Err? ==> written == old(written)
    {
      var fails: bool := *;
      if fails {
        return Err(SinkError);
      }
      var n: nat :| n <= |piece.AsRef()|;
      written := written + piece.AsRef()[..n];
      r := Ok(n);
    }

    /** What was written since `before` is `bytes`, or a prefix after a failure. */
    ghost predicate Wrote(before: Bytes, bytes: Bytes, all: bool)
      reads this
    {
      if all then written == before + bytes
      else exists k :: 0 <= k <= |bytes| && written == before + bytes[..k]
    }

    /** `write_all_owned`. */
    method WriteAllOwned(buf: Piece) returns (r: Result<(), WriteError>)
      requires buf.Valid()
      modifies this
      ensures Wrote(old(written), buf.AsRef(), r.Ok?)
    {
      ghost var all := buf.AsRef();
      var rest := buf;
      var done := 0;
      var len := |buf.AsRef()|;
      while done < len
        invariant rest.Valid() && done <= len == |all| && rest.AsRef() == all[done..]
        invariant written == old(written) + all[..done]
        decreases len - done
      {
        var n := WriteOwned(rest);
        if n.Err? {
          assert Wrote(old(written), all, false);
          return Err(n.error);
        }
        assert all[..done] + all[done..][..n.value] == all[..done + n.value];
        Reassociate(old(written), all[..done], all[done..][..n.value]);
        if n.value == 0 {
          assert Wrote(old(written), all, false);
          return Err(WriteZero);
        }
        rest := rest.SplitAt(n.value).1;
        done := done + n.value;
      }
      assert all[..done] == all;
      r := Ok(());
    }

    /** `writev_owned`: one write for each piece, until one is partial. The total is
        what the sink grew by, even when it is not the whole list. */
    method WritevOwned(list: PieceList) returns (r: Result<nat, WriteError>)
      requires AllValid(list)
      modifies this
      ensures r.Ok? ==> r.value <= |Contents(list)| && written == old(written) + Contents(list)[..r.value]
      ensures r.Err? ==> Wrote(old(written), Contents(list), false)
    {
      ghost var all := Contents(list);
      var total: nat := 0;
      assert all[..0] == [];
      for i := 0 to |list|
        invariant total == |Contents(list[..i])| <= |all| && Contents(list[..i]) == all[..total]
        invariant written == old(written) + all[..total]
      {
        var len := |list[i].AsRef()|;
        ContentsSplit(list, i + 1);
        ContentsSnoc(list, i);
        var n := WriteOwned(list[i]);
        if n.Err? {
          assert Wrote(old(written), all, false);
          return Err(n.error);
        }
        Extends(all, total, list[i].AsRef(), n.value);
        Reassociate(old(written), all[..total], list[i].AsRef()[..n.value]);
        if n.value == 0 {
          assert Wrote(old(written), all, false);
          return Err(WriteZero);
        }
        total := total + n.value;
        if n.value < len {
          return Ok(total);
        }
      }
      r := Ok(total);
    }

    /** `writev_all_owned`. On success the sink grew by exactly the bytes of the list,
        whatever the partial writes; on failure by a prefix of them. */
    method WritevAllOwned(pieces: PieceList) returns (r: Result<(), WriteError>)
      requires AllValid(pieces)
      modifies this
      ensures Wrote(old(written), Contents(pieces), r.Ok?)
    {
      ghost var all := Contents(pieces);
      ghost var done: nat := 0;
      var list := pieces;
      while Length(list) != 0
        invariant AllValid(list) && done <= |all| && Contents(list) == all[done..]
        invariant written == old(written) + all[..done]
        decreases Length(list)
      {
        var n := WritevOwned(list);
        if n.Err? {
          FailedAfter(old(written), all, done);
          return Err(n.error);
        }
        assert all[..done] + all[done..][..n.value] == all[..done + n.value];
        Reassociate(old(written), all[..done], all[done..][..n.value]);
        if n.value == 0 {
          assert Wrote(old(written), all, false);
          return Err(WriteZero);
        }
        list := Advance(list, n.value);
        done := done + n.value;
      }
      assert all[..done] == all;
      r := Ok(());
    }

    /** A failure within the rest of the list is a failure within the list. */
    lemma FailedAfter(before: Bytes, all: Bytes, done: nat)
      requires done <= |all| && Wrote(before + all[..done], all[done..], false)
      ensures Wrote(before, all, false)
    {
      var k :| 0 <= k <= |all[done..]| && written == before + all[..done] + all[done..][..k];
      assert all[..done] + all[done..][..k] == all[..done + k];
      Reassociate(before, all[..done], all[done..][..k]);
    }
  }

  lemma Extends(all: Bytes, total: nat, piece: Bytes, n: nat)
    requires total + |piece| <= |all| && all[total..total + |piece|] == piece && n <= |piece|
    ensures all[..total] + piece[..n] == all[..total + n]
  {
    assert piece[..n] == all[total..total + n];
  }

  /** The inner loop: pops written pieces and splits the one written in part. */
  method Advance(pieces: PieceList, count: nat) returns (list: PieceList)
    requires AllValid(pieces) && count <= |Contents(pieces)|
    ensures AllValid(list) && Contents(list) == Contents(pieces)[count..]
  {
    ghost var all := Contents(pieces);
    list := pieces;
    var n: nat := count;
    assert all[0..] == all;
    while n > 0
      invariant n <= count && AllValid(list) && Contents(list) == all[count - n..]
      decreases n, |list|
    {
      ghost var before := n;
      list, n := PopWritten(list, n);
      DropTwice(all, count - before, before - n);
    }
  }

  /** One turn of the inner loop. */
  method PopWritten(pieces: PieceList, count: nat) returns (list: PieceList, n: nat)
    requires AllValid(pieces) && 0 < count <= |Contents(pieces)|
    ensures AllValid(list) && n <= count && Contents(list) == Contents(pieces)[count - n..]
    ensures n < count || |list| < |pieces|
  {
    var item, rest := pieces[0], pieces[1..];
    var len := |item.AsRef()|;
    if count < len {
      var (left, right) := item.SplitAt(count);
      n := count - |left.AsRef()|;
      DropFront(item.AsRef(), Contents(rest), count);
      list := [right] + rest;
      ContentsCons(right, rest);
    } else {
      DropFront(item.AsRef(), Contents(rest), len);
      list := rest;
      n := count - len;
    }
  }

  lemma ContentsCons(item: Piece, rest: PieceList)
    requires item.Valid() && AllValid(rest)
    ensures AllValid([item] + rest) && Contents([item] + rest) == item.AsRef() + Contents(rest)
  {
    assert ([item] + rest)[1..] == rest;
  }

  lemma DropFront(a: Bytes, b: Bytes, n: nat)
    requires n <= |a|
    ensures (a + b)[n..] == a[n..] + b
    ensures n == |a| ==> (a + b)[n..] == b
  {
  }

  lemma DropTwice(s: Bytes, i: nat, j: nat)
    requires i + j <= |s|
    ensures s[i..][j..] == s[i + j..]
  {
  }
}

/** The per-partition iterators of core/.../nvm/nvmExternalSorter.scala: several of them, one for each
    partition, take turns on one stream that is sorted by partition. */
module PartitionIterators {
  import opened BlockInput
  import opened Options

  // ---- what the iterators should deliver ----

  function Only<T>(part: T -> nat, s: seq<T>, p: nat): seq<T> {
    if s == [] then [] else (if part(s[0]) == p then [s[0]] else []) + Only(part, s[1..], p)
  }

  /** The elements of partition `p` and later ones. */
  function From<T>(part: T -> nat, s: seq<T>, p: nat): seq<T> {
    if s == [] then [] else (if part(s[0]) >= p then [s[0]] else []) + From(part, s[1..], p)
  }

  predicate InOrder<T>(part: T -> nat, s: seq<T>) {
    forall i, j :: 0 <= i < j < |s| ==> part(s[i]) <= part(s[j])
  }

  predicate Within<T>(part: T -> nat, s: seq<T>, n: nat) { forall i :: 0 <= i < |s| ==> part(s[i]) < n }

  lemma OnlyCons<T>(part: T -> nat, s: seq<T>, p: nat)
    requires s != []
    ensures Only(part, s, p) == if part(s[0]) == p then [s[0]] + Only(part, s[1..], p) else Only(part, s[1..], p)
  {
  }

  lemma OnlyNil<T>(part: T -> nat, p: nat)
    ensures Only(part, [], p) == []
  {
  }

  lemma {:induction false} OnlyAppend<T>(part: T -> nat, s: seq<T>, t: seq<T>, p: nat)
    ensures Only(part, s + t, p) == Only(part, s, p) + Only(part, t, p)
  {
    hide Only;
    if s == [] {
      OnlyNil(part, p);
      assert s == [] && s + t == t;
    } else {
      OnlyCons(part, s, p);
      OnlyCons(part, s + t, p);
      assert (s + t)[1..] == s[1..] + t;
      OnlyAppend(part, s[1..], t, p);
      var x, a, b := s[0], Only(part, s[1..], p), Only(part, t, p);
      assert [x] + a + b == [x] + (a + b);
    }
  }

  lemma {:induction false} SamePart<T>(a: T -> nat, b: T -> nat, s: seq<T>, p: nat)
    requires forall i :: 0 <= i < |s| ==> a(s[i]) == b(s[i])
    ensures Only(a, s, p) == Only(b, s, p) && From(a, s, p) == From(b, s, p)
  {
    if s != [] {
      SamePart(a, b, s[1..], p);
    }
  }

  lemma {:induction false} FromStart<T>(part: T -> nat, s: seq<T>)
    ensures From(part, s, 0) == s
  {
    if s != [] {
      FromStart(part, s[1..]);
    }
  }

  lemma {:induction false} FromEnd<T>(part: T -> nat, s: seq<T>, n: nat)
    requires Within(part, s, n)
    ensures From(part, s, n) == []
  {
    if s != [] {
      FromEnd(part, s[1..], n);
    }
  }

  /** When a stream is in order of partitions, what is left from partition `p` on is that partition
      followed by what is left from the next on. */
  lemma {:induction false} FromSplits<T>(part: T -> nat, s: seq<T>, p: nat)
    requires InOrder(part, s)
    ensures From(part, s, p) == Only(part, s, p) + From(part, s, p + 1)
    decreases |s|
  {
    if s != [] {
      FromSplits(part, s[1..], p);
      if part(s[0]) > p {
        OnlyNone(part, s[1..], p);
      }
    }
  }

  lemma {:induction false} OnlyNone<T>(part: T -> nat, s: seq<T>, p: nat)
    requires forall i :: 0 <= i < |s| ==> part(s[i]) != p
    ensures Only(part, s, p) == []
  {
    if s != [] {
      OnlyNone(part, s[1..], p);
    }
  }

  lemma {:induction false} OnlyHas<T>(part: T -> nat, s: seq<T>, p: nat, i: nat)
    requires i < |Only(part, s, p)|
    ensures part(Only(part, s, p)[i]) == p && Only(part, s, p)[i] in s
  {
    if part(s[0]) != p {
      OnlyHas(part, s[1..], p, i);
    } else if i > 0 {
      OnlyHas(part, s[1..], p, i - 1);
    }
  }

  lemma {:induction false} FromHas<T>(part: T -> nat, s: seq<T>, p: nat, i: nat)
    requires i < |From(part, s, p)|
    ensures part(From(part, s, p)[i]) >= p
  {
    if part(s[0]) < p {
      FromHas(part, s[1..], p, i);
    } else if i > 0 {
      FromHas(part, s[1..], p, i - 1);
    }
  }

  /** An iterator for partition `p` may take `e` next. */
  predicate Offers<T>(part: T -> nat, left: seq<T>, p: nat) { left != [] && part(left[0]) == p }

  /** So far `out` was taken for partition `p`, and `left` is left. */
  ghost predicate Taking<T>(part: T -> nat, all: seq<T>, p: nat, out: seq<T>, left: seq<T>) {
    out + left == From(part, all, p) && |out| <= |Only(part, all, p)|
  }

  /** While something of partition `p` is offered not all of it was taken; and then all of it was. */
  lemma OffersIff<T>(part: T -> nat, all: seq<T>, p: nat, out: seq<T>, left: seq<T>)
    requires InOrder(part, all) && Taking(part, all, p, out, left)
    ensures Offers(part, left, p) <==> |out| < |Only(part, all, p)|
    ensures !Offers(part, left, p) ==> out == Only(part, all, p) && left == From(part, all, p + 1)
  {
    FromSplits(part, all, p);
    var here, later := Only(part, all, p), From(part, all, p + 1);
    var n := |out|;
    assert (out + left)[n..] == left && (out + left)[..n] == out;
    if n < |here| {
      OnlyHas(part, all, p, n);
      assert left[0] == (here + later)[n] == here[n];
    } else {
      assert (here + later)[..n] == here && (here + later)[n..] == later;
      if later != [] {
        FromHas(part, all, p + 1, 0);
      }
    }
  }

  lemma TakeOne<T>(part: T -> nat, all: seq<T>, p: nat, out: seq<T>, left: seq<T>)
    requires InOrder(part, all) && Taking(part, all, p, out, left) && Offers(part, left, p)
    ensures Taking(part, all, p, out + [left[0]], left[1..])
  {
    OffersIff(part, all, p, out, left);
    assert out + [left[0]] + left[1..] == out + left;
  }

  // ---- iterators over a shared buffered stream ----

  /** BufferedIterator with the IteratorForPartition objects on it; they differ only in `p`. */
  class SharedBuffer<T> {
    const part: T -> nat
    var data: seq<T>  // what is left

    constructor (data: seq<T>, part: T -> nat)
      ensures this.data == data && this.part == part
    {
      this.data, this.part := data, part;
    }

    predicate HasNext(p: nat)
      reads this
    {
      Offers(part, data, p)
    }

    /** None is where the source throws NoSuchElementException. */
    method Next(p: nat) returns (elem: Option<T>)
      modifies this
      ensures elem == (if old(HasNext(p)) then Some(old(data)[0]) else None)
      ensures data == if old(HasNext(p)) then old(data)[1..] else old(data)
    {
      if !HasNext(p) {
        return None;
      }
      elem := Some(data[0]);
      data := data[1..];
    }

    method DrainPartition(p: nat, ghost all: seq<T>) returns (out: seq<T>)
      requires InOrder(part, all) && data == From(part, all, p)
      modifies this
      ensures out == Only(part, all, p) && data == From(part, all, p + 1)
    {
      out := [];
      assert Taking(part, all, p, out, data);
      while HasNext(p)
        invariant Taking(part, all, p, out, data)
        decreases |data|
      {
        TakeOne(part, all, p, out, data);
        var elem := Next(p);
        out := out + [elem.value];
      }
      OffersIff(part, all, p, out, data);
    }

    /** groupByPartition, its iterators drained in order: each element once, under its own partition. */
    method GroupByPartition(n: nat) returns (outs: seq<seq<T>>)
      requires InOrder(part, data) && Within(part, data, n)
      modifies this
      ensures |outs| == n && data == [] && forall p :: 0 <= p < n ==> outs[p] == Only(part, old(data), p)
    {
      outs := [];
      ghost var all := data;
      FromStart(part, all);
      for p := 0 to n
        invariant |outs| == p && data == From(part, all, p)
        invariant forall q :: 0 <= q < p ==> outs[q] == Only(part, all, q)
      {
        var out := DrainPartition(p, all);
        outs := outs + [out];
      }
      FromEnd(part, all, n);
    }
  }

  // ---- iterators over one spilled stream ----

  /** SpillReader with the iterators of readPartitionIter on it. */
  class SpillReader<O(!new,==)> {
    const stream: BlockInputStream<O>
    const getPartition: O -> nat
    ghost const records: seq<Record<O>>
    var nextItem: Option<Record<O>>
    ghost var calls: nat      // of readNextItem
    ghost var delivered: nat

    ghost predicate Valid()
      reads this, stream, stream.input, stream.input.buf, stream.input.buf.bufData
    {
      && stream.Valid() && SelfDelimiting(stream.codec) && records != [] && delivered <= |records|
      && stream.State()
        == AfterItems(stream.codec, Reading(RecordBytes(stream.codec, records), |records|, 0, false), calls)
      && (nextItem.Some? ==> delivered < |records| && nextItem.value == records[delivered] && calls == delivered + 1)
      && (nextItem.None? ==> calls == delivered || (delivered == |records| && calls >= delivered))
    }

    ghost function Left(): seq<Record<O>>
      requires Valid()
      reads this, stream, stream.input, stream.input.buf, stream.input.buf.bufData
    {
      records[delivered..]
    }

    /** The stream must hold the records it counts, as it does after a forced spill; and at least one. */
    constructor (stream: BlockInputStream<O>, getPartition: O -> nat, ghost records: seq<Record<O>>)
      requires stream.Valid() && SelfDelimiting(stream.codec) && records != []
      requires stream.State() == Reading(RecordBytes(stream.codec, records), |records|, 0, false)
      ensures Valid() && Left() == records && this.records == records && this.getPartition == getPartition
      ensures calls == 0 && this.stream == stream
    {
      this.stream, this.getPartition, this.records := stream, getPartition, records;
      nextItem, calls, delivered := None, 0, 0;
      new;
      assert records[0..] == records;
    }

    /** Looks one item ahead, and keeps it for whichever partition it belongs to. */
    method HasNext(p: nat) returns (b: bool)
      requires Valid()
      modifies `nextItem, `calls, stream, stream.input, stream.input.buf
      ensures Valid() && Left() == old(Left()) && b == Offers(KeyPartition(getPartition), Left(), p)
      ensures b ==> nextItem == Some(Left()[0])
    {
      LookAhead();
      hide BlockInputStream.Valid, BlockInputStream.State;
      b := nextItem != None && getPartition(nextItem.value.0) == p;
    }

    /** Fetches the next item, unless it was fetched before. */
    method LookAhead()
      requires Valid()
      modifies `nextItem, `calls, stream, stream.input, stream.input.buf
      ensures Valid() && Left() == old(Left())
      ensures if Left() == [] then nextItem == None else nextItem == Some(Left()[0])
    {
      hide Decoded, RecordBytes, SelfDelimiting, BlockInputStream.Valid, ItemOf, AfterItem;
      if nextItem == None {
        ItemNumber(stream.codec, records, |records|, calls);
        var item := stream.ReadNextItem();
        calls := calls + 1;
        if item != Null {
          nextItem := Some(item.record);
        }
      }
    }

    method Next(p: nat) returns (elem: Option<Record<O>>)
      requires Valid()
      modifies this, stream, stream.input, stream.input.buf
      ensures Valid()
      ensures elem == if Offers(KeyPartition(getPartition), old(Left()), p) then Some(old(Left())[0]) else None
      ensures Left() == if elem == None then old(Left()) else old(Left())[1..]
    {
      var more := HasNext(p);
      if !more {
        return None;
      }
      elem := nextItem;
      nextItem := None;
      delivered := delivered + 1;
      assert records[delivered - 1..][1..] == records[delivered..];
    }

    /** The records of one partition, when the partitions before it have been drained. */
    method DrainPartition(p: nat) returns (out: seq<Record<O>>)
      requires Valid() && InOrder(KeyPartition(getPartition), records)
      requires Left() == From(KeyPartition(getPartition), records, p)
      modifies this, stream, stream.input, stream.input.buf
      ensures Valid() && out == Only(KeyPartition(getPartition), records, p)
      ensures Left() == From(KeyPartition(getPartition), records, p + 1)
    {
      hide From, Only, InOrder;
      out := [];
      ghost var part := KeyPartition(getPartition);
      StartTaking(part, records, p);
      var more := HasNext(p);
      while more
        invariant Valid() && Taking(part, records, p, out, Left())
        invariant more == Offers(part, Left(), p)
        decreases |Left()|
      {
        TakeOne(part, records, p, out, Left());
        var elem := Next(p);
        out := out + [elem.value];
        more := HasNext(p);
      }
      OffersIff(part, records, p, out, Left());
    }

    /** All partitions in order: every record of the stream once, under its own partition. */
    method Drain(n: nat) returns (outs: seq<seq<Record<O>>>)
      requires Valid() && Left() == records
      requires InOrder(KeyPartition(getPartition), records) && Within(KeyPartition(getPartition), records, n)
      modifies this, stream, stream.input, stream.input.buf
      ensures Valid() && |outs| == n && delivered == |records|
      ensures forall p :: 0 <= p < n ==> outs[p] == Only(KeyPartition(getPartition), records, p)
    {
      hide From, Only, InOrder, Within, SpillReader.Valid, SpillReader.Left;
      outs := [];
      ghost var part := KeyPartition(getPartition);
      FromStart(part, records);
      for p := 0 to n
        invariant Valid() && |outs| == p && Left() == From(part, records, p)
        invariant forall q :: 0 <= q < p ==> outs[q] == Only(part, records, q)
      {
        var out := DrainPartition(p);
        outs := outs + [out];
      }
      FromEnd(part, records, n);
      NothingLeft();
    }

    lemma NothingLeft()
      requires Valid() && Left() == []
      ensures delivered == |records|
    {
    }
  }

  lemma StartTaking<T>(part: T -> nat, all: seq<T>, p: nat)
    ensures Taking(part, all, p, [], From(part, all, p))
  {
    assert [] + From(part, all, p) == From(part, all, p);
  }

  function KeyPartition<O>(getPartition: O -> nat): Record<O> -> nat { (r: Record<O>) => getPartition(r.0) }
}

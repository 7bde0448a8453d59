/** core/.../nvm/nvmBlockInputStream.scala: the records of a stored stream, read back one at a time. */
module BlockInput {
  import opened Bytes
  import opened InputStreams
  import opened Options

  /** A serializer: the bytes of an object, and the object at the front of some bytes with its length. */
  datatype Codec<!O> = Codec(encode: O -> seq<Byte>, decode: seq<Byte> -> Parse<O>)

  datatype Parse<O> = Incomplete | Parsed(value: O, length: nat)

  /** What a serializer promises: it reads back what it wrote, from just the bytes of that object. */
  ghost predicate SelfDelimiting<O(!new)>(c: Codec<O>) {
    && c.decode([]) == Incomplete
    && (forall o :: c.encode(o) != [] && c.decode(c.encode(o)) == Parsed(o, |c.encode(o)|))
    && (forall a, b :: c.decode(a).Parsed? ==> Prefixed(c, a, b))
  }

  /** What was decoded from `a` stays decoded when more bytes follow. */
  ghost predicate Prefixed<O>(c: Codec<O>, a: seq<Byte>, b: seq<Byte>)
    requires c.decode(a).Parsed?
  {
    c.decode(a).length <= |a| && c.decode(a + b) == c.decode(a)
  }

  lemma DecodesFront<O(!new)>(c: Codec<O>, o: O, rest: seq<Byte>)
    requires SelfDelimiting(c)
    ensures c.decode(c.encode(o) + rest) == Parsed(o, |c.encode(o)|)
  {
    assert Prefixed(c, c.encode(o), rest);
  }

  /** For one, strings of bytes behind their length. */
  type Short = s: seq<Byte> | |s| < 256

  function EncodeShort(s: Short): seq<Byte> { [|s| as Byte] + s }

  function DecodeShort(bytes: seq<Byte>): Parse<Short> {
    if bytes == [] || |bytes| < 1 + bytes[0] as nat then Incomplete
    else
      var s: Short := bytes[1..1 + bytes[0] as nat];
      Parsed(s, 1 + |s|)
  }

  lemma ShortDelimitsItself()
    ensures SelfDelimiting(Codec(EncodeShort, DecodeShort))
  {
    var c := Codec(EncodeShort, DecodeShort);
    forall s: Short ensures c.encode(s) != [] && c.decode(c.encode(s)) == Parsed(s, |c.encode(s)|) {
      assert EncodeShort(s)[1..1 + |s|] == s;
    }
    forall a, b | c.decode(a).Parsed? ensures Prefixed(c, a, b) {
      var n := 1 + a[0] as nat;
      assert (a + b)[1..n] == a[1..n];
    }
  }

  type Record<O> = (O, O)

  function PairBytes<O>(c: Codec<O>, r: Record<O>): seq<Byte> { c.encode(r.0) + c.encode(r.1) }

  function RecordBytes<O>(c: Codec<O>, rs: seq<Record<O>>): seq<Byte> {
    if rs == [] then [] else PairBytes(c, rs[0]) + RecordBytes(c, rs[1..])
  }

  // ---- readNextItem on values ----

  /** `sys.exit(0)` is where the source goes when the serializer finds no object. */
  datatype Item<O> = Null | Pair(record: Record<O>) | Exit

  datatype Reading = Reading(unread: seq<Byte>, total: nat, index: nat, closing: bool)

  /** readObject: the object at the front, and the bytes behind it. */
  function Decoded<O>(c: Codec<O>, unread: seq<Byte>): Option<(O, seq<Byte>)> {
    match c.decode(unread)
    case Incomplete => None
    case Parsed(o, n) => if n <= |unread| then Some((o, unread[n..])) else None
  }

  function ItemOf<O>(c: Codec<O>, s: Reading): Item<O> {
    if s.closing then Null
    else match Decoded(c, s.unread)
      case None => Exit
      case Some((k, more)) =>
        match Decoded(c, more)
        case None => Exit
        case Some((v, rest)) => Pair((k, v))
  }

  function AfterItem<O>(c: Codec<O>, s: Reading): Reading {
    if s.closing then s
    else match Decoded(c, s.unread)
      case None => s
      case Some((k, more)) =>
        match Decoded(c, more)
        case None => s.(unread := more)
        case Some((v, rest)) => s.(unread := rest, index := s.index + 1, closing := s.index + 1 >= s.total)
  }

  function AfterItems<O>(c: Codec<O>, s: Reading, k: nat): Reading {
    if k == 0 then s else AfterItem(c, AfterItems(c, s, k - 1))
  }

  function Max1(n: nat): nat { if n == 0 then 1 else n }

  lemma DecodesPair<O(!new)>(c: Codec<O>, r: Record<O>, rest: seq<Byte>)
    requires SelfDelimiting(c)
    ensures Decoded(c, PairBytes(c, r) + rest) == Some((r.0, c.encode(r.1) + rest))
    ensures Decoded(c, c.encode(r.1) + rest) == Some((r.1, rest))
  {
    var k, v := c.encode(r.0), c.encode(r.1);
    assert k + v + rest == k + (v + rest);
    DecodesFront(c, r.0, v + rest);
    assert (k + (v + rest))[|k|..] == v + rest;
    DecodesFront(c, r.1, rest);
    assert (v + rest)[|v|..] == rest;
  }

  lemma BytesFrom<O>(c: Codec<O>, rs: seq<Record<O>>, k: nat)
    requires k < |rs|
    ensures RecordBytes(c, rs[k..]) == PairBytes(c, rs[k]) + RecordBytes(c, rs[k + 1..])
  {
    assert rs[k..][1..] == rs[k + 1..];
  }

  /** After `k` items the reader stands before record `k`; it closes with item number
      max(1, total_records), so it always tries to read one. */
  lemma {:induction false} AfterSome<O(!new)>(c: Codec<O>, rs: seq<Record<O>>, total: nat, k: nat)
    requires SelfDelimiting(c) && k <= |rs| && k <= Max1(total)
    ensures AfterItems(c, Reading(RecordBytes(c, rs), total, 0, false), k)
      == Reading(RecordBytes(c, rs[k..]), total, k, k >= Max1(total))
  {
    if k == 0 {
      assert rs[0..] == rs;
    } else {
      AfterSome(c, rs, total, k - 1);
      BytesFrom(c, rs, k - 1);
      DecodesPair(c, rs[k - 1], RecordBytes(c, rs[k..]));
    }
  }

  /** The item that call `k` of readNextItem returns, when all calls before it returned: record `k`
      while there are fewer than max(1, total_records); then null, for ever; and the process ends
      exactly where a record is still due and there is none. */
  lemma ItemNumber<O(!new)>(c: Codec<O>, rs: seq<Record<O>>, total: nat, k: nat)
    requires SelfDelimiting(c) && (k <= |rs| || Max1(total) <= |rs|)
    ensures ItemOf(c, AfterItems(c, Reading(RecordBytes(c, rs), total, 0, false), k)) ==
      if k >= Max1(total) then Null else if k < |rs| then Pair(rs[k]) else Exit
  {
    if k >= Max1(total) {
      StaysClosed(c, rs, total, k);
    } else {
      AfterSome(c, rs, total, k);
      if k < |rs| {
        BytesFrom(c, rs, k);
        DecodesPair(c, rs[k], RecordBytes(c, rs[k + 1..]));
      }
    }
  }

  lemma {:induction false} StaysClosed<O(!new)>(c: Codec<O>, rs: seq<Record<O>>, total: nat, k: nat)
    requires SelfDelimiting(c) && Max1(total) <= k && Max1(total) <= |rs|
    ensures AfterItems(c, Reading(RecordBytes(c, rs), total, 0, false), k).closing
  {
    if k == Max1(total) {
      AfterSome(c, rs, total, k);
    } else {
      StaysClosed(c, rs, total, k - 1);
    }
  }

  // ---- the object ----

  const CHUNK: nat := 4096

  class BlockInputStream<O(!new)> {
    const input: InputStream
    const codec: Codec<O>
    const totalRecords: nat
    var ahead: seq<Byte>      // what the deserializer has read from the stream and not yet used
    var indexInBatch: nat
    var closing: bool
    var closed: bool

    ghost predicate Valid()
      reads this, input, input.buf, input.buf.bufData
    {
      input.Valid()
    }

    /** What the deserializer can still get at: its array reads do not load any more blocks. */
    ghost function Unread(): seq<Byte>
      requires Valid()
      reads this, input, input.buf, input.buf.bufData
    {
      ahead + input.State().buf.Contents()
    }

    ghost function State(): Reading
      requires Valid()
      reads this, input, input.buf, input.buf.bufData
    {
      Reading(Unread(), totalRecords, indexInBatch, closing)
    }

    constructor (input: InputStream, codec: Codec<O>, totalRecords: nat)
      requires input.Valid()
      ensures Valid() && State() == Reading(input.State().buf.Contents(), totalRecords, 0, false)
      ensures this.input == input && this.codec == codec
    {
      this.input, this.codec, this.totalRecords := input, codec, totalRecords;
      ahead, indexInBatch, closing, closed := [], 0, false, false;
      new;
      assert [] + input.State().buf.Contents() == input.State().buf.Contents();
    }

    /** The deserializer fetches some more bytes, if there are any. */
    method Fetch() returns (more: bool)
      requires Valid()
      modifies `ahead, input, input.buf
      ensures Valid() && Unread() == old(Unread())
      ensures more == (old(input.State().buf.Contents()) != [])
      ensures more ==> |input.State().buf.Contents()| < |old(input.State().buf.Contents())|
      ensures !more ==> ahead == old(ahead) == Unread()
    {
      hide InputStream.Valid, InputStream.State, AfterRequest, AnswerTo, Reader.Valid;
      ghost var r := input.State();
      ArrayTakes(r, CHUNK);
      var chunk := new Byte[CHUNK];
      var n := input.Read(chunk, 0, CHUNK);
      more := n != -1;
      if more {
        assert chunk[..n] == Given(AnswerTo(r, Array(CHUNK)));
        ConcatAssociates(ahead, chunk[..n], input.State().buf.Contents());
        ahead := ahead + chunk[..n];
      }
    }

    /** readObject: fetches until there is an object at the front. */
    method ReadObject() returns (o: Option<O>)
      requires Valid() && SelfDelimiting(codec)
      modifies `ahead, input, input.buf
      ensures Valid()
      ensures match Decoded(codec, old(Unread()))
        case None => o == None && Unread() == old(Unread())
        case Some((x, rest)) => o == Some(x) && Unread() == rest
    {
      while codec.decode(ahead).Incomplete?
        invariant Valid() && Unread() == old(Unread())
        decreases |input.State().buf.Contents()|
      {
        var more := Fetch();
        if !more {
          return None;
        }
      }
      FrontOf(codec, ahead, input.State().buf.Contents());
      var parsed := codec.decode(ahead);
      ahead := ahead[parsed.length..];
      o := Some(parsed.value);
    }

    method ReadNextItem() returns (item: Item<O>)
      requires Valid() && SelfDelimiting(codec)
      modifies this, input, input.buf
      ensures Valid() && State() == AfterItem(codec, old(State())) && item == ItemOf(codec, old(State()))
    {
      hide Decoded, SelfDelimiting, InputStream.Valid, InputStream.State;
      if closing {
        Close();
        return Null;
      }
      var k := ReadObject();
      if k == None {
        return Exit;
      }
      var c := ReadObject();
      if c == None {
        return Exit;
      }
      indexInBatch := indexInBatch + 1;
      if indexInBatch >= totalRecords {
        closing := true;
      }
      item := Pair((k.value, c.value));
    }

    method Close()
      modifies `closed
      ensures closed
    {
      closed := true;
    }
  }

  /** What the deserializer finds in the bytes it has is what stands at the front of all of them. */
  lemma FrontOf<O(!new)>(c: Codec<O>, a: seq<Byte>, b: seq<Byte>)
    requires SelfDelimiting(c) && c.decode(a).Parsed?
    ensures c.decode(a).length <= |a| && Decoded(c, a + b) == Some((c.decode(a).value, a[c.decode(a).length..] + b))
  {
    assert Prefixed(c, a, b);
    assert (a + b)[c.decode(a).length..] == a[c.decode(a).length..] + b;
  }
}

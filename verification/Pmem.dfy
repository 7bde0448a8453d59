/** The persistent device behind TBPAlloc, TBPStore and TBPLoad: fresh allocations and stores that
    become durable one at a time, in program order. */
module Pmem {
  import opened Bytes

  datatype Field = Next | Key | Size | Data | Head | Tail | BytesWritten

  /** The address of a field of an allocated object. */
  datatype Loc = Loc(obj: nat, field: Field)

  datatype Mem = Mem(words: map<Loc, nat>, buffers: map<nat, seq<Byte>>) {
    function Word(obj: nat, field: Field): nat {
      if Loc(obj, field) in words then words[Loc(obj, field)] else 0
    }
    function Buffer(addr: nat): seq<Byte> {
      if addr in buffers then buffers[addr] else []
    }
    predicate Defined(obj: nat, field: Field) { Loc(obj, field) in words }
  }

  datatype Store = StoreWord(at: Loc, word: nat) | StoreBytes(addr: nat, bytes: seq<Byte>)

  function Apply(m: Mem, s: Store): Mem {
    match s
    case StoreWord(at, word) => m.(words := m.words[at := word])
    case StoreBytes(addr, bytes) => m.(buffers := m.buffers[addr := bytes])
  }

  /** What is durable when the power fails after `k` of the stores. */
  function After(m: Mem, stores: seq<Store>, k: nat): Mem
    requires k <= |stores|
  {
    if k == 0 then m else Apply(After(m, stores, k - 1), stores[k - 1])
  }

  class Device {
    var mem: Mem
    var frontier: nat               // every object below is allocated
    ghost var journal: seq<Store>   // the stores made so far

    constructor ()
      ensures mem == Mem(map[], map[]) && frontier == 1 && journal == []
    {
      mem, frontier, journal := Mem(map[], map[]), 1, [];
    }

    /** A new object: never null, never handed out before. */
    method TBPAlloc(size: nat) returns (obj: nat)
      requires frontier > 0
      modifies `frontier
      ensures obj != 0 && old(frontier) <= obj < frontier
    {
      obj := frontier;
      frontier := frontier + 1;
    }

    method TBPStore(s: Store)
      modifies `mem, `journal
      ensures mem == Apply(old(mem), s) && journal == old(journal) + [s]
    {
      mem := Apply(mem, s);
      journal := journal + [s];
    }

    method TBPSet(obj: nat, field: Field, value: nat)
      modifies `mem, `journal
      ensures mem == Apply(old(mem), StoreWord(Loc(obj, field), value))
      ensures journal == old(journal) + [StoreWord(Loc(obj, field), value)]
    {
      TBPStore(StoreWord(Loc(obj, field), value));
    }

    method TBPGet(obj: nat, field: Field) returns (value: nat)
      requires mem.Defined(obj, field)
      ensures value == mem.Word(obj, field)
    {
      value := mem.words[Loc(obj, field)];
    }

    method TBPAdd(obj: nat, field: Field, value: nat)
      requires mem.Defined(obj, field)
      modifies `mem, `journal
      ensures mem == Apply(old(mem), StoreWord(Loc(obj, field), Wrap64(old(mem.Word(obj, field)) + value)))
      ensures journal == old(journal) + [StoreWord(Loc(obj, field), Wrap64(old(mem.Word(obj, field)) + value))]
    {
      var tmp := TBPGet(obj, field);
      TBPSet(obj, field, Wrap64(tmp + value));
    }

    method TBPSub(obj: nat, field: Field, value: nat)
      requires mem.Defined(obj, field)
      modifies `mem, `journal
      ensures mem == Apply(old(mem), StoreWord(Loc(obj, field), Wrap64(old(mem.Word(obj, field)) - value)))
    {
      var tmp := TBPGet(obj, field);
      TBPSet(obj, field, Wrap64(tmp - value));
    }
  }
}

/** The device table of core/.../nvm/PersistentMemoryMetaHandler.java: which device an executor mounts. */
module DeviceAllocator {
  import opened Options

  type Table = map<string, nat>

  function Count(t: Table, d: string): nat { if d in t then t[d] else 0 }

  /** The listed devices that are not in the table, in the order of the list. */
  function Unused(list: seq<string>, t: Table): seq<string> {
    if list == [] then []
    else if list[0] in t then Unused(list[1..], t)
    else [list[0]] + Unused(list[1..], t)
  }

  lemma {:induction false} UnusedIn(list: seq<string>, t: Table, d: string)
    ensures d in Unused(list, t) <==> d in list && d !in t
  {
    if list != [] {
      UnusedIn(list[1..], t, d);
    }
  }

  /** Device i is the first in the list that is not in the table. */
  predicate FirstUnused(list: seq<string>, t: Table, i: nat) {
    i < |list| && list[i] !in t && forall j :: 0 <= j < i ==> list[j] in t
  }

  /** So the first of the unused devices is the first of the list that is unused. */
  lemma {:induction false} UnusedFirst(list: seq<string>, t: Table) returns (i: nat)
    requires Unused(list, t) != []
    ensures FirstUnused(list, t, i) && Unused(list, t)[0] == list[i]
  {
    if list[0] in t {
      i := UnusedFirst(list[1..], t);
      i := i + 1;
      assert forall j :: 0 < j < i ==> list[j] == list[1..][j - 1];
    } else {
      i := 0;
    }
  }

  predicate Increasing(places: seq<nat>) { forall i, j :: 0 <= i < j < |places| ==> places[i] < places[j] }

  predicate Picks(list: seq<string>, rest: seq<string>, places: seq<nat>) {
    |places| == |rest| && forall i :: 0 <= i < |places| ==> places[i] < |list| && list[places[i]] == rest[i]
  }

  predicate Covers(list: seq<string>, t: Table, places: seq<nat>) {
    forall k: nat :: k < |list| ==> (list[k] !in t <==> k in places)
  }

  /** `rest` is what stands in the list at these places, from front to back, and they are those of the
      devices that are not in the table. */
  predicate LeavesOut(list: seq<string>, t: Table, rest: seq<string>, places: seq<nat>) {
    Increasing(places) && Picks(list, rest, places) && Covers(list, t, places)
  }

  function Behind(places: seq<nat>): (r: seq<nat>)
    ensures |r| == |places| && forall i :: 0 <= i < |r| ==> r[i] == places[i] + 1
  {
    seq(|places|, i requires 0 <= i < |places| => places[i] + 1)
  }

  lemma InBehind(places: seq<nat>, k: nat)
    ensures k in Behind(places) <==> k > 0 && k - 1 in places
  {
    if k > 0 && k - 1 in places {
      var i :| 0 <= i < |places| && places[i] == k - 1;
      assert Behind(places)[i] == k;
    }
  }

  lemma {:induction false} UnusedLeavesOut(list: seq<string>, t: Table) returns (places: seq<nat>)
    ensures LeavesOut(list, t, Unused(list, t), places)
  {
    hide Picks, Covers, Increasing, Behind, Unused;
    if list == [] {
      places := [];
      NothingLeftOut(list, t);
    } else {
      var rest := UnusedLeavesOut(list[1..], t);
      places := if list[0] in t then Behind(rest) else [0] + Behind(rest);
      UnusedNext(list, t);
      LaterPick(list, Unused(list[1..], t), rest);
      LaterCover(list, t, rest);
      LaterIncreasing(rest);
    }
  }

  lemma NothingLeftOut(list: seq<string>, t: Table)
    requires list == []
    ensures LeavesOut(list, t, Unused(list, t), [])
  {
  }

  lemma UnusedNext(list: seq<string>, t: Table)
    requires list != []
    ensures Unused(list, t) == if list[0] in t then Unused(list[1..], t) else [list[0]] + Unused(list[1..], t)
  {
  }

  lemma LaterIncreasing(rest: seq<nat>)
    requires Increasing(rest)
    ensures Increasing(Behind(rest)) && Increasing([0] + Behind(rest))
  {
  }

  lemma LaterPick(list: seq<string>, u: seq<string>, rest: seq<nat>)
    requires list != [] && Picks(list[1..], u, rest)
    ensures Picks(list, u, Behind(rest)) && Picks(list, [list[0]] + u, [0] + Behind(rest))
  {
  }

  lemma LaterCover(list: seq<string>, t: Table, rest: seq<nat>)
    requires list != [] && Covers(list[1..], t, rest)
    ensures Covers(list, t, if list[0] in t then Behind(rest) else [0] + Behind(rest))
  {
    var places := if list[0] in t then Behind(rest) else [0] + Behind(rest);
    forall k: nat | k < |list| ensures list[k] !in t <==> k in places {
      InBehind(rest, k);
      assert k in places <==> k in Behind(rest) || (k == 0 && list[0] !in t);
      if k > 0 {
        assert list[1..][k - 1] !in t <==> k - 1 in rest;
      }
    }
  }

  predicate Least(t: Table, d: string) { d in t && forall e :: e in t ==> t[d] <= t[e] }

  /** One call: the first unused device if there is one, else any that is mounted least. */
  predicate Allocates(list: seq<string>, t: Table, d: string, t': Table) {
    && t' == t[d := Count(t, d) + 1]
    && if Unused(list, t) != [] then d == Unused(list, t)[0] else Least(t, d)
  }

  // ---- balance ----

  /** The devices of a list, each once. */
  ghost predicate Enumerates(ds: seq<string>, list: seq<string>) {
    && (forall i, j :: 0 <= i < j < |ds| ==> ds[i] != ds[j])
    && (forall d :: d in ds <==> d in list)
  }

  function Mounts(ds: seq<string>, t: Table): nat { if ds == [] then 0 else Count(t, ds[0]) + Mounts(ds[1..], t) }

  function InUse(ds: seq<string>, t: Table): nat {
    if ds == [] then 0 else (if ds[0] in t then 1 else 0) + InUse(ds[1..], t)
  }

  predicate Close(t: Table, a: string, b: string) { Count(t, a) <= Count(t, b) + 1 }

  /** After n calls: n mounts, as many devices in use as there can be, and no two more than one apart. */
  ghost predicate Balanced(ds: seq<string>, t: Table, n: nat) {
    && (forall d :: d in t ==> d in ds && t[d] > 0)
    && Mounts(ds, t) == n
    && InUse(ds, t) == (if n < |ds| then n else |ds|)
    && forall a, b :: a in ds && b in ds ==> Close(t, a, b)
  }

  lemma {:induction false} MountsAfter(ds: seq<string>, t: Table, d: string)
    requires forall i, j :: 0 <= i < j < |ds| ==> ds[i] != ds[j]
    ensures Mounts(ds, t[d := Count(t, d) + 1]) == Mounts(ds, t) + if d in ds then 1 else 0
    ensures InUse(ds, t[d := Count(t, d) + 1]) == InUse(ds, t) + if d in ds && d !in t then 1 else 0
  {
    if ds != [] {
      MountsAfter(ds[1..], t, d);
      assert ds[0] !in ds[1..];
    }
  }

  lemma {:induction false} AllInUse(ds: seq<string>, t: Table)
    ensures InUse(ds, t) <= |ds|
    ensures InUse(ds, t) == |ds| <==> forall d :: d in ds ==> d in t
  {
    if ds != [] {
      AllInUse(ds[1..], t);
      if forall d :: d in ds[1..] ==> d in t {
        assert (forall d :: d in ds ==> d in t) <==> ds[0] in t;
      } else {
        var d :| d in ds[1..] && d !in t;
        assert d in ds;
      }
    }
  }

  lemma AllocatesKeepsBalance(ds: seq<string>, list: seq<string>, t: Table, n: nat, d: string, t': Table)
    requires Enumerates(ds, list) && Balanced(ds, t, n) && Allocates(list, t, d, t')
    ensures Balanced(ds, t', n + 1)
  {
    UnusedIn(list, t, d);
    MountsAfter(ds, t, d);
    AllInUse(ds, t);
    if Unused(list, t) == [] {
      forall e | e in ds ensures e in t {
        UnusedIn(list, t, e);
      }
    }
    forall a, b | a in ds && b in ds ensures Close(t', a, b) {
      assert Close(t, a, b) && Close(t, a, d) && Close(t, d, b);
      if Unused(list, t) != [] {
        assert Count(t, d) == 0;
      }
    }
  }

  /** The table may look like this after n calls with the same list. */
  ghost predicate Reached(list: seq<string>, n: nat, t: Table) {
    if n == 0 then t == map[]
    else exists before: Table, d: string :: Reached(list, n - 1, before) && Allocates(list, before, d, t)
  }

  /** Whichever of the least mounted devices each call picks, the mounts stay balanced. */
  lemma {:induction false} AlwaysBalanced(ds: seq<string>, list: seq<string>, n: nat, t: Table)
    requires Enumerates(ds, list) && Reached(list, n, t)
    ensures Balanced(ds, t, n)
  {
    if n == 0 {
      NothingMounted(ds);
    } else {
      var before: Table, d: string :| Reached(list, n - 1, before) && Allocates(list, before, d, t);
      AlwaysBalanced(ds, list, n - 1, before);
      AllocatesKeepsBalance(ds, list, before, n - 1, d, t);
    }
  }

  /** With a list that is not empty, and names no device "", no call can fail. */
  lemma NeverFails(ds: seq<string>, list: seq<string>, n: nat, t: Table)
    requires Enumerates(ds, list) && Reached(list, n, t) && list != [] && "" !in list
    ensures Unused(list, t) != [] || (t != map[] && "" !in t)
  {
    AlwaysBalanced(ds, list, n, t);
    UnusedIn(list, t, list[0]);
  }

  lemma {:induction false} NothingMounted(ds: seq<string>)
    ensures Mounts(ds, map[]) == 0 && InUse(ds, map[]) == 0
  {
    if ds != [] {
      NothingMounted(ds[1..]);
    }
  }

  // ---- the object ----

  predicate LeastRow(rows: seq<(string, nat)>, i: nat)
    requires i < |rows|
  {
    forall j :: 0 <= j < |rows| ==> rows[i].1 <= rows[j].1
  }

  class MetaHandler {
    var devices: Table

    constructor ()
      ensures devices == map[]
    {
      devices := map[];
    }

    /** The entry with the smallest count, the entries coming in the order of the hash map; "" for none. */
    static method GetDeviceWithMinCount(entries: seq<(string, nat)>) returns (device: string)
      ensures entries == [] ==> device == ""
      ensures entries != [] ==> exists i: nat :: i < |entries| && entries[i].0 == device && LeastRow(entries, i)
    {
      device := "";
      var count := -1;
      ghost var best: nat := 0;
      for i := 0 to |entries|
        invariant i == 0 ==> device == "" && count == -1
        invariant i > 0 ==> 0 <= best < i && entries[best] == (device, count)
        invariant forall j :: 0 <= j < i ==> count <= entries[j].1
      {
        if count == -1 || entries[i].1 < count {
          device := entries[i].0;
          count := entries[i].1;
          best := i;
        }
      }
      assert entries != [] ==> LeastRow(entries, best);
    }

    /** removeAll, on the caller's list. */
    method RemoveUsed(fullDeviceList: seq<string>) returns (rest: seq<string>)
      ensures rest == Unused(fullDeviceList, devices)
    {
      rest := [];
      assert fullDeviceList[0..] == fullDeviceList;
      assert [] + Unused(fullDeviceList, devices) == Unused(fullDeviceList, devices);
      for i := 0 to |fullDeviceList|
        invariant rest + Unused(fullDeviceList[i..], devices) == Unused(fullDeviceList, devices)
      {
        assert fullDeviceList[i..][1..] == fullDeviceList[i + 1..];
        if fullDeviceList[i] !in devices {
          assert rest + ([fullDeviceList[i]] + Unused(fullDeviceList[i + 1..], devices))
            == rest + [fullDeviceList[i]] + Unused(fullDeviceList[i + 1..], devices);
          rest := rest + [fullDeviceList[i]];
        }
      }
      assert rest + [] == rest;
    }

    /** getUnusedDevice, with the rows of the table in the order of the hash map they are put into. It
        returns the list as it leaves it, too. None is where the source ends the process. */
    method GetUnusedDevice(fullDeviceList: seq<string>, rows: seq<(string, nat)>)
      returns (device: Option<string>, rest: seq<string>)
      requires forall d, c :: (d, c) in rows <==> d in devices && devices[d] == c
      modifies this
      ensures rest == Unused(fullDeviceList, old(devices))
      ensures device == None ==> devices == old(devices) && rest == [] && ("" in devices || devices == map[])
      ensures device.Some? ==> Allocates(fullDeviceList, old(devices), device.value, devices)
      ensures forall i: nat :: FirstUnused(fullDeviceList, old(devices), i) ==> device == Some(fullDeviceList[i])
      ensures exists places :: LeavesOut(fullDeviceList, old(devices), rest, places)
      ensures rest != [] || (old(devices) != map[] && "" !in old(devices)) ==> device.Some?
    {
      rest := RemoveUsed(fullDeviceList);
      ghost var places := UnusedLeavesOut(fullDeviceList, devices);
      NoneBefore(fullDeviceList, devices);
      if |rest| == 0 {
        var d := GetDeviceWithMinCount(rows);
        LeastOfRows(rows, d);
        if d == "" {
          return None, rest;
        }
        var count := devices[d] + 1;
        devices := devices[d := count];
        device := Some(d);
      } else {
        UnusedIn(fullDeviceList, devices, rest[0]);
        ghost var first := UnusedFirst(fullDeviceList, devices);
        assert forall i: nat :: FirstUnused(fullDeviceList, devices, i) ==> i == first;
        device := Some(rest[0]);
        devices := devices[rest[0] := 1];
      }
    }

    lemma NoneBefore(list: seq<string>, t: Table)
      ensures Unused(list, t) == [] ==> forall i: nat :: !FirstUnused(list, t, i)
    {
      forall i: nat | FirstUnused(list, t, i) ensures Unused(list, t) != [] {
        UnusedIn(list, t, list[i]);
      }
    }

    lemma LeastOfRows(rows: seq<(string, nat)>, d: string)
      requires forall d, c :: (d, c) in rows <==> d in devices && devices[d] == c
      requires rows == [] ==> d == ""
      requires rows != [] ==> exists i: nat :: i < |rows| && rows[i].0 == d && LeastRow(rows, i)
      ensures if rows == [] then devices == map[] else Least(devices, d)
    {
      assert forall e :: e in devices ==> (e, devices[e]) in rows;
      if rows != [] {
        var i: nat :| i < |rows| && rows[i].0 == d && LeastRow(rows, i);
        assert rows[i] in rows;
      }
    }
  }
}

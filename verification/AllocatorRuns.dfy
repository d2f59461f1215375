/** Runs of wake-ups and sleeps of one allocation in which any driver call may fail: whatever goes
    wrong, other allocations keep their handles, mappings and reservations. */
module AllocatorRuns {
  import opened Driver
  import opened Allocator

  /** Handles this allocation may release: those it was given, and those made since. */
  predicate Own(own: seq<nat>, since: nat, h: nat) {
    h in own || h >= since
  }

  /** Only the range at `addr`, own handles and the reservation at `addr` may differ; handles and
      reservations may have been added. */
  ghost predicate Spares(d: Dev, d': Dev, addr: nat, size: nat, own: seq<nat>, since: nat) {
    && d.nextHandle <= d'.nextHandle
    && (forall h :: h in d.live && !Own(own, since, h) ==> h in d'.live)
    && (forall h :: h in d'.live ==> h in d.live || h >= since)
    && (forall a :: a in d.maps && !(addr <= a < addr + size) ==> a in d'.maps && d'.maps[a] == d.maps[a])
    && (forall a :: a in d'.maps && !(addr <= a < addr + size) ==> a in d.maps)
    && (forall r :: r in d.reserved && r != addr ==> r in d'.reserved && d'.reserved[r] == d.reserved[r])
  }

  lemma {:induction false} SparesTrans(d: Dev, d1: Dev, d2: Dev, addr: nat, size: nat, own: seq<nat>, since: nat)
    requires Spares(d, d1, addr, size, own, since) && Spares(d1, d2, addr, size, own, since)
    ensures Spares(d, d2, addr, size, own, since)
  {
  }

  lemma {:induction false} SparesSame(d: Dev, addr: nat, size: nat, own: seq<nat>, since: nat)
    ensures Spares(d, d, addr, size, own, since)
  {
  }

  // ----- the loops

  lemma {:induction false} ReleaseSpares(o: Oracle, d: Dev, hs: seq<nat>, k: nat, first: int, addr: nat, size: nat,
                                         own: seq<nat>, since: nat)
    requires d.Valid() && k <= |hs| && forall j :: 0 <= j < |hs| ==> Own(own, since, hs[j])
    ensures var r := ReleaseLoop(o, d, hs, k, first).0; r.Valid() && Spares(d, r, addr, size, own, since)
  {
    hide Own;
    if k == 0 {
      SparesSame(d, addr, size, own, since);
    } else {
      ReleaseSpares(o, d, hs, k - 1, first, addr, size, own, since);
      var p := ReleaseLoop(o, d, hs, k - 1, first).0;
      ReleaseValid(o, p, hs[k - 1]);
      assert Spares(p, Release(o, p, hs[k - 1]).0, addr, size, own, since);
      SparesTrans(d, p, Release(o, p, hs[k - 1]).0, addr, size, own, since);
    }
  }

  lemma {:induction false} UnmapOneSpares(o: Oracle, d: Dev, a: nat, n: nat, addr: nat, size: nat, own: seq<nat>,
                                          since: nat)
    requires d.Valid() && addr <= a < addr + size
    ensures var r := Unmap(o, d, a, n).0; r.Valid() && Spares(d, r, addr, size, own, since)
  {
    UnmapValid(o, d, a, n);
  }

  lemma {:induction false} MapOneSpares(o: Oracle, d: Dev, a: nat, n: nat, h: nat, addr: nat, size: nat,
                                        own: seq<nat>, since: nat)
    requires d.Valid() && n > 0 && addr <= a < addr + size
    ensures var r := Map(o, d, a, n, h).0; r.Valid() && Spares(d, r, addr, size, own, since)
  {
    MapValid(o, d, a, n, h);
  }

  lemma {:induction false} ChunkInside(addr: nat, sizes: seq<nat>, j: nat)
    requires Positive(sizes) && j < |sizes|
    ensures addr <= addr + Offset(sizes, j) < addr + Offset(sizes, |sizes|)
  {
    OffsetMonotone(sizes, j, |sizes|);
  }

  lemma {:induction false} UnmapSpares(o: Oracle, d: Dev, addr: nat, sizes: seq<nat>, k: nat, first: int,
                                       own: seq<nat>, since: nat)
    requires d.Valid() && Positive(sizes) && k <= |sizes|
    ensures var r := UnmapLoop(o, d, addr, sizes, k, first).0;
      r.Valid() && Spares(d, r, addr, Offset(sizes, |sizes|), own, since)
  {
    hide Unmap, Offset, Spares;
    var size := Offset(sizes, |sizes|);
    if k == 0 {
      SparesSame(d, addr, size, own, since);
    } else {
      UnmapSpares(o, d, addr, sizes, k - 1, first, own, since);
      var p := UnmapLoop(o, d, addr, sizes, k - 1, first).0;
      ChunkInside(addr, sizes, k - 1);
      UnmapOneSpares(o, p, addr + Offset(sizes, k - 1), sizes[k - 1], addr, size, own, since);
      SparesTrans(d, p, UnmapLoop(o, d, addr, sizes, k, first).0, addr, size, own, since);
    }
  }

  lemma {:induction false} CreateOneSpares(o: Oracle, d: Dev, n: nat, addr: nat, size: nat, own: seq<nat>, since: nat)
    requires d.Valid() && since <= d.nextHandle
    ensures var r := Create(o, d, n).0; r.Valid() && Spares(d, r, addr, size, own, since)
  {
    CreateValid(o, d, n);
  }

  lemma {:induction false} CreateSpares(o: Oracle, d: Dev, err: int, sizes: seq<nat>, k: nat, addr: nat, size: nat,
                                        own: seq<nat>, since: nat)
    requires d.Valid() && since <= d.nextHandle && k <= |sizes|
    ensures var p := CreateLoop(o, d, err, sizes, k);
      && p.dev.Valid() && Spares(d, p.dev, addr, size, own, since)
      && forall j :: 0 <= j < |p.handles| ==> p.handles[j] >= since
    decreases k
  {
    hide Create, ReleaseLoop, Spares;
    if k == 0 {
      SparesSame(d, addr, size, own, since);
    } else {
      CreateSpares(o, d, err, sizes, k - 1, addr, size, own, since);
      var p := CreateLoop(o, d, err, sizes, k - 1);
      if !p.stopped {
        assert p.dev.nextHandle >= since by { CounterGrows(d, p.dev, addr, size, own, since); }
        CreateOneSpares(o, p.dev, sizes[k - 1], addr, size, own, since);
        var d1 := Create(o, p.dev, sizes[k - 1]).0;
        SparesTrans(d, p.dev, d1, addr, size, own, since);
        ReleaseSpares(o, d1, p.handles, |p.handles|, 0, addr, size, own, since);
        SparesTrans(d, d1, ReleaseLoop(o, d1, p.handles, |p.handles|, 0).0, addr, size, own, since);
      }
    }
  }

  lemma {:induction false} CounterGrows(d: Dev, d': Dev, addr: nat, size: nat, own: seq<nat>, since: nat)
    requires Spares(d, d', addr, size, own, since)
    ensures d.nextHandle <= d'.nextHandle
  {
  }

  lemma {:induction false} MapSpares(o: Oracle, d: Dev, err: int, addr: nat, sizes: seq<nat>, hs: seq<nat>, k: nat,
                                     own: seq<nat>, since: nat)
    requires d.Valid() && Positive(sizes) && k <= |sizes| == |hs| && forall j :: 0 <= j < |hs| ==>
      Own(own, since, hs[j])
    ensures var p := MapLoop(o, d, err, addr, sizes, hs, k);
      p.dev.Valid() && Spares(d, p.dev, addr, Offset(sizes, |sizes|), own, since)
    decreases k
  {
    hide Map, ReleaseLoop, UnmapLoop, Spares, Offset, Own;
    var size := Offset(sizes, |sizes|);
    if k == 0 {
      SparesSame(d, addr, size, own, since);
    } else {
      MapSpares(o, d, err, addr, sizes, hs, k - 1, own, since);
      var p := MapLoop(o, d, err, addr, sizes, hs, k - 1);
      if !p.stopped {
        ChunkInside(addr, sizes, k - 1);
        MapOneSpares(o, p.dev, addr + Offset(sizes, k - 1), sizes[k - 1], hs[k - 1], addr, size, own, since);
        var d1 := Map(o, p.dev, addr + Offset(sizes, k - 1), sizes[k - 1], hs[k - 1]).0;
        SparesTrans(d, p.dev, d1, addr, size, own, since);
        UnmapSpares(o, d1, addr, sizes, k - 1, 0, own, since);
        var d2 := UnmapLoop(o, d1, addr, sizes, k - 1, 0).0;
        SparesTrans(d, d1, d2, addr, size, own, since);
        ReleaseSpares(o, d2, hs, |hs|, 0, addr, size, own, since);
        SparesTrans(d, d2, ReleaseLoop(o, d2, hs, |hs|, 0).0, addr, size, own, since);
      }
    }
  }

  // ----- whole calls

  lemma {:induction false} BackingSpares(o: Oracle, d: Dev, err: int, addr: nat, sizes: seq<nat>, own: seq<nat>,
                                         since: nat)
    requires d.Valid() && Positive(sizes) && since <= d.nextHandle
    ensures var r := CreateAndMap(o, d, err, addr, sizes);
      && r.dev.Valid() && Spares(d, r.dev, addr, Offset(sizes, |sizes|), own, since)
      && forall j :: 0 <= j < |r.handles| ==> r.handles[j] >= since
  {
    hide CreateLoop, MapLoop, Spares, Offset;
    var n, size := |sizes|, Offset(sizes, |sizes|);
    CreateSpares(o, d, err, sizes, n, addr, size, own, since);
    var p := CreateLoop(o, d, err, sizes, n);
    if !p.stopped {
      HandleCount(o, d, err, sizes, n);
      MapSpares(o, p.dev, p.err, addr, sizes, p.handles, n, own, since);
      SameHandles(o, p.dev, p.err, addr, sizes, p.handles, n);
      SparesTrans(d, p.dev, MapLoop(o, p.dev, p.err, addr, sizes, p.handles, n).dev, addr, size, own, since);
    }
  }

  /** Cycling the address range: a reservation that lands elsewhere is new, so giving it back takes
      nothing from anybody. */
  lemma {:induction false} CyclingSpares(o: Oracle, d: Dev, addr: nat, size: nat, own: seq<nat>, since: nat)
    requires d.Valid()
    ensures var (d3, e3) := AddressFree(o, d, addr, size);
      var (d4, e4, at) := AddressReserve(o, d3, size, addr);
      var d5 := AddressFree(o, d4, at, size).0;
      && d3.Valid() && Spares(d, d3, addr, size, own, since)
      && d4.Valid() && Spares(d, d4, addr, size, own, since)
      && d5.Valid() && (e4 == 0 && at != addr ==> Spares(d, d5, addr, size, own, since))
  {
    hide AddressFree, AddressReserve, Spares;
    AddressFreeValid(o, d, addr, size);
    FreeSpares(o, d, addr, size, own, since);
    var d3 := AddressFree(o, d, addr, size).0;
    AddressReserveValid(o, d3, size, addr);
    ReserveSpares(o, d3, size, addr, own, since);
    var (d4, e4, at) := AddressReserve(o, d3, size, addr);
    SparesTrans(d, d3, d4, addr, size, own, since);
    AddressFreeValid(o, d4, at, size);
    if e4 == 0 && at != addr {
      StrayIsNew(d, d3, at, addr, size, own, since);
      FreeStraySpares(o, d, d4, at, addr, size, own, since);
    }
  }

  lemma {:induction false} FreeSpares(o: Oracle, d: Dev, addr: nat, size: nat, own: seq<nat>, since: nat)
    ensures Spares(d, AddressFree(o, d, addr, size).0, addr, size, own, since)
  {
  }

  lemma {:induction false} ReserveSpares(o: Oracle, d: Dev, size: nat, addr: nat, own: seq<nat>, since: nat)
    ensures var (r, e, at) := AddressReserve(o, d, size, addr);
      Spares(d, r, addr, size, own, since) && (e == 0 ==> at !in d.reserved)
  {
  }

  lemma {:induction false} StrayIsNew(d: Dev, d3: Dev, at: nat, addr: nat, size: nat, own: seq<nat>, since: nat)
    requires Spares(d, d3, addr, size, own, since) && at !in d3.reserved && at != addr
    ensures at !in d.reserved
  {
  }

  lemma {:induction false} FreeStraySpares(o: Oracle, d: Dev, d4: Dev, at: nat, addr: nat, size: nat, own: seq<nat>,
                                           since: nat)
    requires Spares(d, d4, addr, size, own, since) && at !in d.reserved
    ensures Spares(d, AddressFree(o, d4, at, size).0, addr, size, own, since)
  {
  }

  lemma {:induction false} SleepSpares(o: Oracle, d: Dev, err: int, addr: nat, sizes: seq<nat>, hs: seq<nat>,
                                       own: seq<nat>, since: nat)
    requires d.Valid() && Positive(sizes) && |hs| == |sizes| && forall j :: 0 <= j < |hs| ==> Own(own, since, hs[j])
    ensures var size := Offset(sizes, |sizes|);
      var r := UnmapAndRelease(o, d, err, addr, size, sizes, hs).0;
      r.Valid() && Spares(d, r, addr, size, own, since)
  {
    hide UnmapLoop, ReleaseLoop, AddressFree, AddressReserve, Spares, Offset, Own;
    var n, size := |sizes|, Offset(sizes, |sizes|);
    UnmapSpares(o, d, addr, sizes, n, 0, own, since);
    var (d1, e1) := UnmapLoop(o, d, addr, sizes, n, 0);
    ReleaseSpares(o, d1, hs, n, e1, addr, size, own, since);
    var d2 := ReleaseLoop(o, d1, hs, n, e1).0;
    SparesTrans(d, d1, d2, addr, size, own, since);
    CyclingSpares(o, d2, addr, size, own, since);
    var d3 := AddressFree(o, d2, addr, size).0;
    var (d4, e4, at) := AddressReserve(o, d3, size, addr);
    SparesTrans(d, d2, UnmapAndRelease(o, d, err, addr, size, sizes, hs).0, addr, size, own, since);
  }

  // ----- runs

  datatype Act = Wake | Sleep

  function Step(o: Oracle, s: Region, addr: nat, sizes: seq<nat>, act: Act): (r: Region)
    requires |s.handles| == |sizes|
    ensures |r.handles| == |sizes|
  {
    match act
    case Wake => WakeUp(o, s, addr, sizes)
    case Sleep => PutToSleep(o, s, addr, Offset(sizes, |sizes|), sizes)
  }

  function Run(o: Oracle, s: Region, addr: nat, sizes: seq<nat>, acts: seq<Act>): (r: Region)
    requires |s.handles| == |sizes|
    ensures |r.handles| == |sizes|
  {
    if acts == [] then s else Step(o, Run(o, s, addr, sizes, acts[..|acts| - 1]), addr, sizes, acts[|acts| - 1])
  }

  ghost predicate RunInv(s: Region, r: Region, addr: nat, sizes: seq<nat>) {
    && r.dev.Valid() && Spares(s.dev, r.dev, addr, Offset(sizes, |sizes|), s.handles, s.dev.nextHandle)
    && forall j :: 0 <= j < |r.handles| ==> Own(s.handles, s.dev.nextHandle, r.handles[j])
  }

  lemma {:induction false} StepSpares(o: Oracle, s: Region, r: Region, addr: nat, sizes: seq<nat>, act: Act)
    requires Positive(sizes) && |r.handles| == |sizes| && RunInv(s, r, addr, sizes)
    ensures RunInv(s, Step(o, r, addr, sizes, act), addr, sizes)
  {
    hide CreateAndMap, UnmapAndRelease, Spares, Offset;
    var own, since, size := s.handles, s.dev.nextHandle, Offset(sizes, |sizes|);
    assert since <= r.dev.nextHandle by { CounterGrows(s.dev, r.dev, addr, size, own, since); }
    match act {
      case Wake => BackingSpares(o, r.dev, r.err, addr, sizes, own, since);
      case Sleep => SleepSpares(o, r.dev, r.err, addr, sizes, r.handles, own, since);
    }
    SparesTrans(s.dev, r.dev, Step(o, r, addr, sizes, act).dev, addr, size, own, since);
  }

  lemma {:induction false} RunKeeps(o: Oracle, s: Region, addr: nat, sizes: seq<nat>, acts: seq<Act>)
    requires s.dev.Valid() && Positive(sizes) && |s.handles| == |sizes|
    ensures RunInv(s, Run(o, s, addr, sizes, acts), addr, sizes)
  {
    hide Spares, Step;
    if acts == [] {
      SparesSame(s.dev, addr, Offset(sizes, |sizes|), s.handles, s.dev.nextHandle);
    } else {
      var init := acts[..|acts| - 1];
      RunKeeps(o, s, addr, sizes, init);
      StepSpares(o, s, Run(o, s, addr, sizes, init), addr, sizes, acts[|acts| - 1]);
    }
  }

  /** After any run of wake-ups and sleeps of one allocation, whichever driver calls fail in it and
      whatever error code it started with: every mapping still lies inside a reservation; handles,
      mappings and reservations of all others are as they were; and the error code is clear again. */
  lemma {:induction false} FailuresAreContained(o: Oracle, s: Region, addr: nat, sizes: seq<nat>, acts: seq<Act>)
    requires s.dev.Valid() && Positive(sizes) && |s.handles| == |sizes|
    ensures var r := Run(o, s, addr, sizes, acts);
      && r.dev.Valid() && (acts != [] ==> r.err == 0)
      && (forall h :: h in s.dev.live && h !in s.handles ==> h in r.dev.live)
      && (forall a :: !(addr <= a < addr + Offset(sizes, |sizes|)) ==> (a in r.dev.maps <==> a in s.dev.maps))
      && (forall a :: a in s.dev.maps && !(addr <= a < addr + Offset(sizes, |sizes|)) ==>
            r.dev.maps[a] == s.dev.maps[a])
      && (forall b :: b in s.dev.reserved && b != addr ==>
            b in r.dev.reserved && r.dev.reserved[b] == s.dev.reserved[b])
  {
    hide CreateAndMap, UnmapAndRelease, Offset;
    RunKeeps(o, s, addr, sizes, acts);
  }

  // ----- failing allocations and the error code

  lemma {:induction false} MallocValid(o: Oracle, d: Dev, err: int, aligned: nat, sizes: seq<nat>, callbackOk: bool)
    requires d.Valid() && Positive(sizes)
    ensures Malloc(o, d, err, aligned, sizes, callbackOk).dev.Valid()
  {
    hide CreateAndMap, AddressReserve, AddressFree;
    var d1 := Query(o, d).0;
    SameHolds(d, d1);
    var (d2, e2, at) := AddressReserve(o, d1, aligned, 0);
    AddressReserveValid(o, d1, aligned, 0);
    BackingSpares(o, d2, 0, at, sizes, [], d2.nextHandle);
    AddressFreeValid(o, CreateAndMap(o, d2, 0, at, sizes).dev, at, aligned);
  }

  /** How a stale code arises, and what it does. An allocation leaves an error code behind exactly when
      it fails for any other reason than its callback: in the query, the reservation, a create or a
      map. The wake-up of any other allocation that follows then fails too, and leaves its first handle
      live exactly when that handle could be created. */
  lemma {:induction false} FailedMallocSpoilsWake(o: Oracle, d: Dev, aligned: nat, sizes: seq<nat>, callbackOk: bool,
                                                  addr: nat, asleep: seq<nat>)
    requires d.Valid() && Positive(sizes) && aligned == Offset(sizes, |sizes|) && asleep != []
    ensures var m := Malloc(o, d, 0, aligned, sizes, callbackOk);
      && (m.err != 0 <==> m.ptr.Err? && !(Reserves(o, d, aligned) && !callbackOk))
      && (m.err != 0 ==>
            var w := CreateAndMap(o, m.dev, m.err, addr, asleep);
            && w.err != 0 && w.dev.maps == m.dev.maps && m.dev.nextHandle !in m.dev.live
            && w.dev.live == m.dev.live + (if o.fails(|m.dev.log|) == 0 then {m.dev.nextHandle} else {}))
  {
    hide CreateAndMap, Malloc, Offset, Reserves;
    var base := MallocOutcome(o, d, 0, aligned, sizes, callbackOk);
    MallocValid(o, d, 0, aligned, sizes, callbackOk);
    var m := Malloc(o, d, 0, aligned, sizes, callbackOk);
    if m.err != 0 {
      StaleErrorLeaks(o, m.dev, m.err, addr, asleep);
    }
  }

  // ----- two allocations

  /** Two allocations on one device. */
  datatype Pair = Pair(dev: Dev, err: int, a: seq<nat>, b: seq<nat>)

  /** Where they are and how they are cut. */
  datatype Places = Places(addrA: nat, sizesA: seq<nat>, addrB: nat, sizesB: seq<nat>)
  {
    predicate Apart() {
      && Positive(sizesA) && Positive(sizesB) && sizesA != [] && sizesB != []
      && (addrA + Offset(sizesA, |sizesA|) <= addrB || addrB + Offset(sizesB, |sizesB|) <= addrA)
    }
  }

  predicate Below(hs: seq<nat>, n: nat) {
    forall j :: 0 <= j < |hs| ==> hs[j] < n
  }

  predicate Separate(a: seq<nat>, b: seq<nat>) {
    forall h :: h in a ==> h !in b
  }

  /** Tables of the right length, of handles made so far, none in both. */
  predicate Sound(p: Places, s: Pair) {
    && s.dev.Valid() && |s.a| == |p.sizesA| && |s.b| == |p.sizesB|
    && Below(s.a, s.dev.nextHandle) && Below(s.b, s.dev.nextHandle) && Separate(s.a, s.b)
  }

  function PairStep(o: Oracle, p: Places, s: Pair, first: bool, act: Act): Pair
    requires |s.a| == |p.sizesA| && |s.b| == |p.sizesB|
  {
    if first then
      var r := Step(o, Region(s.dev, s.err, s.a, false), p.addrA, p.sizesA, act);
      Pair(r.dev, r.err, r.handles, s.b)
    else
      var r := Step(o, Region(s.dev, s.err, s.b, false), p.addrB, p.sizesB, act);
      Pair(r.dev, r.err, s.a, r.handles)
  }

  /** The handles, the mappings and the reservation of the other allocation are as they were. */
  ghost predicate Same(d: Dev, d': Dev, hs: seq<nat>, addr: nat, size: nat) {
    && (forall h :: h in hs ==> (h in d.live <==> h in d'.live))
    && (forall x :: addr <= x < addr + size ==>
          (x in d.maps <==> x in d'.maps) && (x in d.maps ==> d'.maps[x] == d.maps[x]))
    && (addr in d.reserved ==> addr in d'.reserved && d'.reserved[addr] == d.reserved[addr])
  }

  lemma {:induction false} OneStepApart(o: Oracle, s: Region, addr: nat, sizes: seq<nat>, act: Act,
                                        other: seq<nat>, addr': nat, size': nat)
    requires s.dev.Valid() && Positive(sizes) && |s.handles| == |sizes| && size' > 0
    requires addr + Offset(sizes, |sizes|) <= addr' || addr' + size' <= addr
    requires Below(s.handles, s.dev.nextHandle) && Below(other, s.dev.nextHandle) && Separate(s.handles, other)
    requires sizes != []
    ensures var r := Step(o, s, addr, sizes, act);
      && r.dev.Valid() && |r.handles| == |sizes| && Same(s.dev, r.dev, other, addr', size')
      && s.dev.nextHandle <= r.dev.nextHandle
      && Below(r.handles, r.dev.nextHandle) && Separate(r.handles, other)
  {
    hide Step, Offset;
    RunKeeps(o, s, addr, sizes, []);
    StepSpares(o, s, s, addr, sizes, act);
    StepHandles(o, s, addr, sizes, act);
    ChunkInside(addr, sizes, 0);
    var r := Step(o, s, addr, sizes, act);
    forall h | h in r.handles ensures h !in other {
      var j :| 0 <= j < |r.handles| && r.handles[j] == h;
      assert Own(s.handles, s.dev.nextHandle, r.handles[j]);
    }
  }

  /** The table only ever holds handles that were made. */
  lemma {:induction false} StepHandles(o: Oracle, s: Region, addr: nat, sizes: seq<nat>, act: Act)
    requires |s.handles| == |sizes| && s.dev.Valid() && Positive(sizes)
    requires Below(s.handles, s.dev.nextHandle)
    ensures var r := Step(o, s, addr, sizes, act); Below(r.handles, r.dev.nextHandle)
  {
    hide CreateLoop, MapLoop, UnmapAndRelease, Offset;
    if act.Wake? {
      MadeHandles(o, s.dev, s.err, sizes, |sizes|);
      BackingCounter(o, s.dev, s.err, addr, sizes);
      var r := Step(o, s, addr, sizes, act);
      var made := CreateAndMap(o, s.dev, s.err, addr, sizes).handles;
      forall j | 0 <= j < |sizes| ensures r.handles[j] < r.dev.nextHandle {
        assert r.handles[j] == if j < |made| then made[j] else s.handles[j];
      }
    } else {
      SleepSpares(o, s.dev, s.err, addr, sizes, s.handles, s.handles, s.dev.nextHandle);
    }
  }

  lemma {:induction false} MadeHandles(o: Oracle, d: Dev, err: int, sizes: seq<nat>, k: nat)
    requires k <= |sizes| && d.Valid()
    ensures var p := CreateLoop(o, d, err, sizes, k);
      p.dev.nextHandle >= d.nextHandle && Below(p.handles, p.dev.nextHandle)
    decreases k
  {
    hide ReleaseLoop;
    if k > 0 {
      MadeHandles(o, d, err, sizes, k - 1);
      var p := CreateLoop(o, d, err, sizes, k - 1);
      if !p.stopped {
        var d1 := Create(o, p.dev, sizes[k - 1]).0;
        ReleaseCounter(o, d1, p.handles, |p.handles|, 0);
      }
    }
  }

  lemma {:induction false} ReleaseCounter(o: Oracle, d: Dev, hs: seq<nat>, k: nat, first: int)
    requires k <= |hs|
    ensures ReleaseLoop(o, d, hs, k, first).0.nextHandle == d.nextHandle
  {
    if k > 0 {
      ReleaseCounter(o, d, hs, k - 1, first);
    }
  }

  lemma {:induction false} UnmapCounter(o: Oracle, d: Dev, addr: nat, sizes: seq<nat>, k: nat, first: int)
    requires k <= |sizes|
    ensures UnmapLoop(o, d, addr, sizes, k, first).0.nextHandle == d.nextHandle
  {
    hide Offset;
    if k > 0 {
      UnmapCounter(o, d, addr, sizes, k - 1, first);
    }
  }

  lemma {:induction false} MapCounter(o: Oracle, d: Dev, err: int, addr: nat, sizes: seq<nat>, hs: seq<nat>, k: nat)
    requires k <= |sizes| == |hs|
    ensures MapLoop(o, d, err, addr, sizes, hs, k).dev.nextHandle == d.nextHandle
    decreases k
  {
    hide ReleaseLoop, UnmapLoop, Offset;
    if k > 0 {
      MapCounter(o, d, err, addr, sizes, hs, k - 1);
      var p := MapLoop(o, d, err, addr, sizes, hs, k - 1);
      if !p.stopped {
        var d1 := Map(o, p.dev, addr + Offset(sizes, k - 1), sizes[k - 1], hs[k - 1]).0;
        UnmapCounter(o, d1, addr, sizes, k - 1, 0);
        ReleaseCounter(o, UnmapLoop(o, d1, addr, sizes, k - 1, 0).0, hs, |hs|, 0);
      }
    }
  }

  lemma {:induction false} BackingCounter(o: Oracle, d: Dev, err: int, addr: nat, sizes: seq<nat>)
    requires d.Valid()
    ensures var r := CreateAndMap(o, d, err, addr, sizes);
      && r.dev.nextHandle == CreateLoop(o, d, err, sizes, |sizes|).dev.nextHandle
      && r.handles == CreateLoop(o, d, err, sizes, |sizes|).handles
  {
    hide CreateLoop, MapLoop;
    var p := CreateLoop(o, d, err, sizes, |sizes|);
    HandleCount(o, d, err, sizes, |sizes|);
    if !p.stopped {
      MapCounter(o, p.dev, p.err, addr, sizes, p.handles, |sizes|);
      SameHandles(o, p.dev, p.err, addr, sizes, p.handles, |sizes|);
    }
  }

  /** One step of one allocation, whatever fails in it, leaves the other alone and both sound. */
  lemma {:induction false} PairStepApart(o: Oracle, p: Places, s: Pair, first: bool, act: Act)
    requires p.Apart() && Sound(p, s)
    ensures var r := PairStep(o, p, s, first, act);
      && Sound(p, r)
      && (if first then r.b == s.b && Same(s.dev, r.dev, s.b, p.addrB, Offset(p.sizesB, |p.sizesB|))
          else r.a == s.a && Same(s.dev, r.dev, s.a, p.addrA, Offset(p.sizesA, |p.sizesA|)))
  {
    hide Step, Offset, Same;
    ChunkInside(p.addrA, p.sizesA, 0);
    ChunkInside(p.addrB, p.sizesB, 0);
    if first {
      OneStepApart(o, Region(s.dev, s.err, s.a, false), p.addrA, p.sizesA, act,
                   s.b, p.addrB, Offset(p.sizesB, |p.sizesB|));
    } else {
      OneStepApart(o, Region(s.dev, s.err, s.b, false), p.addrB, p.sizesB, act,
                   s.a, p.addrA, Offset(p.sizesA, |p.sizesA|));
    }
  }

  function PairRun(o: Oracle, p: Places, s: Pair, acts: seq<(bool, Act)>): (r: Pair)
    requires |s.a| == |p.sizesA| && |s.b| == |p.sizesB|
    ensures |r.a| == |p.sizesA| && |r.b| == |p.sizesB|
  {
    if acts == [] then s
    else PairStep(o, p, PairRun(o, p, s, acts[..|acts| - 1]), acts[|acts| - 1].0, acts[|acts| - 1].1)
  }

  lemma {:induction false} PairRunSound(o: Oracle, p: Places, s: Pair, acts: seq<(bool, Act)>)
    requires p.Apart() && Sound(p, s)
    ensures Sound(p, PairRun(o, p, s, acts))
  {
    hide PairStep;
    if acts != [] {
      var init, last := acts[..|acts| - 1], acts[|acts| - 1];
      PairRunSound(o, p, s, init);
      PairStepApart(o, p, PairRun(o, p, s, init), last.0, last.1);
    }
  }

  /** In every interleaved run of wake-ups and sleeps of two allocations in separate ranges, whatever
      driver calls fail in it, every step of one leaves the handles, the mappings and a reservation
      still held of the other as they were, and the two never come to share a handle. */
  lemma {:induction false} AllocationsStayApart(o: Oracle, p: Places, s: Pair, acts: seq<(bool, Act)>, k: nat)
    requires p.Apart() && Sound(p, s) && k < |acts|
    ensures var r, r' := PairRun(o, p, s, acts[..k]), PairRun(o, p, s, acts[..k + 1]);
      && Sound(p, r') && Sound(p, r)
      && (if acts[k].0 then r'.b == r.b && Same(r.dev, r'.dev, r.b, p.addrB, Offset(p.sizesB, |p.sizesB|))
          else r'.a == r.a && Same(r.dev, r'.dev, r.a, p.addrA, Offset(p.sizesA, |p.sizesA|)))
  {
    hide PairStep, Same, Offset;
    PairRunSound(o, p, s, acts[..k]);
    assert acts[..k + 1][..k] == acts[..k];
    PairStepApart(o, p, PairRun(o, p, s, acts[..k]), acts[k].0, acts[k].1);
  }
}

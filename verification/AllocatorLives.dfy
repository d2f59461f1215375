/** The whole life of an allocation: reserved and backed, put to sleep and woken, and freed; and what
    becomes of one whose address range was lost on the way. */
module AllocatorLives {
  import opened Sequences
  import opened Chunking
  import opened Driver
  import opened Allocator
  import opened AllocatorRuns

  /** `b` is a device on which the allocation is reserved and asleep; it is gone from `r`. */
  predicate Gone(b: Dev, r: Dev, addr: nat) {
    r.live == b.live && r.maps == b.maps && r.reserved == b.reserved - {addr}
  }

  /** With the reservation at `addr` free again the driver would reserve where it chooses to. */
  predicate Room(b: Dev, addr: nat, at: nat, size: nat) {
    b.(reserved := b.reserved - {addr}).Unreserved(at, size) && at !in b.reserved - {addr}
  }

  /** From log position `k` on the address range goes: it is not cycled and the free behind that
      succeeds, or it is freed and not reserved again, or what was reserved instead is freed. */
  predicate RangeGoes(o: Oracle, b: Dev, addr: nat, size: nat, k: nat) {
    if o.fails(k) != 0 then o.fails(k + 1) == 0
    else o.fails(k + 1) != 0 || !Room(b, addr, o.places(k + 1), size) || o.fails(k + 2) == 0
  }

  /** Cycling an idle range and then freeing it. */
  function CycleAndFree(o: Oracle, d: Dev, err: int, addr: nat, size: nat): (Dev, int) {
    var (d3, e3) := AddressFree(o, d, addr, size);
    var (r, e) :=
      if e3 != 0 then (d3, e3)
      else
        var (d4, e4, at) := AddressReserve(o, d3, size, addr);
        if e4 != 0 then (d4, e4) else if at != addr then (AddressFree(o, d4, at, size).0, 1) else (d4, err);
    var (r', e') := AddressFree(o, r, addr, size);
    (r', if e' != 0 then e' else e)
  }

  lemma {:induction false} RangeOutcome(o: Oracle, b: Dev, d: Dev, err: int, addr: nat, size: nat)
    requires Idle(b, addr, size) && d.live == b.live && d.maps == b.maps && d.reserved == b.reserved && d.Valid()
    ensures var (r, e) := CycleAndFree(o, d, err, addr, size);
      var k := |d.log|;
      && (Gone(b, r, addr) <==> RangeGoes(o, b, addr, size, k))
      && (e == 0 <==> err == 0 && AllGood(o, k, k + 3) && o.places(k + 1) == addr)
  {
    var k := |d.log|;
    assert d.Clear(addr, size);
    var (d3, e3) := AddressFree(o, d, addr, size);
    if e3 == 0 {
      AddressFreeValid(o, d, addr, size);
      var (d4, e4, at) := AddressReserve(o, d3, size, addr);
      if e4 == 0 {
        UnreservedIsClear(d3, at, size);
        assert d4.reserved[at] == size && d4.reserved - {at} == d3.reserved;
      }
    }
    assert AllGood(o, k, k + 3) <==> o.fails(k) == 0 && o.fails(k + 1) == 0 && o.fails(k + 2) == 0;
    if o.fails(k) == 0 && o.fails(k + 1) == 0 && o.places(k + 1) == addr {
      assert d3.Unreserved(addr, size);
    }
  }

  // ----- freeing

  /** Freeing an allocation that is awake, with the size that was asked for: it is removed from the
      device exactly when that is the size that was reserved, every chunk can be unmapped and every
      handle released, and the address range goes. It leaves no error code exactly when the sizes
      agree, no call fails at all and the cycled range comes back where it was. */
  lemma {:induction false} FreeAwake(o: Oracle, b: Dev, d: Dev, err: int, addr: nat, size: nat, asked: nat,
                                     sizes: seq<nat>, hs: seq<nat>)
    requires Idle(b, addr, size) && Positive(sizes) && size == Offset(sizes, |sizes|)
    requires Backs(b, d, addr, sizes, hs)
    ensures var (r, e) := FreeAll(o, d, err, addr, asked, sizes, hs);
      var k := |d.log| + 2 * |sizes|;
      && (Gone(b, r, addr) <==> asked == size && AllGood(o, |d.log|, k) && RangeGoes(o, b, addr, size, k))
      && (e == 0 <==> asked == size && err == 0 && AllGood(o, |d.log|, k + 3) && o.places(k + 1) == addr)
  {
    hide UnmapLoop, ReleaseLoop, Offset, FirstError, AddressFree, AddressReserve, Backs, CycleAndFree, RangeGoes;
    var n, from := |sizes|, |d.log|;
    ChunksLeft(o, b, d, addr, size, sizes, hs);
    var (d1, e1) := UnmapLoop(o, d, addr, sizes, n, 0);
    var (d2, e2) := ReleaseLoop(o, d1, hs, n, e1);
    if e2 == 0 {
      CycleUnfolds(o, d, err, addr, asked, sizes, hs);
      if asked == size {
        RangeOutcome(o, b, d2, err, addr, size);
      } else {
        WrongSize(o, b, d2, err, addr, size, asked);
      }
    } else {
      FreeUnchanged(o, d2, addr, asked);
    }
    var k := from + 2 * n;
    assert AllGood(o, from, k + 3) <==> AllGood(o, from, k) && AllGood(o, k, k + 3);
  }

  /** A range is not freed by any other size than its own. */
  lemma {:induction false} WrongSize(o: Oracle, b: Dev, d: Dev, err: int, addr: nat, size: nat, asked: nat)
    requires Idle(b, addr, size) && d.reserved == b.reserved && asked != size
    ensures var (r, e) := CycleAndFree(o, d, err, addr, asked); !Gone(b, r, addr) && e != 0
  {
  }

  lemma {:induction false} FreeUnchanged(o: Oracle, d: Dev, addr: nat, size: nat)
    ensures AddressFree(o, d, addr, size).0.live == d.live && AddressFree(o, d, addr, size).0.maps == d.maps
  {
  }

  lemma {:induction false} CycleUnfolds(o: Oracle, d: Dev, err: int, addr: nat, size: nat, sizes: seq<nat>,
                                        hs: seq<nat>)
    requires |sizes| == |hs|
    requires var (d1, e1) := UnmapLoop(o, d, addr, sizes, |sizes|, 0); ReleaseLoop(o, d1, hs, |hs|, e1).1 == 0
    ensures var (d1, e1) := UnmapLoop(o, d, addr, sizes, |sizes|, 0);
      FreeAll(o, d, err, addr, size, sizes, hs) == CycleAndFree(o, ReleaseLoop(o, d1, hs, |hs|, e1).0, err, addr, size)
  {
    hide UnmapLoop, ReleaseLoop, AddressFree, AddressReserve;
  }

  /** The loops over the chunks take everything back exactly when no call of theirs fails, and report
      an error exactly when one does. */
  lemma {:induction false} ChunksLeft(o: Oracle, b: Dev, d: Dev, addr: nat, size: nat, sizes: seq<nat>, hs: seq<nat>)
    requires Idle(b, addr, size) && Positive(sizes) && size == Offset(sizes, |sizes|) && Backs(b, d, addr, sizes, hs)
    ensures |hs| == |sizes|
    ensures var n, from := |sizes|, |d.log|;
      var (d1, e1) := UnmapLoop(o, d, addr, sizes, n, 0);
      var (d2, e2) := ReleaseLoop(o, d1, hs, n, e1);
      && |d2.log| == from + 2 * n && d2.reserved == b.reserved && d2.Valid()
      && (e2 == 0 <==> AllGood(o, from, from + 2 * n))
      && (d2.live == b.live && d2.maps == b.maps <==> e2 == 0)
  {
    hide UnmapLoop, ReleaseLoop, Offset, At, Unmapped, Released, ChunkAt, FirstError;
    var n, from := |sizes|, |d.log|;
    ChunksUndone(o, b, d, addr, size, sizes, hs);
    UnmapShape(o, d, addr, sizes, hs, n, n, 0);
    var (d1, e1) := UnmapLoop(o, d, addr, sizes, n, 0);
    ReleaseShape(o, d1, hs, n, e1);
    var (d2, e2) := ReleaseLoop(o, d1, hs, n, e1);
    LoopsValid(o, d, addr, sizes, hs);
    if e2 == 0 {
      NoFirstError(o, from, n, n);
    } else {
      SomeFirstError(o, from, n, n);
      SomethingLeft(o, b, d, d2, addr, sizes, hs);
    }
  }

  lemma {:induction false} LoopsValid(o: Oracle, d: Dev, addr: nat, sizes: seq<nat>, hs: seq<nat>)
    requires d.Valid() && Positive(sizes) && |hs| == |sizes|
    ensures var (d1, e1) := UnmapLoop(o, d, addr, sizes, |sizes|, 0); ReleaseLoop(o, d1, hs, |hs|, e1).0.Valid()
  {
    hide UnmapLoop, ReleaseLoop, Offset, Spares;
    UnmapSpares(o, d, addr, sizes, |sizes|, 0, hs, d.nextHandle);
    var (d1, e1) := UnmapLoop(o, d, addr, sizes, |sizes|, 0);
    ReleaseSpares(o, d1, hs, |hs|, e1, addr, Offset(sizes, |sizes|), hs, d.nextHandle);
  }

  /** Where an error was met some call failed. */
  lemma {:induction false} SomeFirstError(o: Oracle, from: nat, n: nat, k: nat)
    requires k <= n && FirstError(o, from + n, k, FirstError(o, from, n, 0)) != 0
    ensures exists q :: from <= q < from + n + k && o.fails(q) != 0
    decreases k
  {
    if k == 0 {
      SomeFirstErrorIn(o, from, n);
    } else if o.fails(from + n + k - 1) == 0 {
      SomeFirstError(o, from, n, k - 1);
    }
  }

  lemma {:induction false} SomeFirstErrorIn(o: Oracle, from: nat, n: nat)
    requires FirstError(o, from, n, 0) != 0
    ensures exists q :: from <= q < from + n && o.fails(q) != 0
  {
    if n > 0 && o.fails(from + n - 1) == 0 {
      SomeFirstErrorIn(o, from, n - 1);
    }
  }

  /** A failed call leaves its chunk mapped or its handle live. */
  lemma {:induction false} SomethingLeft(o: Oracle, b: Dev, d: Dev, d2: Dev, addr: nat, sizes: seq<nat>, hs: seq<nat>)
    requires b.Valid() && Positive(sizes) && b.Ready(addr, Offset(sizes, |sizes|)) && Backs(b, d, addr, sizes, hs)
    requires forall a :: a in d2.maps <==> a in d.maps && !Unmapped(o, |d.log|, addr, sizes, |sizes|, a)
    requires forall h :: h in d2.live <==> h in d.live && !Released(o, |d.log| + |sizes|, hs, |sizes|, h)
    requires exists q :: |d.log| <= q < |d.log| + |sizes| + |sizes| && o.fails(q) != 0
    ensures d2.live != b.live || d2.maps != b.maps
  {
    hide Offset, At;
    var n, from := |sizes|, |d.log|;
    var q :| from <= q < from + n + n && o.fails(q) != 0;
    if q < from + n {
      var j := q - from;
      var a := At(addr, sizes, j);
      assert Placed(d, addr, sizes, hs, j);
      forall i | 0 <= i < n && At(addr, sizes, i) == a ensures i == j {
        if i < j {
          AtInjective(addr, sizes, i, j);
        } else if j < i {
          AtInjective(addr, sizes, j, i);
        }
      }
      if a in b.maps {
        OldIsNoChunk(b, addr, sizes, j, a);
      }
      assert a in d2.maps && a !in b.maps;
    } else {
      var j := q - from - n;
      assert hs[j] in d2.live && hs[j] !in b.live;
    }
  }

  /** Freeing an allocation that is asleep cannot unmap or release anything, so it does not cycle its
      range: it removes the allocation exactly when the size asked for is the one reserved and its last
      call, the address free, succeeds. Unless the allocation is empty it leaves an error code behind in
      every case. */
  lemma {:induction false} FreeAsleep(o: Oracle, b: Dev, err: int, addr: nat, size: nat, asked: nat,
                                      sizes: seq<nat>, hs: seq<nat>)
    requires Idle(b, addr, size) && Positive(sizes) && size == Offset(sizes, |sizes|) && sizes != []
    requires |hs| == |sizes| && forall j :: 0 <= j < |hs| ==> hs[j] !in b.live
    ensures var (r, e) := FreeAll(o, b, err, addr, asked, sizes, hs);
      (Gone(b, r, addr) <==> asked == size && o.fails(|b.log| + 2 * |sizes|) == 0) && e != 0
  {
    hide UnmapLoop, ReleaseLoop, Offset, AddressFree, AddressReserve;
    var n := |sizes|;
    NothingToUnmap(o, b, addr, sizes, n);
    var (d1, e1) := UnmapLoop(o, b, addr, sizes, n, 0);
    NothingToRelease(o, d1, hs, n, e1);
    var (d2, e2) := ReleaseLoop(o, d1, hs, n, e1);
    FreeIdle(o, b, d2, addr, size, asked);
  }

  lemma {:induction false} FreeIdle(o: Oracle, b: Dev, d: Dev, addr: nat, size: nat, asked: nat)
    requires Idle(b, addr, size) && d.live == b.live && d.maps == b.maps && d.reserved == b.reserved
    ensures Gone(b, AddressFree(o, d, addr, asked).0, addr) <==> asked == size && o.fails(|d.log|) == 0
  {
    assert d.Clear(addr, size);
  }

  lemma {:induction false} NothingToUnmap(o: Oracle, b: Dev, addr: nat, sizes: seq<nat>, k: nat)
    requires b.Valid() && Positive(sizes) && b.Ready(addr, Offset(sizes, |sizes|)) && k <= |sizes|
    ensures var (r, e) := UnmapLoop(o, b, addr, sizes, k, 0);
      r.live == b.live && r.maps == b.maps && r.reserved == b.reserved && |r.log| == |b.log| + k && (k > 0 ==> e != 0)
  {
    hide Offset;
    if k > 0 {
      NothingToUnmap(o, b, addr, sizes, k - 1);
      if At(addr, sizes, k - 1) in b.maps {
        OldIsNoChunk(b, addr, sizes, k - 1, At(addr, sizes, k - 1));
      }
    }
  }

  lemma {:induction false} NothingToRelease(o: Oracle, d: Dev, hs: seq<nat>, k: nat, first: int)
    requires k <= |hs| && forall j :: 0 <= j < |hs| ==> hs[j] !in d.live
    ensures var (r, e) := ReleaseLoop(o, d, hs, k, first);
      && r.live == d.live && r.maps == d.maps && r.reserved == d.reserved && |r.log| == |d.log| + k
      && (first != 0 || k > 0 ==> e != 0)
  {
    if k > 0 {
      NothingToRelease(o, d, hs, k - 1, first);
    }
  }

  // ----- a whole life

  /** Nights: sleep, wake, sleep, wake, ... */
  predicate Alternating(acts: seq<Act>) {
    forall i :: 0 <= i < |acts| ==> acts[i] == if i % 2 == 0 then Sleep else Wake
  }

  predicate NoneRaised(o: Oracle, s: Region, addr: nat, sizes: seq<nat>, acts: seq<Act>)
    requires |s.handles| == |sizes|
  {
    forall k :: 1 <= k <= |acts| ==> !Run(o, s, addr, sizes, acts[..k]).raised
  }

  /** The allocation is asleep on the device `b` describes, and its old handles are gone. */
  predicate Asleep(b: Dev, s: Region) {
    Untouched(b, s.dev) && s.dev.Valid() && forall j :: 0 <= j < |s.handles| ==> s.handles[j] !in b.live
  }

  /** Awake after an even number of successful steps, asleep after an odd one, and otherwise as before. */
  lemma {:induction false} Nights(o: Oracle, b: Dev, s: Region, addr: nat, size: nat, sizes: seq<nat>, acts: seq<Act>)
    requires Idle(b, addr, size) && Positive(sizes) && size == Offset(sizes, |sizes|) && s.err == 0
    requires |s.handles| == |sizes| && Backs(b, s.dev, addr, sizes, s.handles) && Alternating(acts)
    requires NoneRaised(o, s, addr, sizes, acts)
    ensures var r := Run(o, s, addr, sizes, acts);
      r.err == 0 && if |acts| % 2 == 0 then Backs(b, r.dev, addr, sizes, r.handles) else Asleep(b, r)
  {
    hide Step, Backs, Asleep, Offset;
    if acts != [] {
      var init := acts[..|acts| - 1];
      assert NoneRaised(o, s, addr, sizes, init) by {
        forall k | 1 <= k <= |init| ensures !Run(o, s, addr, sizes, init[..k]).raised {
          assert init[..k] == acts[..k];
        }
      }
      Nights(o, b, s, addr, size, sizes, init);
      assert acts[..|acts|] == acts;
      var r := Run(o, s, addr, sizes, init);
      if |init| % 2 == 0 {
        FallsAsleep(o, b, r, addr, size, sizes);
      } else {
        WakesUp(o, b, r, addr, size, sizes);
      }
    }
  }

  lemma {:induction false} FallsAsleep(o: Oracle, b: Dev, s: Region, addr: nat, size: nat, sizes: seq<nat>)
    requires Idle(b, addr, size) && Positive(sizes) && size == Offset(sizes, |sizes|) && s.err == 0
    requires |s.handles| == |sizes| && Backs(b, s.dev, addr, sizes, s.handles) && !Step(o, s, addr, sizes, Sleep).raised
    ensures Asleep(b, Step(o, s, addr, sizes, Sleep)) && Step(o, s, addr, sizes, Sleep).err == 0
  {
    hide UnmapAndRelease, Offset, Spares, FirstError;
    UnmapOutcome(o, b, s.dev, addr, size, sizes, s.handles);
    SleepSpares(o, s.dev, 0, addr, sizes, s.handles, s.handles, s.dev.nextHandle);
  }

  lemma {:induction false} WakesUp(o: Oracle, b: Dev, s: Region, addr: nat, size: nat, sizes: seq<nat>)
    requires Idle(b, addr, size) && Positive(sizes) && size == Offset(sizes, |sizes|) && s.err == 0
    requires |s.handles| == |sizes| && Asleep(b, s) && !Step(o, s, addr, sizes, Wake).raised
    ensures var r := Step(o, s, addr, sizes, Wake); Backs(b, r.dev, addr, sizes, r.handles) && r.err == 0
  {
    hide CreateAndMap, Offset, Backs;
    SameHolds(b, s.dev);
    CreateSucceeds(o, s.dev, addr, sizes);
    var c := CreateAndMap(o, s.dev, 0, addr, sizes);
    SameBase(s.dev, b, c.dev, addr, sizes, c.handles);
    assert Rewritten(s.handles, c.handles) == c.handles;
  }

  lemma {:induction false} ReservedIsIdle(o: Oracle, d: Dev, size: nat)
    requires d.Valid() && Reserves(o, d, size)
    ensures var at := o.places(|d.log| + 1); Idle(d.(reserved := d.reserved[at := size]), at, size)
  {
    var at := o.places(|d.log| + 1);
    var b := d.(reserved := d.reserved[at := size]);
    UnreservedIsClear(d, at, size);
    assert at in b.reserved && b.reserved[at] == size;
    forall a | a in b.maps ensures b.Holds(a, b.maps[a].size) {
      assert d.Holds(a, d.maps[a].size);
      var r :| r in d.reserved && r <= a && a + d.maps[a].size <= r + d.reserved[r];
      assert r in b.reserved;
    }
  }

  /** The size reserved is the size asked for exactly when that is a multiple of the granularity. */
  lemma {:induction false} AlignedIff(asked: nat, g: nat)
    requires g > 0
    ensures AlignUp(asked, g) == asked <==> asked % g == 0
  {
    AlignUpIsAligned(asked, g);
    hide AlignUp;
    if asked % g == 0 && AlignUp(asked, g) != asked {
      AlignedDifference(AlignUp(asked, g), asked, g);
      DivModSmall(AlignUp(asked, g) - asked, g);
      assert false;
    }
  }

  /** A request for `asked` bytes that succeeded at granularity `g`, any nights without an exception, and
      the free, whatever fails in it: handles, mappings and reservations are what they were before the
      allocation exactly when the request was a multiple of the granularity and, awake, every chunk call
      of the free succeeds and the address range goes, or, asleep, its last call succeeds. It leaves no
      error code exactly when the request was such a multiple, it was awake, no call of the free fails
      and the cycled range comes back where it was. */
  lemma {:induction false} WholeLife(o: Oracle, d: Dev, asked: nat, g: nat, sizes: seq<nat>, acts: seq<Act>)
    requires g > 0
    requires d.Valid() && Positive(sizes) && AlignUp(asked, g) == Offset(sizes, |sizes|) && Alternating(acts)
    requires Malloc(o, d, 0, AlignUp(asked, g), sizes, true).ptr.Ok?
    requires var m := Malloc(o, d, 0, AlignUp(asked, g), sizes, true);
      |m.handles| == |sizes| ==> NoneRaised(o, Region(m.dev, 0, m.handles, false), m.ptr.value, sizes, acts)
    ensures var aligned := AlignUp(asked, g);
      var m := Malloc(o, d, 0, aligned, sizes, true);
      |m.handles| == |sizes| &&
      var at, s := m.ptr.value, Run(o, Region(m.dev, 0, m.handles, false), m.ptr.value, sizes, acts);
      var (r, e) := FreeAll(o, s.dev, s.err, at, asked, sizes, s.handles);
      var b := d.(reserved := d.reserved[at := aligned]);
      var k, awake := |s.dev.log| + 2 * |sizes|, |acts| % 2 == 0 || sizes == [];
      && (Untouched(d, r) <==>
            && asked % g == 0
            && if awake then AllGood(o, |s.dev.log|, k) && RangeGoes(o, b, at, aligned, k) else o.fails(k) == 0)
      && (e == 0 <==> asked % g == 0 && awake && AllGood(o, |s.dev.log|, k + 3) && o.places(k + 1) == at)
  {
    hide Malloc, FreeAll, Run, Offset, Backs, RangeGoes, NoneRaised, Reserves, Idle, AlignUp;
    AlignedIff(asked, g);
    var aligned := AlignUp(asked, g);
    var m := Malloc(o, d, 0, aligned, sizes, true);
    var base := MallocOutcome(o, d, 0, aligned, sizes, true);
    var at := m.ptr.value;
    var b := d.(reserved := d.reserved[at := aligned]);
    ReservedIsIdle(o, d, aligned);
    BackedShape(b, m.dev, at, sizes, m.handles);
    var s0 := Region(m.dev, 0, m.handles, false);
    Nights(o, b, s0, at, aligned, sizes, acts);
    var s := Run(o, s0, at, sizes, acts);
    var r := FreeAll(o, s.dev, s.err, at, asked, sizes, s.handles).0;
    assert at !in d.reserved by { PlaceIsNew(o, d, aligned); }
    assert b.reserved - {at} == d.reserved;
    if |acts| % 2 == 0 {
      FreeAwake(o, b, s.dev, 0, at, aligned, asked, sizes, s.handles);
    } else if sizes == [] {
      EmptyIsAwake(b, s, at);
      FreeAwake(o, b, s.dev, 0, at, aligned, asked, sizes, s.handles);
    } else {
      SleepingBase(b, s, at, aligned);
      FreeAsleep(o, s.dev, 0, at, aligned, asked, sizes, s.handles);
    }
  }

  /** So a request that is no multiple of the granularity is never given back, whatever succeeds: its
      address range stays reserved and the error code stays set. */
  lemma {:induction false} UnalignedIsNeverFreed(o: Oracle, d: Dev, asked: nat, g: nat, sizes: seq<nat>)
    requires g > 0 && asked % g != 0
    requires d.Valid() && Positive(sizes) && AlignUp(asked, g) == Offset(sizes, |sizes|)
    requires Malloc(o, d, 0, AlignUp(asked, g), sizes, true).ptr.Ok?
    ensures var m := Malloc(o, d, 0, AlignUp(asked, g), sizes, true);
      |m.handles| == |sizes| &&
      var (r, e) := FreeAll(o, m.dev, 0, m.ptr.value, asked, sizes, m.handles);
      m.ptr.value in r.reserved && e != 0
  {
    hide Malloc, FreeAll, Offset, Backs, RangeGoes, AlignUp;
    WholeLife(o, d, asked, g, sizes, []);
    AlignedIff(asked, g);
    var m := Malloc(o, d, 0, AlignUp(asked, g), sizes, true);
    var base := MallocOutcome(o, d, 0, AlignUp(asked, g), sizes, true);
    var at := m.ptr.value;
    BackedShape(d.(reserved := d.reserved[at := AlignUp(asked, g)]), m.dev, at, sizes, m.handles);
    assert m.ptr.value in m.dev.reserved && m.dev.reserved[m.ptr.value] == AlignUp(asked, g);
    KeepsWrongSize(o, m.dev, m.ptr.value, AlignUp(asked, g), asked, sizes, m.handles);
  }

  lemma {:induction false} KeepsWrongSize(o: Oracle, d: Dev, addr: nat, size: nat, asked: nat, sizes: seq<nat>,
                                          hs: seq<nat>)
    requires addr in d.reserved && d.reserved[addr] == size && asked != size && |hs| == |sizes|
    ensures addr in FreeAll(o, d, 0, addr, asked, sizes, hs).0.reserved
  {
    hide UnmapLoop, ReleaseLoop;
    UnmapReserved(o, d, addr, sizes, |sizes|, 0);
    var (d1, e1) := UnmapLoop(o, d, addr, sizes, |sizes|, 0);
    ReleaseReserved(o, d1, hs, |hs|, e1);
  }

  lemma {:induction false} UnmapReserved(o: Oracle, d: Dev, addr: nat, sizes: seq<nat>, k: nat, first: int)
    requires k <= |sizes|
    ensures UnmapLoop(o, d, addr, sizes, k, first).0.reserved == d.reserved
  {
    hide Offset;
    if k > 0 {
      UnmapReserved(o, d, addr, sizes, k - 1, first);
    }
  }

  lemma {:induction false} ReleaseReserved(o: Oracle, d: Dev, hs: seq<nat>, k: nat, first: int)
    requires k <= |hs|
    ensures ReleaseLoop(o, d, hs, k, first).0.reserved == d.reserved
  {
    if k > 0 {
      ReleaseReserved(o, d, hs, k - 1, first);
    }
  }

  lemma {:induction false} BackedShape(b: Dev, d: Dev, addr: nat, sizes: seq<nat>, hs: seq<nat>)
    requires Backs(b, d, addr, sizes, hs)
    ensures |hs| == |sizes| && d.reserved == b.reserved
  {
  }

  lemma {:induction false} PlaceIsNew(o: Oracle, d: Dev, size: nat)
    requires Reserves(o, d, size)
    ensures o.places(|d.log| + 1) !in d.reserved
  {
  }

  lemma {:induction false} EmptyIsAwake(b: Dev, s: Region, addr: nat)
    requires Asleep(b, s) && s.handles == []
    ensures Backs(b, s.dev, addr, [], s.handles)
  {
  }

  lemma {:induction false} SleepingBase(b: Dev, s: Region, addr: nat, size: nat)
    requires Idle(b, addr, size) && Asleep(b, s)
    ensures Idle(s.dev, addr, size)
    ensures forall r: Dev :: Gone(s.dev, r, addr) <==> Gone(b, r, addr)
  {
    SameHolds(b, s.dev);
  }

  // ----- lost address ranges

  /** A sleep loses the address range exactly when all its calls succeed up to giving the range back and
      the driver then fails, has no room, or places the new reservation elsewhere. The allocation's
      handles and mappings are gone by then, and the sleep reports an error. */
  lemma {:induction false} RangeLost(o: Oracle, b: Dev, d: Dev, addr: nat, size: nat, sizes: seq<nat>, hs: seq<nat>)
    requires Idle(b, addr, size) && Positive(sizes) && size == Offset(sizes, |sizes|) && Backs(b, d, addr, sizes, hs)
    ensures var (r, e) := UnmapAndRelease(o, d, 0, addr, size, sizes, hs);
      var k := |d.log| + 2 * |sizes|;
      && (addr !in r.reserved <==>
            && AllGood(o, |d.log|, k + 1)
            && (o.fails(k + 1) != 0 || !Room(b, addr, o.places(k + 1), size) || o.places(k + 1) != addr))
      && (addr !in r.reserved ==> e != 0 && r.live == b.live && r.maps == b.maps && r.Valid())
  {
    hide UnmapLoop, ReleaseLoop, Offset, FirstError, Backs, AddressFree, AddressReserve, Room;
    ChunksLeft(o, b, d, addr, size, sizes, hs);
    var (d1, e1) := UnmapLoop(o, d, addr, sizes, |sizes|, 0);
    var (d2, e2) := ReleaseLoop(o, d1, hs, |hs|, e1);
    var k := |d2.log|;
    assert AllGood(o, |d.log|, k + 1) <==> AllGood(o, |d.log|, k) && o.fails(k) == 0;
    if e2 == 0 {
      CyclingLoses(o, b, d2, addr, size);
    }
  }

  lemma {:induction false} CyclingLoses(o: Oracle, b: Dev, d: Dev, addr: nat, size: nat)
    requires Idle(b, addr, size) && d.live == b.live && d.maps == b.maps && d.reserved == b.reserved && d.Valid()
    ensures var (d3, e3) := AddressFree(o, d, addr, size);
      var (d4, e4, at) := AddressReserve(o, d3, size, addr);
      var d5 := AddressFree(o, d4, at, size).0;
      var k := |d.log|;
      && (e3 == 0 <==> o.fails(k) == 0) && (e3 != 0 ==> addr in d3.reserved)
      && (e3 == 0 ==>
            && (e4 == 0 <==> o.fails(k + 1) == 0 && Room(b, addr, o.places(k + 1), size))
            && (e4 == 0 ==> at == o.places(k + 1) && at in d4.reserved)
            && (e4 != 0 ==> addr !in d4.reserved)
            && (e4 == 0 && at != addr ==> addr !in d5.reserved)
            && d4.live == b.live && d4.maps == b.maps && d4.Valid() && d5.live == b.live && d5.maps == b.maps
            && d5.Valid())
  {
    assert d.Clear(addr, size);
    AddressFreeValid(o, d, addr, size);
    var d3 := AddressFree(o, d, addr, size).0;
    AddressReserveValid(o, d3, size, addr);
    var (d4, e4, at) := AddressReserve(o, d3, size, addr);
    AddressFreeValid(o, d4, at, size);
  }

  /** Another allocation of the same size may then be placed on the lost range. The next sleep, or the
      free, of the first one unmaps it: of the new allocation exactly those chunks stay mapped whose
      unmapping fails, while all its handles stay live. */
  lemma {:induction false} TakenOverIsUnmapped(o: Oracle, d: Dev, addr: nat, size: nat, sizes: seq<nat>,
                                               stale: seq<nat>)
    requires d.Valid() && Positive(sizes) && size == Offset(sizes, |sizes|) && sizes != [] && addr !in d.reserved
    requires |stale| == |sizes|
    requires var m := Malloc(o, d, 0, size, sizes, true);
      m.ptr == Ok(addr) && forall j :: 0 <= j < |stale| ==> stale[j] !in m.dev.live
    ensures var m := Malloc(o, d, 0, size, sizes, true);
      var r := UnmapAndRelease(o, m.dev, 0, addr, size, sizes, stale).0;
      && (forall j :: 0 <= j < |sizes| ==> (At(addr, sizes, j) in r.maps <==> o.fails(|m.dev.log| + j) != 0))
      && (forall h :: h in m.handles ==> h in r.live)
  {
    hide Malloc, UnmapLoop, ReleaseLoop, Offset, AddressFree, AddressReserve, Reserves, FirstError, At, AllGood;
    var n, m := |sizes|, Malloc(o, d, 0, size, sizes, true);
    var base := MallocOutcome(o, d, 0, size, sizes, true);
    UnmapShape(o, m.dev, addr, sizes, m.handles, n, n, 0);
    var (d1, e1) := UnmapLoop(o, m.dev, addr, sizes, n, 0);
    NothingToRelease(o, d1, stale, n, e1);
    forall j | 0 <= j < n ensures At(addr, sizes, j) in d1.maps <==> o.fails(|m.dev.log| + j) != 0 {
      assert Placed(m.dev, addr, sizes, m.handles, j);
      ChunkUnmapped(o, |m.dev.log|, addr, sizes, j);
    }
  }

  lemma {:induction false} ChunkUnmapped(o: Oracle, from: nat, addr: nat, sizes: seq<nat>, j: nat)
    requires Positive(sizes) && j < |sizes|
    ensures Unmapped(o, from, addr, sizes, |sizes|, At(addr, sizes, j)) <==> o.fails(from + j) == 0
  {
    hide At;
    forall i | 0 <= i < |sizes| && At(addr, sizes, i) == At(addr, sizes, j) ensures i == j {
      if i < j {
        AtInjective(addr, sizes, i, j);
      } else if j < i {
        AtInjective(addr, sizes, j, i);
      }
    }
  }
}

/** The virtual-memory driver the ROCm allocator talks to. Any call may fail; every call is logged. */
module Driver {
  datatype Call =
    | CreateCall(size: nat) | MapCall(addr: nat, size: nat, handle: nat)
    | UnmapCall(addr: nat, size: nat) | ReleaseCall(handle: nat)
    | FreeCall(addr: nat, size: nat) | ReserveCall(size: nat, hint: nat) | QueryCall

  datatype Mapping = Mapping(size: nat, handle: nat)

  /** Error code of the `k`-th call (0 is success) and the address the `k`-th call would reserve. */
  datatype Oracle = Oracle(fails: nat -> int, places: nat -> nat)

  /** Codes for calls that are wrong rather than unlucky. */
  const INVALID := 1
  const NO_ROOM := 2

  datatype Dev = Dev(live: set<nat>, maps: map<nat, Mapping>, reserved: map<nat, nat>, nextHandle: nat, log: seq<Call>)
  {
    /** Handles are numbered in order of creation, no mapping is empty, and every mapping lies inside
        a reservation. */
    predicate Valid() {
      && (forall h :: h in live ==> h < nextHandle)
      && (forall a :: a in maps ==> maps[a].size > 0 && Holds(a, maps[a].size))
    }

    /** No mapping touches `addr .. addr + size`. */
    predicate Clear(addr: nat, size: nat) {
      forall a :: a in maps ==> a + maps[a].size <= addr || addr + size <= a
    }

    /** Some reservation contains `addr .. addr + size`. */
    predicate Holds(addr: nat, size: nat) {
      exists r :: r in reserved && r <= addr && addr + size <= r + reserved[r]
    }

    /** The range can be mapped: it is reserved and nothing is mapped there yet. */
    predicate Ready(addr: nat, size: nat) {
      Clear(addr, size) && Holds(addr, size)
    }

    predicate Unreserved(addr: nat, size: nat) {
      forall a :: a in reserved ==> a + reserved[a] <= addr || addr + size <= a
    }

    function Logged(c: Call): Dev {
      this.(log := log + [c])
    }
  }

  function Verdict(o: Oracle, d: Dev): int {
    o.fails(|d.log|)
  }

  /** `cuMemCreate`. */
  function Create(o: Oracle, d: Dev, size: nat): (Dev, int) {
    var d1 := d.Logged(CreateCall(size));
    if Verdict(o, d) != 0 then (d1, Verdict(o, d))
    else (d1.(live := d.live + {d.nextHandle}, nextHandle := d.nextHandle + 1), 0)
  }

  /** `cuMemMap`: the handle must be live and the range reserved and free. */
  function Map(o: Oracle, d: Dev, addr: nat, size: nat, handle: nat): (Dev, int) {
    var d1 := d.Logged(MapCall(addr, size, handle));
    if Verdict(o, d) != 0 then (d1, Verdict(o, d))
    else if handle !in d.live || !d.Ready(addr, size) then (d1, INVALID)
    else (d1.(maps := d.maps[addr := Mapping(size, handle)]), 0)
  }

  /** `cuMemUnmap`: undoes exactly one mapping. */
  function Unmap(o: Oracle, d: Dev, addr: nat, size: nat): (Dev, int) {
    var d1 := d.Logged(UnmapCall(addr, size));
    if Verdict(o, d) != 0 then (d1, Verdict(o, d))
    else if addr !in d.maps || d.maps[addr].size != size then (d1, INVALID)
    else (d1.(maps := d.maps - {addr}), 0)
  }

  /** `cuMemRelease`. */
  function Release(o: Oracle, d: Dev, handle: nat): (Dev, int) {
    var d1 := d.Logged(ReleaseCall(handle));
    if Verdict(o, d) != 0 then (d1, Verdict(o, d))
    else if handle !in d.live then (d1, INVALID)
    else (d1.(live := d.live - {handle}), 0)
  }

  /** `cuMemAddressFree`: the range must be reserved and hold no mapping. */
  function AddressFree(o: Oracle, d: Dev, addr: nat, size: nat): (Dev, int) {
    var d1 := d.Logged(FreeCall(addr, size));
    if Verdict(o, d) != 0 then (d1, Verdict(o, d))
    else if addr !in d.reserved || d.reserved[addr] != size || !d.Clear(addr, size) then (d1, INVALID)
    else (d1.(reserved := d.reserved - {addr}), 0)
  }

  /** `cuMemAddressReserve`: the driver picks the place; `hint` is only a wish. */
  function AddressReserve(o: Oracle, d: Dev, size: nat, hint: nat): (Dev, int, nat) {
    var d1, at := d.Logged(ReserveCall(size, hint)), o.places(|d.log|);
    if Verdict(o, d) != 0 then (d1, Verdict(o, d), 0)
    else if !d.Unreserved(at, size) || at in d.reserved then (d1, NO_ROOM, 0)
    else (d1.(reserved := d.reserved[at := size]), 0, at)
  }

  function Query(o: Oracle, d: Dev): (Dev, int) {
    (d.Logged(QueryCall), Verdict(o, d))
  }

  // ----- every call keeps the device valid

  lemma {:induction false} CreateValid(o: Oracle, d: Dev, size: nat)
    requires d.Valid()
    ensures Create(o, d, size).0.Valid()
  {
  }

  lemma {:induction false} MapValid(o: Oracle, d: Dev, addr: nat, size: nat, handle: nat)
    requires d.Valid() && size > 0
    ensures Map(o, d, addr, size, handle).0.Valid()
  {
    SameHolds(d, Map(o, d, addr, size, handle).0);
  }

  lemma {:induction false} UnmapValid(o: Oracle, d: Dev, addr: nat, size: nat)
    requires d.Valid()
    ensures Unmap(o, d, addr, size).0.Valid()
  {
    SameHolds(d, Unmap(o, d, addr, size).0);
  }

  lemma {:induction false} ReleaseValid(o: Oracle, d: Dev, handle: nat)
    requires d.Valid()
    ensures Release(o, d, handle).0.Valid()
  {
  }

  /** A range that holds a mapping is not freed, so no mapping loses its reservation. */
  lemma {:induction false} AddressFreeValid(o: Oracle, d: Dev, addr: nat, size: nat)
    requires d.Valid()
    ensures AddressFree(o, d, addr, size).0.Valid()
  {
    var r := AddressFree(o, d, addr, size).0;
    forall a | a in r.maps ensures r.Holds(a, r.maps[a].size) {
      assert d.Holds(a, d.maps[a].size);
      var b :| b in d.reserved && b <= a && a + d.maps[a].size <= b + d.reserved[b];
      assert b in r.reserved;
    }
  }

  lemma {:induction false} AddressReserveValid(o: Oracle, d: Dev, size: nat, hint: nat)
    requires d.Valid()
    ensures AddressReserve(o, d, size, hint).0.Valid()
  {
    var r := AddressReserve(o, d, size, hint).0;
    forall a | a in r.maps ensures r.Holds(a, r.maps[a].size) {
      assert d.Holds(a, d.maps[a].size);
      var b :| b in d.reserved && b <= a && a + d.maps[a].size <= b + d.reserved[b];
      assert b in r.reserved;
    }
  }

  lemma {:induction false} SameHolds(d: Dev, r: Dev)
    requires r.reserved == d.reserved
    ensures forall a: nat, size: nat :: r.Holds(a, size) == d.Holds(a, size)
  {
  }

  /** A place the driver would reserve is clear of mappings, since those lie in other reservations. */
  lemma {:induction false} UnreservedIsClear(d: Dev, addr: nat, size: nat)
    requires d.Valid() && d.Unreserved(addr, size)
    ensures d.Clear(addr, size)
  {
    forall a | a in d.maps ensures a + d.maps[a].size <= addr || addr + size <= a {
      assert d.Holds(a, d.maps[a].size);
      var b :| b in d.reserved && b <= a && a + d.maps[a].size <= b + d.reserved[b];
    }
  }
}

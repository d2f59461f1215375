/** ROCm path of the pluggable allocator: a reservation is backed by several physical chunks. */
module Allocator {
  import opened Sequences
  import opened Chunking
  import opened Driver

  // ----- chunk arithmetic

  const MB: nat := 1024 * 1024
  const DEFAULT_CHUNK: nat := 256 * MB
  const ULLONG_MAX: nat := 0xFFFF_FFFF_FFFF_FFFF

  /** The environment variable: absent, not a number, or a number of megabytes. */
  datatype Env = Unset | Unparsable | Megabytes(n: nat)

  /** The guard in front of the multiplication is exact: a setting is used if and only if its bytes
      are a positive 64-bit number. */
  function BaseChunk(env: Env): (r: nat)
    ensures 0 < r <= ULLONG_MAX
    ensures r == if env.Megabytes? && 0 < env.n * MB <= ULLONG_MAX then env.n * MB else DEFAULT_CHUNK
  {
    if env.Megabytes? && env.n != 0 && env.n <= ULLONG_MAX / MB then env.n * MB else DEFAULT_CHUNK
  }

  /** Smallest multiple of `g` that is at least `x`. */
  function AlignUp(x: nat, g: nat): nat
    requires g > 0
  {
    ProductNonNegative((x + g - 1) / g, g);
    (x + g - 1) / g * g
  }

  lemma {:induction false} ProductNonNegative(a: nat, b: nat)
    ensures a * b >= 0
  {
  }

  lemma {:induction false} MultipleMod(k: nat, g: nat)
    requires g > 0
    ensures k * g % g == 0
  {
    var q, r := k * g / g, k * g % g;
    assert k * g == q * g + r;
    assert (k - q) * g == r;
    SmallMultiple(k - q, g);
  }

  lemma {:induction false} AlignUpIsAligned(x: nat, g: nat)
    requires g > 0
    ensures AlignUp(x, g) % g == 0 && x <= AlignUp(x, g) < x + g
  {
    var n := x + g - 1;
    assert n == n / g * g + n % g;
    MultipleMod(n / g, g);
  }

  lemma {:induction false} AlignedDifference(a: nat, b: nat, g: nat)
    requires g > 0 && a >= b && a % g == 0 && b % g == 0
    ensures (a - b) % g == 0
  {
    var p, q := a / g, b / g;
    assert a == p * g && b == q * g;
    assert a - b == (p - q) * g;
    if p < q {
      NegativeProduct(p - q, g);
    } else {
      MultipleMod(p - q, g);
    }
  }

  lemma {:induction false} NegativeProduct(k: int, g: nat)
    requires k < 0 && g > 0
    ensures k * g < 0
  {
  }

  /** Chunk `i` as the source computes it. */
  function ChunkSize(aligned: nat, chunk: nat, i: nat): int {
    Min(aligned - i * chunk, chunk)
  }

  lemma {:induction false} ChunkSizeIsPiece(aligned: nat, chunk: nat, i: nat)
    requires chunk > 0 && i < |ChunksOf(aligned, chunk)|
    ensures ChunksOf(aligned, chunk)[i] == ChunkSize(aligned, chunk, i)
    decreases i
  {
    if i > 0 {
      ChunkSizeIsPiece(aligned - chunk, chunk, i - 1);
      assert i * chunk == (i - 1) * chunk + chunk;
    }
  }

  lemma {:induction false} PiecesAligned(len: nat, chunk: nat, g: nat)
    requires g > 0 && chunk > 0 && len % g == 0 && chunk % g == 0
    ensures forall i :: 0 <= i < |ChunksOf(len, chunk)| ==> ChunksOf(len, chunk)[i] % g == 0
    decreases len
  {
    if len > chunk {
      AlignedDifference(len, chunk, g);
      PiecesAligned(len - chunk, chunk, g);
    }
  }

  /** The chunk table of `my_malloc`: positive multiples of the granularity that tile the aligned size,
      none larger than the rounded chunk size and all but the last equal to it. */
  method ChunkPlan(size: nat, g: nat, base: nat) returns (aligned: nat, sizes: seq<nat>)
    requires g > 0 && base > 0
    ensures aligned % g == 0 && size <= aligned < size + g
    ensures Sum(sizes) == aligned
    ensures forall i :: 0 <= i < |sizes| ==> 0 < sizes[i] <= AlignUp(base, g) && sizes[i] % g == 0
    ensures forall i :: 0 <= i < |sizes| - 1 ==> sizes[i] == AlignUp(base, g)
  {
    hide AlignUp;
    aligned := AlignUp(size, g);
    var chunk := AlignUp(base, g);
    AlignUpIsAligned(size, g);
    AlignUpIsAligned(base, g);
    var n := CeilDiv(aligned, chunk);
    assert n == if aligned == 0 then 0 else |ChunksOf(aligned, chunk)| by {
      if aligned > 0 {
        ChunkShape(aligned, chunk);
      } else {
        DivModSmall(chunk - 1, chunk);
      }
    }
    ghost var pieces := if aligned == 0 then [] else ChunksOf(aligned, chunk);
    sizes := [];
    for i := 0 to n
      invariant sizes == pieces[..i]
    {
      ChunkSizeIsPiece(aligned, chunk, i);
      sizes := sizes + [ChunkSize(aligned, chunk, i)];
    }
    if aligned > 0 {
      ChunksTile(aligned, chunk);
      PiecesAligned(aligned, chunk, g);
      ChunkShape(aligned, chunk);
    }
    assert sizes == pieces;
  }

  // ----- the loops over chunks, with every call allowed to fail

  /** Bytes in front of chunk `k`. */
  function Offset(sizes: seq<nat>, k: nat): nat
    requires k <= |sizes|
  {
    if k == 0 then 0 else Offset(sizes, k - 1) + sizes[k - 1]
  }

  function FirstOf(first: int, e: int): int {
    if first == 0 then e else first
  }

  /** Release the first `k` handles in order, carrying the first error. */
  function ReleaseLoop(o: Oracle, d: Dev, hs: seq<nat>, k: nat, first: int): (Dev, int)
    requires k <= |hs|
  {
    if k == 0 then (d, first)
    else
      var (d1, f) := ReleaseLoop(o, d, hs, k - 1, first);
      var (d2, e) := Release(o, d1, hs[k - 1]);
      (d2, FirstOf(f, e))
  }

  /** Unmap the first `k` chunks in order, carrying the first error. */
  function UnmapLoop(o: Oracle, d: Dev, addr: nat, sizes: seq<nat>, k: nat, first: int): (Dev, int)
    requires k <= |sizes|
  {
    if k == 0 then (d, first)
    else
      var (d1, f) := UnmapLoop(o, d, addr, sizes, k - 1, first);
      var (d2, e) := Unmap(o, d1, addr + Offset(sizes, k - 1), sizes[k - 1]);
      (d2, FirstOf(f, e))
  }

  /** State inside a loop that gives up, rolling back, as soon as the global error code is set. */
  datatype Progress = Progress(dev: Dev, err: int, handles: seq<nat>, stopped: bool)

  function CreateLoop(o: Oracle, d: Dev, err: int, sizes: seq<nat>, k: nat): Progress
    requires k <= |sizes|
  {
    if k == 0 then Progress(d, err, [], false)
    else
      var p := CreateLoop(o, d, err, sizes, k - 1);
      if p.stopped then p
      else
        var (d1, e) := Create(o, p.dev, sizes[k - 1]);
        var err' := if e != 0 then e else p.err;
        var hs := if e == 0 then p.handles + [p.dev.nextHandle] else p.handles;
        Progress(if err' != 0 then ReleaseLoop(o, d1, p.handles, |p.handles|, 0).0 else d1, err', hs, err' != 0)
  }

  function MapLoop(o: Oracle, d: Dev, err: int, addr: nat, sizes: seq<nat>, hs: seq<nat>, k: nat): Progress
    requires k <= |sizes| == |hs|
  {
    if k == 0 then Progress(d, err, hs, false)
    else
      var p := MapLoop(o, d, err, addr, sizes, hs, k - 1);
      if p.stopped then p
      else
        var (d1, e) := Map(o, p.dev, addr + Offset(sizes, k - 1), sizes[k - 1], hs[k - 1]);
        var err' := if e != 0 then e else p.err;
        if err' != 0 then
          var d2 := UnmapLoop(o, d1, addr, sizes, k - 1, 0).0;
          Progress(ReleaseLoop(o, d2, hs, |hs|, 0).0, err', hs, true)
        else Progress(d1, err', hs, false)
  }

  lemma {:induction false} HandleCount(o: Oracle, d: Dev, err: int, sizes: seq<nat>, k: nat)
    requires k <= |sizes|
    ensures var p := CreateLoop(o, d, err, sizes, k);
      |p.handles| <= k && (!p.stopped ==> |p.handles| == k) && (p.stopped ==> p.err != 0)
    decreases k
  {
    if k > 0 {
      HandleCount(o, d, err, sizes, k - 1);
    }
  }

  lemma {:induction false} SameHandles(o: Oracle, d: Dev, err: int, addr: nat, sizes: seq<nat>, hs: seq<nat>, k: nat)
    requires k <= |sizes| == |hs|
    ensures MapLoop(o, d, err, addr, sizes, hs, k).handles == hs
    decreases k
  {
    hide Map, UnmapLoop, ReleaseLoop;
    if k > 0 {
      SameHandles(o, d, err, addr, sizes, hs, k - 1);
    }
  }

  /** `create_and_map` up to the access step. */
  function CreateAndMap(o: Oracle, d: Dev, err: int, addr: nat, sizes: seq<nat>): (r: Progress)
    ensures |r.handles| <= |sizes| && (r.err == 0 ==> |r.handles| == |sizes|)
  {
    var p := CreateLoop(o, d, err, sizes, |sizes|);
    HandleCount(o, d, err, sizes, |sizes|);
    if p.stopped then p
    else
      SameHandles(o, p.dev, p.err, addr, sizes, p.handles, |sizes|);
      MapLoop(o, p.dev, p.err, addr, sizes, p.handles, |sizes|)
  }

  /** The handle table after a call wrote the first entries anew. */
  function Rewritten(was: seq<nat>, hs: seq<nat>): (r: seq<nat>)
    requires |hs| <= |was|
    ensures |r| == |was|
  {
    hs + was[|hs|..]
  }

  /** Outcome of `unmap_and_release`: the device and the global error code. */
  function UnmapAndRelease(o: Oracle, d: Dev, err: int, addr: nat, size: nat, sizes: seq<nat>, hs: seq<nat>): (Dev, int)
    requires |sizes| == |hs|
  {
    var (d1, e1) := UnmapLoop(o, d, addr, sizes, |sizes|, 0);
    var (d2, e2) := ReleaseLoop(o, d1, hs, |hs|, e1);
    if e2 != 0 then (d2, e2)
    else
      var (d3, e3) := AddressFree(o, d2, addr, size);
      if e3 != 0 then (d3, e3)
      else
        var (d4, e4, at) := AddressReserve(o, d3, size, addr);
        if e4 != 0 then (d4, e4)
        else if at != addr then (AddressFree(o, d4, at, size).0, 1)
        else (d4, err)
  }

  /** Release the physical memory, then the address range, whatever happened before. */
  function FreeAll(o: Oracle, d: Dev, err: int, addr: nat, size: nat, sizes: seq<nat>, hs: seq<nat>): (Dev, int)
    requires |sizes| == |hs|
  {
    var (r, e) := UnmapAndRelease(o, d, err, addr, size, sizes, hs);
    var (r', e') := AddressFree(o, r, addr, size);
    (r', if e' != 0 then e' else e)
  }

  /** What a wake-up or a sleep works on, and whether the Python wrapper raised. */
  datatype Region = Region(dev: Dev, err: int, handles: seq<nat>, raised: bool)

  /** `python_create_and_map`: back, then turn an error code into an exception and clear it. */
  function WakeUp(o: Oracle, s: Region, addr: nat, sizes: seq<nat>): Region
    requires |s.handles| == |sizes|
  {
    var r := CreateAndMap(o, s.dev, s.err, addr, sizes);
    Region(r.dev, 0, Rewritten(s.handles, r.handles), r.err != 0)
  }

  /** `python_unmap_and_release`. */
  function PutToSleep(o: Oracle, s: Region, addr: nat, size: nat, sizes: seq<nat>): Region
    requires |s.handles| == |sizes|
  {
    var (r, e) := UnmapAndRelease(o, s.dev, s.err, addr, size, sizes, s.handles);
    Region(r, 0, s.handles, e != 0)
  }

  lemma {:induction false} CreateSticks(o: Oracle, d: Dev, err: int, sizes: seq<nat>, k: nat, n: nat)
    requires k <= n <= |sizes| && CreateLoop(o, d, err, sizes, k).stopped
    ensures CreateLoop(o, d, err, sizes, n) == CreateLoop(o, d, err, sizes, k)
    decreases n
  {
    hide Create, ReleaseLoop;
    if k < n {
      CreateSticks(o, d, err, sizes, k, n - 1);
    }
  }

  lemma {:induction false} MapSticks(o: Oracle, d: Dev, err: int, addr: nat, sizes: seq<nat>, hs: seq<nat>, k: nat,
                                     n: nat)
    requires k <= n <= |sizes| == |hs| && MapLoop(o, d, err, addr, sizes, hs, k).stopped
    ensures MapLoop(o, d, err, addr, sizes, hs, n) == MapLoop(o, d, err, addr, sizes, hs, k)
    decreases n
  {
    hide Map, ReleaseLoop, UnmapLoop;
    if k < n {
      MapSticks(o, d, err, addr, sizes, hs, k, n - 1);
    }
  }

  /** The allocator's view of one process: the device and the global error code. */
  class Pool {
    const o: Oracle
    var dev: Dev
    var errorCode: int

    constructor (o: Oracle, d: Dev)
      ensures this.o == o && dev == d && errorCode == 0
    {
      this.o, dev, errorCode := o, d, 0;
    }

    /** `CUDA_CHECK`. */
    method Check(e: int)
      modifies this`errorCode
      ensures errorCode == if e != 0 then e else old(errorCode)
    {
      if e != 0 {
        errorCode := e;
      }
    }

    method ReleaseAll(hs: seq<nat>, first: int) returns (e: int)
      modifies this`dev
      ensures (dev, e) == ReleaseLoop(o, old(dev), hs, |hs|, first)
    {
      e := first;
      for j := 0 to |hs|
        invariant (dev, e) == ReleaseLoop(o, old(dev), hs, j, first)
      {
        var (d, status) := Release(o, dev, hs[j]);
        dev := d;
        if status != 0 && e == 0 {
          e := status;
        }
      }
    }

    method UnmapAll(addr: nat, sizes: seq<nat>, n: nat, first: int) returns (e: int)
      requires n <= |sizes|
      modifies this`dev
      ensures (dev, e) == UnmapLoop(o, old(dev), addr, sizes, n, first)
    {
      e := first;
      var offset := 0;
      for j := 0 to n
        invariant offset == Offset(sizes, j)
        invariant (dev, e) == UnmapLoop(o, old(dev), addr, sizes, j, first)
      {
        var (d, status) := Unmap(o, dev, addr + offset, sizes[j]);
        dev := d;
        if status != 0 && e == 0 {
          e := status;
        }
        offset := offset + sizes[j];
      }
    }

    /** Both loops of `create_and_map`, writing the handles in place. */
    method CreateChunks(addr: nat, sizes: seq<nat>, handles: array<nat>)
      requires handles.Length == |sizes|
      modifies this, handles
      ensures var r := CreateAndMap(o, old(dev), old(errorCode), addr, sizes);
        && dev == r.dev && errorCode == r.err && handles[..] == Rewritten(old(handles[..]), r.handles)
    {
      hide Create, Map, ReleaseLoop, UnmapLoop, Offset;
      for i := 0 to |sizes|
        invariant CreateLoop(o, old(dev), old(errorCode), sizes, i) == Progress(dev, errorCode, handles[..i], false)
        invariant handles[i..] == old(handles[..])[i..]
      {
        var created := dev.nextHandle;
        var (d, e) := Create(o, dev, sizes[i]);
        dev := d;
        Check(e);
        ghost var before := handles[..i];
        if e == 0 {
          handles[i] := created;
        }
        assert handles[..i] == before;
        if errorCode != 0 {
          var _ := ReleaseAll(handles[..i], 0);
          CreateSticks(o, old(dev), old(errorCode), sizes, i + 1, |sizes|);
          return;
        }
        assert e == 0 && handles[..i + 1] == before + [created];
      }
      assert handles[..|sizes|] == handles[..];
      ghost var d0, err0, hs := dev, errorCode, handles[..];
      var offset := 0;
      OffsetZero(sizes);
      for i := 0 to |sizes|
        invariant handles[..] == hs && offset == Offset(sizes, i)
        invariant MapLoop(o, d0, err0, addr, sizes, hs, i) == Progress(dev, errorCode, hs, false)
      {
        var (d, e) := Map(o, dev, addr + offset, sizes[i], handles[i]);
        dev := d;
        Check(e);
        if errorCode != 0 {
          var _ := UnmapAll(addr, sizes, i, 0);
          var _ := ReleaseAll(handles[..], 0);
          MapSticks(o, d0, err0, addr, sizes, hs, i + 1, |sizes|);
          return;
        }
        assert offset + sizes[i] == Offset(sizes, i + 1) by { OffsetStep(sizes, i); }
        offset := offset + sizes[i];
      }
    }

    method Wake(addr: nat, sizes: seq<nat>, handles: array<nat>) returns (raised: bool)
      requires handles.Length == |sizes|
      modifies this, handles
      ensures Region(dev, errorCode, handles[..], raised)
           == WakeUp(o, Region(old(dev), old(errorCode), old(handles[..]), false), addr, sizes)
    {
      hide CreateAndMap;
      CreateChunks(addr, sizes, handles);
      raised := errorCode != 0;
      errorCode := 0;
    }

    method Sleep(addr: nat, size: nat, sizes: seq<nat>, handles: array<nat>) returns (raised: bool)
      requires handles.Length == |sizes|
      modifies this
      ensures Region(dev, errorCode, handles[..], raised)
           == PutToSleep(o, Region(old(dev), old(errorCode), handles[..], false), addr, size, sizes)
    {
      hide UnmapAndRelease;
      UnmapChunks(addr, size, sizes, handles);
      raised := errorCode != 0;
      errorCode := 0;
    }

    /** `my_free` once the Python callback has handed the table over. */
    method Free(addr: nat, size: nat, sizes: seq<nat>, handles: array<nat>)
      requires handles.Length == |sizes|
      modifies this
      ensures (dev, errorCode) == FreeAll(o, old(dev), old(errorCode), addr, size, sizes, handles[..])
    {
      hide UnmapAndRelease, AddressFree;
      UnmapChunks(addr, size, sizes, handles);
      var (d, e) := AddressFree(o, dev, addr, size);
      dev := d;
      Check(e);
    }

    /** `my_malloc`. */
    method Allocate(size: nat, g: nat, env: Env, callbackOk: bool)
      returns (ptr: Result<nat, ()>, aligned: nat, sizes: seq<nat>, handles: seq<nat>)
      requires g > 0
      modifies this
      ensures aligned % g == 0 && size <= aligned < size + g && Offset(sizes, |sizes|) == aligned
      ensures forall i :: 0 <= i < |sizes| ==> 0 < sizes[i] <= AlignUp(BaseChunk(env), g) && sizes[i] % g == 0
      ensures forall i :: 0 <= i < |sizes| - 1 ==> sizes[i] == AlignUp(BaseChunk(env), g)
      ensures Allocated(dev, errorCode, ptr, handles) == Malloc(o, old(dev), old(errorCode), aligned, sizes, callbackOk)
    {
      hide CreateAndMap, AddressReserve, AddressFree, AlignUp;
      var base := BaseChunk(env);
      aligned, sizes := ChunkPlan(size, g, base);
      OffsetIsSum(sizes, |sizes|);
      assert sizes[..|sizes|] == sizes;
      var (d1, e1) := Query(o, dev);
      dev := d1;
      Check(e1);
      if errorCode != 0 {
        return Err(()), aligned, sizes, [];
      }
      var (d2, e2, at) := AddressReserve(o, dev, aligned, 0);
      dev := d2;
      Check(e2);
      if errorCode != 0 {
        return Err(()), aligned, sizes, [];
      }
      var table := new nat[|sizes|](_ => 0);
      if !callbackOk {
        return Err(()), aligned, sizes, [];
      }
      CreateChunks(at, sizes, table);
      if errorCode != 0 {
        var (d3, e3) := AddressFree(o, dev, at, aligned);
        dev := d3;
        Check(e3);
        return Err(()), aligned, sizes, [];
      }
      ptr, handles := Ok(at), table[..];
    }

    /** `unmap_and_release`. */
    method UnmapChunks(addr: nat, size: nat, sizes: seq<nat>, handles: array<nat>)
      requires handles.Length == |sizes|
      modifies this
      ensures (dev, errorCode) == UnmapAndRelease(o, old(dev), old(errorCode), addr, size, sizes, handles[..])
    {
      hide ReleaseLoop, UnmapLoop, AddressFree, AddressReserve;
      var first := UnmapAll(addr, sizes, |sizes|, 0);
      first := ReleaseAll(handles[..], first);
      if first == 0 {
        var (d, e) := AddressFree(o, dev, addr, size);
        dev, first := d, e;
        if first == 0 {
          var (d', e', at) := AddressReserve(o, dev, size, addr);
          dev, first := d', e';
          if first == 0 && at != addr {
            dev := AddressFree(o, dev, at, size).0;
            errorCode := 1;
            return;
          }
        }
      }
      if first != 0 {
        Check(first);
      }
    }
  }

  lemma {:induction false} OffsetIsSum(sizes: seq<nat>, k: nat)
    requires k <= |sizes|
    ensures Offset(sizes, k) == Sum(sizes[..k])
  {
    if k > 0 {
      OffsetIsSum(sizes, k - 1);
      SumStep(sizes, k - 1);
    }
  }

  lemma {:induction false} OffsetZero(sizes: seq<nat>)
    ensures Offset(sizes, 0) == 0
  {
  }

  lemma {:induction false} OffsetStep(sizes: seq<nat>, i: nat)
    requires i < |sizes|
    ensures Offset(sizes, i + 1) == Offset(sizes, i) + sizes[i]
  {
  }

  // ----- what the loops leave behind

  /** Calls `from .. to` all succeed. */
  ghost predicate AllGood(o: Oracle, from: nat, to: nat) {
    forall q :: from <= q < to ==> o.fails(q) == 0
  }

  /** The first non-zero code among calls `from .. from + k`. */
  function FirstError(o: Oracle, from: nat, k: nat, first: int): int {
    if k == 0 then first else FirstOf(FirstError(o, from, k - 1, first), o.fails(from + k - 1))
  }

  ghost predicate DistinctHandles(hs: seq<nat>) {
    forall i, j :: 0 <= i < j < |hs| ==> hs[i] != hs[j]
  }

  /** Handle `h` was among the first `k` released at log position `from`, and its release succeeded. */
  ghost predicate Released(o: Oracle, from: nat, hs: seq<nat>, k: nat, h: nat)
    requires k <= |hs|
  {
    exists j :: 0 <= j < k && hs[j] == h && o.fails(from + j) == 0
  }

  function ReleaseCalls(hs: seq<nat>): (r: seq<Call>)
    ensures |r| == |hs|
  {
    seq(|hs|, j requires 0 <= j < |hs| => ReleaseCall(hs[j]))
  }

  /** Releasing attempts every handle exactly once, in order, whatever fails; what stays live is
      what was not released successfully; the first error is reported. */
  lemma {:induction false} ReleaseShape(o: Oracle, d: Dev, hs: seq<nat>, k: nat, first: int)
    requires k <= |hs| && DistinctHandles(hs) && forall j :: 0 <= j < |hs| ==> hs[j] in d.live
    ensures var (r, e) := ReleaseLoop(o, d, hs, k, first);
      && r.maps == d.maps && r.reserved == d.reserved && r.nextHandle == d.nextHandle
      && r.log == d.log + ReleaseCalls(hs)[..k]
      && (forall h :: h in r.live <==> h in d.live && !Released(o, |d.log|, hs, k, h))
      && e == FirstError(o, |d.log|, k, first)
  {
    if k > 0 {
      ReleaseShape(o, d, hs, k - 1, first);
      var (p, e) := ReleaseLoop(o, d, hs, k - 1, first);
      var r := ReleaseLoop(o, d, hs, k, first).0;
      assert !Released(o, |d.log|, hs, k - 1, hs[k - 1]);
      assert r.log == d.log + (ReleaseCalls(hs)[..k - 1] + [ReleaseCall(hs[k - 1])]);
      assert ReleaseCalls(hs)[..k] == ReleaseCalls(hs)[..k - 1] + [ReleaseCall(hs[k - 1])];
      forall h ensures Released(o, |d.log|, hs, k, h) <==>
          Released(o, |d.log|, hs, k - 1, h) || (h == hs[k - 1] && o.fails(|d.log| + k - 1) == 0) {
      }
    }
  }

  /** Start address of chunk `j`. */
  function At(addr: nat, sizes: seq<nat>, j: nat): nat
    requires j <= |sizes|
  {
    addr + Offset(sizes, j)
  }

  predicate Positive(sizes: seq<nat>) {
    forall j :: 0 <= j < |sizes| ==> sizes[j] > 0
  }

  lemma {:induction false} OffsetMonotone(sizes: seq<nat>, i: nat, j: nat)
    requires i <= j <= |sizes|
    ensures Offset(sizes, i) <= Offset(sizes, j)
    ensures i < j ==> Offset(sizes, i) + sizes[i] <= Offset(sizes, j)
    decreases j
  {
    if i < j {
      OffsetMonotone(sizes, i, j - 1);
    }
  }

  /** Chunk `j` is mapped where it belongs, by its own handle. */
  ghost predicate Placed(d: Dev, addr: nat, sizes: seq<nat>, hs: seq<nat>, j: nat)
    requires j < |sizes| == |hs|
  {
    At(addr, sizes, j) in d.maps && d.maps[At(addr, sizes, j)] == Mapping(sizes[j], hs[j])
  }

  ghost predicate Unmapped(o: Oracle, from: nat, addr: nat, sizes: seq<nat>, k: nat, a: nat)
    requires k <= |sizes|
  {
    exists j :: 0 <= j < k && At(addr, sizes, j) == a && o.fails(from + j) == 0
  }

  function UnmapCalls(addr: nat, sizes: seq<nat>): (r: seq<Call>)
    ensures |r| == |sizes|
  {
    seq(|sizes|, j requires 0 <= j < |sizes| => UnmapCall(At(addr, sizes, j), sizes[j]))
  }

  lemma {:induction false} AtInjective(addr: nat, sizes: seq<nat>, i: nat, j: nat)
    requires Positive(sizes) && i < j < |sizes|
    ensures At(addr, sizes, i) < At(addr, sizes, j)
  {
    OffsetMonotone(sizes, i, j);
  }

  /** Unmapping attempts every chunk exactly once, in order, whatever fails. */
  lemma {:induction false} UnmapShape(o: Oracle, d: Dev, addr: nat, sizes: seq<nat>, hs: seq<nat>, n: nat, k: nat,
                                      first: int)
    requires k <= n <= |sizes| == |hs| && Positive(sizes) && forall j :: 0 <= j < n ==> Placed(d, addr, sizes, hs, j)
    ensures var (r, e) := UnmapLoop(o, d, addr, sizes, k, first);
      && r.live == d.live && r.reserved == d.reserved && r.nextHandle == d.nextHandle
      && r.log == d.log + UnmapCalls(addr, sizes)[..k]
      && (forall a :: a in r.maps <==> a in d.maps && !Unmapped(o, |d.log|, addr, sizes, k, a))
      && (forall a :: a in r.maps ==> r.maps[a] == d.maps[a])
      && e == FirstError(o, |d.log|, k, first)
  {
    hide Unmapped, At, Unmap, Placed, Positive;
    if k == 0 {
      NothingUnmapped(o, |d.log|, addr, sizes);
    } else {
      UnmapShape(o, d, addr, sizes, hs, n, k - 1, first);
      var (p, _) := UnmapLoop(o, d, addr, sizes, k - 1, first);
      var a1 := At(addr, sizes, k - 1);
      assert Placed(d, addr, sizes, hs, k - 1);
      assert a1 == addr + Offset(sizes, k - 1) && a1 in d.maps && d.maps[a1].size == sizes[k - 1] by {
        PlacedAt(d, addr, sizes, hs, k - 1);
      }
      assert !Unmapped(o, |d.log|, addr, sizes, k - 1, a1) by { NotYetUnmapped(o, |d.log|, addr, sizes, k - 1); }
      UnmapOne(o, p, a1, sizes[k - 1]);
      assert UnmapCalls(addr, sizes)[..k] == UnmapCalls(addr, sizes)[..k - 1] + [UnmapCall(a1, sizes[k - 1])];
      forall a ensures Unmapped(o, |d.log|, addr, sizes, k, a) <==>
          Unmapped(o, |d.log|, addr, sizes, k - 1, a) || (a == a1 && o.fails(|d.log| + k - 1) == 0) {
        OneMoreUnmapped(o, |d.log|, addr, sizes, k, a);
      }
    }
  }

  lemma {:induction false} PlacedAt(d: Dev, addr: nat, sizes: seq<nat>, hs: seq<nat>, j: nat)
    requires j < |sizes| == |hs| && Placed(d, addr, sizes, hs, j)
    ensures var a := At(addr, sizes, j);
      a == addr + Offset(sizes, j) && a in d.maps && d.maps[a] == Mapping(sizes[j], hs[j])
  {
  }

  lemma {:induction false} NothingUnmapped(o: Oracle, from: nat, addr: nat, sizes: seq<nat>)
    ensures forall a :: !Unmapped(o, from, addr, sizes, 0, a)
  {
  }

  lemma {:induction false} NotYetUnmapped(o: Oracle, from: nat, addr: nat, sizes: seq<nat>, k: nat)
    requires k < |sizes| && Positive(sizes)
    ensures !Unmapped(o, from, addr, sizes, k, At(addr, sizes, k))
  {
    hide At;
    forall j | 0 <= j < k ensures At(addr, sizes, j) != At(addr, sizes, k) {
      AtInjective(addr, sizes, j, k);
    }
  }

  lemma {:induction false} OneMoreUnmapped(o: Oracle, from: nat, addr: nat, sizes: seq<nat>, k: nat, a: nat)
    requires 0 < k <= |sizes|
    ensures Unmapped(o, from, addr, sizes, k, a)
       <==> Unmapped(o, from, addr, sizes, k - 1, a) || (a == At(addr, sizes, k - 1) && o.fails(from + k - 1) == 0)
  {
  }

  lemma {:induction false} UnmapOne(o: Oracle, d: Dev, addr: nat, size: nat)
    requires addr in d.maps && d.maps[addr].size == size
    ensures var (r, e) := Unmap(o, d, addr, size);
      && r.live == d.live && r.reserved == d.reserved && r.nextHandle == d.nextHandle
      && r.log == d.log + [UnmapCall(addr, size)]
      && e == o.fails(|d.log|)
      && r.maps == if e == 0 then d.maps - {addr} else d.maps
  {
  }

  // ----- creating

  function NewHandles(d: Dev, k: nat): (r: seq<nat>)
    ensures |r| == k
  {
    seq(k, (j: nat) => d.nextHandle + j)
  }

  /** The first `k` creates went through. */
  ghost predicate Created(o: Oracle, d: Dev, p: Progress, k: nat) {
    && !p.stopped && p.err == 0 && p.handles == NewHandles(d, k)
    && p.dev.maps == d.maps && p.dev.reserved == d.reserved && p.dev.nextHandle == d.nextHandle + k
    && |p.dev.log| == |d.log| + k && AllGood(o, |d.log|, |d.log| + k)
    && forall h :: h in p.dev.live <==> h in d.live || d.nextHandle <= h < d.nextHandle + k
  }

  /** Create `i` failed with `p.err`; of the handles made before it exactly those stay live whose
      release in the rollback failed. */
  ghost predicate CreateFailed(o: Oracle, d: Dev, p: Progress, i: nat) {
    var base := |d.log| + i + 1;
    && p.stopped && AllGood(o, |d.log|, base - 1) && p.err == o.fails(base - 1) != 0
    && p.dev.maps == d.maps && p.dev.reserved == d.reserved && |p.dev.log| == base + i
    && forall h :: h in p.dev.live <==>
         h in d.live || (d.nextHandle <= h < d.nextHandle + i && o.fails(base + (h - d.nextHandle)) != 0)
  }

  lemma {:induction false} NewHandlesDistinct(d: Dev, k: nat)
    ensures DistinctHandles(NewHandles(d, k))
  {
  }

  lemma {:induction false} ReleasedNew(o: Oracle, d: Dev, from: nat, k: nat, h: nat)
    ensures Released(o, from, NewHandles(d, k), k, h)
      <==> d.nextHandle <= h < d.nextHandle + k && o.fails(from + (h - d.nextHandle)) == 0
  {
    if d.nextHandle <= h < d.nextHandle + k {
      assert NewHandles(d, k)[h - d.nextHandle] == h;
    }
  }

  /** One more create step, with its rollback when it fails. */
  lemma {:induction false} NextCreate(o: Oracle, d: Dev, p: Progress, size: nat, k: nat)
    requires d.Valid() && Created(o, d, p, k)
    ensures var (d1, e) := Create(o, p.dev, size);
      if e != 0 then CreateFailed(o, d, Progress(ReleaseLoop(o, d1, p.handles, k, 0).0, e, p.handles, true), k)
      else Created(o, d, Progress(d1, 0, p.handles + [p.dev.nextHandle], false), k + 1)
  {
    hide ReleaseLoop, Released;
    var (d1, e) := Create(o, p.dev, size);
    if e != 0 {
      NewHandlesDistinct(d, k);
      ReleaseShape(o, d1, p.handles, k, 0);
      forall h {
        ReleasedNew(o, d, |d1.log|, k, h);
      }
    } else {
      assert NewHandles(d, k + 1) == NewHandles(d, k) + [d.nextHandle + k];
    }
  }

  lemma {:induction false} NothingCreated(o: Oracle, d: Dev)
    ensures Created(o, d, Progress(d, 0, [], false), 0)
  {
  }

  lemma {:induction false} CreatedOrFailed(o: Oracle, d: Dev, p: Progress, k: nat, i: nat)
    requires Created(o, d, p, k) || (i < k && CreateFailed(o, d, p, i))
    ensures p.stopped <==> !Created(o, d, p, k)
    ensures Created(o, d, p, k) ==> p.err == 0 && |p.handles| == k
  {
  }

  lemma {:induction false} CreateShape(o: Oracle, d: Dev, sizes: seq<nat>, k: nat) returns (i: nat)
    requires d.Valid() && k <= |sizes|
    ensures var p := CreateLoop(o, d, 0, sizes, k);
      i <= k && (Created(o, d, p, k) || (i < k && CreateFailed(o, d, p, i)))
    decreases k
  {
    hide ReleaseLoop, Created, CreateFailed, Create;
    i := 0;
    if k == 0 {
      NothingCreated(o, d);
    } else {
      i := CreateShape(o, d, sizes, k - 1);
      var p := CreateLoop(o, d, 0, sizes, k - 1);
      CreatedOrFailed(o, d, p, k - 1, i);
      if !p.stopped {
        i := k - 1;
        NextCreate(o, d, p, sizes[k - 1], k - 1);
      }
    }
  }

  // ----- mapping

  ghost predicate ChunkAt(addr: nat, sizes: seq<nat>, k: nat, a: nat)
    requires k <= |sizes|
  {
    exists j :: 0 <= j < k && At(addr, sizes, j) == a
  }

  /** Chunk address whose unmapping in the rollback failed. */
  ghost predicate LeftMapped(o: Oracle, base: nat, addr: nat, sizes: seq<nat>, k: nat, a: nat)
    requires k <= |sizes|
  {
    exists j :: 0 <= j < k && At(addr, sizes, j) == a && o.fails(base + j) != 0
  }

  /** The first `k` chunks are mapped, on top of what was there. */
  ghost predicate MappedTo(o: Oracle, d: Dev, p: Progress, addr: nat, sizes: seq<nat>, hs: seq<nat>, k: nat)
    requires k <= |sizes| == |hs|
  {
    && !p.stopped && p.err == 0 && p.handles == hs
    && p.dev.live == d.live && p.dev.reserved == d.reserved && p.dev.nextHandle == d.nextHandle
    && |p.dev.log| == |d.log| + k && AllGood(o, |d.log|, |d.log| + k)
    && (forall j :: 0 <= j < k ==> Placed(p.dev, addr, sizes, hs, j))
    && (forall a :: a in p.dev.maps <==> a in d.maps || ChunkAt(addr, sizes, k, a))
    && (forall a :: a in d.maps ==> p.dev.maps[a] == d.maps[a])
  }

  /** Map `i` failed; exactly those chunks stay mapped whose unmapping failed, and exactly those
      handles stay live whose release failed. */
  ghost predicate MapFailed(o: Oracle, d: Dev, p: Progress, addr: nat, sizes: seq<nat>, hs: seq<nat>, i: nat)
    requires i < |sizes| == |hs|
  {
    var base := |d.log| + i + 1;
    && p.stopped && AllGood(o, |d.log|, base - 1) && p.err == o.fails(base - 1) != 0
    && p.dev.reserved == d.reserved && |p.dev.log| == base + i + |hs|
    && (forall a :: a in p.dev.maps <==> a in d.maps || LeftMapped(o, base, addr, sizes, i, a))
    && (forall a :: a in d.maps ==> p.dev.maps[a] == d.maps[a])
    && (forall h :: h in p.dev.live <==> h in d.live && !Released(o, base + i, hs, |hs|, h))
  }

  /** The range of chunk `k` is free once the chunks in front of it are mapped. */
  lemma {:induction false} NextIsClear(o: Oracle, d: Dev, p: Progress, addr: nat, sizes: seq<nat>, hs: seq<nat>, k: nat)
    requires k < |sizes| == |hs| && d.Ready(addr, Offset(sizes, |sizes|)) && MappedTo(o, d, p, addr, sizes, hs, k)
    ensures p.dev.Ready(At(addr, sizes, k), sizes[k])
  {
    hide Offset;
    OffsetMonotone(sizes, k, |sizes|);
    PartHeld(d, addr, sizes, k);
    SameHolds(d, p.dev);
    forall a | a in p.dev.maps
      ensures a + p.dev.maps[a].size <= At(addr, sizes, k) || At(addr, sizes, k) + sizes[k] <= a {
      if a !in d.maps {
        var j :| 0 <= j < k && At(addr, sizes, j) == a;
        assert Placed(p.dev, addr, sizes, hs, j);
        OffsetMonotone(sizes, j, k);
      }
    }
  }

  lemma {:induction false} MapOne(o: Oracle, d: Dev, addr: nat, size: nat, h: nat)
    requires h in d.live && d.Ready(addr, size)
    ensures var (r, e) := Map(o, d, addr, size, h);
      && e == o.fails(|d.log|) && r.live == d.live && r.reserved == d.reserved && r.nextHandle == d.nextHandle
      && |r.log| == |d.log| + 1
      && r.maps == if e == 0 then d.maps[addr := Mapping(size, h)] else d.maps
  {
  }

  lemma {:induction false} MapShape(o: Oracle, d: Dev, addr: nat, sizes: seq<nat>, hs: seq<nat>, k: nat)
    returns (i: nat)
    requires d.Valid() && k <= |sizes| == |hs| && Positive(sizes) && d.Ready(addr, Offset(sizes, |sizes|))
    requires DistinctHandles(hs) && forall j :: 0 <= j < |hs| ==> hs[j] in d.live
    ensures var p := MapLoop(o, d, 0, addr, sizes, hs, k);
      i <= k && (MappedTo(o, d, p, addr, sizes, hs, k) || (i < k && MapFailed(o, d, p, addr, sizes, hs, i)))
    decreases k
  {
    hide ReleaseLoop, UnmapLoop, Map, Offset, MappedTo, MapFailed;
    i := 0;
    if k == 0 {
      NothingMapped(o, d, addr, sizes, hs);
    } else {
      i := MapShape(o, d, addr, sizes, hs, k - 1);
      var p := MapLoop(o, d, 0, addr, sizes, hs, k - 1);
      assert p.stopped
        <==> !MappedTo(o, d, p, addr, sizes, hs, k - 1) by { StoppedMeansFailed(o, d, p, addr, sizes, hs, k - 1, i); }
      if !p.stopped {
        i := k - 1;
        assert p.err == 0 by { MappedMeansNoError(o, d, p, addr, sizes, hs, k - 1); }
        NextMap(o, d, p, addr, sizes, hs, k - 1);
      }
    }
  }

  lemma {:induction false} NothingMapped(o: Oracle, d: Dev, addr: nat, sizes: seq<nat>, hs: seq<nat>)
    requires |sizes| == |hs|
    ensures MappedTo(o, d, Progress(d, 0, hs, false), addr, sizes, hs, 0)
  {
  }

  lemma {:induction false} StoppedMeansFailed(o: Oracle, d: Dev, p: Progress, addr: nat, sizes: seq<nat>,
                                              hs: seq<nat>, k: nat, i: nat)
    requires k <= |sizes| == |hs|
    requires MappedTo(o, d, p, addr, sizes, hs, k) || (i < k && MapFailed(o, d, p, addr, sizes, hs, i))
    ensures p.stopped <==> !MappedTo(o, d, p, addr, sizes, hs, k)
  {
  }

  lemma {:induction false} MappedMeansNoError(o: Oracle, d: Dev, p: Progress, addr: nat, sizes: seq<nat>,
                                              hs: seq<nat>, k: nat)
    requires k <= |sizes| == |hs| && MappedTo(o, d, p, addr, sizes, hs, k)
    ensures p.err == 0
  {
  }

  /** One more map step, with its rollback when it fails. */
  lemma {:induction false} NextMap(o: Oracle, d: Dev, p: Progress, addr: nat, sizes: seq<nat>, hs: seq<nat>, k: nat)
    requires d.Valid() && k < |sizes| == |hs| && Positive(sizes) && d.Ready(addr, Offset(sizes, |sizes|))
    requires DistinctHandles(hs) && forall j :: 0 <= j < |hs| ==> hs[j] in d.live
    requires MappedTo(o, d, p, addr, sizes, hs, k)
    ensures var (d1, e) := Map(o, p.dev, At(addr, sizes, k), sizes[k], hs[k]);
      var d2 := UnmapLoop(o, d1, addr, sizes, k, 0).0;
      if e != 0 then MapFailed(o, d, Progress(ReleaseLoop(o, d2, hs, |hs|, 0).0, e, hs, true), addr, sizes, hs, k)
      else MappedTo(o, d, Progress(d1, 0, hs, false), addr, sizes, hs, k + 1)
  {
    hide ReleaseLoop, UnmapLoop, Map, Offset, At;
    NextIsClear(o, d, p, addr, sizes, hs, k);
    MapOne(o, p.dev, At(addr, sizes, k), sizes[k], hs[k]);
    var (d1, e) := Map(o, p.dev, At(addr, sizes, k), sizes[k], hs[k]);
    forall j | 0 <= j < k ensures Placed(d1, addr, sizes, hs, j) {
      AtInjective(addr, sizes, j, k);
      assert Placed(p.dev, addr, sizes, hs, j);
    }
    if e != 0 {
      RollBack(o, d, d1, addr, sizes, hs, k);
    } else {
      forall a ensures ChunkAt(addr, sizes, k + 1, a) <==> ChunkAt(addr, sizes, k, a) || a == At(addr, sizes, k) {
      }
      if At(addr, sizes, k) in d.maps {
        OldIsNoChunk(d, addr, sizes, k, At(addr, sizes, k));
      }
    }
  }

  /** A mapping from before is never at a chunk address. */
  lemma {:induction false} OldIsNoChunk(d: Dev, addr: nat, sizes: seq<nat>, j: nat, a: nat)
    requires d.Valid() && Positive(sizes) && d.Ready(addr, Offset(sizes, |sizes|)) && j < |sizes| && a in d.maps
    ensures At(addr, sizes, j) != a
  {
    OffsetMonotone(sizes, j, |sizes|);
    OffsetMonotone(sizes, 0, j);
  }

  /** Unmap the chunks mapped so far, then release all handles. */
  lemma {:induction false} RollBack(o: Oracle, d: Dev, d1: Dev, addr: nat, sizes: seq<nat>, hs: seq<nat>, k: nat)
    requires d.Valid() && k < |sizes| == |hs| && Positive(sizes) && d.Ready(addr, Offset(sizes, |sizes|))
    requires DistinctHandles(hs) && forall j :: 0 <= j < |hs| ==> hs[j] in d.live
    requires d1.live == d.live && d1.reserved == d.reserved && |d1.log| == |d.log| + k + 1
    requires AllGood(o, |d.log|, |d.log| + k) && o.fails(|d.log| + k) != 0
    requires forall j :: 0 <= j < k ==> Placed(d1, addr, sizes, hs, j)
    requires forall a :: a in d1.maps <==> a in d.maps || ChunkAt(addr, sizes, k, a)
    requires forall a :: a in d.maps ==> d1.maps[a] == d.maps[a]
    ensures var d2 := UnmapLoop(o, d1, addr, sizes, k, 0).0;
      MapFailed(o, d, Progress(ReleaseLoop(o, d2, hs, |hs|, 0).0, o.fails(|d.log| + k), hs, true), addr, sizes, hs, k)
  {
    hide ReleaseLoop, UnmapLoop, Offset, At, Placed, Released, Unmapped, LeftMapped, ChunkAt;
    var base := |d1.log|;
    UnmapShape(o, d1, addr, sizes, hs, k, k, 0);
    var d2 := UnmapLoop(o, d1, addr, sizes, k, 0).0;
    ReleaseShape(o, d2, hs, |hs|, 0);
    forall a ensures a in d2.maps <==> a in d.maps || LeftMapped(o, base, addr, sizes, k, a) {
      if a in d.maps {
        OldStays(o, base, d, addr, sizes, k, a);
      } else {
        LeftOrUnmapped(o, base, addr, sizes, k, a);
      }
    }
  }

  lemma {:induction false} OldStays(o: Oracle, base: nat, d: Dev, addr: nat, sizes: seq<nat>, k: nat, a: nat)
    requires d.Valid() && k < |sizes| && Positive(sizes) && d.Ready(addr, Offset(sizes, |sizes|)) && a in d.maps
    ensures !Unmapped(o, base, addr, sizes, k, a)
  {
    hide At;
    forall j | 0 <= j < k ensures At(addr, sizes, j) != a {
      OldIsNoChunk(d, addr, sizes, j, a);
    }
  }

  lemma {:induction false} LeftOrUnmapped(o: Oracle, base: nat, addr: nat, sizes: seq<nat>, k: nat, a: nat)
    requires k <= |sizes| && Positive(sizes)
    ensures LeftMapped(o, base, addr, sizes, k, a)
      <==> ChunkAt(addr, sizes, k, a) && !Unmapped(o, base, addr, sizes, k, a)
  {
    hide At;
    if ChunkAt(addr, sizes, k, a) {
      var j :| 0 <= j < k && At(addr, sizes, j) == a;
      forall i | 0 <= i < k && At(addr, sizes, i) == a ensures i == j {
        if i < j {
          AtInjective(addr, sizes, i, j);
        } else if j < i {
          AtInjective(addr, sizes, j, i);
        }
      }
    }
  }

  // ----- outcomes of a whole call

  /** `d'` is `d` with the range at `addr` backed: every chunk placed by its own new handle,
      everything else as it was. */
  ghost predicate Backs(d: Dev, d': Dev, addr: nat, sizes: seq<nat>, hs: seq<nat>) {
    && |hs| == |sizes| && DistinctHandles(hs) && d'.Valid()
    && (forall j :: 0 <= j < |hs| ==> hs[j] !in d.live && Placed(d', addr, sizes, hs, j))
    && (forall h :: h in d'.live <==> h in d.live || h in hs)
    && (forall a :: a in d'.maps <==> a in d.maps || ChunkAt(addr, sizes, |sizes|, a))
    && (forall a :: a in d.maps ==> d'.maps[a] == d.maps[a])
    && d'.reserved == d.reserved
  }

  /** Every byte of a tiled range belongs to exactly one chunk. */
  lemma {:induction false} ByteMappedOnce(addr: nat, sizes: seq<nat>, k: nat, b: nat) returns (j: nat)
    requires k <= |sizes| && Positive(sizes) && addr <= b < addr + Offset(sizes, k)
    ensures j < k && At(addr, sizes, j) <= b < At(addr, sizes, j) + sizes[j]
    ensures forall i :: 0 <= i < |sizes| && At(addr, sizes, i) <= b < At(addr, sizes, i) + sizes[i] ==> i == j
    decreases k
  {
    if b < addr + Offset(sizes, k - 1) {
      j := ByteMappedOnce(addr, sizes, k - 1, b);
    } else {
      j := k - 1;
      forall i | 0 <= i < |sizes| && At(addr, sizes, i) <= b < At(addr, sizes, i) + sizes[i] ensures i == j {
        if i < j {
          OffsetMonotone(sizes, i, j);
        } else if i > j {
          OffsetMonotone(sizes, j, i);
        }
      }
    }
  }

  /** Backing succeeds exactly when none of its `2n` driver calls fails, and then every chunk is
      mapped where it belongs by a handle of its own. */
  lemma {:induction false} CreateSucceeds(o: Oracle, d: Dev, addr: nat, sizes: seq<nat>)
    requires d.Valid() && Positive(sizes) && d.Ready(addr, Offset(sizes, |sizes|))
    ensures var r := CreateAndMap(o, d, 0, addr, sizes);
      && (r.err == 0 <==> AllGood(o, |d.log|, |d.log| + 2 * |sizes|))
      && (r.err == 0 ==> Backs(d, r.dev, addr, sizes, r.handles) && |r.dev.log| == |d.log| + 2 * |sizes|)
  {
    hide CreateLoop, MapLoop, Offset, Released, At;
    var n := |sizes|;
    var i := CreateShape(o, d, sizes, n);
    var p := CreateLoop(o, d, 0, sizes, n);
    if !p.stopped {
      NewHandlesDistinct(d, n);
      var m := MapShape(o, p.dev, addr, sizes, p.handles, n);
      var r := MapLoop(o, p.dev, 0, addr, sizes, p.handles, n);
      if !r.stopped {
        BecomesBacked(o, d, p, r, addr, sizes);
      }
    }
  }

  /** Whatever holds the whole range holds each chunk. */
  lemma {:induction false} PartHeld(d: Dev, addr: nat, sizes: seq<nat>, j: nat)
    requires j < |sizes| && d.Holds(addr, Offset(sizes, |sizes|))
    ensures d.Holds(At(addr, sizes, j), sizes[j])
  {
    OffsetMonotone(sizes, j, |sizes|);
    var r :| r in d.reserved && r <= addr && addr + Offset(sizes, |sizes|) <= r + d.reserved[r];
    assert r <= At(addr, sizes, j);
  }

  lemma {:induction false} BecomesBacked(o: Oracle, d: Dev, p: Progress, r: Progress, addr: nat, sizes: seq<nat>)
    requires d.Valid() && Positive(sizes) && d.Ready(addr, Offset(sizes, |sizes|)) && Created(o, d, p, |sizes|)
    requires MappedTo(o, p.dev, r, addr, sizes, p.handles, |sizes|)
    ensures Backs(d, r.dev, addr, sizes, p.handles)
  {
    hide Offset, At;
    var hs := p.handles;
    forall h ensures h in r.dev.live <==> h in d.live || h in hs {
      if d.nextHandle <= h < d.nextHandle + |sizes| {
        assert hs[h - d.nextHandle] == h;
      }
    }
    forall a | a in r.dev.maps ensures r.dev.maps[a].size > 0 && r.dev.Holds(a, r.dev.maps[a].size) {
      SameHolds(d, r.dev);
      if a !in d.maps {
        var j :| 0 <= j < |sizes| && At(addr, sizes, j) == a;
        assert Placed(r.dev, addr, sizes, hs, j);
        PartHeld(d, addr, sizes, j);
      }
    }
  }

  /** A failure at any create or map step: up to it all calls went through, it set the error code,
      and nothing of this call is left behind exactly when every rollback call succeeds. */
  lemma {:induction false} RollbackExact(o: Oracle, d: Dev, addr: nat, sizes: seq<nat>) returns (base: nat)
    requires d.Valid() && Positive(sizes) && d.Ready(addr, Offset(sizes, |sizes|))
    requires CreateAndMap(o, d, 0, addr, sizes).err != 0
    ensures var r := CreateAndMap(o, d, 0, addr, sizes);
      && |d.log| < base <= |r.dev.log|
      && AllGood(o, |d.log|, base - 1) && o.fails(base - 1) == r.err
      && r.dev.reserved == d.reserved
      && (AllGood(o, base, |r.dev.log|) <==> r.dev.live == d.live && r.dev.maps == d.maps)
  {
    hide CreateLoop, MapLoop, Offset, At, Released, LeftMapped;
    var n := |sizes|;
    var i := CreateShape(o, d, sizes, n);
    var p := CreateLoop(o, d, 0, sizes, n);
    if p.stopped {
      base := |d.log| + i + 1;
      CreateLeaves(o, d, p, i);
    } else {
      NewHandlesDistinct(d, n);
      var m := MapShape(o, p.dev, addr, sizes, p.handles, n);
      base := |p.dev.log| + m + 1;
      MapLeaves(o, d, p, MapLoop(o, p.dev, 0, addr, sizes, p.handles, n), addr, sizes, m);
    }
  }

  lemma {:induction false} CreateLeaves(o: Oracle, d: Dev, p: Progress, i: nat)
    requires d.Valid() && CreateFailed(o, d, p, i)
    ensures var base := |d.log| + i + 1; AllGood(o, base, base + i) <==> p.dev.live == d.live
  {
    var base := |d.log| + i + 1;
    if p.dev.live == d.live {
      forall q | base <= q < base + i ensures o.fails(q) == 0 {
        assert d.nextHandle + (q - base) !in p.dev.live;
      }
    }
  }

  lemma {:induction false} MapLeaves(o: Oracle, d: Dev, p: Progress, r: Progress, addr: nat, sizes: seq<nat>, i: nat)
    requires d.Valid() && Positive(sizes) && d.Ready(addr, Offset(sizes, |sizes|)) && i < |sizes|
    requires Created(o, d, p, |sizes|) && MapFailed(o, p.dev, r, addr, sizes, p.handles, i)
    ensures var base := |p.dev.log| + i + 1;
      AllGood(o, base, base + i + |sizes|) <==> r.dev.live == d.live && r.dev.maps == d.maps
  {
    hide Offset, At, Released;
    var base, n := |p.dev.log| + i + 1, |sizes|;
    assert AllGood(o, base, base + i + n) <==> AllGood(o, base, base + i) && AllGood(o, base + i, base + i + n);
    HandlesLeft(o, d, p, r.dev, base + i, n);
    MappingsLeft(o, d, r.dev, base, addr, sizes, i);
  }

  lemma {:induction false} HandlesLeft(o: Oracle, d: Dev, p: Progress, r: Dev, from: nat, n: nat)
    requires d.Valid() && Created(o, d, p, n)
    requires forall h :: h in r.live <==> h in p.dev.live && !Released(o, from, p.handles, n, h)
    ensures AllGood(o, from, from + n) <==> r.live == d.live
  {
    hide Released;
    forall h: nat ensures h in r.live
      <==> h in d.live || (d.nextHandle <= h < d.nextHandle + n && o.fails(from + (h - d.nextHandle)) != 0) {
      ReleasedNew(o, d, from, n, h);
    }
    if r.live == d.live {
      forall q | from <= q < from + n ensures o.fails(q) == 0 {
        assert d.nextHandle + (q - from) !in r.live;
      }
    }
  }

  lemma {:induction false} MappingsLeft(o: Oracle, d: Dev, r: Dev, base: nat, addr: nat, sizes: seq<nat>, i: nat)
    requires d.Valid() && Positive(sizes) && d.Ready(addr, Offset(sizes, |sizes|)) && i < |sizes|
    requires forall a :: a in r.maps <==> a in d.maps || LeftMapped(o, base, addr, sizes, i, a)
    requires forall a :: a in d.maps ==> r.maps[a] == d.maps[a]
    ensures AllGood(o, base, base + i) <==> r.maps == d.maps
  {
    hide Offset, At;
    if r.maps == d.maps {
      forall q | base <= q < base + i ensures o.fails(q) == 0 {
        var a := At(addr, sizes, q - base);
        if a in d.maps {
          OldIsNoChunk(d, addr, sizes, q - base, a);
        }
        assert !LeftMapped(o, base, addr, sizes, i, a);
      }
    }
  }

  /** With the error code still set from an earlier call backing always fails. The first chunk is
      created all the same, taken for a failure and left live, unless there is none or its creation
      fails as well: exactly then the device stays as it was. */
  lemma {:induction false} StaleErrorLeaks(o: Oracle, d: Dev, err: int, addr: nat, sizes: seq<nat>)
    requires d.Valid() && err != 0
    ensures var r := CreateAndMap(o, d, err, addr, sizes);
      && r.err != 0 && r.dev.maps == d.maps && r.dev.reserved == d.reserved
      && r.dev.live == d.live + (if sizes != [] && o.fails(|d.log|) == 0 then {d.nextHandle} else {})
      && (r.dev.live == d.live && r.dev.maps == d.maps <==> sizes == [] || o.fails(|d.log|) != 0)
  {
    if sizes != [] {
      var p := CreateLoop(o, d, err, sizes, 0);
      assert CreateLoop(o, d, err, sizes, 1).stopped;
      CreateSticks(o, d, err, sizes, 1, |sizes|);
    }
  }

  /** Backing, whatever the error code on entry. It succeeds exactly when the code is clear and no
      call fails. A failed one leaves no handle and no mapping exactly when, with a clear code, all
      its rollback calls (from `base` on) succeed, or, with a stale one, nothing was created. */
  lemma {:induction false} BackingOutcome(o: Oracle, d: Dev, err: int, addr: nat, sizes: seq<nat>) returns (base: nat)
    requires d.Valid() && Positive(sizes) && d.Ready(addr, Offset(sizes, |sizes|))
    ensures var r := CreateAndMap(o, d, err, addr, sizes);
      && (r.err == 0 <==> err == 0 && AllGood(o, |d.log|, |d.log| + 2 * |sizes|))
      && (r.err == 0 ==> Backs(d, r.dev, addr, sizes, r.handles) && |r.dev.log| == |d.log| + 2 * |sizes|)
      && (r.err != 0 ==>
            && r.dev.reserved == d.reserved
            && (err == 0 ==>
                  |d.log| < base <= |r.dev.log| && AllGood(o, |d.log|, base - 1) && o.fails(base - 1) == r.err)
            && (r.dev.live == d.live && r.dev.maps == d.maps <==>
                  if err == 0 then AllGood(o, base, |r.dev.log|) else sizes == [] || o.fails(|d.log|) != 0))
  {
    hide CreateAndMap, Offset, Backs;
    base := 0;
    if err != 0 {
      StaleErrorLeaks(o, d, err, addr, sizes);
    } else {
      CreateSucceeds(o, d, addr, sizes);
      if CreateAndMap(o, d, 0, addr, sizes).err != 0 {
        base := RollbackExact(o, d, addr, sizes);
      }
    }
  }

  // ----- unmapping and cycles

  /** The reservation at `addr` is held and unbacked, and no other reservation reaches into it. */
  ghost predicate Idle(d: Dev, addr: nat, size: nat) {
    && d.Valid() && d.Ready(addr, size) && addr in d.reserved && d.reserved[addr] == size
    && forall a :: a in d.reserved && a != addr ==> a + d.reserved[a] <= addr || addr + size <= a
  }

  /** Releasing physical memory attempts every chunk exactly once whatever fails, reports the first
      error, and stops there if there was one. Without errors the address range is cycled; the call
      succeeds exactly when all calls do and the driver gives the same address back, and then the
      device is as it was before it was backed. */
  lemma {:induction false} UnmapOutcome(o: Oracle, d: Dev, d': Dev, addr: nat, size: nat, sizes: seq<nat>, hs: seq<nat>)
    requires Idle(d, addr, size) && Positive(sizes) && size == Offset(sizes, |sizes|) && Backs(d, d', addr, sizes, hs)
    ensures var (r, e) := UnmapAndRelease(o, d', 0, addr, size, sizes, hs);
      var n, from := |sizes|, |d'.log|;
      && d'.log + UnmapCalls(addr, sizes) + ReleaseCalls(hs) <= r.log
      && var first := FirstError(o, from + n, n, FirstError(o, from, n, 0));
         && (first != 0 ==> e == first && |r.log| == from + 2 * n)
         && (e == 0 <==> first == 0 && AllGood(o, from + 2 * n, from + 2 * n + 2) && o.places(from + 2 * n + 1) == addr)
         && (e == 0 ==> r.live == d.live && r.maps == d.maps && r.reserved == d.reserved)
  {
    hide UnmapLoop, ReleaseLoop, Offset, FirstError, AddressFree, AddressReserve, Backs;
    var n, from := |sizes|, |d'.log|;
    ChunksUndone(o, d, d', addr, size, sizes, hs);
    var (d1, e1) := UnmapLoop(o, d', addr, sizes, n, 0);
    var (d2, e2) := ReleaseLoop(o, d1, hs, n, e1);
    if e2 == 0 {
      ReserveAgain(o, d2, addr, size);
    }
  }

  /** The part over the chunks. */
  lemma {:induction false} ChunksUndone(o: Oracle, d: Dev, d': Dev, addr: nat, size: nat, sizes: seq<nat>, hs: seq<nat>)
    requires Idle(d, addr, size) && Positive(sizes) && size == Offset(sizes, |sizes|) && Backs(d, d', addr, sizes, hs)
    ensures |hs| == |sizes|
    ensures var n, from := |sizes|, |d'.log|;
      var (d1, e1) := UnmapLoop(o, d', addr, sizes, n, 0);
      var (d2, e2) := ReleaseLoop(o, d1, hs, n, e1);
      && e2 == FirstError(o, from + n, n, FirstError(o, from, n, 0))
      && d2.log == d'.log + UnmapCalls(addr, sizes) + ReleaseCalls(hs)
      && (e2 == 0 ==> d2.live == d.live && d2.maps == d.maps && d2.reserved == d.reserved && Idle(d2, addr, size))
  {
    hide UnmapLoop, ReleaseLoop, Offset, At, Unmapped, Released, ChunkAt, FirstError;
    var n, from := |sizes|, |d'.log|;
    UnmapShape(o, d', addr, sizes, hs, n, n, 0);
    var (d1, e1) := UnmapLoop(o, d', addr, sizes, n, 0);
    ReleaseShape(o, d1, hs, n, e1);
    var (d2, e2) := ReleaseLoop(o, d1, hs, n, e1);
    assert UnmapCalls(addr, sizes)[..n] == UnmapCalls(addr, sizes) && ReleaseCalls(hs)[..n] == ReleaseCalls(hs);
    if e2 == 0 {
      NoFirstError(o, from, n, n);
      AllUndone(o, d, d', d2, addr, sizes, hs);
      BackedStaysValid(d, d', d2, addr, size, sizes, hs);
    }
  }

  lemma {:induction false} BackedStaysValid(d: Dev, d': Dev, d2: Dev, addr: nat, size: nat, sizes: seq<nat>,
                                            hs: seq<nat>)
    requires Idle(d, addr, size) && Backs(d, d', addr, sizes, hs)
    requires d2.live == d.live && d2.maps == d.maps && d2.reserved == d'.reserved && d2.nextHandle == d'.nextHandle
    ensures Idle(d2, addr, size)
  {
  }

  /** The part after the chunks: free the address range and reserve it again. */
  lemma {:induction false} ReserveAgain(o: Oracle, d: Dev, addr: nat, size: nat)
    requires Idle(d, addr, size)
    ensures var (d3, e3) := AddressFree(o, d, addr, size);
      var (d4, e4, at) := AddressReserve(o, d3, size, addr);
      && e3 == o.fails(|d.log|) && d.log <= d3.log && |d3.log| == |d.log| + 1
      && (e3 == 0 && e4 == 0 && at == addr <==> AllGood(o, |d.log|, |d.log| + 2) && o.places(|d.log| + 1) == addr)
      && d.log <= d4.log && d.log <= AddressFree(o, d4, at, size).0.log
      && (e3 == 0 && e4 == 0 && at == addr ==> d4.live == d.live && d4.maps == d.maps && d4.reserved == d.reserved)
  {
    var (d3, e3) := AddressFree(o, d, addr, size);
    if e3 == 0 {
      assert d.reserved == d3.reserved[addr := size];
    }
  }

  lemma {:induction false} NoFirstError(o: Oracle, from: nat, n: nat, k: nat)
    requires k <= n && FirstError(o, from + n, k, FirstError(o, from, n, 0)) == 0
    ensures AllGood(o, from, from + n) && AllGood(o, from + n, from + n + k)
    decreases k
  {
    if k == 0 {
      NoFirstErrorIn(o, from, n);
    } else {
      NoFirstError(o, from, n, k - 1);
    }
  }

  lemma {:induction false} NoFirstErrorIn(o: Oracle, from: nat, n: nat)
    requires FirstError(o, from, n, 0) == 0
    ensures AllGood(o, from, from + n)
  {
    if n > 0 {
      NoFirstErrorIn(o, from, n - 1);
    }
  }

  lemma {:induction false} AllUndone(o: Oracle, d: Dev, d': Dev, d2: Dev, addr: nat, sizes: seq<nat>, hs: seq<nat>)
    requires d.Valid() && Positive(sizes) && d.Ready(addr, Offset(sizes, |sizes|)) && Backs(d, d', addr, sizes, hs)
    requires AllGood(o, |d'.log|, |d'.log| + |sizes|) && AllGood(o, |d'.log| + |sizes|, |d'.log| + 2 * |sizes|)
    requires forall a :: a in d2.maps <==> a in d'.maps && !Unmapped(o, |d'.log|, addr, sizes, |sizes|, a)
    requires forall a :: a in d2.maps ==> d2.maps[a] == d'.maps[a]
    requires forall h :: h in d2.live <==> h in d'.live && !Released(o, |d'.log| + |sizes|, hs, |sizes|, h)
    ensures d2.maps == d.maps && d2.live == d.live
  {
    hide Offset, At;
    forall a ensures a in d2.maps <==> a in d.maps {
      if a in d.maps {
        forall j | 0 <= j < |sizes| ensures At(addr, sizes, j) != a {
          OldIsNoChunk(d, addr, sizes, j, a);
        }
      }
    }
  }

  /** `n` wake and sleep cycles. */
  function Cycles(o: Oracle, d: Dev, addr: nat, size: nat, sizes: seq<nat>, n: nat): Result<Dev, int> {
    if n == 0 then Ok(d)
    else
      match Cycles(o, d, addr, size, sizes, n - 1)
      case Err(e) => Err(e)
      case Ok(p) =>
        var c := CreateAndMap(o, p, 0, addr, sizes);
        if c.err != 0 || |c.handles| != |sizes| then Err(c.err)
        else
          var (r, e) := UnmapAndRelease(o, c.dev, 0, addr, size, sizes, c.handles);
          if e != 0 then Err(e) else Ok(r)
  }

  /** Over any number of successful cycles the reservation keeps its address and size, every
      wake-up backs all of it, and every sleep leaves no mapping and no handle of it. */
  lemma {:induction false} CyclesKeepReservation(o: Oracle, d: Dev, addr: nat, size: nat, sizes: seq<nat>, n: nat)
    requires Idle(d, addr, size) && Positive(sizes) && size == Offset(sizes, |sizes|)
    requires Cycles(o, d, addr, size, sizes, n).Ok?
    ensures var p := Cycles(o, d, addr, size, sizes, n).value;
      && p.live == d.live && p.maps == d.maps && p.reserved == d.reserved && p.nextHandle >= d.nextHandle
      && Idle(p, addr, size)
      && var c := CreateAndMap(o, p, 0, addr, sizes);
         c.err == 0 ==> Backs(p, c.dev, addr, sizes, c.handles)
  {
    hide CreateAndMap, UnmapAndRelease, Offset, Backs;
    if n > 0 {
      CyclesKeepReservation(o, d, addr, size, sizes, n - 1);
      var p := Cycles(o, d, addr, size, sizes, n - 1).value;
      var c := CreateAndMap(o, p, 0, addr, sizes);
      UnmapOutcome(o, p, c.dev, addr, size, sizes, c.handles);
      var r := UnmapAndRelease(o, c.dev, 0, addr, size, sizes, c.handles).0;
      FreshGrows(o, p, addr, size, sizes);
    }
    CreateSucceeds(o, Cycles(o, d, addr, size, sizes, n).value, addr, sizes);
  }

  lemma {:induction false} FreshGrows(o: Oracle, d: Dev, addr: nat, size: nat, sizes: seq<nat>)
    requires Idle(d, addr, size) && Positive(sizes) && size == Offset(sizes, |sizes|)
    requires CreateAndMap(o, d, 0, addr, sizes).err == 0 && |CreateAndMap(o, d, 0, addr, sizes).handles| == |sizes|
    ensures var c := CreateAndMap(o, d, 0, addr, sizes);
      UnmapAndRelease(o, c.dev, 0, addr, size, sizes, c.handles).0.nextHandle == d.nextHandle + |sizes|
  {
    hide CreateLoop, MapLoop, UnmapLoop, ReleaseLoop, Offset, At;
    var n := |sizes|;
    CreateSucceeds(o, d, addr, sizes);
    var i := CreateShape(o, d, sizes, n);
    var p := CreateLoop(o, d, 0, sizes, n);
    NewHandlesDistinct(d, n);
    var m := MapShape(o, p.dev, addr, sizes, p.handles, n);
    var c := CreateAndMap(o, d, 0, addr, sizes);
    UnmapShape(o, c.dev, addr, sizes, c.handles, n, n, 0);
    var (d1, e1) := UnmapLoop(o, c.dev, addr, sizes, n, 0);
    ReleaseShape(o, d1, c.handles, n, e1);
  }

  // ----- the first allocation

  datatype Allocated = Allocated(dev: Dev, err: int, ptr: Result<nat, ()>, handles: seq<nat>)

  /** `my_malloc` after the granularity is known: reserve, announce to the callback, back, and give
      the reservation up when backing fails. */
  function Malloc(o: Oracle, d: Dev, err: int, aligned: nat, sizes: seq<nat>, callbackOk: bool): Allocated {
    var (d1, e1) := Query(o, d);
    var err1 := if e1 != 0 then e1 else err;
    if err1 != 0 then Allocated(d1, err1, Err(()), [])
    else
      var (d2, e2, at) := AddressReserve(o, d1, aligned, 0);
      if e2 != 0 then Allocated(d2, e2, Err(()), [])
      else if !callbackOk then Allocated(d2, 0, Err(()), [])
      else
        var r := CreateAndMap(o, d2, 0, at, sizes);
        if r.err != 0 then
          var (d3, e3) := AddressFree(o, r.dev, at, aligned);
          Allocated(d3, if e3 != 0 then e3 else r.err, Err(()), [])
        else Allocated(r.dev, 0, Ok(at), r.handles)
  }

  /** The granularity query and the reservation both succeed. */
  predicate Reserves(o: Oracle, d: Dev, size: nat) {
    var at := o.places(|d.log| + 1);
    && o.fails(|d.log|) == 0 && o.fails(|d.log| + 1) == 0
    && d.Unreserved(at, size) && at !in d.reserved
  }

  /** The device apart from its log and handle counter. */
  predicate Untouched(d: Dev, d': Dev) {
    d'.live == d.live && d'.maps == d.maps && d'.reserved == d.reserved
  }

  /** Allocation, for every error code on entry and either outcome of the Python callback. An address
      is returned exactly when the code was clear, everything was reserved, the callback went through
      and no call of the backing failed; then the range is reserved and fully backed. An allocation
      that returns none leaves the device as it was exactly when it stopped before reserving, or got
      past the callback and every rollback call (from `base` on) and the address free succeed. It
      leaves an error code behind except when only the callback failed. */
  lemma {:induction false} MallocOutcome(o: Oracle, d: Dev, err: int, aligned: nat, sizes: seq<nat>, callbackOk: bool)
    returns (base: nat)
    requires d.Valid() && Positive(sizes) && aligned == Offset(sizes, |sizes|)
    ensures var r := Malloc(o, d, err, aligned, sizes, callbackOk);
      var at, reached := o.places(|d.log| + 1), err == 0 && Reserves(o, d, aligned);
      && (r.ptr.Ok? <==> reached && callbackOk && AllGood(o, |d.log| + 2, |d.log| + 2 + 2 * |sizes|))
      && (r.ptr.Ok? ==>
            && r.ptr.value == at
            && Backs(d.(reserved := d.reserved[at := aligned]), r.dev, at, sizes, r.handles))
      && (r.ptr.Err? ==> (Untouched(d, r.dev) <==> !reached || (callbackOk && AllGood(o, base, |r.dev.log|))))
      && (r.ptr.Err? && reached && callbackOk ==>
            |d.log| + 2 < base <= |r.dev.log| && AllGood(o, |d.log|, base - 1) && o.fails(base - 1) != 0)
      && (reached && !callbackOk ==> r.dev.reserved == d.reserved[at := aligned])
      && (r.err == 0 <==> r.ptr.Ok? || (reached && !callbackOk))
  {
    hide Offset, Backs, AllGood;
    base := 0;
    if err == 0 && Reserves(o, d, aligned) && callbackOk {
      base := ReservedMalloc(o, d, aligned, sizes);
    }
  }

  /** The part behind the reservation. */
  lemma {:induction false} ReservedMalloc(o: Oracle, d: Dev, aligned: nat, sizes: seq<nat>) returns (base: nat)
    requires d.Valid() && Positive(sizes) && aligned == Offset(sizes, |sizes|) && Reserves(o, d, aligned)
    ensures var r := Malloc(o, d, 0, aligned, sizes, true);
      var at := o.places(|d.log| + 1);
      && (r.ptr.Ok? <==> AllGood(o, |d.log| + 2, |d.log| + 2 + 2 * |sizes|))
      && (r.ptr.Ok? ==>
            && r.err == 0 && r.ptr.value == at
            && Backs(d.(reserved := d.reserved[at := aligned]), r.dev, at, sizes, r.handles))
      && (r.ptr.Err? ==>
            && |d.log| + 2 < base <= |r.dev.log| && AllGood(o, |d.log|, base - 1) && o.fails(base - 1) != 0
            && r.err != 0
            && (Untouched(d, r.dev) <==> AllGood(o, base, |r.dev.log|)))
  {
    hide CreateAndMap, Offset, Backs;
    var d1 := Query(o, d).0;
    var (d2, e2, at) := AddressReserve(o, d1, aligned, 0);
    SameHolds(d, d1);
    ReserveReady(o, d1, aligned);
    base := BackingOutcome(o, d2, 0, at, sizes);
    var c := CreateAndMap(o, d2, 0, at, sizes);
    if c.err != 0 {
      var d3 := AddressFree(o, c.dev, at, aligned).0;
      assert d2.reserved - {at} == d.reserved;
      assert AllGood(o, base, |d3.log|) <==> AllGood(o, base, |c.dev.log|) && o.fails(|c.dev.log|) == 0;
    } else {
      SameBase(d2, d.(reserved := d2.reserved), c.dev, at, sizes, c.handles);
    }
  }

  /** A fresh reservation can be mapped. */
  lemma {:induction false} ReserveReady(o: Oracle, d: Dev, size: nat)
    requires d.Valid() && o.fails(|d.log|) == 0
    requires d.Unreserved(o.places(|d.log|), size) && o.places(|d.log|) !in d.reserved
    ensures var (r, e, at) := AddressReserve(o, d, size, 0);
      && e == 0 && at == o.places(|d.log|) && r.Valid() && r.Ready(at, size)
      && r.live == d.live && r.maps == d.maps && r.reserved == d.reserved[at := size] && |r.log| == |d.log| + 1
  {
    var (r, e, at) := AddressReserve(o, d, size, 0);
    AddressReserveValid(o, d, size, 0);
    UnreservedIsClear(d, at, size);
    assert at in r.reserved && r.reserved[at] == size;
  }

  lemma {:induction false} SameBase(d: Dev, b: Dev, d': Dev, addr: nat, sizes: seq<nat>, hs: seq<nat>)
    requires Backs(d, d', addr, sizes, hs) && b.live == d.live && b.maps == d.maps && b.reserved == d.reserved
    ensures Backs(b, d', addr, sizes, hs)
  {
  }

  /** An allocation whose Python callback fails gives the reservation back in no case: the reserved
      ranges are as before exactly when it stopped before reserving. */
  lemma {:induction false} CallbackFailureLeaks(o: Oracle, d: Dev, err: int, aligned: nat, sizes: seq<nat>)
    requires d.Valid() && Positive(sizes) && aligned == Offset(sizes, |sizes|)
    ensures var r := Malloc(o, d, err, aligned, sizes, false);
      r.ptr.Err? && (r.dev.reserved == d.reserved <==> err != 0 || !Reserves(o, d, aligned))
  {
    hide Malloc, Offset;
    var base := MallocOutcome(o, d, err, aligned, sizes, false);
  }
}

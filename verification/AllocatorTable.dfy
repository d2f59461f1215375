/** The Python table of allocations beside the handle tables in host memory. `my_malloc` announces its
    handle table before it backs the range and frees the table when that fails; `my_free` frees it at
    the end. Waking up and sleeping go through all entries of the Python table. */
module AllocatorTable {
  import opened Sequences
  import opened Driver
  import opened Allocator

  /** Handle tables are numbered in order of creation. */
  datatype Book = Book(entries: map<nat, nat>, freed: set<nat>, next: nat)

  /** What happens to the address `at`: an allocation that got past its callback, backed or not; a free;
      an entry that Python drops on its own when it leaves a memory pool. */
  datatype Event = Announced(at: nat, backed: bool) | Freed(at: nat) | Dropped(at: nat)

  const EMPTY := Book(map[], {}, 0)

  /** Freeing an address without an entry raises in the callback, and nothing is freed. */
  function Step(b: Book, e: Event): Book {
    match e
    case Announced(at, backed) =>
      Book(b.entries[at := b.next], if backed then b.freed else b.freed + {b.next}, b.next + 1)
    case Freed(at) =>
      if at in b.entries then Book(b.entries - {at}, b.freed + {b.entries[at]}, b.next) else b
    case Dropped(at) => b.(entries := b.entries - {at})
  }

  function Run(es: seq<Event>): Book {
    if es == [] then EMPTY else Step(Run(es[..|es| - 1]), es[|es| - 1])
  }

  /** The last event at an address. */
  function LastAt(es: seq<Event>, at: nat): Option<Event> {
    if es == [] then None
    else if es[|es| - 1].at == at then Some(es[|es| - 1])
    else LastAt(es[..|es| - 1], at)
  }

  /** The entry at `at` leads to a handle table that has been freed. */
  predicate Dangling(b: Book, at: nat) {
    at in b.entries && b.entries[at] in b.freed
  }

  /** Every entry has a table of its own, and tables are numbered as they are made. */
  ghost predicate Sound(b: Book) {
    && (forall a :: a in b.entries ==> b.entries[a] < b.next)
    && (forall a, a' :: a in b.entries && a' in b.entries && b.entries[a] == b.entries[a'] ==> a == a')
    && (forall t :: t in b.freed ==> t < b.next)
  }

  lemma {:induction false} StepSound(b: Book, e: Event)
    requires Sound(b)
    ensures Sound(Step(b, e))
    ensures forall at :: at != e.at ==> (Dangling(Step(b, e), at) <==> Dangling(b, at))
    ensures Dangling(Step(b, e), e.at) <==> e == Announced(e.at, false)
  {
  }

  /** After any run an entry leads to a freed table exactly when the last thing that happened at its
      address is an allocation that was announced and then failed to be backed. */
  lemma {:induction false} DanglingIffBackingFailed(es: seq<Event>, at: nat)
    ensures Sound(Run(es))
    ensures Dangling(Run(es), at) <==> LastAt(es, at) == Some(Announced(at, false))
  {
    hide Step, Sound, Dangling;
    if es == [] {
      NothingDangles(at);
    } else {
      var init, e := es[..|es| - 1], es[|es| - 1];
      DanglingIffBackingFailed(init, at);
      StepSound(Run(init), e);
    }
  }

  lemma {:induction false} NothingDangles(at: nat)
    ensures Sound(EMPTY) && !Dangling(EMPTY, at)
  {
  }

  /** Nothing that happens leaves a handle table without an entry and without being freed, but for an entry
      that is dropped, or that is replaced because its address was announced again. */
  lemma {:induction false} TablesKept(es: seq<Event>, t: nat)
    requires forall k :: 0 <= k < |es| ==>
      !es[k].Dropped? && (es[k].Announced? ==> es[k].at !in Run(es[..k]).entries || Dangling(Run(es[..k]), es[k].at))
    ensures t < Run(es).next ==> t in Run(es).freed || exists a :: a in Run(es).entries && Run(es).entries[a] == t
  {
    hide Dangling;
    if es != [] {
      var init, e := es[..|es| - 1], es[|es| - 1];
      forall k | 0 <= k < |init|
        ensures !init[k].Dropped? && (init[k].Announced? ==>
          init[k].at !in Run(init[..k]).entries || Dangling(Run(init[..k]), init[k].at))
      {
        assert init[..k] == es[..k];
      }
      TablesKept(init, t);
      TableKept(Run(init), e, t);
    }
  }

  lemma {:induction false} TableKept(b: Book, e: Event, t: nat)
    requires t < b.next ==> t in b.freed || exists a :: a in b.entries && b.entries[a] == t
    requires !e.Dropped? && (e.Announced? ==> e.at !in b.entries || Dangling(b, e.at))
    ensures var s := Step(b, e);
      t < s.next ==> t in s.freed || exists a :: a in s.entries && s.entries[a] == t
  {
    var s := Step(b, e);
    if t < b.next && t !in s.freed {
      var a :| a in b.entries && b.entries[a] == t;
      assert a in s.entries && s.entries[a] == t;
    } else if t == b.next && e.Announced? {
      assert e.at in s.entries && s.entries[e.at] == t;
    }
  }

  /** What an allocation is to the table: nothing if it stops before the callback or the callback fails. */
  function EventOf(o: Oracle, d: Dev, err: int, aligned: nat, sizes: seq<nat>, callbackOk: bool): Option<Event> {
    if err == 0 && Reserves(o, d, aligned) && callbackOk then
      Some(Announced(o.places(|d.log| + 1), Malloc(o, d, err, aligned, sizes, callbackOk).ptr.Ok?))
    else None
  }

  /** An allocation leaves an entry with a freed table behind exactly when it gets past its callback and
      some create or map call fails; no later wake-up or sleep through the table avoids that entry until
      its address is allocated again or dropped. */
  lemma {:induction false} MallocDangles(o: Oracle, d: Dev, err: int, aligned: nat, sizes: seq<nat>, callbackOk: bool,
                                         before: seq<Event>, after: seq<Event>)
    requires d.Valid() && Positive(sizes) && aligned == Offset(sizes, |sizes|)
    requires EventOf(o, d, err, aligned, sizes, callbackOk).Some?
    requires forall k :: 0 <= k < |after| ==> after[k].at != o.places(|d.log| + 1)
    ensures var e, at := EventOf(o, d, err, aligned, sizes, callbackOk).value, o.places(|d.log| + 1);
      Dangling(Run(before + [e] + after), at) <==> !AllGood(o, |d.log| + 2, |d.log| + 2 + 2 * |sizes|)
  {
    hide Malloc, Offset, Reserves, Backs, AllGood, Dangling;
    var base := MallocOutcome(o, d, err, aligned, sizes, callbackOk);
    var e, at := EventOf(o, d, err, aligned, sizes, callbackOk).value, o.places(|d.log| + 1);
    LastStays(before + [e], after, at);
    DanglingIffBackingFailed(before + [e] + after, at);
  }

  lemma {:induction false} LastStays(es: seq<Event>, after: seq<Event>, at: nat)
    requires forall k :: 0 <= k < |after| ==> after[k].at != at
    ensures LastAt(es + after, at) == LastAt(es, at)
    decreases |after|
  {
    if after == [] {
      assert es + after == es;
    } else {
      var init := after[..|after| - 1];
      assert (es + after)[..|es + after| - 1] == es + init;
      LastStays(es, init, at);
    }
  }
}

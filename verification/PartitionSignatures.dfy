/** `get_graph_partition_signature_patched`: a backward pass that decides what every graph partition
    takes in and hands out. Names are opaque; a buffer that mutates another one is an alias of it. */
module PartitionSignatures {
  import opened Sequences

  type Name = string

  /** A lookup of a name the scheduler has no node for. */
  datatype KeyError = NoNode

  /** A buffer's layout, and whether it stands for the mutation of another buffer. */
  datatype Buffer = Buffer(noLayout: bool, mutation: bool)

  /** What the pass reads of a partition: names it generates, names it reads or writes, and names
      used for the last time inside it. */
  datatype Partition = Partition(outputs: set<Name>, accesses: set<Name>, lastUsage: set<Name>)

  /** Names returned by the graph, names with a node, graph constants, the known buffers and the
      names that mutated buffers really have. `depth` bounds the length of alias chains. */
  datatype Graph = Graph(outputs: set<Name>, nodes: set<Name>, constants: set<Name>, buffers: map<Name, Buffer>,
                         realName: map<Name, Name>, depth: Name -> nat)
  {
    /** Alias chains end; the source's recursion relies on it. */
    predicate Grounded() {
      forall n :: n in realName ==> depth(realName[n]) < depth(n)
    }

    function Real(n: Name): Name {
      if n in realName then realName[n] else n
    }

    /** `is_none_layout`: no storage is allocated for the buffer. */
    predicate Unallocated(n: Name)
      requires Grounded()
      decreases depth(n)
    {
      && n in buffers && buffers[n].noLayout
      && (buffers[n].mutation && n in realName && realName[n] != "" ==> Unallocated(realName[n]))
    }
  }

  /** The buffers `n` stands for, itself first: as long as a known buffer without a layout mutates
      another one. */
  function Chain(g: Graph, n: Name): (c: seq<Name>)
    requires g.Grounded()
    ensures c != []
    decreases g.depth(n)
  {
    if n in g.buffers && g.buffers[n] == Buffer(true, true) && n in g.realName && g.realName[n] != "" then
      [n] + Chain(g, g.realName[n])
    else [n]
  }

  /** No storage is allocated for a name exactly when the buffer it stands for in the end is known and
      has no layout. */
  lemma {:induction false} UnallocatedIsLast(g: Graph, n: Name)
    requires g.Grounded()
    ensures var c := Chain(g, n);
      g.Unallocated(n) <==> c[|c| - 1] in g.buffers && g.buffers[c[|c| - 1]].noLayout
    ensures forall i :: 0 <= i < |Chain(g, n)| - 1 ==>
      Chain(g, n)[i] in g.realName && Chain(g, n)[i + 1] == g.realName[Chain(g, n)[i]]
    decreases g.depth(n)
  {
    if |Chain(g, n)| > 1 {
      UnallocatedIsLast(g, g.realName[n]);
      var rest := Chain(g, g.realName[n]);
      assert Chain(g, n) == [n] + rest;
      assert rest[0] == g.realName[n];
    }
  }

  /** Inputs with a node, whether each is freed inside, the allocated names handed out, and the inputs
      that are constants. */
  datatype Signature = Signature(inputs: set<Name>, freed: set<Name>, returned: set<Name>, constants: set<Name>)

  /** Names a partition takes from outside: what it reads or writes, by its real name, and what it
      must free. */
  function Inputs(g: Graph, p: Partition): set<Name>
    requires g.Grounded()
  {
    (set n | n in p.accesses && !g.Unallocated(n) && n !in p.outputs :: g.Real(n))
    + (set n | n in p.lastUsage - p.outputs && n in g.nodes)
  }

  /** Inputs that are still alive afterwards are handed out again. */
  function PassedOn(g: Graph, p: Partition): set<Name>
    requires g.Grounded()
  {
    set n | n in Inputs(g, p) && n in g.nodes && n !in p.lastUsage
  }

  // ----- what later partitions need

  /** In front of partition `k` the name `n` is still to be supplied: it is taken in there, or it is
      needed behind and not handed out there. */
  ghost predicate Needed(g: Graph, ps: seq<Partition>, k: nat, n: Name)
    requires g.Grounded() && k <= |ps|
    decreases |ps| - k, 1
  {
    if k == |ps| then n in g.outputs
    else n in Inputs(g, ps[k]) || (Needed(g, ps, k + 1, n) && !HandsOut(g, ps, k, n))
  }

  /** Partition `k` hands out, by their real names, what it generates and is needed behind it, and its
      inputs that stay alive. */
  ghost predicate HandsOut(g: Graph, ps: seq<Partition>, k: nat, n: Name)
    requires g.Grounded() && k < |ps|
    decreases |ps| - k, 0
  {
    exists m :: g.Real(m) == n && ((m in ps[k].outputs && Needed(g, ps, k + 1, m)) || m in PassedOn(g, ps[k]))
  }

  ghost predicate SignatureOf(g: Graph, ps: seq<Partition>, k: nat, s: Signature)
    requires g.Grounded() && k < |ps|
  {
    && s.inputs == Inputs(g, ps[k]) * g.nodes
    && s.freed == s.inputs * ps[k].lastUsage
    && s.constants == Inputs(g, ps[k]) * g.constants
    && forall n :: n in s.returned <==> HandsOut(g, ps, k, n) && !g.Unallocated(n)
  }

  ghost predicate AllSigned(g: Graph, ps: seq<Partition>, r: seq<Signature>)
    requires g.Grounded()
  {
    |r| == |ps| && forall k :: 0 <= k < |ps| ==> SignatureOf(g, ps, k, r[k])
  }

  /** From `from` on every name handed out with storage has a node. */
  ghost predicate NodesKnown(g: Graph, ps: seq<Partition>, from: nat)
    requires g.Grounded() && from <= |ps|
  {
    forall k, n :: from <= k < |ps| && HandsOut(g, ps, k, n) && !g.Unallocated(n) ==> n in g.nodes
  }

  /** One turn of the pass: the signature of a partition, and the names still unmet in front of it.
      Looking up a returned name without a node raises. */
  method SignOne(g: Graph, p: Partition, unmet: set<Name>) returns (r: Result<Signature, KeyError>, before: set<Name>)
    requires g.Grounded()
    ensures r.Ok? <==> forall n :: Given(g, p, unmet, n) && !g.Unallocated(n) ==> n in g.nodes
    ensures r.Ok? ==> r.value.inputs == Inputs(g, p) * g.nodes && r.value.freed == r.value.inputs * p.lastUsage
    ensures r.Ok? ==> r.value.constants == Inputs(g, p) * g.constants
    ensures r.Ok? ==> forall n :: n in r.value.returned <==> Given(g, p, unmet, n) && !g.Unallocated(n)
    ensures forall n :: n in before <==> n in Inputs(g, p) || (n in unmet && !Given(g, p, unmet, n))
  {
    hide Inputs;
    var returned := p.outputs * unmet;
    var inputs := Inputs(g, p);
    var nodes := inputs * g.nodes;
    var freed := nodes * p.lastUsage;
    var extra := set n | n in inputs && n in g.nodes && n !in p.lastUsage;
    returned := returned + extra;
    var named := set n | n in returned :: g.Real(n);
    assert forall n :: n in named <==> Given(g, p, unmet, n);
    var outputs := set n | n in named && !g.Unallocated(n);
    before := inputs + (unmet - named);
    if !(outputs <= g.nodes) {
      return Err(NoNode), before;
    }
    r := Ok(Signature(nodes, freed, outputs, inputs * g.constants));
  }

  /** Handed out by a partition, given what is unmet behind it. */
  predicate Given(g: Graph, p: Partition, unmet: set<Name>, n: Name)
    requires g.Grounded()
  {
    exists m :: m in p.outputs * unmet + PassedOn(g, p) && g.Real(m) == n
  }

  /** The pass runs from the last partition to the first, carrying the names not yet met. It fails
      exactly when some name handed out with storage has no node. */
  method GetSignatures(g: Graph, ps: seq<Partition>) returns (r: Result<seq<Signature>, KeyError>)
    requires g.Grounded()
    ensures r.Ok? <==> NodesKnown(g, ps, 0)
    ensures r.Ok? ==> AllSigned(g, ps, r.value)
  {
    hide Inputs, PassedOn, Needed;
    var signatures, unmet := [], g.outputs;
    NeededAtEnd(g, ps);
    var k := |ps|;
    while k > 0
      invariant 0 <= k <= |ps| && |signatures| == |ps| - k
      invariant forall n :: n in unmet <==> Needed(g, ps, k, n)
      invariant forall j :: 0 <= j < |signatures| ==> SignatureOf(g, ps, |ps| - 1 - j, signatures[j])
      invariant NodesKnown(g, ps, k)
    {
      k := k - 1;
      var signature, before := SignOne(g, ps[k], unmet);
      forall n
        ensures Given(g, ps[k], unmet, n) <==> HandsOut(g, ps, k, n)
        ensures n in before <==> Needed(g, ps, k, n)
      {
        OneTurn(g, ps, k, unmet, n);
      }
      if signature.Err? {
        return Err(signature.error);
      }
      signatures := signatures + [signature.value];
      unmet := before;
    }
    r := Ok(seq(|ps|, j requires 0 <= j < |ps| => signatures[|ps| - 1 - j]));
  }

  lemma {:induction false} NeededAtEnd(g: Graph, ps: seq<Partition>)
    requires g.Grounded()
    ensures forall n :: n in g.outputs <==> Needed(g, ps, |ps|, n)
  {
  }

  lemma {:induction false} OneTurn(g: Graph, ps: seq<Partition>, k: nat, unmet: set<Name>, n: Name)
    requires g.Grounded() && k < |ps| && forall m :: m in unmet <==> Needed(g, ps, k + 1, m)
    ensures Given(g, ps[k], unmet, n) <==> HandsOut(g, ps, k, n)
    ensures Needed(g, ps, k, n) <==> n in Inputs(g, ps[k]) || (n in unmet && !Given(g, ps[k], unmet, n))
  {
    hide Inputs, PassedOn;
  }

  // ----- liveness

  /** From `k` up to `p` nobody hands out `n`. */
  ghost predicate Waiting(g: Graph, ps: seq<Partition>, k: nat, p: nat, n: Name)
    requires g.Grounded() && k <= p <= |ps|
  {
    forall r :: k <= r < p ==> !HandsOut(g, ps, r, n)
  }

  /** A partition from `k` on, or the graph itself, takes `n` in before anybody hands it out. */
  ghost predicate Awaited(g: Graph, ps: seq<Partition>, k: nat, n: Name)
    requires g.Grounded() && k <= |ps|
  {
    || (exists p: nat :: k <= p < |ps| && n in Inputs(g, ps[p]) && Waiting(g, ps, k, p, n))
    || (n in g.outputs && Waiting(g, ps, k, |ps|, n))
  }

  /** The backward recurrence means exactly that, read forwards. */
  lemma {:induction false} NeededIsAwaited(g: Graph, ps: seq<Partition>, k: nat, n: Name)
    requires g.Grounded() && k <= |ps|
    ensures Needed(g, ps, k, n) <==> Awaited(g, ps, k, n)
    decreases |ps| - k
  {
    hide Inputs, HandsOut;
    if k < |ps| {
      NeededIsAwaited(g, ps, k + 1, n);
      if n in Inputs(g, ps[k]) {
        assert Waiting(g, ps, k, k, n);
      } else {
        OneFurther(g, ps, k, n);
      }
    }
  }

  lemma {:induction false} OneFurther(g: Graph, ps: seq<Partition>, k: nat, n: Name)
    requires g.Grounded() && k < |ps| && n !in Inputs(g, ps[k])
    ensures Awaited(g, ps, k, n) <==> Awaited(g, ps, k + 1, n) && !HandsOut(g, ps, k, n)
  {
    hide Inputs, HandsOut;
    forall p: nat | k < p <= |ps|
      ensures Waiting(g, ps, k, p, n) <==> Waiting(g, ps, k + 1, p, n) && !HandsOut(g, ps, k, n)
    {
    }
  }

  /** Some partition from `from` to before `to` generates `n` or an alias of it, or hands `n` out
      under another name. */
  ghost predicate Generates(g: Graph, ps: seq<Partition>, from: nat, to: nat, n: Name)
    requires g.Grounded() && from <= to <= |ps|
  {
    exists q, m :: from <= q < to && g.Real(m) == n && (m in ps[q].outputs || (m in PassedOn(g, ps[q]) && m != n))
  }

  /** A name taken in by partition `p`, or by the graph when `p` is past the end, that nobody in
      between generates is needed. */
  lemma {:induction false} AskedIsNeeded(g: Graph, ps: seq<Partition>, k: nat, p: nat, n: Name)
    requires g.Grounded() && k <= p <= |ps| && (if p < |ps| then n in Inputs(g, ps[p]) else n in g.outputs)
    requires !Generates(g, ps, k, p, n)
    ensures Needed(g, ps, k, n)
    decreases p - k
  {
    hide Inputs;
    if k < p && n !in Inputs(g, ps[k]) {
      AskedIsNeeded(g, ps, k + 1, p, n);
    }
  }

  /** The name `m` is an alias of `n`, or no alias and `n` itself. */
  predicate Means(g: Graph, m: Name, n: Name) {
    if m in g.realName then g.realName[m] == n else m == n
  }

  /** A name the partition does not generate itself, read or written in it and with storage, is really
      called `n`. */
  ghost predicate Reads(g: Graph, p: Partition, n: Name)
    requires g.Grounded()
  {
    exists m :: m in p.accesses && m !in p.outputs && !g.Unallocated(m) && Means(g, m, n)
  }

  /** What the signature of a partition takes in, frees and knows as constants, in terms of the partition
      alone: real names of what it reads or writes without generating it, and names it uses last
      without generating them; only names with a node are taken in, and exactly the ones used last
      are freed. */
  lemma {:induction false} InputsExactly(g: Graph, ps: seq<Partition>, r: seq<Signature>, k: nat, n: Name)
    requires g.Grounded() && AllSigned(g, ps, r) && k < |ps|
    ensures var p, last := ps[k], n in ps[k].lastUsage && n !in ps[k].outputs && n in g.nodes;
      && (n in r[k].inputs <==> n in g.nodes && (Reads(g, p, n) || last))
      && (n in r[k].freed <==> n in r[k].inputs && n in p.lastUsage)
      && (n in r[k].constants <==> n in g.constants && (Reads(g, p, n) || last))
  {
    assert SignatureOf(g, ps, k, r[k]);
  }

  /** Nothing a partition generates is taken in by it, unless under the name of another one: exactly
      when it reads or writes an alias, made elsewhere, of a buffer it generates. */
  lemma {:induction false} OwnBuffersStayInside(g: Graph, ps: seq<Partition>, r: seq<Signature>, k: nat)
    requires g.Grounded() && AllSigned(g, ps, r) && k < |ps|
    ensures var p := ps[k];
      r[k].inputs !! p.outputs
      <==> forall m, n :: m in p.accesses && m !in p.outputs && !g.Unallocated(m) && Means(g, m, n) && n in g.nodes ==>
             n !in p.outputs
    ensures g.realName == map[] ==> r[k].inputs !! ps[k].outputs
  {
    forall n
      ensures n in r[k].inputs && n in ps[k].outputs <==> n in g.nodes && n in ps[k].outputs && Reads(g, ps[k], n)
    {
      InputsExactly(g, ps, r, k, n);
    }
    forall m, n | m in ps[k].accesses && m !in ps[k].outputs && !g.Unallocated(m) && Means(g, m, n)
      ensures Reads(g, ps[k], n) {
    }
  }

  /** A generated name that a later partition takes in, or the graph returns, comes out of its closest
      generator, by its real name, if that has storage. */
  lemma {:induction false} ClosestGeneratorReturns(g: Graph, ps: seq<Partition>, r: seq<Signature>, q: nat, p: nat,
                                                   m: Name)
    requires g.Grounded() && AllSigned(g, ps, r)
    requires q < p <= |ps| && m in ps[q].outputs && !g.Unallocated(g.Real(m))
    requires if p < |ps| then m in Inputs(g, ps[p]) else m in g.outputs
    requires !Generates(g, ps, q + 1, p, m)
    ensures g.Real(m) in r[q].returned
  {
    hide Inputs;
    AskedIsNeeded(g, ps, q + 1, p, m);
    assert SignatureOf(g, ps, q, r[q]);
    assert HandsOut(g, ps, q, g.Real(m));
  }

  /** Nothing else is handed out: a returned name has storage and is the real name of an input that
      stays alive, or of a generated buffer awaited behind its partition. */
  lemma {:induction false} ReturnedIsNeeded(g: Graph, ps: seq<Partition>, r: seq<Signature>, q: nat, n: Name)
    returns (m: Name)
    requires g.Grounded() && AllSigned(g, ps, r) && q < |ps| && n in r[q].returned
    ensures !g.Unallocated(n) && g.Real(m) == n
    ensures (m in r[q].inputs && m !in r[q].freed) || (m in ps[q].outputs && Awaited(g, ps, q + 1, m))
  {
    hide Inputs, Awaited;
    assert SignatureOf(g, ps, q, r[q]);
    m :| g.Real(m) == n && ((m in ps[q].outputs && Needed(g, ps, q + 1, m)) || m in PassedOn(g, ps[q]));
    NeededIsAwaited(g, ps, q + 1, m);
  }

  /** Both directions: what is handed out with storage is exactly, by real names, the inputs that are not
      freed and the generated buffers awaited behind the partition. */
  lemma {:induction false} ReturnedExactly(g: Graph, ps: seq<Partition>, r: seq<Signature>, q: nat, n: Name)
    requires g.Grounded() && AllSigned(g, ps, r) && q < |ps|
    ensures n in r[q].returned
      <==> !g.Unallocated(n)
           && exists m :: Means(g, m, n)
                && ((m in r[q].inputs && m !in r[q].freed) || (m in ps[q].outputs && Awaited(g, ps, q + 1, m)))
  {
    hide Inputs, Awaited;
    assert SignatureOf(g, ps, q, r[q]);
    assert forall m :: Means(g, m, n) <==> g.Real(m) == n;
    forall m | m in ps[q].outputs ensures Awaited(g, ps, q + 1, m) <==> Needed(g, ps, q + 1, m) {
      NeededIsAwaited(g, ps, q + 1, m);
    }
  }

  /** Data flow closes: what partition `p` takes in and some partition in front of it generates comes
      out of a signature in front of `p`, behind which nobody hands it out again before `p`. */
  lemma {:induction false} InputsAreSupplied(g: Graph, ps: seq<Partition>, r: seq<Signature>, q0: nat, p: nat, n: Name)
    returns (q: nat)
    requires g.Grounded() && AllSigned(g, ps, r) && p < |ps| && n in Inputs(g, ps[p]) && !g.Unallocated(n)
    requires q0 < p && n in ps[q0].outputs && g.Real(n) == n
    ensures q0 <= q < p && n in r[q].returned && Waiting(g, ps, q + 1, p, n)
  {
    hide Inputs, HandsOut;
    q := p;
    while q > q0 && (q == p || !HandsOut(g, ps, q, n))
      invariant q0 <= q <= p
      invariant q < p ==> Waiting(g, ps, q + 1, p, n)
    {
      q := q - 1;
    }
    assert Awaited(g, ps, q + 1, n);
    NeededIsAwaited(g, ps, q + 1, n);
    assert HandsOut(g, ps, q, n) by {
      if q == q0 {
        GeneratorHandsOut(g, ps, q, n);
      }
    }
    assert SignatureOf(g, ps, q, r[q]);
  }

  lemma {:induction false} GeneratorHandsOut(g: Graph, ps: seq<Partition>, q: nat, n: Name)
    requires g.Grounded() && q < |ps| && n in ps[q].outputs && g.Real(n) == n && Needed(g, ps, q + 1, n)
    ensures HandsOut(g, ps, q, n)
  {
  }
}

/** Fresh sampling seeds for text sources: the publish-time gate, the adapter that
    patches recognized nodes, and the keys it records them under. */
module SeedAdapter {
  import opened Values
  import opened Compiler
  import opened Checker
  import opened CheckerSoundness
  import opened GraphFrame
  import P = Publications

  // ----- recognition -----

  const DATASET_CLASS := "HFDatasetShuffle"
  const SEED_INPUT := "seed"
  const MAX_SEED := 2147483647
  const LEGACY_KEY := "stablellama.dataset_seed"

  predicate Recognized(graph: Graph, node: string) {
    ClassOf(graph, node) == Str(DATASET_CLASS) && InputsOf(graph, node).Some?
  }

  function SeedTarget(node: string): Target { Target(node, SEED_INPUT) }

  predicate Literal(v: Option<Value>) { v.Some? && v.value.Int? }

  predicate LiteralInRange(v: Option<Value>) { Literal(v) && 0 <= v.value.whole <= MAX_SEED }

  /** The gate: every recognized node carries a literal seed in range. */
  ghost predicate Gated(api: Graph) {
    forall node :: node in api && Recognized(api, node) ==> LiteralInRange(At(api, SeedTarget(node)))
  }

  /** `order` lists the nodes of the graph, each once. */
  ghost predicate Lists(order: seq<string>, graph: Graph) {
    && (forall n :: n in order <==> n in graph)
    && forall i, j :: 0 <= i < j < |order| ==> order[i] != order[j]
  }

  method ValidateConcreteSeeds(api: Graph, order: seq<string>) returns (ok: bool)
    requires Lists(order, api)
    ensures ok <==> Gated(api)
  {
    var i := 0;
    while i < |order|
      invariant 0 <= i <= |order|
      invariant forall k :: 0 <= k < i && Recognized(api, order[k]) ==> LiteralInRange(At(api, SeedTarget(order[k])))
    {
      if Recognized(api, order[i]) && !LiteralInRange(At(api, SeedTarget(order[i]))) {
        assert order[i] in order;
        return false;
      }
      i := i + 1;
    }
    forall node | node in api && Recognized(api, node) ensures LiteralInRange(At(api, SeedTarget(node))) {
      var k :| 0 <= k < |order| && order[k] == node;
    }
    return true;
  }

  // ----- the adapter -----

  datatype Adapted = Adapted(graph: Graph, seeds: map<string, string>) | Mismatch(node: string) | BadResolver

  const KEY_PREFIX := "hfdatasetshuffle."

  predicate Ascii(s: string) { forall c :: c in s ==> c < '\U{80}' }

  /** Lower-casing, of which only this is used: what it does to ASCII text, and
      that the class name in front of a key is lower-cased whatever follows. */
  ghost predicate Lowering(lower: string -> string) {
    && (forall s :: Ascii(s) ==> lower(s) == P.LowerAscii(s))
    && (forall s :: KEY_PREFIX <= lower(DATASET_CLASS + "." + s))
  }

  function Key(node: string, lower: string -> string): string { lower(DATASET_CLASS + "." + (node + "." + SEED_INPUT)) }

  /** The key of the `i`-th patched node. */
  function KeyAt(nodes: seq<string>, i: nat, lower: string -> string): string
    requires i < |nodes|
  {
    if i == 0 then LEGACY_KEY else Key(nodes[i], lower)
  }

  predicate Unbound(graph: Graph, bound: set<Target>, node: string) {
    Recognized(graph, node) && SeedTarget(node) !in bound
  }

  /** The recognized nodes that no published seed owns, in order. */
  function Fresh(graph: Graph, bound: set<Target>, order: seq<string>): seq<string> {
    if order == [] then []
    else
      var front, last := Fresh(graph, bound, order[..|order| - 1]), order[|order| - 1];
      if Unbound(graph, bound, last) then front + [last] else front
  }

  /** Recorded seeds: the first under the legacy key, the others under their own. */
  function Recorded(seeds: map<string, string>, nodes: seq<string>, slots: string -> int,
                    lower: string -> string): map<string, string> {
    if nodes == [] then seeds
    else
      var last := |nodes| - 1;
      Recorded(seeds, nodes[..last], slots, lower)[KeyAt(nodes, last, lower) := Print(slots(nodes[last]))]
  }

  /** Every patched node's seed can be read back from the record. */
  ghost predicate ReadBack(record: map<string, string>, nodes: seq<string>, slots: string -> int,
                           lower: string -> string) {
    forall i :: 0 <= i < |nodes| ==>
      KeyAt(nodes, i, lower) in record && record[KeyAt(nodes, i, lower)] == Print(slots(nodes[i]))
  }

  /** Nodes behind the first that share a key were given the same seed. */
  ghost predicate TwinsAgree(nodes: seq<string>, slots: string -> int, lower: string -> string) {
    forall i, j :: 0 < i < j < |nodes| && Key(nodes[i], lower) == Key(nodes[j], lower) ==>
      slots(nodes[i]) == slots(nodes[j])
  }

  /** Gives every recognized node that no published seed owns a fresh seed;
      `slots` answers for the seed resolver. */
  method AdaptSeed(graph: Graph, seeds: map<string, string>, bound: set<Target>, order: seq<string>,
                   slots: string -> int,
                   lower: string -> string)
    returns (r: Adapted)
    requires Lists(order, graph) && Lowering(lower)
    ensures r.Adapted? <==> forall node :: node in graph && Unbound(graph, bound, node) ==>
                              Literal(At(graph, SeedTarget(node))) && 0 <= slots(node) <= MAX_SEED
    ensures r.Mismatch? ==> r.node in graph && Unbound(graph, bound, r.node) && !Literal(At(graph, SeedTarget(r.node)))
    ensures r.BadResolver? ==> exists node ::
              node in graph && Unbound(graph, bound, node) && !(0 <= slots(node) <= MAX_SEED)
    ensures r.Adapted? ==> SameFrame(graph, r.graph) && forall t ::
              At(r.graph, t) == if t.node in graph && Unbound(graph, bound, t.node) && t == SeedTarget(t.node)
                                then Some(Int(slots(t.node))) else At(graph, t)
    ensures r.Adapted? ==> r.seeds == Recorded(seeds, Fresh(graph, bound, order), slots, lower)
                           && seeds.Keys <= r.seeds.Keys
    ensures forall n :: n in Fresh(graph, bound, order) <==> n in order && Unbound(graph, bound, n)
    ensures r.Adapted? ==> var nodes := Fresh(graph, bound, order);
              ReadBack(r.seeds, nodes, slots, lower) <==> TwinsAgree(nodes, slots, lower)
  {
    hide Patch, SameFrame, ClassOf, InputsOf, At, PatchedSo, SeedsFit, Recorded, Fresh, Unbound, Lowering, ReadBack,
         TwinsAgree;
    var patched, recorded, count, i := graph, seeds, 0, 0;
    NothingPatched(graph, bound, seeds, slots, lower);
    FreshMeans(graph, bound, order);
    while i < |order|
      invariant 0 <= i <= |order|
      invariant PatchedSo(graph, patched, bound, order[..i], slots) && SeedsFit(graph, bound, order[..i], slots)
      invariant count == |Fresh(graph, bound, order[..i])| && recorded
                == Recorded(seeds, Fresh(graph, bound, order[..i]), slots, lower)
    {
      var node := order[i];
      assert node in order && node !in order[..i] && order[..i + 1] == order[..i] + [node];
      NodeNext(graph, patched, bound, order[..i], node, slots);
      if Unbound(patched, bound, node) {
        if !Literal(At(patched, SeedTarget(node))) { return Mismatch(node); }
        var seed := slots(node);
        if !(0 <= seed <= MAX_SEED) { return BadResolver; }
        AtMeans(patched, SeedTarget(node));
        NodePatched(graph, patched, bound, order[..i], node, slots);
        patched := Patch(patched, SeedTarget(node), Int(seed));
        RecordedNext(seeds, Fresh(graph, bound, order[..i]), node, slots, lower);
        recorded := recorded[(if count == 0 then LEGACY_KEY else Key(node, lower)) := Print(seed)];
        count := count + 1;
      }
      i := i + 1;
    }
    assert order[..i] == order;
    AllFit(graph, bound, order, slots);
    AllPatched(graph, patched, bound, order, slots);
    SeedsAreRecorded(seeds, Fresh(graph, bound, order), slots, lower);
    RecordedFrame(seeds, Fresh(graph, bound, order), slots, lower);
    r := Adapted(patched, recorded);
  }

  /** The graph with fresh seeds in these nodes. */
  ghost predicate PatchedSo(graph: Graph, patched: Graph, bound: set<Target>, done: seq<string>, slots: string -> int) {
    && SameFrame(graph, patched)
    && forall t :: At(patched, t) == if t.node in done && Unbound(graph, bound, t.node) && t == SeedTarget(t.node)
                                     then Some(Int(slots(t.node))) else At(graph, t)
  }

  predicate NodeFits(graph: Graph, bound: set<Target>, node: string, slots: string -> int) {
    Unbound(graph, bound, node) ==> Literal(At(graph, SeedTarget(node))) && 0 <= slots(node) <= MAX_SEED
  }

  ghost predicate SeedsFit(graph: Graph, bound: set<Target>, done: seq<string>, slots: string -> int) {
    forall node :: node in done ==> NodeFits(graph, bound, node, slots)
  }

  lemma {:induction false} NothingPatched(graph: Graph, bound: set<Target>, seeds: map<string, string>,
                                          slots: string -> int,
                                             lower: string -> string)
    ensures PatchedSo(graph, graph, bound, [], slots) && SeedsFit(graph, bound, [], slots)
    ensures Fresh(graph, bound, []) == [] && Recorded(seeds, [], slots, lower) == seeds
  {
  }

  lemma {:induction false} NodeNext(graph: Graph, patched: Graph, bound: set<Target>, done: seq<string>, node: string,
                                    slots: string -> int)
    requires PatchedSo(graph, patched, bound, done, slots) && SeedsFit(graph, bound, done, slots) && node !in done
    ensures Unbound(patched, bound, node) == Unbound(graph, bound, node)
    ensures At(patched, SeedTarget(node)) == At(graph, SeedTarget(node))
    ensures !Unbound(graph, bound, node) ==> PatchedSo(graph, patched, bound, done + [node], slots)
    ensures NodeFits(graph, bound, node, slots) ==> SeedsFit(graph, bound, done + [node], slots)
    ensures Fresh(graph, bound, done + [node]) == if Unbound(graph, bound, node)
            then Fresh(graph, bound, done) + [node] else Fresh(graph, bound, done)
  {
  }

  lemma {:induction false} NodePatched(graph: Graph, patched: Graph, bound: set<Target>, done: seq<string>,
                                       node: string, slots: string -> int)
    requires PatchedSo(graph, patched, bound, done, slots) && node !in done && Unbound(graph, bound, node)
    requires InputsOf(patched, node).Some? && SEED_INPUT in InputsOf(patched, node).value
    ensures PatchedSo(graph, Patch(patched, SeedTarget(node), Int(slots(node))), bound, done + [node], slots)
  {
    hide At, SameFrame, ClassOf, InputsOf, Patch, Unbound;
    PatchWrites(patched, SeedTarget(node), Int(slots(node)));
    SameFrameTrans(graph, patched, Patch(patched, SeedTarget(node), Int(slots(node))));
  }

  lemma {:induction false} AllFit(graph: Graph, bound: set<Target>, order: seq<string>, slots: string -> int)
    requires Lists(order, graph) && SeedsFit(graph, bound, order, slots)
    ensures forall node :: node in graph && Unbound(graph, bound, node) ==>
              Literal(At(graph, SeedTarget(node))) && 0 <= slots(node) <= MAX_SEED
  {
  }

  lemma {:induction false} AllPatched(graph: Graph, patched: Graph, bound: set<Target>, order: seq<string>,
                                      slots: string -> int)
    requires Lists(order, graph) && PatchedSo(graph, patched, bound, order, slots)
    ensures SameFrame(graph, patched)
    ensures forall t :: At(patched, t) == if t.node in graph && Unbound(graph, bound, t.node) && t == SeedTarget(t.node)
                                          then Some(Int(slots(t.node))) else At(graph, t)
  {
  }

  lemma {:induction false} SameRecognition(graph: Graph, graph': Graph, node: string)
    requires SameFrame(graph, graph')
    ensures Recognized(graph', node) == Recognized(graph, node)
  {
  }

  lemma {:induction false} AtMeans(graph: Graph, t: Target)
    requires At(graph, t).Some?
    ensures InputsOf(graph, t.node).Some? && t.name in InputsOf(graph, t.node).value
  {
  }

  lemma {:induction false} RecordedNext(seeds: map<string, string>, nodes: seq<string>, node: string,
                                        slots: string -> int,
                                        lower: string -> string)
    ensures Recorded(seeds, nodes + [node], slots, lower)
            == Recorded(seeds, nodes, slots, lower)[(if |nodes| == 0 then LEGACY_KEY else Key(node, lower)) :=
              Print(slots(node))]
  {
  }

  // ----- which nodes are patched, and what else is recorded -----

  /** The patched nodes are the recognized nodes that no published seed owns, each
      once and in the given order. */
  lemma {:induction false} FreshMeans(graph: Graph, bound: set<Target>, order: seq<string>)
    requires forall i, j :: 0 <= i < j < |order| ==> order[i] != order[j]
    ensures forall n :: n in Fresh(graph, bound, order) <==> n in order && Unbound(graph, bound, n)
    ensures forall i, j :: 0 <= i < j < |Fresh(graph, bound, order)| ==>
              Precedes(order, Fresh(graph, bound, order)[i], Fresh(graph, bound, order)[j])
  {
    hide Unbound;
    if order != [] {
      var front, last := order[..|order| - 1], order[|order| - 1];
      FreshMeans(graph, bound, front);
      assert order == front + [last];
      var nodes, before := Fresh(graph, bound, order), Fresh(graph, bound, front);
      forall i, j | 0 <= i < j < |nodes| ensures Precedes(order, nodes[i], nodes[j]) {
        if j < |before| {
          assert Precedes(front, before[i], before[j]);
          var p, q :| 0 <= p < q < |front| && front[p] == before[i] && front[q] == before[j];
          assert order[p] == nodes[i] && order[q] == nodes[j];
        } else {
          assert before[i] in front;
          var p :| 0 <= p < |front| && front[p] == before[i];
          assert order[p] == nodes[i] && order[|order| - 1] == nodes[j];
        }
      }
    }
  }

  ghost predicate Precedes(order: seq<string>, m: string, n: string) {
    exists p, q :: 0 <= p < q < |order| && order[p] == m && order[q] == n
  }

  /** Only the keys of patched nodes are recorded; everything else in the record
      stays, in particular the seeds of published parameters. */
  lemma {:induction false} RecordedFrame(seeds: map<string, string>, nodes: seq<string>, slots: string -> int,
                                         lower: string -> string)
    ensures var record := Recorded(seeds, nodes, slots, lower);
            && (forall key :: key in record ==> key in seeds || exists i ::
                 0 <= i < |nodes| && KeyAt(nodes, i, lower) == key)
            && (forall key :: key in seeds ==> key in record)
            && (forall key :: key in seeds && (forall i :: 0 <= i < |nodes| ==> KeyAt(nodes, i, lower) != key) ==>
                  record[key] == seeds[key])
  {
    hide Key, Print;
    if nodes != [] {
      var front := nodes[..|nodes| - 1];
      RecordedFrame(seeds, front, slots, lower);
      assert forall i :: 0 <= i < |front| ==> KeyAt(front, i, lower) == KeyAt(nodes, i, lower);
    }
  }

  // ----- seeds that a published parameter owns -----

  predicate OwnsTarget(d: Mapping, t: Target) {
    Get(d, "type") == Str("seed") && Get(d, "bindings").List?
    && exists i | 0 <= i < |Get(d, "bindings").items| :: BindsTo(Get(d, "bindings").items[i], t)
  }

  predicate BindsTo(b: Value, t: Target) {
    b.Obj? && NodeIdText(Get(b.fields, "node_id")) == t.node && NodeIdText(Get(b.fields, "input")) == t.name
  }

  ghost predicate Owned(inputs: seq<Value>, t: Target) {
    exists i :: 0 <= i < |inputs| && inputs[i].Obj? && OwnsTarget(inputs[i].fields, t)
  }

  /** Collects the targets of all seed parameters of a contract. */
  method DeclaredSeedBindings(contract: Mapping) returns (bound: set<Target>)
    ensures forall t :: t in bound <==> Get(contract, "inputs").List? && Owned(Get(contract, "inputs").items, t)
  {
    bound := {};
    if !Get(contract, "inputs").List? { return; }
    var inputs, i := Get(contract, "inputs").items, 0;
    while i < |inputs|
      invariant 0 <= i <= |inputs|
      invariant forall t :: t in bound <==> exists k :: 0 <= k < i && inputs[k].Obj? && OwnsTarget(inputs[k].fields, t)
    {
      ghost var before := bound;
      if inputs[i].Obj? && Get(inputs[i].fields, "type") == Str("seed") && Get(inputs[i].fields, "bindings").List? {
        var bindings, j := Get(inputs[i].fields, "bindings").items, 0;
        while j < |bindings|
          invariant 0 <= j <= |bindings|
          invariant forall t :: t in bound <==> t in before || exists k :: 0 <= k < j && BindsTo(bindings[k], t)
        {
          if bindings[j].Obj? {
            bound := bound + {Target(NodeIdText(Get(bindings[j].fields, "node_id")),
              NodeIdText(Get(bindings[j].fields, "input")))};
          }
          j := j + 1;
        }
      }
      i := i + 1;
    }
  }

  // ----- the gate is sound -----

  /** No parameter node is a sampling node. */
  lemma {:induction false} ParametersAreNotRecognized(kind: string, class_: string)
    requires ExpectedClass(kind, class_)
    ensures class_ != DATASET_CLASS
  {
  }

  /** A text source that passed the gate, compiled for any request, never makes
      the adapter report a mismatch, whichever inputs are taken to be bound. */
  lemma {:induction false} GateIsSound(raw: Mapping, api: Graph, runtime: Runtime, requested: Mapping,
                                       slots: string -> int, bound: set<Target>)
    requires InterfaceOk(raw, api, runtime) && Gated(api)
    requires Compile(PrivateContract(raw, api), api, requested, slots).Compiled?
    ensures var graph := Compile(PrivateContract(raw, api), api, requested, slots).graph;
            forall node :: node in graph && Unbound(graph, bound, node) ==> LiteralInRange(At(graph, SeedTarget(node)))
  {
    hide InterfaceOk, Compile, PrivateContract, At, InputsOf, ClassOf;
    var graph := Compile(PrivateContract(raw, api), api, requested, slots).graph;
    CompileChangesOnlyParameters(raw, api, runtime, requested, slots, SeedTarget(""));
    forall node | node in graph && Unbound(graph, bound, node) ensures LiteralInRange(At(graph, SeedTarget(node))) {
      CompileChangesOnlyParameters(raw, api, runtime, requested, slots, SeedTarget(node));
      SameRecognition(api, graph, node);
      if At(graph, SeedTarget(node)) != At(api, SeedTarget(node)) {
        var kind :| ClassOf(api, node).Str? && ExpectedClass(kind, ClassOf(api, node).text);
        ParametersAreNotRecognized(kind, ClassOf(api, node).text);
      }
    }
  }

  // ----- the keys -----

  /** Lower-casing the ASCII letters alone is such a lower-casing. */
  lemma {:induction false} AsciiLowers()
    ensures Lowering(P.LowerAscii)
  {
    forall s ensures KEY_PREFIX <= P.LowerAscii(DATASET_CLASS + "." + s) {
      var head := DATASET_CLASS + ".";
      LowerJoins(head, s, "");
      assert head + (s + "") == head + s;
      assert P.LowerAscii(head) == KEY_PREFIX;
    }
  }

  /** Recorded keys never collide with a public parameter ID. */
  lemma {:induction false} KeysAreNotPublic(node: string, lower: string -> string)
    requires Lowering(lower)
    ensures !P.IsPublicId(Key(node, lower)) && !P.IsPublicId(LEGACY_KEY) && Key(node, lower) != LEGACY_KEY
  {
    hide Ascii, P.LowerAscii;
    var key := Key(node, lower);
    Dotted(key);
    assert LEGACY_KEY[11] == '.' && '.' in LEGACY_KEY && LEGACY_KEY[0] == 's';
  }

  lemma {:induction false} Dotted(key: string)
    requires KEY_PREFIX <= key
    ensures '.' in key && key[0] == 'h'
  {
    assert key[0] == KEY_PREFIX[0] && key[16] == KEY_PREFIX[16] == '.';
  }

  /** Two ASCII ids share a key exactly when they differ at most by case. */
  lemma {:induction false} KeysCollide(m: string, n: string, lower: string -> string)
    requires Lowering(lower) && Ascii(m) && Ascii(n)
    ensures Key(m, lower) == Key(n, lower) <==> P.LowerAscii(m) == P.LowerAscii(n)
  {
    var before := DATASET_CLASS + ".";
    KeyParts(m, lower);
    KeyParts(n, lower);
    if Key(m, lower) == Key(n, lower) {
      assert |P.LowerAscii(m)| == |P.LowerAscii(n)|;
      assert P.LowerAscii(m) == Key(m, lower)[|before|..|before| + |m|];
      assert P.LowerAscii(n) == Key(n, lower)[|before|..|before| + |n|];
    }
  }

  lemma {:induction false} KeyParts(n: string, lower: string -> string)
    requires Lowering(lower) && Ascii(n)
    ensures Key(n, lower) == P.LowerAscii(DATASET_CLASS + ".") + P.LowerAscii(n) + P.LowerAscii("." + SEED_INPUT)
  {
    var head, tail := DATASET_CLASS + ".", "." + SEED_INPUT;
    assert Ascii(head) && Ascii(tail);
    assert Ascii(head + (n + tail));
    assert head + (n + tail) == DATASET_CLASS + "." + (n + "." + SEED_INPUT);
    LowerJoins(head, n, tail);
  }

  lemma {:induction false} LowerJoins(a: string, b: string, c: string)
    ensures P.LowerAscii(a + (b + c)) == P.LowerAscii(a) + P.LowerAscii(b) + P.LowerAscii(c)
  {
  }

  /** Every patched node's seed can be read back from the record if and only if
      nodes behind the first that share a key were given the same seed. */
  lemma {:induction false} SeedsAreRecorded(seeds: map<string, string>, nodes: seq<string>, slots: string -> int,
                                            lower: string -> string)
    requires Lowering(lower)
    ensures ReadBack(Recorded(seeds, nodes, slots, lower), nodes, slots, lower) <==> TwinsAgree(nodes, slots, lower)
  {
    hide Lowering, Key, Print, Recorded;
    if TwinsAgree(nodes, slots, lower) {
      AgreeingAreRecorded(seeds, nodes, slots, lower);
    }
    if ReadBack(Recorded(seeds, nodes, slots, lower), nodes, slots, lower) {
      forall i, j | 0 < i < j < |nodes| && Key(nodes[i], lower) == Key(nodes[j], lower)
        ensures slots(nodes[i]) == slots(nodes[j]) {
        assert KeyAt(nodes, i, lower) == KeyAt(nodes, j, lower);
        ParsePrint(slots(nodes[i]));
        ParsePrint(slots(nodes[j]));
      }
    }
  }

  lemma {:induction false} AgreeingAreRecorded(seeds: map<string, string>, nodes: seq<string>, slots: string -> int,
                                               lower: string -> string)
    requires Lowering(lower) && TwinsAgree(nodes, slots, lower)
    ensures ReadBack(Recorded(seeds, nodes, slots, lower), nodes, slots, lower)
  {
    hide Lowering, Key, Print;
    if nodes != [] {
      var last := |nodes| - 1;
      var front := nodes[..last];
      AgreeingAreRecorded(seeds, front, slots, lower);
      forall i | 0 <= i < last
        ensures KeyAt(nodes, i, lower) == KeyAt(front, i, lower)
        ensures KeyAt(nodes, i, lower) == KeyAt(nodes, last, lower) ==> slots(nodes[i]) == slots(nodes[last])
      {
        KeysAreNotPublic(nodes[last], lower);
      }
    }
  }

  /** Whatever the resolver answers, all seeds can be read back if and only if no
      two nodes behind the first share a key. */
  lemma {:induction false} AlwaysRecorded(seeds: map<string, string>, nodes: seq<string>, lower: string -> string)
    requires Lowering(lower) && forall i, j :: 0 <= i < j < |nodes| ==> nodes[i] != nodes[j]
    ensures (forall slots: string -> int :: ReadBack(Recorded(seeds, nodes, slots, lower), nodes, slots, lower))
            <==> (forall i, j :: 0 < i < j < |nodes| ==> Key(nodes[i], lower) != Key(nodes[j], lower))
  {
    hide Lowering, Key, Recorded, ReadBack;
    if i, j :| 0 < i < j < |nodes| && Key(nodes[i], lower) == Key(nodes[j], lower) {
      var slots := (n: string) => if n == nodes[i] then 0 else 1;
      assert !TwinsAgree(nodes, slots, lower);
      SeedsAreRecorded(seeds, nodes, slots, lower);
    } else {
      forall slots: string -> int ensures ReadBack(Recorded(seeds, nodes, slots, lower), nodes, slots, lower) {
        SeedsAreRecorded(seeds, nodes, slots, lower);
      }
    }
  }

  // ----- a graph whose seeds are not all recorded -----

  function Sampler(): Value { Obj(map["class_type" := Str(DATASET_CLASS), "inputs" := Obj(map[SEED_INPUT := Int(0)])]) }

  const TwinGraph: Graph := map["1" := Sampler(), "A" := Sampler(), "a" := Sampler()]

  lemma {:induction false} TwinsAreSamplers()
    ensures TwinGraph.Keys == {"1", "A", "a"} && forall node :: node in TwinGraph ==> Unbound(TwinGraph, {}, node)
    ensures forall node :: node in TwinGraph ==> Literal(At(TwinGraph, SeedTarget(node)))
  {
  }

  lemma {:induction false} TwinsAreFresh()
    ensures Lists(["1", "A", "a"], TwinGraph) && Fresh(TwinGraph, {}, ["1", "A", "a"]) == ["1", "A", "a"]
  {
    hide Fresh, Unbound, Sampler;
    FreshNext(["1", "A"], "a");
    FreshNext(["1"], "A");
    FreshNext([], "1");
    assert ["1", "A"] + ["a"] == ["1", "A", "a"] && ["1"] + ["A"] == ["1", "A"] && [] + ["1"] == ["1"];
  }

  lemma {:induction false} FreshNext(done: seq<string>, node: string)
    requires node in TwinGraph
    ensures Fresh(TwinGraph, {}, done + [node]) == Fresh(TwinGraph, {}, done) + [node] && Fresh(TwinGraph, {}, []) == []
  {
    assert (done + [node])[..|done|] == done;
  }

  /** Three samplers, two of which differ by case only: all three are patched, and
      the seed of the second is lost unless it is that of the third. */
  method AdaptTwins(slots: string -> int, lower: string -> string) returns (r: Adapted)
    requires Lowering(lower) && forall node :: node in TwinGraph ==> 0 <= slots(node) <= MAX_SEED
    ensures r.Adapted? && forall node :: node in TwinGraph ==> At(r.graph, SeedTarget(node)) == Some(Int(slots(node)))
    ensures r.seeds == map[LEGACY_KEY := Print(slots("1")), Key("a", lower) := Print(slots("a"))]
    ensures ReadBack(r.seeds, ["1", "A", "a"], slots, lower) <==> slots("A") == slots("a")
  {
    hide Recorded, Lowering, Key, Print, At, ReadBack, TwinsAgree, Fresh, SameFrame, Lists, Unbound, Literal, KeyAt,
         TwinGraph;
    TwinsAreSamplers();
    TwinsAreFresh();
    TwinKeys(lower);
    TwinsRecorded(slots, lower);
    TwinsMustAgree(slots, lower);
    r := AdaptSeed(TwinGraph, map[], {}, ["1", "A", "a"], slots, lower);
  }

  lemma {:induction false} TwinKeys(lower: string -> string)
    requires Lowering(lower)
    ensures Key("A", lower) == Key("a", lower) != LEGACY_KEY
  {
    hide Key, Lowering, P.IsPublicId;
    SameLower();
    KeysCollide("A", "a", lower);
    KeysAreNotPublic("a", lower);
  }

  lemma {:induction false} TwinsRecorded(slots: string -> int, lower: string -> string)
    requires Key("A", lower) == Key("a", lower)
    ensures Recorded(map[], ["1", "A", "a"], slots, lower) == map[LEGACY_KEY := Print(slots("1")), Key("a", lower) :=
            Print(slots("a"))]
  {
    hide Recorded, Print, Key;
    RecordedNone(map[], slots, lower);
    RecordedNext(map[], [], "1", slots, lower);
    RecordedNext(map[], ["1"], "A", slots, lower);
    RecordedNext(map[], ["1", "A"], "a", slots, lower);
    assert [] + ["1"] == ["1"] && ["1"] + ["A"] == ["1", "A"] && ["1", "A"] + ["a"] == ["1", "A", "a"];
  }

  lemma {:induction false} TwinsMustAgree(slots: string -> int, lower: string -> string)
    requires Key("A", lower) == Key("a", lower)
    ensures TwinsAgree(["1", "A", "a"], slots, lower) <==> slots("A") == slots("a")
  {
    hide Key;
    var nodes := ["1", "A", "a"];
    assert nodes[1] == "A" && nodes[2] == "a";
    assert Key(nodes[1], lower) == Key(nodes[2], lower);
  }

  lemma {:induction false} SameLower()
    ensures P.LowerAscii("a") == P.LowerAscii("A")
  {
  }

  lemma {:induction false} RecordedNone(seeds: map<string, string>, slots: string -> int, lower: string -> string)
    ensures Recorded(seeds, [], slots, lower) == seeds
  {
  }
}

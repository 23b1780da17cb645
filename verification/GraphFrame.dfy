/** What compilation changes in the frozen graph: bound inputs of parameter nodes
    and nothing else, the last binder winning. */
module GraphFrame {
  import opened Values
  import opened Compiler
  import opened Checker
  import opened CheckerSoundness
  import opened Recompile

  function At(graph: Graph, t: Target): Option<Value> {
    if InputsOf(graph, t.node).Some? then Optional(InputsOf(graph, t.node).value, t.name) else None
  }

  predicate Binds(bindings: seq<Value>, t: Target) {
    exists i | 0 <= i < |bindings| :: TargetOf(bindings[i]) == Some(t)
  }

  /** The last input that writes a target, in the order of the declarations. */
  function Writer(inputs: seq<Input>, effective: Mapping, t: Target): Option<Input> {
    if inputs == [] then None
    else
      var last := inputs[|inputs| - 1];
      if last.id in effective && Binds(BindingsOf(last.declaration), t) then Some(last)
      else Writer(inputs[..|inputs| - 1], effective, t)
  }

  /** Everything about the nodes but the values of their inputs. */
  ghost predicate SameFrame(api: Graph, graph: Graph) {
    && graph.Keys == api.Keys
    && SameShape(api, graph)
    && forall node :: node in api ==>
         if graph[node] == api[node] then true
         else graph[node].Obj? && api[node].Obj? && graph[node].fields - {"inputs"} == api[node].fields - {"inputs"}
  }

  lemma {:induction false} PatchWrites(graph: Graph, t: Target, v: Value)
    requires InputsOf(graph, t.node).Some? && t.name in InputsOf(graph, t.node).value
    ensures At(Patch(graph, t, v), t) == Some(v)
    ensures forall u: Target :: u != t ==> At(Patch(graph, t, v), u) == At(graph, u)
    ensures SameFrame(graph, Patch(graph, t, v))
  {
  }

  lemma {:induction false} SameFrameTrans(a: Graph, b: Graph, c: Graph)
    requires SameFrame(a, b) && SameFrame(b, c)
    ensures SameFrame(a, c)
  {
  }

  lemma {:induction false} BindsNext(bindings: seq<Value>, t: Target)
    requires bindings != []
    ensures Binds(bindings, t) <==>
              Binds(bindings[..|bindings| - 1], t) || TargetOf(bindings[|bindings| - 1]) == Some(t)
  {
  }

  lemma {:induction false} BindingsWrite(graph: Graph, kind: Value, bindings: seq<Value>, v: Value, t: Target)
    requires PatchBindings(graph, kind, bindings, v).Some?
    ensures var graph' := PatchBindings(graph, kind, bindings, v).value;
            && At(graph', t) == (if Binds(bindings, t) then Some(v) else At(graph, t))
            && SameFrame(graph, graph')
  {
    hide Patch, SameFrame, At, Binds;
    if bindings == [] {
      BindsNothing(graph, t);
    } else {
      var front, b := bindings[..|bindings| - 1], bindings[|bindings| - 1];
      BindingsWrite(graph, kind, front, v, t);
      var before := PatchBindings(graph, kind, front, v).value;
      PatchWrites(before, TargetOf(b).value, v);
      BindsNext(bindings, t);
      SameFrameTrans(graph, before, Patch(before, TargetOf(b).value, v));
    }
  }

  lemma {:induction false} BindsNothing(graph: Graph, t: Target)
    ensures !Binds([], t) && SameFrame(graph, graph)
  {
  }

  /** A target holds what its last writer put there, or what was frozen. */
  lemma {:induction false} LastBinderWins(api: Graph, inputs: seq<Input>, effective: Mapping, t: Target)
    requires PatchAll(api, inputs, effective).Some?
    ensures var graph, writer := PatchAll(api, inputs, effective).value, Writer(inputs, effective, t);
            && SameFrame(api, graph)
            && (writer.None? ==> At(graph, t) == At(api, t))
            && (writer.Some? ==> writer.value in inputs && writer.value.id in effective
                                 && Binds(BindingsOf(writer.value.declaration), t)
                                 && At(graph, t) == GraphValue(Kind(writer.value.declaration),
                                    effective[writer.value.id]))
  {
    hide At, Binds, SameFrame, GraphValue, PatchBindings;
    if inputs == [] {
      BindsNothing(api, t);
    } else {
      var front, last := inputs[..|inputs| - 1], inputs[|inputs| - 1];
      LastBinderWins(api, front, effective, t);
      if last.id in effective {
        var before, d := PatchAll(api, front, effective).value, last.declaration;
        var v := GraphValue(Kind(d), effective[last.id]).value;
        BindingsWrite(before, Kind(d), BindingsOf(d), v, t);
        SameFrameTrans(api, before, PatchBindings(before, Kind(d), BindingsOf(d), v).value);
      }
    }
  }

  /** For an accepted contract, compilation changes an input of the graph only if
      some input binds it, and then the node is a parameter node; nodes keep their
      classes, their other fields and their input names. */
  lemma {:induction false} CompileChangesOnlyParameters(raw: Mapping, api: Graph, runtime: Runtime, requested: Mapping,
                                                        slots: string -> int, t: Target)
    requires InterfaceOk(raw, api, runtime)
    requires Compile(PrivateContract(raw, api), api, requested, slots).Compiled?
    ensures var graph := Compile(PrivateContract(raw, api), api, requested, slots).graph;
            && SameFrame(api, graph)
            && (At(graph, t) != At(api, t) ==> exists kind ::
                 ClassOf(api, t.node).Str? && ExpectedClass(kind, ClassOf(api, t.node).text))
  {
    hide InterfaceOk, Compile, Assemble, PatchAll, At, SameFrame, PrivateContract, Stored, Inputs;
    var contract := PrivateContract(raw, api);
    var r := Compile(contract, api, requested, slots);
    ContractInputs(raw, api, runtime);
    CompiledSucceeds(contract, api, requested, slots);
    var inputs := Inputs(contract).value;
    AssembledGraph(inputs, api, IsText(contract), r.effective);
    LastBinderWins(api, inputs, r.effective, t);
    StoredSound(raw, api, inputs);
    var writer := Writer(inputs, r.effective, t);
    if writer.Some? { BoundIsParameter(writer.value.declaration, api, t); }
  }

  lemma {:induction false} AssembledGraph(inputs: seq<Input>, api: Graph, text: bool, effective: Mapping)
    requires Assemble(inputs, api, text, effective).Compiled?
    ensures PatchAll(api, inputs, effective) == Some(Assemble(inputs, api, text, effective).graph)
  {
  }

  lemma {:induction false} BoundIsParameter(d: Mapping, api: Graph, t: Target)
    requires Sound(d, api) && Binds(BindingsOf(d), t)
    ensures Kind(d).Str? && ClassOf(api, t.node).Str? && ExpectedClass(Kind(d).text, ClassOf(api, t.node).text)
  {
  }
}

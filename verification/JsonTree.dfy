/** The strict JSON check with an explicit stack, against its recursive meaning. */
module JsonTree {

  /** A text is a sequence of code points; parsing may leave lone surrogates. */
  type Text = seq<int>

  /** A parsed value; an object's keys and values correspond by position. */
  datatype Tree =
    | Null
    | Bool(flag: bool)
    | Integer(value: int)
    | Number(finite: bool)
    | String(text: Text)
    | List(items: seq<Tree>)
    | Object(keys: seq<Text>, values: seq<Tree>)
    | Unsupported

  const MAX_DEPTH := 128
  const MAX_VALUES := 1000000
  const MIN_INTEGER := -0x8000_0000_0000_0000
  const MAX_INTEGER := 0xffff_ffff_ffff_ffff

  /** A text that has a UTF-8 encoding. */
  predicate Encodable(text: Text) { forall i :: 0 <= i < |text| ==> !(0xd800 <= text[i] <= 0xdfff) }

  // ----- the recursive meaning -----

  /** Everything about a value but what is nested in it. */
  predicate Supported(t: Tree) {
    match t
    case Integer(i) => MIN_INTEGER <= i <= MAX_INTEGER
    case Number(finite) => finite
    case String(text) => Encodable(text)
    case Object(keys, _) => forall i :: 0 <= i < |keys| ==> Encodable(keys[i])
    case Unsupported => false
    case _ => true
  }

  function Children(t: Tree): (r: seq<Tree>)
    ensures forall i :: 0 <= i < |r| ==> r[i] < t
  {
    match t
    case List(items) => items
    case Object(_, values) => values
    case _ => []
  }

  /** Every value in the tree is supported and nested at most so deep. */
  ghost predicate Sound(t: Tree, depth: nat)
    decreases t
  {
    depth <= MAX_DEPTH && Supported(t) && forall i :: 0 <= i < |Children(t)| ==> Sound(Children(t)[i], depth + 1)
  }

  /** How many values the tree consists of. */
  function Count(t: Tree): nat
    decreases t, 0
  {
    1 + match t
        case List(items) => CountAll(items)
        case Object(_, values) => CountAll(values)
        case _ => 0
  }

  function CountAll(ts: seq<Tree>): nat
    decreases ts, 1
  {
    if ts == [] then 0 else CountAll(ts[..|ts| - 1]) + Count(ts[|ts| - 1])
  }

  ghost predicate Acceptable(t: Tree) { Count(t) <= MAX_VALUES && Sound(t, 0) }

  // ----- the explicit stack -----

  datatype Pending = Pending(tree: Tree, depth: nat)

  function Size(pending: seq<Pending>): nat {
    if pending == [] then 0 else Size(pending[..|pending| - 1]) + Count(pending[|pending| - 1].tree)
  }

  ghost predicate AllSound(pending: seq<Pending>) {
    forall i :: 0 <= i < |pending| ==> Sound(pending[i].tree, pending[i].depth)
  }

  function At(ts: seq<Tree>, depth: nat): (r: seq<Pending>)
    ensures |r| == |ts|
  {
    seq(|ts|, i requires 0 <= i < |ts| => Pending(ts[i], depth))
  }

  lemma {:induction false} SizeConcat(a: seq<Pending>, b: seq<Pending>)
    ensures Size(a + b) == Size(a) + Size(b)
  {
    if b == [] {
      assert a + b == a;
    } else {
      SizeConcat(a, b[..|b| - 1]);
      assert (a + b)[..|a + b| - 1] == a + b[..|b| - 1];
    }
  }

  lemma {:induction false} SizeAt(ts: seq<Tree>, depth: nat)
    ensures Size(At(ts, depth)) == CountAll(ts)
  {
    if ts != [] {
      SizeAt(ts[..|ts| - 1], depth);
      assert At(ts, depth)[..|ts| - 1] == At(ts[..|ts| - 1], depth);
    }
  }

  /** Taking a value off the stack and pushing what is nested in it. */
  lemma {:induction false} Expanded(rest: seq<Pending>, p: Pending)
    ensures Size(rest + [p]) == 1 + Size(rest + At(Children(p.tree), p.depth + 1))
    ensures AllSound(rest + [p]) <==>
            p.depth <= MAX_DEPTH && Supported(p.tree) && AllSound(rest + At(Children(p.tree), p.depth + 1))
  {
    var nested := At(Children(p.tree), p.depth + 1);
    SizeConcat(rest, [p]);
    SizeConcat(rest, nested);
    SizeAt(Children(p.tree), p.depth + 1);
    SizeOne(p);
    AllSoundConcat(rest, [p]);
    AllSoundConcat(rest, nested);
    NestedSound(p);
  }

  lemma {:induction false} SizeOne(p: Pending)
    ensures Size([p]) == Count(p.tree) && Count(p.tree) == 1 + CountAll(Children(p.tree))
  {
  }

  lemma {:induction false} AllSoundConcat(a: seq<Pending>, b: seq<Pending>)
    ensures AllSound(a + b) <==> AllSound(a) && AllSound(b)
  {
    if AllSound(a + b) {
      forall i | 0 <= i < |a| ensures Sound(a[i].tree, a[i].depth) { assert (a + b)[i] == a[i]; }
      forall i | 0 <= i < |b| ensures Sound(b[i].tree, b[i].depth) { assert (a + b)[|a| + i] == b[i]; }
    }
  }

  lemma {:induction false} NestedSound(p: Pending)
    ensures AllSound([p]) <==> p.depth <= MAX_DEPTH && Supported(p.tree) && AllSound(At(Children(p.tree), p.depth + 1))
  {
    var nested := At(Children(p.tree), p.depth + 1);
    assert AllSound([p]) <==> Sound(p.tree, p.depth) by { assert [p][0] == p; }
    if AllSound(nested) {
      forall i | 0 <= i < |Children(p.tree)| ensures Sound(Children(p.tree)[i], p.depth + 1) {
        assert nested[i] == Pending(Children(p.tree)[i], p.depth + 1);
      }
    }
  }

  /** Accepts exactly the trees whose number of values, depth of nesting,
      integers, numbers, texts and keys all meet the recursive definition. */
  method ValidateJsonTree(value: Tree) returns (ok: bool)
    ensures ok <==> Acceptable(value)
  {
    hide Sound, Count, Size, AllSound, Supported;
    var pending, count := [Pending(value, 0)], 0;
    SizeOne(Pending(value, 0));
    OnlySound(Pending(value, 0));
    while pending != []
      invariant count <= MAX_VALUES
      invariant Acceptable(value) <==> count + Size(pending) <= MAX_VALUES && AllSound(pending)
      decreases Size(pending)
    {
      var item, rest := pending[|pending| - 1], pending[..|pending| - 1];
      assert pending == rest + [item];
      Expanded(rest, item);
      pending := rest;
      count := count + 1;
      if count > MAX_VALUES { return false; }
      if item.depth > MAX_DEPTH { return false; }
      var supported := CheckValue(item.tree);
      if !supported { return false; }
      pending := pending + At(Children(item.tree), item.depth + 1);
    }
    NothingPending();
    ok := true;
  }

  lemma {:induction false} OnlySound(p: Pending)
    ensures AllSound([p]) <==> Sound(p.tree, p.depth)
  {
    assert [p][0] == p;
  }

  lemma {:induction false} NothingPending()
    ensures Size([]) == 0 && AllSound([])
  {
  }

  /** Checks one value, and for an object key by key. */
  method CheckValue(t: Tree) returns (ok: bool)
    ensures ok <==> Supported(t)
  {
    match t
    case Integer(i) => return MIN_INTEGER <= i <= MAX_INTEGER;
    case Number(finite) => return finite;
    case String(text) => return Encodable(text);
    case Object(keys, _) =>
      var i := 0;
      while i < |keys|
        invariant 0 <= i <= |keys| && forall k :: 0 <= k < i ==> Encodable(keys[k])
      {
        if !Encodable(keys[i]) { return false; }
        i := i + 1;
      }
      return true;
    case Unsupported => return false;
    case _ => return true;
  }

  // ----- what the recursive definition amounts to -----

  /** A value somewhere in a tree, at a depth. */
  ghost predicate Occurs(t: Tree, v: Tree, depth: nat)
    decreases t
  {
    (v == t && depth == 0)
    || (depth > 0 && exists i :: 0 <= i < |Children(t)| && Occurs(Children(t)[i], v, depth - 1))
  }

  /** An accepted tree holds no unsupported value and nothing too deep, anywhere. */
  lemma {:induction false} SoundEverywhere(t: Tree, start: nat, v: Tree, depth: nat)
    requires Sound(t, start) && Occurs(t, v, depth)
    ensures Supported(v) && start + depth <= MAX_DEPTH
    decreases t
  {
    if depth > 0 {
      var i :| 0 <= i < |Children(t)| && Occurs(Children(t)[i], v, depth - 1);
      SoundEverywhere(Children(t)[i], start + 1, v, depth - 1);
    }
  }

  /** And a rejected tree that is small enough holds one. */
  lemma {:induction false} UnsoundSomewhere(t: Tree, start: nat) returns (v: Tree, depth: nat)
    requires !Sound(t, start)
    ensures Occurs(t, v, depth) && (!Supported(v) || start + depth > MAX_DEPTH)
    decreases t
  {
    if start > MAX_DEPTH || !Supported(t) {
      v, depth := t, 0;
    } else {
      var i :| 0 <= i < |Children(t)| && !Sound(Children(t)[i], start + 1);
      v, depth := UnsoundSomewhere(Children(t)[i], start + 1);
      depth := depth + 1;
    }
  }
}

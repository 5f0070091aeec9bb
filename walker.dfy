/**
 * `walkNextStruct` (gen-docs/comment-walker/build_ast.go): follows a
 * `SourceCodeInfo.Location.path` down a descriptor tree and returns the
 * root-to-leaf chain of element names it passes, the key under which the
 * comment at that location is attached.
 */
module Walker {
  import opened Wrappers
  import opened Values
  import opened Fields

  /**
   * `*node.FieldByName("Name").Interface().(*string)`: the string a struct's
   * `Name` field points to; any other shape of that field, or its absence,
   * makes the walker panic.
   */
  function StructName(fields: seq<Field>): (r: Result<string, Failure>)
    ensures r.Ok? ==> exists i :: 0 <= i < |fields| && fields[i].goName == "Name"
                                && fields[i].value == Ptr(Str(r.value))
    ensures (forall i :: 0 <= i < |fields| ==> fields[i].goName != "Name") ==> r == Err(MissingName)
    ensures r.Err? ==> r.error == MissingName
    ensures forall i :: 0 <= i < |fields| && fields[i].goName == "Name"
                     && (forall j :: 0 <= j < i ==> fields[j].goName != "Name")
                     && fields[i].value.Ptr? && fields[i].value.target.Str?
                     ==> r == Ok(fields[i].value.target.s)
  {
    if fields == [] then Err(MissingName)
    else if fields[0].goName == "Name" then
      match fields[0].value
      case Ptr(Str(s)) => Ok(s)
      case _ => Err(MissingName)
    else
      var r := StructName(fields[1..]);
      assert r.Ok? ==> fields[1..][0..] == fields[1..];
      r
  }

  /**
   * The name the walker gives the node it stands on: a string's text, a
   * struct's `Name`, and `""` for a pointer (whose target it looks into but
   * whose name it never reads).
   */
  function NodeName(node: Node): (r: Result<string, Failure>)
    ensures r.Err? ==> r.error == MissingName || r.error.UnexpectedKind?
  {
    match node
    case Str(s) => Ok(s)
    case Ptr(_) => Ok("")
    case Struct(fields) => StructName(fields)
    case _ => Err(UnexpectedKind(KindOf(node)))
  }

  /** `Elem()` of a pointer; any other value is left as it is. */
  function Deref(node: Node): Node
  {
    if node.Ptr? then node.target else node
  }

  /** `append([]string{name}, rv...)`, carrying a panic through unchanged. */
  function Prepend(name: string, r: Result<seq<string>, Failure>): Result<seq<string>, Failure>
  {
    match r
    case Ok(chain) => Ok([name] + chain)
    case Err(e) => Err(e)
  }

  /**
   * walkNextStruct.  With the path used up, the chain is this node's name.
   * Otherwise the first coordinate selects a field: a path that ends there
   * panics; a non-slice field is walked with one coordinate consumed; for a
   * slice the second coordinate indexes it, and an index past the end stops
   * the walk with `[""]` in place of this node's name, while an index in
   * range is walked (through one pointer) with two coordinates consumed.
   * Every call is on a strictly shorter path, so the walk terminates.
   */
  function Walk(path: seq<int32>, node: Node): (r: Result<seq<string>, Failure>)
    ensures r.Ok? ==> 1 <= |r.value| <= |path| + 1
    ensures !(r.Err? && r.error.IndexOutOfRange?)
    ensures path == [] && node.Str? ==> r == Ok([node.s])
    ensures path == [] && node.Ptr? ==> r == Ok([""])
    ensures path == [] && node.Struct? && StructName(node.fields).Ok? ==>
              r == Ok([StructName(node.fields).value])
    decreases |path|
  {
    match NodeName(node)
    case Err(e) => Err(e)
    case Ok(name) =>
      if path == [] then Ok([name])
      else match FieldLookup(path[0], Deref(node))
        case Err(e) => Err(e)
        case Ok(found) =>
          if |path| == 1 then Err(FieldLabel)
          else if !found.value.Slice? then Prepend(name, Walk(path[1..], found.value))
          else if path[1] >= |found.value.elems| then Ok([""])
          else match GetCollectionIndex(found.value.elems, path[1])
            case Err(e) => Err(e)
            case Ok(next) => Prepend(name, Walk(path[2..], Deref(next)))
  }

  // ---- Positions in a descriptor tree, and how they are encoded ----

  /**
   * One step down the tree: into a singular field (`Into`, encoded as the
   * field number alone) or to an element of a repeated field (`At`, encoded
   * as the field number followed by the index).
   */
  datatype Step = Into(field: int32) | At(field: int32, index: int32)

  /** The coordinates of one step. */
  function StepCode(s: Step): seq<int32>
  {
    match s
    case Into(f) => [f]
    case At(f, i) => [f, i]
  }

  /** The `SourceCodeInfo` encoding of a sequence of steps. */
  function Encode(steps: seq<Step>): (path: seq<int32>)
    ensures steps != [] ==> path != []
  {
    if steps == [] then [] else StepCode(steps[0]) + Encode(steps[1..])
  }

  /** The number of steps into a repeated field. */
  function ElementSteps(steps: seq<Step>): nat
  {
    if steps == [] then 0 else (if steps[0].At? then 1 else 0) + ElementSteps(steps[1..])
  }

  /**
   * The encoding spends one coordinate on every step and a second one on
   * every step into a repeated field, and it starts with the first step's
   * field number.
   */
  lemma {:induction false} EncodeLength(steps: seq<Step>)
    ensures |Encode(steps)| == |steps| + ElementSteps(steps)
    ensures steps != [] ==> Encode(steps)[0] == steps[0].field
  {
    if steps != [] {
      EncodeLength(steps[1..]);
    }
  }

  /** `step` is a real step out of `node`: the field exists and has the step's shape. */
  predicate StepOk(node: Node, step: Step)
  {
    && NodeName(node).Ok?
    && FieldLookup(step.field, Deref(node)).Ok?
    && var v := FieldLookup(step.field, Deref(node)).value.value;
       match step
       case Into(_) => !v.Slice?
       case At(_, i) => v.Slice? && 0 <= i < |v.elems|
  }

  /** The node a step leads to. */
  function NextNode(node: Node, step: Step): Node
    requires StepOk(node, step)
  {
    var v := FieldLookup(step.field, Deref(node)).value.value;
    match step
    case Into(_) => v
    case At(_, i) => Deref(v.elems[i])
  }

  /** Every step is a real step from where the previous one led. */
  predicate Valid(node: Node, steps: seq<Step>)
    decreases |steps|
  {
    steps == [] || (StepOk(node, steps[0]) && Valid(NextNode(node, steps[0]), steps[1..]))
  }

  /** Where the steps lead. */
  function Reached(node: Node, steps: seq<Step>): Node
    requires Valid(node, steps)
    decreases |steps|
  {
    if steps == [] then node else Reached(NextNode(node, steps[0]), steps[1..])
  }

  /** The names of the nodes the steps leave, root first. */
  function Trail(node: Node, steps: seq<Step>): (names: seq<string>)
    requires Valid(node, steps)
    ensures |names| == |steps|
    decreases |steps|
  {
    if steps == [] then []
    else [NodeName(node).value] + Trail(NextNode(node, steps[0]), steps[1..])
  }

  /** Prepends a whole chain of names. */
  function PrependAll(names: seq<string>, r: Result<seq<string>, Failure>): Result<seq<string>, Failure>
  {
    match r
    case Ok(chain) => Ok(names + chain)
    case Err(e) => Err(e)
  }

  /** Concatenation is associative (kept apart to keep the proofs above small). */
  lemma ConcatAssoc<T>(a: seq<T>, b: seq<T>, c: seq<T>)
    ensures (a + b) + c == a + (b + c)
  {
  }

  /** One valid step: the walker names this node and walks on from the next one. */
  lemma WalkOneStep(node: Node, s: Step, deeper: seq<int32>)
    requires StepOk(node, s)
    requires s.Into? ==> deeper != []
    ensures Walk(StepCode(s) + deeper, node)
         == Prepend(NodeName(node).value, Walk(deeper, NextNode(node, s)))
  {
    var path := StepCode(s) + deeper;
    match s {
      case Into(f) =>
        assert path[0] == f && path[1..] == deeper;
      case At(f, i) =>
        assert path[0] == f && path[1] == i && path[2..] == deeper;
    }
  }

  /**
   * Walking the encoding of valid steps followed by `rest` names the nodes
   * the steps leave and then does what walking `rest` from the reached node
   * does.  (A path may not stop right after a singular field number.)
   */
  lemma {:induction false} WalkAlong(node: Node, steps: seq<Step>, rest: seq<int32>)
    requires Valid(node, steps)
    requires steps != [] && steps[|steps| - 1].Into? ==> rest != []
    ensures Walk(Encode(steps) + rest, node)
         == PrependAll(Trail(node, steps), Walk(rest, Reached(node, steps)))
    decreases |steps|
  {
    if steps == [] {
      assert Encode(steps) + rest == rest;
      match Walk(rest, node) {
        case Ok(c) => assert [] + c == c;
        case Err(_) =>
      }
    } else {
      var s, tail := steps[0], steps[1..];
      var next := NextNode(node, s);
      var name := NodeName(node).value;
      assert tail != [] ==> tail[|tail| - 1] == steps[|steps| - 1];
      WalkAlong(next, tail, rest);
      var deeper := Encode(tail) + rest;
      assert Encode(steps) == StepCode(s) + Encode(tail);
      ConcatAssoc(StepCode(s), Encode(tail), rest);
      WalkOneStep(node, s, deeper);
      assert Trail(node, steps) == [name] + Trail(next, tail);
      assert Reached(node, steps) == Reached(next, tail);
      match Walk(rest, Reached(next, tail)) {
        case Ok(c) =>
          ConcatAssoc([name], Trail(next, tail), c);
        case Err(_) =>
      }
    }
  }

  /**
   * A path that encodes a real position in the tree (ending at an element)
   * resolves to the names along it: one per step and the reached element's.
   */
  lemma WalkResolvesPosition(node: Node, steps: seq<Step>)
    requires Valid(node, steps)
    requires steps != [] ==> steps[|steps| - 1].At?
    requires NodeName(Reached(node, steps)).Ok?
    ensures Walk(Encode(steps), node)
         == Ok(Trail(node, steps) + [NodeName(Reached(node, steps)).value])
    ensures |Walk(Encode(steps), node).value| == |steps| + 1
  {
    WalkAlong(node, steps, []);
    assert Encode(steps) + [] == Encode(steps);
  }

  /**
   * A stale index into a repeated field does not panic: the level that meets
   * it answers `[""]` instead of its own name, so the chain keeps the names
   * above it and ends in `""`.
   */
  lemma WalkStaleIndex(node: Node, steps: seq<Step>, f: int32, i: int32)
    requires Valid(node, steps)
    requires NodeName(Reached(node, steps)).Ok?
    requires FieldLookup(f, Deref(Reached(node, steps))).Ok?
    requires FieldLookup(f, Deref(Reached(node, steps))).value.value.Slice?
    requires i >= |FieldLookup(f, Deref(Reached(node, steps))).value.value.elems|
    ensures Walk(Encode(steps) + [f, i], node) == Ok(Trail(node, steps) + [""])
  {
    WalkAlong(node, steps, [f, i]);
  }

  /** A path that stops right after a field number panics. */
  lemma WalkFieldLabel(node: Node, steps: seq<Step>, f: int32)
    requires Valid(node, steps)
    requires NodeName(Reached(node, steps)).Ok?
    requires FieldLookup(f, Deref(Reached(node, steps))).Ok?
    ensures Walk(Encode(steps) + [f], node) == Err(FieldLabel)
  {
    WalkAlong(node, steps, [f]);
  }

  /** A field number that no field of the reached struct carries panics. */
  lemma WalkUnknownField(node: Node, steps: seq<Step>, f: int32, rest: seq<int32>)
    requires Valid(node, steps)
    requires NodeName(Reached(node, steps)).Ok?
    requires Deref(Reached(node, steps)).Struct?
    requires var fields := Deref(Reached(node, steps)).fields;
      NoMatchIn(Numbers(fields), f, 0, |fields|)
    ensures Walk(Encode(steps) + [f] + rest, node) == Err(FieldNotFound(f))
  {
    var fields := Deref(Reached(node, steps)).fields;
    LookupFromNotFound(fields, Numbers(fields), f, 0);
    WalkAlong(node, steps, [f] + rest);
    assert Encode(steps) + [f] + rest == Encode(steps) + ([f] + rest);
  }

  /** Reaching a value that is neither a string, a pointer nor a struct panics. */
  lemma WalkUnexpectedKind(node: Node, steps: seq<Step>, rest: seq<int32>)
    requires Valid(node, steps)
    requires steps != [] && steps[|steps| - 1].Into? ==> rest != []
    requires !(Reached(node, steps).Str? || Reached(node, steps).Ptr? || Reached(node, steps).Struct?)
    ensures Walk(Encode(steps) + rest, node) == Err(UnexpectedKind(KindOf(Reached(node, steps))))
  {
    WalkAlong(node, steps, rest);
  }
}

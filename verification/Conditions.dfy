/**
  Rule conditions: the recursive evaluator, and the validator that runs before it.
  A condition is a JSON value; so is every value of the event payload it is evaluated on.
 */
module Conditions {
  import opened Floats
  import opened Options

  datatype Json =
    | Null
    | Bool(b: bool)
    | Number(f: Float)
    | Str(s: string)
    | Arr(items: seq<Json>)
    | Obj(fields: map<string, Json>)

  type Fields = map<string, Json>

  /** What the language runtime decides: reading a float from text, the largest float, white space. */
  datatype Runtime = Runtime(parse: string -> Option<Float>, limit: real, space: char -> bool)

  datatype Fault = NotAnObject | UnsupportedOperator | Unhashable

  datatype Outcome = Value(b: bool) | Raise(fault: Fault)

  const MAX_DEPTH := 8
  const MAX_CHILDREN := 20

  // ----- Values -----

  function Get(fields: Fields, key: string): Json {
    if key in fields then fields[key] else Null
  }

  predicate Truthy(j: Json) {
    match j
    case Null => false
    case Bool(b) => b
    case Number(f) => f != Finite(0.0)
    case Str(s) => s != ""
    case Arr(items) => items != []
    case Obj(fields) => fields != map[]
  }

  predicate Unhashable(j: Json) {
    j.Arr? || j.Obj?
  }

  function AsNumber(j: Json): Float
    requires j.Bool? || j.Number?
  {
    if j.Number? then j.f else if j.b then Finite(1.0) else Finite(0.0)
  }

  /** Equality of values: booleans are the numbers 0 and 1, and a NaN equals nothing. */
  predicate Same(a: Json, b: Json)
    decreases a
  {
    match a
    case Null => b.Null?
    case Bool(_) => (b.Bool? || b.Number?) && AsNumber(a) == AsNumber(b)
    case Number(f) => f != NaN && (b.Bool? || b.Number?) && f == AsNumber(b)
    case Str(_) => a == b
    case Arr(items) =>
      b.Arr? && |items| == |b.items| && forall i | 0 <= i < |items| :: Same(items[i], b.items[i])
    case Obj(fields) =>
      b.Obj? && fields.Keys == b.fields.Keys && forall k | k in fields :: Same(fields[k], b.fields[k])
  }

  /** Conversion to a float, or nothing where the conversion raises. */
  function ToFloat(rt: Runtime, j: Json): Option<Float> {
    match j
    case Null | Arr(_) | Obj(_) => None
    case Bool(_) => Some(AsNumber(j))
    case Number(Finite(r)) => if -rt.limit < r < rt.limit then Some(Finite(r)) else None
    case Number(f) => Some(f)
    case Str(s) => rt.parse(s)
  }

  predicate IsFinite(f: Option<Float>) {
    f.Some? && f.value.Finite?
  }

  predicate Substring(part: string, whole: string) {
    part <= whole || (whole != [] && Substring(part, whole[1..]))
  }

  predicate Contains(target: Json, value: Json) {
    match value
    case Str(s) => target.Str? && Substring(target.s, s)
    case Arr(items) => exists i | 0 <= i < |items| :: Same(items[i], target)
    case Obj(fields) => target.Str? && target.s in fields
    case _ => false
  }

  // ----- Operators -----

  predicate IsOrdering(op: string) {
    op == "gt" || op == "gte" || op == "lt" || op == "lte"
  }

  predicate IsOperator(op: string) {
    op == "eq" || op == "ne" || IsOrdering(op) || op == "contains" || op == "and" || op == "or" || op == "not"
  }

  predicate Ordered(op: string, left: real, right: real) {
    if op == "gt" then left > right
    else if op == "gte" then left >= right
    else if op == "lt" then left < right
    else left <= right
  }

  /** Payload keys are strings, so any other key finds nothing; nor does the empty string. */
  function FieldValue(fields: Fields, payload: Fields): Json {
    match Get(fields, "field")
    case Str(key) => if key == "" then Null else Get(payload, key)
    case _ => Null
  }

  predicate LeafHolds(rt: Runtime, op: string, fields: Fields, payload: Fields) {
    var value, target := FieldValue(fields, payload), Get(fields, "value");
    if IsOrdering(op) then
      var left, right := ToFloat(rt, value), ToFloat(rt, target);
      IsFinite(left) && IsFinite(right) && Ordered(op, left.value.r, right.value.r)
    else if op == "ne" then !Same(value, target)
    else if op == "contains" then Contains(target, value)
    else Same(value, target)
  }

  // ----- The evaluator -----

  /** The operator as the evaluator reads it: the default stands in only for a missing key. */
  function RawOp(fields: Fields): Json {
    if "op" in fields then fields["op"] else Str("eq")
  }

  function Negate(o: Outcome): Outcome {
    if o.Value? then Value(!o.b) else o
  }

  function Evaluate(rt: Runtime, c: Json, payload: Fields): Outcome
    decreases c
  {
    if !Truthy(c) then Value(true)
    else
      match c
      case Obj(fields) =>
        var op := RawOp(fields);
        if Unhashable(Get(fields, "field")) && Truthy(Get(fields, "field")) then Raise(Fault.Unhashable)
        else if op == Str("and") then
          if "conditions" !in fields then Value(true)
          else if fields["conditions"].Arr? then EvaluateAll(rt, fields["conditions"].items, payload)
          else Value(false)
        else if op == Str("or") then
          if "conditions" in fields && fields["conditions"].Arr?
          then EvaluateAny(rt, fields["conditions"].items, payload)
          else Value(false)
        else if op == Str("not") then
          if "condition" !in fields then Value(false)
          else Negate(Evaluate(rt, fields["condition"], payload))
        else if Unhashable(op) then Raise(Fault.Unhashable)
        else if !op.Str? || !IsOperator(op.s) then Raise(UnsupportedOperator)
        else Value(LeafHolds(rt, op.s, fields, payload))
      case _ => Raise(NotAnObject)
  }

  /** Short-circuit conjunction. */
  function EvaluateAll(rt: Runtime, children: seq<Json>, payload: Fields): Outcome
    decreases children
  {
    if children == [] then Value(true)
    else
      var first := Evaluate(rt, children[0], payload);
      if first == Value(true) then EvaluateAll(rt, children[1..], payload) else first
  }

  /** Short-circuit disjunction. */
  function EvaluateAny(rt: Runtime, children: seq<Json>, payload: Fields): Outcome
    decreases children
  {
    if children == [] then Value(false)
    else
      var first := Evaluate(rt, children[0], payload);
      if first == Value(false) then EvaluateAny(rt, children[1..], payload) else first
  }

  // ----- The validator -----

  datatype Problem =
    | TooDeep
    | MustBeObject
    | UnknownOperator
    | ChildCount(op: string)
    | FieldRequired
    | ValueMustBeFinite(op: string)

  /**
    The operator as the validator reads it: the default stands in for every falsy value, and a truthy value
    that is not a string has a text form that names no operator.
   */
  function OpName(fields: Fields): Option<string> {
    var op := Get(fields, "op");
    if !Truthy(op) then Some("eq") else if op.Str? then Some(op.s) else None
  }

  /** Does the text of a value hold anything but white space?  Only a string can be truthy and blank. */
  predicate Blank(rt: Runtime, j: Json) {
    !Truthy(j) || (j.Str? && forall i | 0 <= i < |j.s| :: rt.space(j.s[i]))
  }

  function LeafProblems(rt: Runtime, op: string, fields: Fields): seq<Problem> {
    (if Blank(rt, Get(fields, "field")) then [FieldRequired] else [])
    + (if IsOrdering(op) && !IsFinite(ToFloat(rt, Get(fields, "value"))) then [ValueMustBeFinite(op)] else [])
  }

  function Problems(rt: Runtime, c: Json, depth: nat): seq<Problem>
    decreases c
  {
    if depth > MAX_DEPTH then [TooDeep]
    else if !c.Obj? then [MustBeObject]
    else
      var op := OpName(c.fields);
      if op.None? || !IsOperator(op.value) then [UnknownOperator]
      else if op.value == "and" || op.value == "or" then
        if "conditions" in c.fields && c.fields["conditions"].Arr?
           && 1 <= |c.fields["conditions"].items| <= MAX_CHILDREN
        then ProblemsOfAll(rt, c.fields["conditions"].items, depth + 1)
        else [ChildCount(op.value)]
      else if op.value == "not" then
        if "condition" in c.fields then Problems(rt, c.fields["condition"], depth + 1)
        else if depth + 1 > MAX_DEPTH then [TooDeep] else [MustBeObject]
      else LeafProblems(rt, op.value, c.fields)
  }

  function ProblemsOfAll(rt: Runtime, children: seq<Json>, depth: nat): seq<Problem>
    decreases children
  {
    if children == [] then [] else Problems(rt, children[0], depth) + ProblemsOfAll(rt, children[1..], depth)
  }

  lemma {:induction false} ProblemsOfAllSnoc(rt: Runtime, children: seq<Json>, k: nat, depth: nat)
    requires k < |children|
    ensures ProblemsOfAll(rt, children[..k + 1], depth)
            == ProblemsOfAll(rt, children[..k], depth) + Problems(rt, children[k], depth)
  {
    if k == 0 {
      assert children[..1] == [children[0]] && children[..1][1..] == [];
    } else {
      var rest := children[1..];
      assert children[..k + 1][1..] == rest[..k] && children[..k][1..] == rest[..k - 1];
      ProblemsOfAllSnoc(rt, rest, k - 1, depth);
      assert rest[k - 1] == children[k];
    }
  }

  /** The validator collects the problems of all children, in order. */
  method ValidateCondition(rt: Runtime, c: Json, depth: nat) returns (errors: seq<Problem>)
    ensures errors == Problems(rt, c, depth)
    decreases c
  {
    if depth > MAX_DEPTH {
      return [TooDeep];
    }
    if !c.Obj? {
      return [MustBeObject];
    }
    var op := OpName(c.fields);
    if op.None? || !IsOperator(op.value) {
      return [UnknownOperator];
    }
    errors := [];
    if op.value == "and" || op.value == "or" {
      if "conditions" !in c.fields || !c.fields["conditions"].Arr? {
        return [ChildCount(op.value)];
      }
      var children := c.fields["conditions"].items;
      if |children| == 0 || |children| > MAX_CHILDREN {
        return [ChildCount(op.value)];
      }
      for k := 0 to |children|
        invariant errors == ProblemsOfAll(rt, children[..k], depth + 1)
      {
        var more := ValidateCondition(rt, children[k], depth + 1);
        ProblemsOfAllSnoc(rt, children, k, depth + 1);
        errors := errors + more;
      }
      assert children[..|children|] == children;
    } else if op.value == "not" {
      if "condition" in c.fields {
        errors := ValidateCondition(rt, c.fields["condition"], depth + 1);
      } else {
        errors := if depth + 1 > MAX_DEPTH then [TooDeep] else [MustBeObject];
      }
    } else {
      if Blank(rt, Get(c.fields, "field")) {
        errors := errors + [FieldRequired];
      }
      if IsOrdering(op.value) && !IsFinite(ToFloat(rt, Get(c.fields, "value"))) {
        errors := errors + [ValueMustBeFinite(op.value)];
      }
    }
  }

  // ----- The meaning of a condition -----

  function Children(fields: Fields): (children: seq<Json>)
    ensures forall i :: 0 <= i < |children| ==> children[i] < Obj(fields)
  {
    if "conditions" in fields && fields["conditions"].Arr? then fields["conditions"].items else []
  }

  /** All, some, or not; a leaf compares one payload value. */
  predicate Meaning(rt: Runtime, c: Json, payload: Fields)
    decreases c
  {
    match c
    case Obj(fields) =>
      var op, children := OpName(fields), Children(fields);
      if op == Some("and") then forall i | 0 <= i < |children| :: Meaning(rt, children[i], payload)
      else if op == Some("or") then exists i | 0 <= i < |children| :: Meaning(rt, children[i], payload)
      else if op == Some("not") then "condition" in fields && !Meaning(rt, fields["condition"], payload)
      else LeafHolds(rt, if op.Some? then op.value else "", fields, payload)
    case _ => true
  }

  /** A node the evaluator cannot process: an empty operator key, or a list or an object for a field name. */
  predicate BadNode(fields: Fields) {
    ("op" in fields && !Truthy(fields["op"]))
    || (Unhashable(Get(fields, "field")) && Truthy(Get(fields, "field")))
  }

  /** No node of the tree is bad. */
  predicate Clean(c: Json)
    decreases c
  {
    c.Obj? ==>
      && !BadNode(c.fields)
      && (var children := Children(c.fields); forall i | 0 <= i < |children| :: Clean(children[i]))
      && ("condition" in c.fields ==> Clean(c.fields["condition"]))
  }

  predicate AllHold(rt: Runtime, children: seq<Json>, payload: Fields) {
    forall i | 0 <= i < |children| :: Meaning(rt, children[i], payload)
  }

  predicate SomeHolds(rt: Runtime, children: seq<Json>, payload: Fields) {
    exists i | 0 <= i < |children| :: Meaning(rt, children[i], payload)
  }

  /**
    Evaluation comes to a bad node: the node itself, or one below a child whose older siblings
    all leave the result open.
   */
  predicate Meets(rt: Runtime, c: Json, payload: Fields)
    decreases c
  {
    match c
    case Obj(fields) =>
      var op, children := OpName(fields), Children(fields);
      BadNode(fields)
      || (op == Some("and")
          && exists i | 0 <= i < |children| ::
               Meets(rt, children[i], payload) && forall j | 0 <= j < i :: Meaning(rt, children[j], payload))
      || (op == Some("or")
          && exists i | 0 <= i < |children| ::
               Meets(rt, children[i], payload) && forall j | 0 <= j < i :: !Meaning(rt, children[j], payload))
      || (op == Some("not") && "condition" in fields && Meets(rt, fields["condition"], payload))
    case _ => false
  }

  // ----- The evaluator computes the meaning, or comes to a bad node -----

  ghost predicate Agrees(rt: Runtime, c: Json, payload: Fields) {
    if Meets(rt, c, payload) then Evaluate(rt, c, payload).Raise?
    else Evaluate(rt, c, payload) == Value(Meaning(rt, c, payload))
  }

  /** Some child that evaluation reaches, past siblings that all mean `open`, meets a bad node. */
  ghost predicate Stopped(rt: Runtime, children: seq<Json>, payload: Fields, open: bool) {
    exists i :: 0 <= i < |children| && Meets(rt, children[i], payload)
                && forall j :: 0 <= j < i ==> Meaning(rt, children[j], payload) == open
  }

  lemma {:induction false} AllAccepted(rt: Runtime, children: seq<Json>, depth: nat)
    requires ProblemsOfAll(rt, children, depth) == []
    ensures forall i :: 0 <= i < |children| ==> Problems(rt, children[i], depth) == []
  {
    if children != [] {
      var first, rest := children[0], children[1..];
      AllAccepted(rt, rest, depth);
      forall i | 0 <= i < |children| ensures Problems(rt, children[i], depth) == [] {
        if i > 0 { assert children[i] == rest[i - 1]; }
      }
    }
  }

  /** Where the first child leaves the result open, the rest decides. */
  lemma {:induction false} StoppedLater(rt: Runtime, children: seq<Json>, payload: Fields, open: bool)
    requires children != [] && !Meets(rt, children[0], payload)
    ensures Stopped(rt, children, payload, open)
            <==> Meaning(rt, children[0], payload) == open && Stopped(rt, children[1..], payload, open)
  {
    var rest := children[1..];
    if Stopped(rt, children, payload, open) {
      var i :| 0 <= i < |children| && Meets(rt, children[i], payload)
               && forall j :: 0 <= j < i ==> Meaning(rt, children[j], payload) == open;
      assert children[i] == rest[i - 1];
      assert forall j :: 0 <= j < i - 1 ==> rest[j] == children[j + 1];
    }
    if Meaning(rt, children[0], payload) == open && Stopped(rt, rest, payload, open) {
      var i :| 0 <= i < |rest| && Meets(rt, rest[i], payload)
               && forall j :: 0 <= j < i ==> Meaning(rt, rest[j], payload) == open;
      assert children[i + 1] == rest[i];
      forall j | 0 <= j < i + 1 ensures Meaning(rt, children[j], payload) == open {
        if j > 0 { assert children[j] == rest[j - 1]; }
      }
    }
  }

  lemma {:induction false} StoppedAtOnce(rt: Runtime, children: seq<Json>, payload: Fields, open: bool)
    requires children != [] && Meets(rt, children[0], payload)
    ensures Stopped(rt, children, payload, open)
  {
    var i := 0;
    assert 0 <= i < |children| && Meets(rt, children[i], payload);
  }

  lemma {:induction false} AllAgree(rt: Runtime, children: seq<Json>, payload: Fields)
    requires forall i :: 0 <= i < |children| ==> Agrees(rt, children[i], payload)
    ensures if Stopped(rt, children, payload, true) then EvaluateAll(rt, children, payload).Raise?
            else EvaluateAll(rt, children, payload) == Value(AllHold(rt, children, payload))
  {
    if children != [] {
      var first, rest := children[0], children[1..];
      assert Agrees(rt, first, payload);
      if Meets(rt, first, payload) {
        StoppedAtOnce(rt, children, payload, true);
      } else {
        StoppedLater(rt, children, payload, true);
        assert forall i :: 0 <= i < |rest| ==> rest[i] == children[i + 1];
        AllAgree(rt, rest, payload);
        AllHoldSplit(rt, children, payload);
      }
    }
  }

  lemma {:induction false} AllHoldSplit(rt: Runtime, children: seq<Json>, payload: Fields)
    requires children != []
    ensures AllHold(rt, children, payload) <==> Meaning(rt, children[0], payload) && AllHold(rt, children[1..], payload)
    ensures SomeHolds(rt, children, payload)
            <==> Meaning(rt, children[0], payload) || SomeHolds(rt, children[1..], payload)
  {
    var rest := children[1..];
    assert forall i :: 0 <= i < |rest| ==> rest[i] == children[i + 1];
    assert forall i :: 1 <= i < |children| ==> children[i] == rest[i - 1];
  }

  lemma {:induction false} AnyAgree(rt: Runtime, children: seq<Json>, payload: Fields)
    requires forall i :: 0 <= i < |children| ==> Agrees(rt, children[i], payload)
    ensures if Stopped(rt, children, payload, false) then EvaluateAny(rt, children, payload).Raise?
            else EvaluateAny(rt, children, payload) == Value(SomeHolds(rt, children, payload))
  {
    if children != [] {
      var first, rest := children[0], children[1..];
      assert Agrees(rt, first, payload);
      if Meets(rt, first, payload) {
        StoppedAtOnce(rt, children, payload, false);
      } else {
        StoppedLater(rt, children, payload, false);
        assert forall i :: 0 <= i < |rest| ==> rest[i] == children[i + 1];
        AnyAgree(rt, rest, payload);
        AllHoldSplit(rt, children, payload);
      }
    }
  }

  lemma {:induction false} AndAgrees(rt: Runtime, c: Json, payload: Fields, depth: nat)
    requires Problems(rt, c, depth) == [] && !BadNode(c.fields) && OpName(c.fields) == Some("and")
    requires forall i :: 0 <= i < |Children(c.fields)| ==> Agrees(rt, Children(c.fields)[i], payload)
    ensures Agrees(rt, c, payload)
  {
    var children := Children(c.fields);
    AllAgree(rt, children, payload);
    assert Meaning(rt, c, payload) == AllHold(rt, children, payload);
    assert Meets(rt, c, payload) == Stopped(rt, children, payload, true);
    assert Evaluate(rt, c, payload) == EvaluateAll(rt, children, payload);
  }

  lemma {:induction false} OrAgrees(rt: Runtime, c: Json, payload: Fields, depth: nat)
    requires Problems(rt, c, depth) == [] && !BadNode(c.fields) && OpName(c.fields) == Some("or")
    requires forall i :: 0 <= i < |Children(c.fields)| ==> Agrees(rt, Children(c.fields)[i], payload)
    ensures Agrees(rt, c, payload)
  {
    var children := Children(c.fields);
    AnyAgree(rt, children, payload);
    assert Meaning(rt, c, payload) == SomeHolds(rt, children, payload);
    assert Meets(rt, c, payload) == Stopped(rt, children, payload, false);
    assert Evaluate(rt, c, payload) == EvaluateAny(rt, children, payload);
  }

  lemma {:induction false} NotAgrees(rt: Runtime, c: Json, payload: Fields, depth: nat)
    requires Problems(rt, c, depth) == [] && !BadNode(c.fields) && OpName(c.fields) == Some("not")
    requires Agrees(rt, c.fields["condition"], payload)
    ensures Agrees(rt, c, payload)
  {
    assert Evaluate(rt, c, payload) == Negate(Evaluate(rt, c.fields["condition"], payload));
  }

  predicate IsLeafOp(op: string) {
    op != "and" && op != "or" && op != "not"
  }

  lemma {:induction false} LeafAgrees(rt: Runtime, c: Json, payload: Fields, depth: nat)
    requires Problems(rt, c, depth) == [] && !BadNode(c.fields) && IsLeafOp(OpName(c.fields).value)
    ensures Agrees(rt, c, payload)
  {
    var op := OpName(c.fields).value;
    assert Truthy(c) by { assert "field" in c.fields; }
    assert Evaluate(rt, c, payload) == Value(LeafHolds(rt, op, c.fields, payload));
  }

  /**
    For every accepted condition and every payload: evaluation raises exactly when it comes to a bad node, and
    otherwise returns the condition's meaning.
   */
  lemma {:induction false} EvaluateIsExact(rt: Runtime, c: Json, payload: Fields, depth: nat)
    requires Problems(rt, c, depth) == []
    ensures Agrees(rt, c, payload)
    decreases c
  {
    var op := OpName(c.fields).value;
    if BadNode(c.fields) {
      BadNodeRaises(rt, c, payload, depth);
    } else if op == "and" || op == "or" {
      var children := Children(c.fields);
      AllAccepted(rt, children, depth + 1);
      forall i | 0 <= i < |children| ensures Agrees(rt, children[i], payload) {
        EvaluateIsExact(rt, children[i], payload, depth + 1);
      }
      if op == "and" { AndAgrees(rt, c, payload, depth); } else { OrAgrees(rt, c, payload, depth); }
    } else if op == "not" {
      EvaluateIsExact(rt, c.fields["condition"], payload, depth + 1);
      NotAgrees(rt, c, payload, depth);
    } else {
      LeafAgrees(rt, c, payload, depth);
    }
  }

  /** An accepted condition with a bad root raises on every payload. */
  lemma {:induction false} BadNodeRaises(rt: Runtime, c: Json, payload: Fields, depth: nat)
    requires Problems(rt, c, depth) == [] && BadNode(c.fields)
    ensures Evaluate(rt, c, payload).Raise?
  {
    if "op" in c.fields {
      assert c.fields != map[];
    } else {
      assert "field" in c.fields;
    }
  }

  lemma {:induction false} CleanNeverMeets(rt: Runtime, c: Json, payload: Fields)
    requires Clean(c)
    ensures !Meets(rt, c, payload)
    decreases c
  {
    if c.Obj? {
      var children := Children(c.fields);
      forall i | 0 <= i < |children| ensures !Meets(rt, children[i], payload) {
        CleanNeverMeets(rt, children[i], payload);
      }
      if "condition" in c.fields { CleanNeverMeets(rt, c.fields["condition"], payload); }
    }
  }

  /** Soundness of the validator: a clean condition it accepts never raises, and evaluates to its meaning. */
  lemma {:induction false} ValidationIsSound(rt: Runtime, c: Json, payload: Fields)
    requires Problems(rt, c, 0) == [] && Clean(c)
    ensures Evaluate(rt, c, payload) == Value(Meaning(rt, c, payload))
  {
    CleanNeverMeets(rt, c, payload);
    EvaluateIsExact(rt, c, payload, 0);
  }

  // ----- Leaves -----

  /** Equality of values is symmetric. */
  lemma {:induction false} SameIsSymmetric(a: Json, b: Json)
    ensures Same(a, b) <==> Same(b, a)
    decreases a
  {
    if a.Arr? && b.Arr? && |a.items| == |b.items| {
      forall i | 0 <= i < |a.items| ensures Same(a.items[i], b.items[i]) <==> Same(b.items[i], a.items[i]) {
        SameIsSymmetric(a.items[i], b.items[i]);
      }
    } else if a.Obj? && b.Obj? && a.fields.Keys == b.fields.Keys {
      forall k | k in a.fields ensures Same(a.fields[k], b.fields[k]) <==> Same(b.fields[k], a.fields[k]) {
        SameIsSymmetric(a.fields[k], b.fields[k]);
      }
    }
  }

  predicate HasNaN(j: Json)
    decreases j
  {
    match j
    case Number(f) => f.NaN?
    case Arr(items) => exists i | 0 <= i < |items| :: HasNaN(items[i])
    case Obj(fields) => exists k | k in fields :: HasNaN(fields[k])
    case _ => false
  }

  /** A value equals itself exactly when it holds no NaN. */
  lemma {:induction false} SameIsReflexiveIff(j: Json)
    ensures Same(j, j) <==> !HasNaN(j)
    decreases j
  {
    if j.Arr? {
      forall i | 0 <= i < |j.items| ensures Same(j.items[i], j.items[i]) <==> !HasNaN(j.items[i]) {
        SameIsReflexiveIff(j.items[i]);
      }
    } else if j.Obj? {
      forall k | k in j.fields ensures Same(j.fields[k], j.fields[k]) <==> !HasNaN(j.fields[k]) {
        SameIsReflexiveIff(j.fields[k]);
      }
    }
  }

  /** How deep the evaluator descends. */
  function Height(c: Json): nat
    decreases c
  {
    match c
    case Obj(fields) =>
      var op := OpName(fields);
      if op == Some("and") || op == Some("or") then
        if "conditions" in fields && fields["conditions"].Arr? then HeightOfAll(fields["conditions"].items) else 0
      else if op == Some("not") && "condition" in fields then 1 + Height(fields["condition"])
      else 0
    case _ => 0
  }

  /** One more than the tallest child. */
  function HeightOfAll(children: seq<Json>): nat
    decreases children
  {
    if children == [] then 0
    else
      var first, rest := 1 + Height(children[0]), HeightOfAll(children[1..]);
      if first >= rest then first else rest
  }

  /** Accepted conditions nest at most eight levels below the root. */
  lemma {:induction false} AcceptedIsShallow(rt: Runtime, c: Json, depth: nat)
    requires Problems(rt, c, depth) == []
    ensures depth + Height(c) <= MAX_DEPTH
    decreases c
  {
    var op := OpName(c.fields).value;
    if op == "and" || op == "or" {
      AcceptedAreShallow(rt, Children(c.fields), depth + 1);
    } else if op == "not" {
      AcceptedIsShallow(rt, c.fields["condition"], depth + 1);
    }
  }

  lemma {:induction false} AcceptedAreShallow(rt: Runtime, children: seq<Json>, depth: nat)
    requires ProblemsOfAll(rt, children, depth) == [] && 1 <= depth <= MAX_DEPTH + 1
    ensures depth + HeightOfAll(children) <= MAX_DEPTH + 1
    decreases children
  {
    if children != [] {
      AcceptedIsShallow(rt, children[0], depth);
      AcceptedAreShallow(rt, children[1..], depth);
    }
  }

  /** Accepted all the same: an operator that is an empty string raises on every payload. */
  lemma {:induction false} EmptyOperatorRaises(rt: Runtime, payload: Fields)
    requires !rt.space('x')
    ensures var c := Obj(map["op" := Str(""), "field" := Str("x")]);
      Problems(rt, c, 0) == [] && Evaluate(rt, c, payload) == Raise(UnsupportedOperator)
  {
    var fields := map["op" := Str(""), "field" := Str("x")];
    assert "op" in fields && OpName(fields) == Some("eq") && RawOp(fields) == Str("");
    assert !Blank(rt, Str("x")) by { assert Str("x").s[0] == 'x'; }
    assert Get(fields, "field") == Str("x");
  }

  /** And so does a list for a field name. */
  lemma {:induction false} ListFieldRaises(rt: Runtime, payload: Fields)
    ensures var c := Obj(map["field" := Arr([Null])]);
      Problems(rt, c, 0) == [] && Evaluate(rt, c, payload) == Raise(Fault.Unhashable)
  {
    var fields := map["field" := Arr([Null])];
    assert "field" in fields && Get(fields, "field") == Arr([Null]);
  }
}

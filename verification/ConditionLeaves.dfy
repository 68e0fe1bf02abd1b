/**
  What a leaf of a condition compares: numbers, values and parts, said on the JSON values themselves; and what a
  validator that nests no more than eight levels accepts.
 */
module ConditionLeaves {
  import opened Floats
  import opened Options
  import opened Conditions

  // ----- Equality -----

  /** The value with its booleans written as the numbers 0 and 1. */
  function Plain(j: Json): Json
    decreases j
  {
    match j
    case Bool(b) => Number(Finite(if b then 1.0 else 0.0))
    case Arr(items) => Arr(seq(|items|, i requires 0 <= i < |items| => Plain(items[i])))
    case Obj(fields) => Obj(map k | k in fields :: Plain(fields[k]))
    case _ => j
  }

  lemma {:induction false} SameItems(a: seq<Json>, b: seq<Json>)
    ensures Plain(Arr(a)) == Plain(Arr(b))
            <==> |a| == |b| && forall i :: 0 <= i < |a| && i < |b| ==> Plain(a[i]) == Plain(b[i])
  {
    var x, y := Plain(Arr(a)).items, Plain(Arr(b)).items;
    assert |x| == |a| && |y| == |b|;
    if x == y {
      forall i | 0 <= i < |a| ensures Plain(a[i]) == Plain(b[i]) { assert x[i] == y[i]; }
    }
  }

  lemma {:induction false} SameFields(a: map<string, Json>, b: map<string, Json>)
    ensures Plain(Obj(a)) == Plain(Obj(b))
            <==> a.Keys == b.Keys && forall k :: k in a && k in b ==> Plain(a[k]) == Plain(b[k])
  {
    var x, y := Plain(Obj(a)).fields, Plain(Obj(b)).fields;
    assert x.Keys == a.Keys && y.Keys == b.Keys;
    if x == y {
      forall k | k in a && k in b ensures Plain(a[k]) == Plain(b[k]) { assert x[k] == y[k]; }
    }
  }

  /** Two values are equal exactly when they hold no NaN and are the same but for booleans written as numbers. */
  lemma {:induction false} SameMeans(a: Json, b: Json)
    ensures Same(a, b) <==> !HasNaN(a) && Plain(a) == Plain(b)
    decreases a
  {
    if a.Arr? && b.Arr? {
      forall i | 0 <= i < |a.items| && i < |b.items|
        ensures Same(a.items[i], b.items[i]) <==> !HasNaN(a.items[i]) && Plain(a.items[i]) == Plain(b.items[i])
      {
        SameMeans(a.items[i], b.items[i]);
      }
      SameItems(a.items, b.items);
    } else if a.Obj? && b.Obj? {
      forall k | k in a.fields && k in b.fields
        ensures Same(a.fields[k], b.fields[k]) <==> !HasNaN(a.fields[k]) && Plain(a.fields[k]) == Plain(b.fields[k])
      {
        SameMeans(a.fields[k], b.fields[k]);
      }
      SameFields(a.fields, b.fields);
    }
  }

  // ----- Leaves -----

  /** A condition with this operator, this field and this value to compare with. */
  ghost predicate IsLeaf(c: Json, op: string, key: string, target: Json) {
    && c.Obj? && "op" in c.fields && c.fields["op"] == Str(op)
    && "field" in c.fields && c.fields["field"] == Str(key) && key != ""
    && target == if "value" in c.fields then c.fields["value"] else Null
  }

  function Field(payload: Fields, key: string): Json {
    if key in payload then payload[key] else Null
  }

  /** The value reads as the number x. */
  ghost predicate Reads(rt: Runtime, j: Json, x: real) {
    || (j == Number(Finite(x)) && -rt.limit < x < rt.limit)
    || (j == Bool(true) && x == 1.0)
    || (j == Bool(false) && x == 0.0)
    || (j.Str? && rt.parse(j.s) == Some(Finite(x)))
  }

  ghost predicate Compares(op: string, x: real, t: real) {
    && (op == "gt" ==> x > t)
    && (op == "gte" ==> x >= t)
    && (op == "lt" ==> x < t)
    && (op == "lte" ==> x <= t)
  }

  lemma ReadsIff(rt: Runtime, j: Json, x: real)
    ensures Reads(rt, j, x) <==> ToFloat(rt, j) == Some(Finite(x))
  {
  }

  /**
    An ordering holds exactly when both sides read as finite numbers that compare that way; on anything else it is
    false, and it never raises.
   */
  lemma {:induction false} OrderingMeans(rt: Runtime, c: Json, op: string, key: string, target: Json, payload: Fields)
    requires IsLeaf(c, op, key, target) && (op == "gt" || op == "gte" || op == "lt" || op == "lte")
    ensures Evaluate(rt, c, payload).Value?
    ensures Evaluate(rt, c, payload).b
            <==> exists x, t :: Reads(rt, Field(payload, key), x) && Reads(rt, target, t) && Compares(op, x, t)
  {
    var left, right := ToFloat(rt, Field(payload, key)), ToFloat(rt, target);
    forall x ensures Reads(rt, Field(payload, key), x) <==> left == Some(Finite(x)) {
      ReadsIff(rt, Field(payload, key), x);
    }
    forall t ensures Reads(rt, target, t) <==> right == Some(Finite(t)) { ReadsIff(rt, target, t); }
    assert Evaluate(rt, c, payload) == Value(LeafHolds(rt, op, c.fields, payload));
    if IsFinite(left) && IsFinite(right) {
      assert Reads(rt, Field(payload, key), left.value.r) && Reads(rt, target, right.value.r);
    }
  }

  /** On two numbers every operator is the comparison it is named for. */
  lemma {:induction false} NumbersCompare(rt: Runtime, c: Json, op: string, key: string, x: real, t: real,
                                          payload: Fields)
    requires IsLeaf(c, op, key, Number(Finite(t))) && key in payload && payload[key] == Number(Finite(x))
    requires -rt.limit < x < rt.limit && -rt.limit < t < rt.limit
    ensures op == "gt" ==> Evaluate(rt, c, payload) == Value(x > t)
    ensures op == "gte" ==> Evaluate(rt, c, payload) == Value(x >= t)
    ensures op == "lt" ==> Evaluate(rt, c, payload) == Value(x < t)
    ensures op == "lte" ==> Evaluate(rt, c, payload) == Value(x <= t)
    ensures op == "eq" ==> Evaluate(rt, c, payload) == Value(x == t)
    ensures op == "ne" ==> Evaluate(rt, c, payload) == Value(x != t)
  {
    if op == "gt" || op == "gte" || op == "lt" || op == "lte" {
      OrderingMeans(rt, c, op, key, Number(Finite(t)), payload);
      assert Reads(rt, Field(payload, key), x) && Reads(rt, Number(Finite(t)), t);
      assert forall y :: Reads(rt, Field(payload, key), y) ==> y == x;
      assert forall y :: Reads(rt, Number(Finite(t)), y) ==> y == t;
    }
  }

  /** `eq` holds exactly between values that hold no NaN and are the same but for booleans; `ne` is the opposite. */
  lemma {:induction false} EqualityMeans(rt: Runtime, c: Json, op: string, key: string, target: Json, payload: Fields)
    requires IsLeaf(c, op, key, target) && (op == "eq" || op == "ne")
    ensures var equal := !HasNaN(target) && Plain(Field(payload, key)) == Plain(target);
      Evaluate(rt, c, payload) == Value(if op == "eq" then equal else !equal)
  {
    SameMeans(target, Field(payload, key));
    SameIsSymmetric(target, Field(payload, key));
    assert Evaluate(rt, c, payload) == Value(LeafHolds(rt, op, c.fields, payload));
  }

  ghost predicate OccursAt(part: string, whole: string, i: nat) {
    i + |part| <= |whole| && whole[i..i + |part|] == part
  }

  lemma OccursLater(part: string, whole: string, i: nat)
    requires whole != []
    ensures OccursAt(part, whole[1..], i) <==> OccursAt(part, whole, i + 1)
  {
    if i + 1 + |part| <= |whole| { assert whole[i + 1..i + 1 + |part|] == whole[1..][i..i + |part|]; }
  }

  lemma {:induction false} SubstringIff(part: string, whole: string)
    ensures Substring(part, whole) <==> exists i: nat :: OccursAt(part, whole, i)
    decreases |whole|
  {
    if part <= whole {
      assert OccursAt(part, whole, 0);
    } else if whole != [] {
      SubstringIff(part, whole[1..]);
      forall i: nat ensures OccursAt(part, whole[1..], i) <==> OccursAt(part, whole, i + 1) {
        OccursLater(part, whole, i);
      }
      if i: nat :| OccursAt(part, whole, i) {
        assert i > 0 && OccursAt(part, whole[1..], i - 1);
      }
    } else {
      assert forall i: nat :: OccursAt(part, whole, i) ==> part == [];
    }
  }

  /** The value contains the target: as text, as an item, or as a key. */
  ghost predicate Holds(value: Json, target: Json) {
    match value
    case Str(s) => target.Str? && exists i: nat :: OccursAt(target.s, s, i)
    case Arr(items) =>
      exists i :: 0 <= i < |items| && !HasNaN(items[i]) && Plain(items[i]) == Plain(target)
    case Obj(fields) => target.Str? && target.s in fields
    case _ => false
  }

  /**
    `contains` holds exactly when the field's value contains the target; on values that contain nothing it is false,
    and it never raises.
   */
  lemma {:induction false} ContainsMeans(rt: Runtime, c: Json, key: string, target: Json, payload: Fields)
    requires IsLeaf(c, "contains", key, target)
    ensures Evaluate(rt, c, payload) == Value(Holds(Field(payload, key), target))
  {
    var value := Field(payload, key);
    if value.Str? && target.Str? {
      SubstringIff(target.s, value.s);
    } else if value.Arr? {
      forall i | 0 <= i < |value.items|
        ensures Same(value.items[i], target) <==> !HasNaN(value.items[i]) && Plain(value.items[i]) == Plain(target)
      {
        SameMeans(value.items[i], target);
      }
    }
    assert Evaluate(rt, c, payload) == Value(LeafHolds(rt, "contains", c.fields, payload));
  }

  /** What is no object is true when it is empty, zero, false or null, and raises otherwise; no object means true. */
  lemma {:induction false} RootMeans(rt: Runtime, c: Json, payload: Fields)
    requires !c.Obj? || c.fields == map[]
    ensures var empty := c.Null? || c == Bool(false) || c == Number(Finite(0.0)) || c == Str("") || c == Arr([])
                         || c == Obj(map[]);
      Evaluate(rt, c, payload) == if empty then Value(true) else Raise(NotAnObject)
  {
  }

  // ----- What the validator accepts -----

  /** The grammar of conditions, without a limit on nesting. */
  ghost predicate Grammatical(rt: Runtime, c: Json)
    decreases c
  {
    c.Obj?
    && match OpName(c.fields)
       case None => false
       case Some(op) =>
         if op == "and" || op == "or" then
           var children := Children(c.fields);
           1 <= |children| <= 20 && forall i :: 0 <= i < |children| ==> Grammatical(rt, children[i])
         else if op == "not" then
           "condition" in c.fields && Grammatical(rt, c.fields["condition"])
         else
           && (op == "eq" || op == "ne" || op == "gt" || op == "gte" || op == "lt" || op == "lte" || op == "contains")
           && !Blank(rt, Field(c.fields, "field"))
           && (op == "gt" || op == "gte" || op == "lt" || op == "lte" ==>
                 exists t :: Reads(rt, Field(c.fields, "value"), t))
  }

  ghost predicate AcceptedAsShould(rt: Runtime, c: Json, depth: nat) {
    Problems(rt, c, depth) == [] <==> Grammatical(rt, c) && depth + Height(c) <= 8
  }

  lemma {:induction false} AllAcceptedIff(rt: Runtime, children: seq<Json>, depth: nat)
    requires forall i :: 0 <= i < |children| ==> AcceptedAsShould(rt, children[i], depth)
    ensures ProblemsOfAll(rt, children, depth) == []
            <==> (forall i :: 0 <= i < |children| ==> Grammatical(rt, children[i]))
                 && (children != [] ==> depth + HeightOfAll(children) <= 9)
  {
    if children != [] {
      var rest := children[1..];
      assert forall i :: 0 <= i < |rest| ==> rest[i] == children[i + 1];
      AllAcceptedIff(rt, rest, depth);
      assert (forall i :: 0 <= i < |children| ==> Grammatical(rt, children[i]))
          <==> Grammatical(rt, children[0]) && forall i :: 0 <= i < |rest| ==> Grammatical(rt, rest[i]) by {
        forall i | 1 <= i < |children| ensures children[i] == rest[i - 1] { }
      }
    }
  }

  lemma {:induction false} GroupShape(rt: Runtime, c: Json, depth: nat, children: seq<Json>)
    requires c.Obj? && (OpName(c.fields) == Some("and") || OpName(c.fields) == Some("or"))
    requires children == Children(c.fields)
    ensures Problems(rt, c, depth) == []
            <==> depth <= 8 && 1 <= |children| <= 20 && ProblemsOfAll(rt, children, depth + 1) == []
    ensures Grammatical(rt, c)
            <==> 1 <= |children| <= 20 && forall i :: 0 <= i < |children| ==> Grammatical(rt, children[i])
    ensures Height(c) == HeightOfAll(children)
  {
    assert OpName(c.fields).value == "and" || OpName(c.fields).value == "or";
  }

  lemma {:induction false} GroupAcceptedIff(rt: Runtime, c: Json, depth: nat)
    requires c.Obj? && (OpName(c.fields) == Some("and") || OpName(c.fields) == Some("or"))
    requires forall i :: 0 <= i < |Children(c.fields)| ==> AcceptedAsShould(rt, Children(c.fields)[i], depth + 1)
    ensures AcceptedAsShould(rt, c, depth)
  {
    AllAcceptedIff(rt, Children(c.fields), depth + 1);
    GroupShape(rt, c, depth, Children(c.fields));
  }

  /** The validator finds no problem exactly in grammatical conditions that nest at most eight levels. */
  lemma {:induction false} AcceptedIff(rt: Runtime, c: Json, depth: nat)
    ensures Problems(rt, c, depth) == [] <==> Grammatical(rt, c) && depth + Height(c) <= 8
    decreases c
  {
    if c.Obj? && OpName(c.fields).Some? {
      var op := OpName(c.fields).value;
      if op == "and" || op == "or" {
        var children := Children(c.fields);
        forall i | 0 <= i < |children| ensures AcceptedAsShould(rt, children[i], depth + 1) {
          AcceptedIff(rt, children[i], depth + 1);
        }
        GroupAcceptedIff(rt, c, depth);
      } else if op == "not" {
        if "condition" in c.fields { AcceptedIff(rt, c.fields["condition"], depth + 1); }
      } else {
        LeafAcceptedIff(rt, c, depth);
      }
    }
  }

  lemma {:induction false} LeafAcceptedIff(rt: Runtime, c: Json, depth: nat)
    requires c.Obj? && OpName(c.fields).Some? && IsLeafOp(OpName(c.fields).value)
    ensures Problems(rt, c, depth) == [] <==> Grammatical(rt, c) && depth + Height(c) <= 8
  {
    var right := ToFloat(rt, Field(c.fields, "value"));
    forall t ensures Reads(rt, Field(c.fields, "value"), t) <==> right == Some(Finite(t)) {
      ReadsIff(rt, Field(c.fields, "value"), t);
    }
  }
}

/** Postfix evaluation on a 64-entry stack whose operations check their contracts. */
module Rpn {
  import opened Common

  const CAPACITY: nat := 64
  const EPSILON := 0.000000000001

  datatype Operator = Plus | Minus | Times | Divide

  /** A token the source's stod cannot read is Garbage. */
  datatype Token = Number(value: real) | Apply(op: Operator) | Garbage

  /** Aborted: a contract failed. Threw: stod did. */
  datatype Outcome = Value(value: real) | Aborted | Threw

  datatype Tree = Leaf(value: real) | Node(op: Operator, left: Tree, right: Tree)

  function Abs(x: real): real
  {
    if x < 0.0 then -x else x
  }

  function Compute(op: Operator, a: real, b: real): Option<real>
  {
    match op
    case Plus => Some(a + b)
    case Minus => Some(a - b)
    case Times => Some(a * b)
    case Divide => if Abs(b) > EPSILON then Some(a / b) else None
  }

  // ---- What the operators compute ----

  /** Subtraction undoes addition; division is defined exactly for divisors further than 1e-12 from
      zero, and there it undoes multiplication. */
  lemma Inverses(a: real, b: real)
    ensures Compute(Minus, a, b).Some? && Compute(Plus, Compute(Minus, a, b).value, b) == Some(a)
    ensures Compute(Divide, a, b).Some? <==> b > 0.000000000001 || b < -0.000000000001
    ensures Compute(Divide, a, b).Some? ==> Compute(Times, Compute(Divide, a, b).value, b) == Some(a)
  {
    if Compute(Divide, a, b).Some? {
      var q := Compute(Divide, a, b).value;
      assert q * b == a;
      assert Compute(Times, q, b).value == a;
    }
  }

  /** Addition and multiplication are those of the field of reals. */
  lemma FieldLaws(a: real, b: real, c: real)
    ensures Compute(Plus, a, b) == Compute(Plus, b, a) && Compute(Plus, a, 0.0) == Some(a)
    ensures Compute(Times, a, b) == Compute(Times, b, a) && Compute(Times, a, 1.0) == Some(a)
    ensures Compute(Plus, a, b).Some? && Compute(Plus, b, c).Some?
    ensures Compute(Times, a, b).Some? && Compute(Times, b, c).Some? && Compute(Times, a, c).Some?
    ensures Compute(Plus, Compute(Plus, a, b).value, c) == Compute(Plus, a, Compute(Plus, b, c).value)
    ensures Compute(Times, Compute(Times, a, b).value, c) == Compute(Times, a, Compute(Times, b, c).value)
    ensures Compute(Times, a, Compute(Plus, b, c).value) ==
            Compute(Plus, Compute(Times, a, b).value, Compute(Times, a, c).value)
  {
    var ab, bc, ac, sum := a * b, b * c, a * c, b + c;
    assert ab * c == a * bc;
    assert a * sum == ab + ac;
    assert Compute(Times, ab, c).value == Compute(Times, a, bc).value;
    assert Compute(Times, a, sum).value == Compute(Plus, ab, ac).value;
  }

  // ---- Expression trees ----

  function Postfix(t: Tree): seq<Token>
  {
    match t
    case Leaf(v) => [Number(v)]
    case Node(op, l, r) => Postfix(l) + Postfix(r) + [Apply(op)]
  }

  function Eval(t: Tree): Option<real>
  {
    match t
    case Leaf(v) => Some(v)
    case Node(op, l, r) =>
      var a, b := Eval(l), Eval(r);
      if a.Some? && b.Some? then Compute(op, a.value, b.value) else None
  }

  /** Stack entries needed to evaluate `t`. */
  function Need(t: Tree): nat
  {
    match t
    case Leaf(_) => 1
    case Node(_, l, r) => if Need(l) > Need(r) + 1 then Need(l) else Need(r) + 1
  }

  // ---- What the evaluator does ----

  function Rpn(stack: seq<real>, tokens: seq<Token>): Outcome
    decreases |tokens|
  {
    if tokens == [] then if |stack| == 1 then Value(stack[0]) else Aborted
    else
      match tokens[0]
      case Garbage => Threw
      case Number(v) => if |stack| < CAPACITY then Rpn(stack + [v], tokens[1..]) else Aborted
      case Apply(op) =>
        if |stack| < 2 then Aborted
        else
          var r := Compute(op, stack[|stack| - 2], stack[|stack| - 1]);
          if r.Some? then Rpn(stack[..|stack| - 2] + [r.value], tokens[1..]) else Aborted
  }

  /** A whole operand: it leaves its value on the stack, or aborts if it needs more entries than are
      left or divides by a near-zero. */
  lemma {:induction false} RpnOfTree(stack: seq<real>, t: Tree, rest: seq<Token>)
    requires |stack| <= CAPACITY
    ensures Rpn(stack, Postfix(t) + rest) ==
      if |stack| + Need(t) <= CAPACITY && Eval(t).Some? then Rpn(stack + [Eval(t).value], rest) else Aborted
    decreases t
  {
    hide Compute;
    match t
    case Leaf(v) =>
      assert (Postfix(t) + rest)[1..] == rest;
    case Node(op, l, r) =>
      var rest1, rest2 := Postfix(r) + [Apply(op)] + rest, [Apply(op)] + rest;
      NodeParts(op, l, r, rest);
      NeedPositive(l);
      hide Rpn, Eval, Need, Postfix;
      RpnOfTree(stack, l, rest1);
      if |stack| + Need(l) <= CAPACITY && Eval(l).Some? {
        RpnOfTree(stack + [Eval(l).value], r, rest2);
        if |stack| + 1 + Need(r) <= CAPACITY && Eval(r).Some? {
          ApplyOnTop(stack, op, Eval(l).value, Eval(r).value, rest);
        }
      }
  }

  lemma NodeParts(op: Operator, l: Tree, r: Tree, rest: seq<Token>)
    ensures var t := Node(op, l, r); var rest1, rest2 := Postfix(r) + [Apply(op)] + rest, [Apply(op)] + rest;
      && Postfix(t) + rest == Postfix(l) + rest1 && rest1 == Postfix(r) + rest2
      && Need(t) == Max(Need(l), Need(r) + 1)
      && Eval(t) == if Eval(l).Some? && Eval(r).Some? then Compute(op, Eval(l).value, Eval(r).value) else None
  {
  }

  lemma ApplyOnTop(stack: seq<real>, op: Operator, a: real, b: real, rest: seq<Token>)
    ensures Rpn(stack + [a] + [b], [Apply(op)] + rest) ==
      if Compute(op, a, b).Some? then Rpn(stack + [Compute(op, a, b).value], rest) else Aborted
  {
    var stack2 := stack + [a] + [b];
    assert ([Apply(op)] + rest)[1..] == rest;
    assert stack2[..|stack2| - 2] == stack;
  }

  lemma {:induction false} NeedPositive(t: Tree)
    ensures Need(t) >= 1
  {
  }

  // ---- Parsing: a token list is the postfix form of at most one tree ----

  function Parse(trees: seq<Tree>, tokens: seq<Token>): Option<Tree>
    decreases |tokens|
  {
    if tokens == [] then if |trees| == 1 then Some(trees[0]) else None
    else
      match tokens[0]
      case Garbage => None
      case Number(v) => Parse(trees + [Leaf(v)], tokens[1..])
      case Apply(op) =>
        if |trees| < 2 then None
        else Parse(trees[..|trees| - 2] + [Node(op, trees[|trees| - 2], trees[|trees| - 1])], tokens[1..])
  }

  lemma {:induction false} ParseOfTree(trees: seq<Tree>, t: Tree, rest: seq<Token>)
    ensures Parse(trees, Postfix(t) + rest) == Parse(trees + [t], rest)
    decreases t
  {
    match t
    case Leaf(v) =>
      assert (Postfix(t) + rest)[1..] == rest;
    case Node(op, l, r) =>
      var rest1, rest2 := Postfix(r) + [Apply(op)] + rest, [Apply(op)] + rest;
      assert Postfix(t) + rest == Postfix(l) + rest1;
      ParseOfTree(trees, l, rest1);
      assert rest1 == Postfix(r) + rest2;
      ParseOfTree(trees + [l], r, rest2);
      var trees2 := trees + [l] + [r];
      assert rest2[1..] == rest && trees2[..|trees2| - 2] == trees;
  }

  function Flatten(trees: seq<Tree>): seq<Token>
  {
    if trees == [] then [] else Flatten(trees[..|trees| - 1]) + Postfix(trees[|trees| - 1])
  }

  lemma FlattenSnoc(trees: seq<Tree>, t: Tree)
    ensures Flatten(trees + [t]) == Flatten(trees) + Postfix(t)
  {
    assert (trees + [t])[..|trees|] == trees;
  }

  lemma FlattenReduce(front: seq<Tree>, op: Operator, l: Tree, r: Tree)
    ensures Flatten(front + [Node(op, l, r)]) == Flatten(front + [l] + [r]) + [Apply(op)]
  {
    hide Flatten;
    FlattenSnoc(front, Node(op, l, r));
    FlattenSnoc(front + [l], r);
    FlattenSnoc(front, l);
  }

  lemma FlattenOne(t: Tree)
    ensures Flatten([t]) == Postfix(t)
  {
    assert [t][..0] == [];
  }

  lemma {:induction false} ParseIsPostfix(trees: seq<Tree>, tokens: seq<Token>)
    requires Parse(trees, tokens).Some?
    ensures Postfix(Parse(trees, tokens).value) == Flatten(trees) + tokens
    decreases |tokens|
  {
    hide Flatten, Postfix;
    if tokens == [] {
      FlattenOne(trees[0]);
      assert trees == [trees[0]];
    } else {
      assert tokens == [tokens[0]] + tokens[1..];
      match tokens[0]
      case Number(v) =>
        ParseIsPostfix(trees + [Leaf(v)], tokens[1..]);
        FlattenSnoc(trees, Leaf(v));
        LeafPostfix(v);
      case Apply(op) =>
        var n := |trees|;
        var front := trees[..n - 2];
        ParseIsPostfix(front + [Node(op, trees[n - 2], trees[n - 1])], tokens[1..]);
        hide Parse;
        FlattenReduce(front, op, trees[n - 2], trees[n - 1]);
        assert front + [trees[n - 2]] + [trees[n - 1]] == trees;
      case Garbage =>
    }
  }

  lemma LeafPostfix(v: real)
    ensures Postfix(Leaf(v)) == [Number(v)]
  {
  }

  /** Reading tokens with a stack of trees inverts Postfix. */
  lemma ParseExact(tokens: seq<Token>, t: Tree)
    ensures Parse([], tokens) == Some(t) <==> tokens == Postfix(t)
  {
    assert Postfix(t) + [] == Postfix(t);
    ParseOfTree([], t, []);
    if Parse([], tokens).Some? {
      ParseIsPostfix([], tokens);
      assert Flatten([]) + tokens == tokens;
    }
  }

  lemma OneTree(a: Tree, b: Tree)
    requires Postfix(a) == Postfix(b)
    ensures a == b
  {
    ParseExact(Postfix(a), a);
    ParseExact(Postfix(a), b);
  }

  // ---- Exactly when evaluation succeeds ----

  ghost predicate Shadows(stack: seq<real>, trees: seq<Tree>)
  {
    |stack| == |trees| && forall i :: 0 <= i < |trees| ==> Eval(trees[i]) == Some(stack[i])
  }

  lemma {:induction false} SuccessParses(stack: seq<real>, trees: seq<Tree>, tokens: seq<Token>)
    requires Shadows(stack, trees) && Rpn(stack, tokens).Value?
    ensures Parse(trees, tokens).Some?
    decreases |tokens|
  {
    if tokens != [] {
      match tokens[0]
      case Number(v) => SuccessParses(stack + [v], trees + [Leaf(v)], tokens[1..]);
      case Apply(op) =>
        var n := |trees|;
        var node := Node(op, trees[n - 2], trees[n - 1]);
        SuccessParses(stack[..n - 2] + [Eval(node).value], trees[..n - 2] + [node], tokens[1..]);
      case Garbage =>
    }
  }

  ghost predicate Denotes(t: Tree, tokens: seq<Token>, v: real)
  {
    Postfix(t) == tokens && Need(t) <= 64 && Eval(t) == Some(v)
  }

  /** The evaluator returns `v` exactly on the postfix forms of trees that need at most 64 entries,
      divide by no near-zero and have the value `v`. */
  lemma EvaluatesExactlyTrees(tokens: seq<Token>, v: real)
    ensures Rpn([], tokens) == Value(v) <==> exists t :: Denotes(t, tokens, v)
  {
    if Rpn([], tokens).Value? {
      SuccessParses([], [], tokens);
      var t := Parse([], tokens).value;
      ParseExact(tokens, t);
      TreeOutcome(t);
      if Rpn([], tokens) == Value(v) { assert Denotes(t, tokens, v); }
    }
    if t :| Denotes(t, tokens, v) { TreeOutcome(t); }
  }

  lemma TreeOutcome(t: Tree)
    ensures Rpn([], Postfix(t)) == if Need(t) <= 64 && Eval(t).Some? then Value(Eval(t).value) else Aborted
  {
    assert Postfix(t) + [] == Postfix(t);
    RpnOfTree([], t, []);
  }

  /** The expressions that the source asserts. */
  lemma KnownExpressions()
    ensures Rpn([], [Number(3.0), Number(4.0), Apply(Plus)]) == Value(7.0)
    ensures Rpn([], [Number(3.0), Number(4.0), Apply(Plus), Number(2.0), Apply(Times)]) == Value(14.0)
    ensures Rpn([], [Number(10.0), Number(2.0), Apply(Divide), Number(3.0), Apply(Minus)]) == Value(2.0)
    ensures Rpn([], [Number(5.0), Number(1.0), Number(2.0), Apply(Plus), Number(4.0), Apply(Times), Apply(Plus),
                     Number(3.0), Apply(Minus)]) == Value(14.0)
  {
    hide Rpn;
    var sum, quotient := Node(Plus, Leaf(3.0), Leaf(4.0)), Node(Divide, Leaf(10.0), Leaf(2.0));
    assert Postfix(sum) == [Number(3.0), Number(4.0), Apply(Plus)];
    assert Postfix(quotient) == [Number(10.0), Number(2.0), Apply(Divide)];
    var doubled, less := Node(Times, sum, Leaf(2.0)), Node(Minus, quotient, Leaf(3.0));
    assert Postfix(doubled) == [Number(3.0), Number(4.0), Apply(Plus), Number(2.0), Apply(Times)];
    assert Postfix(less) == [Number(10.0), Number(2.0), Apply(Divide), Number(3.0), Apply(Minus)];
    TreeOutcome(sum);
    TreeOutcome(doubled);
    TreeOutcome(less);
    LongExpression();
  }

  lemma LongExpression()
    ensures Rpn([], [Number(5.0), Number(1.0), Number(2.0), Apply(Plus), Number(4.0), Apply(Times), Apply(Plus),
                     Number(3.0), Apply(Minus)]) == Value(14.0)
  {
    hide Rpn;
    var product := Node(Times, Node(Plus, Leaf(1.0), Leaf(2.0)), Leaf(4.0));
    assert Postfix(product) == [Number(1.0), Number(2.0), Apply(Plus), Number(4.0), Apply(Times)];
    var t := Node(Minus, Node(Plus, Leaf(5.0), product), Leaf(3.0));
    assert Postfix(t) == [Number(5.0), Number(1.0), Number(2.0), Apply(Plus), Number(4.0), Apply(Times), Apply(Plus),
                          Number(3.0), Apply(Minus)] by {
      assert Postfix(t) == [Number(5.0)] + Postfix(product) + [Apply(Plus), Number(3.0), Apply(Minus)];
    }
    assert Eval(product) == Some(12.0) && Need(product) == 2;
    TreeOutcome(t);
  }

  // ---- Exactly when a token throws ----

  /** Every tree of the forest has a value and is evaluated within the stack, above those before it. */
  ghost predicate Fits(trees: seq<Tree>)
  {
    forall j :: 0 <= j < |trees| ==> Eval(trees[j]).Some? && j + Need(trees[j]) <= 64
  }

  /** The tokens before position `i` are whole operands that fit, and token `i` is unreadable. */
  ghost predicate GarbageAfter(tokens: seq<Token>, i: nat, trees: seq<Tree>)
  {
    i < |tokens| && tokens[i] == Garbage && tokens[..i] == Flatten(trees) && Fits(trees)
  }

  lemma {:induction false} RpnOfForest(trees: seq<Tree>, rest: seq<Token>) returns (stack: seq<real>)
    requires Fits(trees)
    ensures |stack| == |trees| && Rpn([], Flatten(trees) + rest) == Rpn(stack, rest)
    decreases |trees|
  {
    if trees == [] {
      stack := [];
      assert Flatten(trees) + rest == rest;
    } else {
      var front, t := trees[..|trees| - 1], trees[|trees| - 1];
      assert Flatten(trees) + rest == Flatten(front) + (Postfix(t) + rest);
      stack := RpnOfForest(front, Postfix(t) + rest);
      RpnOfTree(stack, t, rest);
      stack := stack + [Eval(t).value];
    }
  }

  lemma {:induction false} ThrowParses(stack: seq<real>, trees: seq<Tree>, tokens: seq<Token>)
    returns (i: nat, trees': seq<Tree>)
    requires Shadows(stack, trees) && Fits(trees) && Rpn(stack, tokens) == Threw
    ensures i < |tokens| && tokens[i] == Garbage && Flatten(trees) + tokens[..i] == Flatten(trees') && Fits(trees')
    decreases |tokens|
  {
    hide Flatten;
    match tokens[0]
    case Garbage =>
      i, trees' := 0, trees;
      assert Flatten(trees) + tokens[..0] == Flatten(trees);
    case Number(v) =>
      i, trees' := ThrowParses(stack + [v], trees + [Leaf(v)], tokens[1..]);
      FlattenSnoc(trees, Leaf(v));
      LeafPostfix(v);
      assert tokens[..i + 1] == [tokens[0]] + tokens[1..][..i];
      i := i + 1;
    case Apply(op) =>
      var n := |trees|;
      var front, node := trees[..n - 2], Node(op, trees[n - 2], trees[n - 1]);
      i, trees' := ThrowParses(stack[..n - 2] + [Eval(node).value], front + [node], tokens[1..]);
      FlattenReduce(front, op, trees[n - 2], trees[n - 1]);
      assert front + [trees[n - 2]] + [trees[n - 1]] == trees;
      assert tokens[..i + 1] == [tokens[0]] + tokens[1..][..i];
      i := i + 1;
  }

  /** An unreadable token throws exactly when everything before it could be evaluated; otherwise a
      contract has aborted first. With EvaluatesExactlyTrees this settles every outcome. */
  lemma ThrowsExactly(tokens: seq<Token>)
    ensures Rpn([], tokens) == Threw <==> exists i: nat, trees :: GarbageAfter(tokens, i, trees)
  {
    if Rpn([], tokens) == Threw {
      var i, trees := ThrowParses([], [], tokens);
      assert Flatten([]) + tokens[..i] == tokens[..i];
      assert GarbageAfter(tokens, i, trees);
    }
    if i: nat, trees :| GarbageAfter(tokens, i, trees) {
      var stack := RpnOfForest(trees, tokens[i..]);
      assert tokens[..i] + tokens[i..] == tokens;
    }
  }

  // ---- The stack and the evaluator ----

  class InvariantStack {
    const data: array<real>
    var top: nat

    ghost predicate Valid()
      reads this
    {
      data.Length == CAPACITY && top <= CAPACITY
    }

    ghost function Contents(): (s: seq<real>)
      requires Valid()
      reads this, data
    {
      data[..top]
    }

    constructor ()
      ensures Valid() && Contents() == [] && fresh(data)
    {
      data := new real[CAPACITY];
      top := 0;
    }

    /** `ok` is false where the source aborts. */
    method Push(value: real) returns (ok: bool)
      requires Valid()
      modifies this, data
      ensures Valid() && ok == (|old(Contents())| < CAPACITY)
      ensures Contents() == old(Contents()) + if ok then [value] else []
    {
      ok := top < CAPACITY;
      if ok {
        data[top] := value;
        top := top + 1;
      }
    }

    method Pop() returns (r: Option<real>)
      requires Valid()
      modifies this
      ensures Valid()
      ensures r.None? <==> old(Contents()) == []
      ensures old(Contents()) == Contents() + if r.Some? then [r.value] else []
    {
      if top == 0 { return None; }
      top := top - 1;
      return Some(data[top]);
    }
  }

  method EvalRpn(tokens: seq<Token>) returns (r: Outcome)
    ensures r == Rpn([], tokens)
  {
    var stack := new InvariantStack();
    for i := 0 to |tokens|
      invariant stack.Valid() && fresh(stack) && fresh(stack.data)
      invariant Rpn(stack.Contents(), tokens[i..]) == Rpn([], tokens)
    {
      assert tokens[i..][1..] == tokens[i + 1..];
      match tokens[i] {
        case Garbage => return Threw;
        case Number(v) =>
          var ok := stack.Push(v);
          if !ok { return Aborted; }
        case Apply(op) =>
          if stack.top < 2 { return Aborted; }
          ghost var before := stack.Contents();
          var b := stack.Pop();
          var a := stack.Pop();
          assert before[..|before| - 2] == stack.Contents();
          var result := Compute(op, a.value, b.value);
          if result.None? { return Aborted; }
          var ok := stack.Push(result.value);
          assert ok;
      }
    }
    if stack.top != 1 { return Aborted; }
    var last := stack.Pop();
    return Value(last.value);
  }
}

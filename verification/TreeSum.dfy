/** The recursion-free tree sum with its explicit stack of 64 entries. */
module TreeSum {

  const MAX_DEPTH: nat := 64

  datatype Tree = Null | Node(value: int, left: Tree, right: Tree)

  /** The recursive version. */
  function Sum(t: Tree): int
  {
    match t
    case Null => 0
    case Node(v, l, r) => v + Sum(l) + Sum(r)
  }

  function Preorder(t: Tree): seq<int>
  {
    match t
    case Null => []
    case Node(v, l, r) => [v] + Preorder(l) + Preorder(r)
  }

  function Height(t: Tree): nat
  {
    match t
    case Null => 0
    case Node(_, l, r) => 1 + if Height(l) > Height(r) then Height(l) else Height(r)
  }

  /** Stack entries needed to visit all of `t`: the right child waits below the left one. */
  function Need(t: Tree): nat
  {
    if t.Null? then 0
    else if t.left.Null? && t.right.Null? then 1
    else if t.right.Null? then Need(t.left)
    else if t.left.Null? then Need(t.right)
    else if Need(t.left) + 1 > Need(t.right) then Need(t.left) + 1
    else Need(t.right)
  }

  // ---- What the loop does ----

  function Push(stack: seq<Tree>, t: Tree): seq<Tree>
  {
    if t.Node? && |stack| < MAX_DEPTH then stack + [t] else stack
  }

  /** The values added by the loop, in order. */
  function Visits(stack: seq<Tree>): seq<int>
    decreases TotalSize(stack)
  {
    if stack == [] then []
    else
      var (rest, t) := (stack[..|stack| - 1], stack[|stack| - 1]);
      if t.Null? then Visits(rest)
      else
        PushSize(rest, t);
        [t.value] + Visits(Push(Push(rest, t.right), t.left))
  }

  function Size(t: Tree): nat
  {
    match t
    case Null => 0
    case Node(_, l, r) => 1 + Size(l) + Size(r)
  }

  /** Nodes reachable from the stack, plus its entries. */
  function TotalSize(stack: seq<Tree>): nat
  {
    if stack == [] then 0 else TotalSize(stack[..|stack| - 1]) + 2 * Size(stack[|stack| - 1]) + 1
  }

  lemma TotalSizeSnoc(stack: seq<Tree>, t: Tree)
    ensures TotalSize(stack + [t]) == TotalSize(stack) + 2 * Size(t) + 1
  {
    assert (stack + [t])[..|stack|] == stack;
  }

  lemma PushSize(rest: seq<Tree>, t: Tree)
    requires t.Node?
    ensures TotalSize(Push(Push(rest, t.right), t.left)) < TotalSize(rest) + 2 * Size(t) + 1
  {
    TotalSizeSnoc(rest, t.right);
    TotalSizeSnoc(Push(rest, t.right), t.left);
  }

  function SumOf(s: seq<int>): int
  {
    if s == [] then 0 else s[0] + SumOf(s[1..])
  }

  lemma {:induction false} SumOfAppend(a: seq<int>, b: seq<int>)
    ensures SumOf(a + b) == SumOf(a) + SumOf(b)
  {
    if a == [] {
      assert a + b == b;
    } else {
      assert (a + b)[1..] == a[1..] + b;
      SumOfAppend(a[1..], b);
    }
  }

  lemma {:induction false} SumIsPreorder(t: Tree)
    ensures SumOf(Preorder(t)) == Sum(t) && |Preorder(t)| == Size(t)
  {
    match t
    case Null =>
    case Node(v, l, r) =>
      SumIsPreorder(l);
      SumIsPreorder(r);
      SumOfAppend([v], Preorder(l));
      SumOfAppend([v] + Preorder(l), Preorder(r));
  }

  lemma VisitsTop(rest: seq<Tree>, t: Tree)
    requires t.Node?
    ensures Visits(rest + [t]) == [t.value] + Visits(Push(Push(rest, t.right), t.left))
  {
    assert (rest + [t])[..|rest|] == rest;
  }

  /** A tree that fits is visited whole, in preorder, before anything below it. */
  lemma {:induction false} FittingTree(rest: seq<Tree>, t: Tree)
    requires t.Node? && |rest| + Need(t) <= MAX_DEPTH
    ensures Visits(rest + [t]) == Preorder(t) + Visits(rest)
    decreases t
  {
    var Node(v, l, r) := t;
    NeedPositive(t);
    PushedChildren(rest, t);
    hide Visits, Push, Need, Preorder;
    VisitsTop(rest, t);
    if l.Null? && r.Null? {
      LeafPreorder(t);
    } else if r.Null? {
      FittingTree(rest, l);
      Assoc([v], Preorder(l), [], Visits(rest));
      PreorderParts(t);
    } else if l.Null? {
      FittingTree(rest, r);
      Assoc([v], [], Preorder(r), Visits(rest));
      PreorderParts(t);
    } else {
      FittingTree(rest + [r], l);
      FittingTree(rest, r);
      Assoc([v], Preorder(l), Preorder(r), Visits(rest));
      PreorderParts(t);
    }
  }

  lemma Assoc(a: seq<int>, b: seq<int>, c: seq<int>, d: seq<int>)
    ensures a + b + c + d == a + (b + (c + d)) && [] + d == d && b + [] == b && a + [] == a
  {
  }

  lemma PreorderParts(t: Tree)
    requires t.Node?
    ensures Preorder(t) == [t.value] + Preorder(t.left) + Preorder(t.right)
    ensures t.left.Null? ==> Preorder(t.left) == []
    ensures t.right.Null? ==> Preorder(t.right) == []
  {
  }

  lemma LeafPreorder(t: Tree)
    requires t.Node? && t.left.Null? && t.right.Null?
    ensures Preorder(t) == [t.value]
  {
  }

  /** What a fitting node leaves on the stack, and what its children need. */
  lemma PushedChildren(rest: seq<Tree>, t: Tree)
    requires t.Node? && |rest| + Need(t) <= MAX_DEPTH
    ensures var Node(_, l, r) := t; var pushed := Push(Push(rest, r), l);
      if l.Null? && r.Null? then pushed == rest
      else if r.Null? then pushed == rest + [l] && |rest| + Need(l) <= MAX_DEPTH
      else if l.Null? then pushed == rest + [r] && |rest| + Need(r) <= MAX_DEPTH
      else pushed == rest + [r] + [l] && |rest + [r]| + Need(l) <= MAX_DEPTH && |rest| + Need(r) <= MAX_DEPTH
  {
    NeedPositive(t);
    if t.left.Node? { NeedPositive(t.left); }
  }

  lemma {:induction false} NeedPositive(t: Tree)
    requires t.Node?
    ensures 1 <= Need(t) <= Height(t)
  {
    if t.left.Node? { NeedPositive(t.left); }
    if t.right.Node? { NeedPositive(t.right); }
  }

  /** Total number of nodes hanging off the stack. */
  function Nodes(stack: seq<Tree>): nat
  {
    if stack == [] then 0 else Nodes(stack[..|stack| - 1]) + Size(stack[|stack| - 1])
  }

  lemma NodesSnoc(stack: seq<Tree>, t: Tree)
    ensures Nodes(stack + [t]) == Nodes(stack) + Size(t)
  {
    assert (stack + [t])[..|stack|] == stack;
  }

  lemma {:induction false} VisitsAtMost(stack: seq<Tree>)
    ensures |Visits(stack)| <= Nodes(stack)
    decreases TotalSize(stack)
  {
    if stack != [] {
      var rest, t := stack[..|stack| - 1], stack[|stack| - 1];
      assert stack == rest + [t];
      NodesSnoc(rest, t);
      if t.Null? {
        VisitsAtMost(rest);
      } else {
        PushSize(rest, t);
        NodesSnoc(rest, t.right);
        NodesSnoc(Push(rest, t.right), t.left);
        VisitsAtMost(Push(Push(rest, t.right), t.left));
      }
    }
  }

  /** A tree that does not fit loses at least one node. */
  lemma {:induction false} OverflowingTree(rest: seq<Tree>, t: Tree)
    requires t.Node? && |rest| < MAX_DEPTH < |rest| + Need(t)
    ensures |Visits(rest + [t])| < Size(t) + Nodes(rest)
    decreases t
  {
    var Node(v, l, r) := t;
    hide Visits;
    VisitsTop(rest, t);
    if r.Null? {
      OverflowingTree(rest, l);
    } else if l.Null? {
      OverflowingTree(rest, r);
    } else {
      NodesSnoc(rest, r);
      if |rest| + 1 == MAX_DEPTH {
        VisitsAtMost(rest + [r]);
      } else if |rest| + 1 + Need(l) > MAX_DEPTH {
        OverflowingTree(rest + [r], l);
      } else {
        FittingTree(rest + [r], l);
        SumIsPreorder(l);
        OverflowingTree(rest, r);
      }
    }
  }

  /** The guard `top < MAX_DEPTH` never drops a child exactly when the tree needs at most 64 entries. */
  lemma VisitsAllIff(t: Tree)
    requires t.Node?
    ensures Visits([t]) == Preorder(t) <==> Need(t) <= 64
  {
    hide Visits;
    assert [] + [t] == [t];
    if Need(t) <= MAX_DEPTH {
      FittingTree([], t);
      EmptyStack();
    } else {
      OverflowingTree([], t);
      SumIsPreorder(t);
    }
  }

  lemma EmptyStack()
    ensures Visits([]) == []
  {
  }

  /** Every tree of height at most 64 is summed as the recursive version sums it. */
  lemma HeightSuffices(t: Tree)
    requires t.Node? && Height(t) <= 64
    ensures SumOf(Visits([t])) == Sum(t)
  {
    NeedPositive(t);
    VisitsAllIff(t);
    SumIsPreorder(t);
  }

  /** A left spine whose nodes each have a right leaf. */
  function Ladder(height: nat): Tree
  {
    if height == 0 then Null
    else Node(1, Ladder(height - 1), if height == 1 then Null else Node(1, Null, Null))
  }

  /** The bound is tight: the ladder is summed correctly up to height 64 and wrongly beyond. */
  lemma {:induction false} LadderShape(height: nat)
    requires height >= 1
    ensures Height(Ladder(height)) == height && Need(Ladder(height)) == height
    ensures Sum(Ladder(height)) == Size(Ladder(height))
  {
    if height > 1 { LadderShape(height - 1); }
  }

  lemma {:induction false} SumBelow(stack: seq<Tree>)
    requires forall i :: 0 <= i < |stack| ==> OnesOnly(stack[i])
    ensures SumOf(Visits(stack)) == |Visits(stack)|
    decreases TotalSize(stack)
  {
    if stack != [] {
      var rest, t := stack[..|stack| - 1], stack[|stack| - 1];
      if t.Null? {
        SumBelow(rest);
      } else {
        PushSize(rest, t);
        SumBelow(Push(Push(rest, t.right), t.left));
      }
    }
  }

  predicate OnesOnly(t: Tree)
  {
    t.Null? || (t.value == 1 && OnesOnly(t.left) && OnesOnly(t.right))
  }

  lemma {:induction false} LadderOnes(height: nat)
    ensures OnesOnly(Ladder(height))
  {
    if height > 0 { LadderOnes(height - 1); }
  }

  lemma LadderSum(height: nat)
    requires height >= 1
    ensures SumOf(Visits([Ladder(height)])) == Sum(Ladder(height)) <==> height <= 64
  {
    var t := Ladder(height);
    LadderShape(height);
    if height <= MAX_DEPTH {
      HeightSuffices(t);
    } else {
      assert [] + [t] == [t];
      OverflowingTree([], t);
      LadderOnes(height);
      SumBelow([t]);
    }
  }

  // ---- The loop ----

  lemma NullSum()
    ensures Sum(Null) == 0
  {
  }

  lemma SumOfCons(v: int, s: seq<int>)
    ensures SumOf([v] + s) == v + SumOf(s)
  {
  }

  method TreeSum(root: Tree) returns (sum: int)
    ensures sum == if root.Null? then 0 else SumOf(Visits([root]))
    ensures Height(root) <= 64 ==> sum == Sum(root)
  {
    hide Visits, Sum, TotalSize, Height;
    if root.Null? {
      assert Sum(root) == 0 by { NullSum(); }
      return 0;
    }
    sum := 0;
    var stack := new Tree[MAX_DEPTH](_ => Null);
    var top := 0;
    stack[top] := root;
    top := top + 1;
    assert stack[..top] == [root];
    while top > 0
      invariant 0 <= top <= MAX_DEPTH
      invariant forall i :: 0 <= i < top ==> stack[i].Node?
      invariant sum + SumOf(Visits(stack[..top])) == SumOf(Visits([root]))
      decreases TotalSize(stack[..top])
    {
      ghost var before := stack[..top];
      top := top - 1;
      var node := stack[top];
      ghost var rest := stack[..top];
      assert before == rest + [node];
      VisitsTop(rest, node);
      PushSize(rest, node);
      TotalSizeSnoc(rest, node);
      SumOfCons(node.value, Visits(Push(Push(rest, node.right), node.left)));
      sum := sum + node.value;
      if node.right.Node? && top < MAX_DEPTH {
        stack[top] := node.right;
        top := top + 1;
      }
      assert stack[..top] == Push(rest, node.right);
      if node.left.Node? && top < MAX_DEPTH {
        stack[top] := node.left;
        top := top + 1;
      }
      assert stack[..top] == Push(Push(rest, node.right), node.left);
    }
    assert stack[..0] == [];
    EmptyStack();
    if Height(root) <= MAX_DEPTH { HeightSuffices(root); }
  }
}

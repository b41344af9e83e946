/** Breadth-first exploration of a finite state machine. */
module ModelChecker {
  import opened Common

  datatype StateMachine = StateMachine(
    states: set<string>, events: set<string>, initial: string,
    transitions: map<string, map<string, string>>)

  datatype ModelCheckResult = ModelCheckResult(
    allReachable: bool, reachable: set<string>, unreachable: set<string>, explored: nat)

  // ---- Reachability ----

  ghost predicate Edge(sm: StateMachine, s: string, t: string)
  {
    exists e :: e in sm.events && Takes(sm, s, e, t)
  }

  predicate Takes(sm: StateMachine, s: string, e: string, t: string)
  {
    s in sm.transitions && e in sm.transitions[s] && sm.transitions[s][e] == t
  }

  ghost predicate Path(sm: StateMachine, p: seq<string>)
  {
    && p != [] && p[0] == sm.initial
    && forall i :: 0 <= i < |p| - 1 ==> Edge(sm, p[i], p[i + 1])
  }

  /** Some sequence of declared events leads from the initial state to `s`. */
  ghost predicate Reachable(sm: StateMachine, s: string)
  {
    exists p :: Path(sm, p) && p[|p| - 1] == s
  }

  ghost predicate Closed(sm: StateMachine, visited: set<string>)
  {
    forall s, t :: s in visited && Edge(sm, s, t) ==> t in visited
  }

  /** The states with a row, among those of `s`. */
  function WithRow(sm: StateMachine, s: set<string>): set<string>
  {
    set x | x in s && x in sm.transitions
  }

  /** One transition counted for every event and every such state. */
  function Explored(sm: StateMachine, s: set<string>): nat
  {
    |sm.events| * |WithRow(sm, s)|
  }

  /** Every state the search can ever see. */
  ghost function Universe(sm: StateMachine): set<string>
  {
    {sm.initial} + set s, e | s in sm.transitions && e in sm.transitions[s] :: sm.transitions[s][e]
  }

  lemma InitialReachable(sm: StateMachine)
    ensures Reachable(sm, sm.initial)
  {
    assert Path(sm, [sm.initial]);
  }

  lemma EdgeReaches(sm: StateMachine, s: string, t: string)
    requires Reachable(sm, s) && Edge(sm, s, t)
    ensures Reachable(sm, t)
  {
    var p :| Path(sm, p) && p[|p| - 1] == s;
    var q := p + [t];
    forall i | 0 <= i < |q| - 1
      ensures Edge(sm, q[i], q[i + 1])
    {
      if i < |p| - 1 { assert Edge(sm, p[i], p[i + 1]); }
    }
    assert Path(sm, q) && q[|q| - 1] == t;
  }

  lemma {:induction false} PathStaysInside(sm: StateMachine, visited: set<string>, p: seq<string>, i: nat)
    requires Closed(sm, visited) && sm.initial in visited && Path(sm, p) && i < |p|
    ensures p[i] in visited
  {
    if i > 0 { PathStaysInside(sm, visited, p, i - 1); }
  }

  /** A closed set of reachable states that holds the initial state is the set of reachable states. */
  lemma ClosedIsReachable(sm: StateMachine, visited: set<string>)
    requires Closed(sm, visited) && sm.initial in visited && forall s :: s in visited ==> Reachable(sm, s)
    ensures forall s :: s in visited <==> Reachable(sm, s)
  {
    forall s | Reachable(sm, s)
      ensures s in visited
    {
      var p :| Path(sm, p) && p[|p| - 1] == s;
      PathStaysInside(sm, visited, p, |p| - 1);
    }
  }

  /** The reachable states are the least set that holds the initial state and, with a state that has a
      row, whatever the row gives for a declared event. */
  lemma ReachableIsLeast(sm: StateMachine, s: string, e: string, least: set<string>)
    ensures Reachable(sm, sm.initial)
    ensures Reachable(sm, s) && s in sm.transitions && e in sm.events && e in sm.transitions[s] ==>
      Reachable(sm, sm.transitions[s][e])
    ensures Reachable(sm, s) && sm.initial in least
      && (forall x, f :: x in least && x in sm.transitions && f in sm.events && f in sm.transitions[x] ==>
            sm.transitions[x][f] in least)
      ==> s in least
  {
    InitialReachable(sm);
    if Reachable(sm, s) {
      if s in sm.transitions && e in sm.events && e in sm.transitions[s] {
        assert Takes(sm, s, e, sm.transitions[s][e]);
        EdgeReaches(sm, s, sm.transitions[s][e]);
      }
      var p :| Path(sm, p) && p[|p| - 1] == s;
      if Closed(sm, least) && sm.initial in least { PathStaysInside(sm, least, p, |p| - 1); }
    }
  }

  // ---- The search ----

  /** Visited states are reachable, each either finished or waiting in the queue once. */
  ghost predicate Frontier(sm: StateMachine, visited: set<string>, finished: set<string>, queue: seq<string>)
  {
    && sm.initial in visited && visited <= Universe(sm) && Distinct(queue)
    && (forall s :: s in visited ==> Reachable(sm, s))
    && (forall s :: s in visited <==> s in finished || s in queue)
    && (forall s :: s in queue ==> s !in finished)
  }

  /** The successors of `s` by the events in `seen` have been visited. */
  ghost predicate Expanded(sm: StateMachine, s: string, seen: set<string>, visited: set<string>)
  {
    forall e, t :: e in seen && Takes(sm, s, e, t) ==> t in visited
  }

  /** The search's inner loop: try every declared event in state `current`. */
  method Expand(sm: StateMachine, current: string, visited0: set<string>, queue0: seq<string>,
                ghost finished: set<string>)
    returns (visited: set<string>, queue: seq<string>, explored: nat)
    requires Frontier(sm, visited0, finished, queue0) && current in visited0 && current in sm.transitions
    ensures Frontier(sm, visited, finished, queue) && visited0 <= visited
    ensures Expanded(sm, current, sm.events, visited)
    ensures explored == |sm.events|
  {
    hide Frontier;
    visited, queue, explored := visited0, queue0, 0;
    var row := sm.transitions[current];
    var rest := sm.events;
    while rest != {}
      invariant rest <= sm.events && visited0 <= visited
      invariant Frontier(sm, visited, finished, queue)
      invariant Expanded(sm, current, sm.events - rest, visited)
      invariant explored + |rest| == |sm.events|
    {
      var event :| event in rest;
      explored := explored + 1;
      if event in row {
        var next := row[event];
        if next !in visited {
          Discover(sm, visited, finished, queue, current, event);
          visited := visited + {next};
          queue := queue + [next];
        }
      }
      rest := rest - {event};
    }
    assert sm.events - rest == sm.events;
  }

  /** The states nobody visited. */
  method Unvisited(states: set<string>, visited: set<string>) returns (unreachable: set<string>, allReachable: bool)
    ensures unreachable == states - visited
    ensures allReachable <==> states <= visited
  {
    unreachable, allReachable := {}, true;
    var rest := states;
    while rest != {}
      invariant rest <= states
      invariant unreachable == (states - rest) - visited
      invariant allReachable <==> unreachable == {}
    {
      var state :| state in rest;
      if state !in visited {
        unreachable := unreachable + {state};
        allReachable := false;
      }
      rest := rest - {state};
    }
    assert forall x :: x in states ==> x in visited || x in unreachable;
  }

  method BoundedModelCheck(sm: StateMachine) returns (r: ModelCheckResult)
    ensures forall s :: s in r.reachable <==> Reachable(sm, s)
    ensures r.unreachable == sm.states - r.reachable
    ensures r.allReachable <==> sm.states <= r.reachable
    ensures r.explored == |sm.events| * |set x | x in r.reachable && x in sm.transitions|
  {
    hide Frontier, Reachable, Universe, Explored, Expanded;
    var explored := 0;
    var visited := {sm.initial};
    var queue := [sm.initial];
    ghost var finished: set<string> := {};
    StartFrontier(sm);
    while queue != []
      invariant Frontier(sm, visited, finished, queue)
      invariant AllExpanded(sm, finished, visited)
      invariant explored == Explored(sm, finished)
      decreases |Universe(sm) - finished|
    {
      var current := queue[0];
      Dequeue(sm, visited, finished, queue);
      queue := queue[1..];
      RowCount(sm, finished, current);
      ghost var visited0, finished0 := visited, finished;
      finished := finished + {current};
      assert Universe(sm) - finished == (Universe(sm) - finished0) - {current};
      if current in sm.transitions {
        var count;
        visited, queue, count := Expand(sm, current, visited, queue, finished);
        explored := explored + count;
      }
      FinishedMore(sm, finished0, current, visited0, visited);
    }
    SearchComplete(sm, visited, finished);
    var unreachable, allReachable := Unvisited(sm.states, visited);
    ExploredCount(sm, visited);
    r := ModelCheckResult(allReachable, visited, unreachable, explored);
  }

  lemma ExploredCount(sm: StateMachine, s: set<string>)
    ensures Explored(sm, s) == |sm.events| * |set x | x in s && x in sm.transitions|
  {
  }

  ghost predicate AllExpanded(sm: StateMachine, finished: set<string>, visited: set<string>)
  {
    forall s :: s in finished ==> Expanded(sm, s, sm.events, visited)
  }

  lemma FinishedMore(sm: StateMachine, finished: set<string>, s: string, visited: set<string>, visited': set<string>)
    requires AllExpanded(sm, finished, visited) && visited <= visited'
    requires s in sm.transitions ==> Expanded(sm, s, sm.events, visited')
    ensures AllExpanded(sm, finished + {s}, visited')
  {
    forall x | x in finished + {s}
      ensures Expanded(sm, x, sm.events, visited')
    {
      if x in finished { assert Expanded(sm, x, sm.events, visited); }
    }
  }

  lemma StartFrontier(sm: StateMachine)
    ensures Frontier(sm, {sm.initial}, {}, [sm.initial]) && Explored(sm, {}) == 0
  {
    assert WithRow(sm, {}) == {};
    InitialReachable(sm);
  }

  lemma SearchComplete(sm: StateMachine, visited: set<string>, finished: set<string>)
    requires Frontier(sm, visited, finished, []) && AllExpanded(sm, finished, visited)
    ensures finished == visited && forall s :: s in visited <==> Reachable(sm, s)
  {
    hide Reachable;
    assert finished == visited;
    assert Closed(sm, visited);
    ClosedIsReachable(sm, visited);
  }

  lemma Dequeue(sm: StateMachine, visited: set<string>, finished: set<string>, queue: seq<string>)
    requires Frontier(sm, visited, finished, queue) && queue != []
    ensures Frontier(sm, visited, finished + {queue[0]}, queue[1..])
    ensures queue[0] in visited && queue[0] in Universe(sm) && queue[0] !in finished
  {
    assert queue == [queue[0]] + queue[1..];
  }

  lemma RowCount(sm: StateMachine, finished: set<string>, s: string)
    requires s !in finished
    ensures Explored(sm, finished + {s}) == Explored(sm, finished) + if s in sm.transitions then |sm.events| else 0
  {
    assert WithRow(sm, finished + {s}) == WithRow(sm, finished) + if s in sm.transitions then {s} else {};
  }

  lemma Discover(sm: StateMachine, visited: set<string>, finished: set<string>, queue: seq<string>,
                 s: string, e: string)
    requires Frontier(sm, visited, finished, queue) && s in visited && e in sm.events
    requires s in sm.transitions && e in sm.transitions[s] && sm.transitions[s][e] !in visited
    ensures var next := sm.transitions[s][e]; Frontier(sm, visited + {next}, finished, queue + [next])
  {
    var next := sm.transitions[s][e];
    assert Takes(sm, s, e, next);
    EdgeReaches(sm, s, next);
  }
}

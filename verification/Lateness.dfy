/** Which heartbeats are overdue at a check. */
module Lateness {

  function Late(elapsed: seq<int>, deadlines: seq<int>): (late: seq<bool>)
    requires |elapsed| == |deadlines|
    ensures |late| == |elapsed| && forall i :: 0 <= i < |late| ==> (late[i] <==> elapsed[i] > deadlines[i])
  {
    seq(|elapsed|, i requires 0 <= i < |elapsed| => elapsed[i] > deadlines[i])
  }

  /** Subsystem `i` was late at check `k`. */
  predicate LateAt(checks: seq<seq<bool>>, k: nat, i: nat)
  {
    k < |checks| && i < |checks[k]| && checks[k][i]
  }
}

/** The order status state machine: the fixed table of allowed moves. */
module Transitions {
  import opened Types

  /** `VALID_TRANSITIONS[s]`, in the table's order. */
  function ValidTransitions(s: OrderStatus): seq<OrderStatus> {
    match s
    case New => [Confirmed, Cancelled]
    case Confirmed => [Assigned, Cancelled]
    case Assigned => [InProgress, NoShow, Cancelled]
    case InProgress => [PickedUp, Cancelled]
    case PickedUp => [Completed]
    case Completed => []
    case NoShow => []
    case Cancelled => []
  }

  /** A status with no way out. */
  predicate IsTerminal(s: OrderStatus) {
    s == Completed || s == NoShow || s == Cancelled
  }

  /** How far along the lifecycle a status is; every allowed move raises it. */
  function Stage(s: OrderStatus): nat {
    match s
    case New => 0
    case Confirmed => 1
    case Assigned => 2
    case InProgress => 3
    case NoShow => 3
    case PickedUp => 4
    case Completed => 5
    case Cancelled => 5
  }

  /** A sequence of statuses, each reachable from the previous in one move. */
  predicate IsPath(p: seq<OrderStatus>) {
    forall k :: 0 < k < |p| ==> p[k] in ValidTransitions(p[k - 1])
  }

  /** The terminal statuses are exactly those with an empty list; no status
      allows itself; nothing moves back to `New`; every move raises `Stage`. */
  lemma TableShape(s: OrderStatus, t: OrderStatus)
    ensures IsTerminal(s) <==> ValidTransitions(s) == []
    ensures s !in ValidTransitions(s)
    ensures New !in ValidTransitions(s)
    ensures t in ValidTransitions(s) ==> Stage(s) < Stage(t)
  {
  }

  /** Along a path the stage grows by at least one per move. */
  lemma {:induction false} PathStages(p: seq<OrderStatus>, i: nat, j: nat)
    requires IsPath(p)
    requires i <= j < |p|
    ensures Stage(p[j]) >= Stage(p[i]) + (j - i)
    decreases j - i
  {
    if i < j {
      PathStages(p, i, j - 1);
      TableShape(p[j - 1], p[j]);
    }
  }

  /** The graph is acyclic: no status repeats along a path, and a path has at
      most six statuses (five moves), fewer when it starts past `New`. */
  lemma PathBounded(p: seq<OrderStatus>)
    requires IsPath(p)
    ensures p != [] ==> |p| + Stage(p[0]) <= 6
    ensures forall i, j :: 0 <= i < j < |p| ==> p[i] != p[j]
  {
    if p != [] {
      PathStages(p, 0, |p| - 1);
      forall i, j | 0 <= i < j < |p| ensures p[i] != p[j] {
        PathStages(p, i, j);
      }
    }
  }

  /** The five-move bound is reached: New, Confirmed, Assigned, InProgress,
      PickedUp, Completed. */
  lemma LongestLifecycle()
    ensures IsPath([New, Confirmed, Assigned, InProgress, PickedUp, Completed])
  {
  }
}

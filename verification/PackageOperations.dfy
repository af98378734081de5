/**
 * The list of package operations: it is kept short by dropping finished ones, oldest
 * first, and never loses one that is still to run.
 */
module PackageOperations {
  import opened Prelude
  import opened StableSorting

  const MAX_OPERATIONS: nat := 128

  datatype Status = Queued | Running | Completed | Failed

  type Statuses = map<string, Status>

  /** A finished operation, or one whose record is gone. */
  predicate IsFinished(statuses: Statuses, id: string) {
    id !in statuses || statuses[id].Completed? || statuses[id].Failed?
  }

  function FirstFinished(statuses: Statuses, order: seq<string>): (n: nat)
    ensures n <= |order| && (n < |order| ==> IsFinished(statuses, order[n]))
    ensures forall k | 0 <= k < n :: !IsFinished(statuses, order[k])
  {
    if order == [] || IsFinished(statuses, order[0]) then 0 else 1 + FirstFinished(statuses, order[1..])
  }

  function Unfinished(statuses: Statuses): string -> bool {
    id => !IsFinished(statuses, id)
  }

  /** The operations that are still to run are all there, in their order. */
  ghost predicate KeepsUnfinished(statuses: Statuses, before: seq<string>, after: seq<string>, left: Statuses) {
    && Filter(Unfinished(statuses), after) == Filter(Unfinished(statuses), before)
    && (forall id | id in statuses && !IsFinished(statuses, id) :: id in left && left[id] == statuses[id])
    && (forall id | id in left :: id in statuses && left[id] == statuses[id])
  }

  lemma {:induction false} DropOne(statuses: Statuses, order: seq<string>, n: nat)
    requires n < |order| && IsFinished(statuses, order[n])
    ensures Filter(Unfinished(statuses), order[..n] + order[n + 1..]) == Filter(Unfinished(statuses), order)
  {
    var unfinished := Unfinished(statuses);
    FilterAppend(unfinished, order[..n], order[n + 1..]);
    FilterAppend(unfinished, order[..n + 1], order[n + 1..]);
    FilterSnoc(unfinished, order[..n], order[n]);
    assert order[..n + 1] == order[..n] + [order[n]];
    assert order == order[..n + 1] + order[n + 1..];
  }

  class Operations {
    var order: seq<string>
    var statuses: Statuses

    constructor ()
      ensures order == [] && statuses == map[]
    {
      order, statuses := [], map[];
    }

    /**
     * Drops finished operations, oldest first, while there are too many. Nothing that
     * is queued or running is lost, even when the list stays too long.
     */
    method PruneOperations()
      modifies this
      ensures KeepsUnfinished(old(statuses), old(order), order, statuses)
      ensures |order| <= 128 || forall k | 0 <= k < |order| :: !IsFinished(statuses, order[k])
      ensures |old(order)| <= 128 ==> order == old(order) && statuses == old(statuses)
      ensures |order| >= if |old(order)| < 128 then |old(order)| else 128
    {
      ghost var before := statuses;
      while |order| > MAX_OPERATIONS
        invariant KeepsUnfinished(before, old(order), order, statuses)
        invariant |old(order)| <= MAX_OPERATIONS ==> order == old(order) && statuses == old(statuses)
        invariant |order| >= if |old(order)| < MAX_OPERATIONS then |old(order)| else MAX_OPERATIONS
        decreases |order|
      {
        var index := FirstFinished(statuses, order);
        if index == |order| {
          break;
        }
        DropOne(before, order, index);
        statuses := statuses - {order[index]};
        order := order[..index] + order[index + 1..];
      }
    }
  }
}

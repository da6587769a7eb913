/** Greedy grouping of adjacent acceptance criteria, and why it is optimal and lossless. */
module Criteria {
  import opened Strings
  import opened Sorting
  import opened Texts
  import opened Plans
  import opened PlanValidation

  /** Criteria i and i + 1 fit on two lines of one criterion. */
  predicate Fits(criteria: seq<string>, i: nat, maximum: int) {
    i + 1 < |criteria| && Units(criteria[i]) + 1 + Units(criteria[i + 1]) <= maximum
  }

  /** Positions of disjoint adjacent pairs that fit, from position `from` on. */
  ghost predicate Pairing(criteria: seq<string>, maximum: int, from: nat, pairs: seq<nat>) {
    && (forall k :: 0 <= k < |pairs| ==> from <= pairs[k] && Fits(criteria, pairs[k], maximum))
    && (forall k, l :: 0 <= k < l < |pairs| ==> pairs[k] + 2 <= pairs[l])
  }

  /** How many pairs the greedy pass finds from position i on when nothing caps it. */
  function GreedyCount(criteria: seq<string>, i: nat, maximum: int): (n: nat)
    decreases |criteria| - i
  {
    if i >= |criteria| then 0
    else if Fits(criteria, i, maximum) then 1 + GreedyCount(criteria, i + 2, maximum)
    else GreedyCount(criteria, i + 1, maximum)
  }

  /** Starting one position later gains nothing. */
  lemma {:induction false} LaterIsNoBetter(criteria: seq<string>, i: nat, maximum: int)
    ensures GreedyCount(criteria, i + 1, maximum) <= GreedyCount(criteria, i, maximum)
    ensures GreedyCount(criteria, i, maximum) <= 1 + GreedyCount(criteria, i + 1, maximum)
    decreases |criteria| - i
  {
    if i < |criteria| {
      LaterIsNoBetter(criteria, i + 1, maximum);
    }
  }

  /** The exchange argument: no choice of pairs beats the greedy one. */
  lemma {:induction false} GreedyIsBest(criteria: seq<string>, maximum: int, from: nat, pairs: seq<nat>)
    requires Pairing(criteria, maximum, from, pairs)
    ensures |pairs| <= GreedyCount(criteria, from, maximum)
    decreases |criteria| - from, |pairs|
  {
    if pairs == [] { return; }
    assert Fits(criteria, pairs[0], maximum);
    if pairs[0] == from {
      assert forall k :: 0 <= k < |pairs[1..]| ==> pairs[1..][k] == pairs[k + 1];
      GreedyIsBest(criteria, maximum, from + 2, pairs[1..]);
    } else {
      assert forall k :: 0 < k < |pairs| ==> pairs[0] + 2 <= pairs[k];
      GreedyIsBest(criteria, maximum, from + 1, pairs);
      LaterIsNoBetter(criteria, from, maximum);
    }
  }

  /** The greedy pass finds as many pairs as its count says. */
  lemma {:induction false} GreedyPairs(criteria: seq<string>, maximum: int, from: nat, n: nat) returns (pairs: seq<nat>)
    requires n <= GreedyCount(criteria, from, maximum)
    ensures |pairs| == n && Pairing(criteria, maximum, from, pairs)
    decreases |criteria| - from
  {
    if n == 0 {
      pairs := [];
    } else if Fits(criteria, from, maximum) {
      var rest := GreedyPairs(criteria, maximum, from + 2, n - 1);
      pairs := [from] + rest;
    } else {
      pairs := GreedyPairs(criteria, maximum, from + 1, n);
    }
  }

  lemma {:induction false} GreedyAtMostHalf(criteria: seq<string>, i: nat, maximum: int)
    requires i <= |criteria|
    ensures 2 * GreedyCount(criteria, i, maximum) <= |criteria| - i
    decreases |criteria| - i
  {
    if i < |criteria| {
      GreedyAtMostHalf(criteria, if Fits(criteria, i, maximum) then i + 2 else i + 1, maximum);
    }
  }

  /** The criteria from i on with the first `need` greedy pairs joined. */
  function Grouping(criteria: seq<string>, i: nat, need: nat, maximum: int): seq<string>
    decreases |criteria| - i
  {
    if i >= |criteria| then []
    else if need > 0 && Fits(criteria, i, maximum) then
      [criteria[i] + "\n" + criteria[i + 1]] + Grouping(criteria, i + 2, need - 1, maximum)
    else [criteria[i]] + Grouping(criteria, i + 1, need, maximum)
  }

  lemma {:induction false} GroupingCount(criteria: seq<string>, i: nat, need: nat, maximum: int)
    requires i <= |criteria|
    ensures |Grouping(criteria, i, need, maximum)| == |criteria| - i - Min(need, GreedyCount(criteria, i, maximum))
    decreases |criteria| - i
  {
    if i < |criteria| {
      if need > 0 && Fits(criteria, i, maximum) {
        GroupingCount(criteria, i + 2, need - 1, maximum);
      } else {
        GroupingCount(criteria, i + 1, need, maximum);
      }
    }
  }

  lemma {:induction false} GroupingFits(criteria: seq<string>, i: nat, need: nat, maximum: int)
    requires forall c <- criteria :: Units(c) <= maximum
    ensures forall c <- Grouping(criteria, i, need, maximum) :: Units(c) <= maximum
    decreases |criteria| - i
  {
    if i < |criteria| {
      if need > 0 && Fits(criteria, i, maximum) {
        UnitsAppend(criteria[i] + "\n", criteria[i + 1]);
        UnitsAppend(criteria[i], "\n");
        GroupingFits(criteria, i + 2, need - 1, maximum);
      } else {
        assert criteria[i] in criteria;
        GroupingFits(criteria, i + 1, need, maximum);
      }
    }
  }

  /** No text is lost, added or reordered. */
  lemma {:induction false} GroupingLossless(criteria: seq<string>, i: nat, need: nat, maximum: int)
    requires i <= |criteria|
    ensures Join(Grouping(criteria, i, need, maximum), "\n") == Join(criteria[i..], "\n")
    ensures Grouping(criteria, i, need, maximum) == [] <==> i == |criteria|
    decreases |criteria| - i
  {
    if i < |criteria| {
      if need > 0 && Fits(criteria, i, maximum) {
        GroupingLossless(criteria, i + 2, need - 1, maximum);
        var rest := Grouping(criteria, i + 2, need - 1, maximum);
        assert ([criteria[i] + "\n" + criteria[i + 1]] + rest)[1..] == rest;
        assert criteria[i..][1..] == criteria[i + 1..] && criteria[i + 1..][1..] == criteria[i + 2..];
        if rest != [] {
          LineJoin(criteria[i], criteria[i + 1], Join(rest, "\n"));
        }
      } else {
        GroupingLossless(criteria, i + 1, need, maximum);
        var rest := Grouping(criteria, i + 1, need, maximum);
        assert ([criteria[i]] + rest)[1..] == rest;
        assert criteria[i..][1..] == criteria[i + 1..];
      }
    }
  }

  lemma LineJoin(a: string, b: string, c: string)
    ensures (a + "\n" + b) + "\n" + c == a + "\n" + (b + "\n" + c)
  {
  }

  predicate Integral(x: real) {
    x == x.Floor as real
  }

  /** The guards under which the grouping is attempted at all. */
  predicate Attempts(criteria: seq<string>, maxPerTask: real, maximum: int) {
    var required := |criteria| as real - maxPerTask;
    && required > 0.0
    && Integral(maxPerTask) && maxPerTask >= 1.0
    && required <= (|criteria| / 2) as real
    && forall c <- criteria :: Units(c) <= maximum
  }

  /** Enough disjoint adjacent pairs fit to bring the count down to the bound. */
  ghost predicate Groupable(criteria: seq<string>, maxPerTask: real, maximum: int) {
    && Integral(maxPerTask) && maxPerTask >= 1.0
    && maxPerTask.Floor < |criteria|
    && (forall c <- criteria :: Units(c) <= maximum)
    && exists pairs :: Pairing(criteria, maximum, 0, pairs) && |pairs| == |criteria| - maxPerTask.Floor
  }

  lemma GroupableExactly(criteria: seq<string>, maxPerTask: real, maximum: int)
    ensures Groupable(criteria, maxPerTask, maximum) <==>
      Attempts(criteria, maxPerTask, maximum) &&
      |criteria| - maxPerTask.Floor <= GreedyCount(criteria, 0, maximum)
  {
    GreedyAtMostHalf(criteria, 0, maximum);
    if Groupable(criteria, maxPerTask, maximum) {
      var pairs :| Pairing(criteria, maximum, 0, pairs) && |pairs| == |criteria| - maxPerTask.Floor;
      GreedyIsBest(criteria, maximum, 0, pairs);
      assert |criteria| - maxPerTask.Floor <= |criteria| / 2;
    }
    if Attempts(criteria, maxPerTask, maximum) && |criteria| - maxPerTask.Floor <= GreedyCount(criteria, 0, maximum) {
      var pairs := GreedyPairs(criteria, maximum, 0, |criteria| - maxPerTask.Floor);
    }
  }

  lemma GroupingEnds(criteria: seq<string>, need: nat, maximum: int)
    ensures Grouping(criteria, |criteria|, need, maximum) == [] && GreedyCount(criteria, |criteria|, maximum) == 0
    ensures [] + Grouping(criteria, 0, need, maximum) == Grouping(criteria, 0, need, maximum)
  {
  }

  /** What one turn of the loop moves from what is to come to what is done. */
  lemma GroupingStep(criteria: seq<string>, i: nat, need: nat, maximum: int, done: seq<string>)
    requires i < |criteria|
    ensures if need > 0 && Fits(criteria, i, maximum) then
        && done + Grouping(criteria, i, need, maximum)
           == (done + [criteria[i] + "\n" + criteria[i + 1]]) + Grouping(criteria, i + 2, need - 1, maximum)
        && Min(need, GreedyCount(criteria, i, maximum)) == 1 + Min(need - 1, GreedyCount(criteria, i + 2, maximum))
      else
        && done + Grouping(criteria, i, need, maximum)
           == (done + [criteria[i]]) + Grouping(criteria, i + 1, need, maximum)
        && Min(need, GreedyCount(criteria, i, maximum)) == Min(need, GreedyCount(criteria, i + 1, maximum))
  {
    if need > 0 && Fits(criteria, i, maximum) {
      Associative(done, [criteria[i] + "\n" + criteria[i + 1]], Grouping(criteria, i + 2, need - 1, maximum));
    } else {
      Associative(done, [criteria[i]], Grouping(criteria, i + 1, need, maximum));
    }
  }

  /** The one-pass loop: joins a criterion with the next while pairs are still required and fit. */
  method PairAdjacent(criteria: seq<string>, required: nat, maximum: int) returns (grouped: seq<string>, pairs: nat)
    ensures grouped == Grouping(criteria, 0, required, maximum)
    ensures pairs == Min(required, GreedyCount(criteria, 0, maximum))
  {
    hide Units, Grouping, GreedyCount;
    grouped, pairs := [], 0;
    var index := 0;
    GroupingEnds(criteria, required, maximum);
    while index < |criteria|
      invariant index <= |criteria| && pairs <= required
      invariant Grouping(criteria, 0, required, maximum)
             == grouped + Grouping(criteria, index, required - pairs, maximum)
      invariant Min(required, GreedyCount(criteria, 0, maximum)) ==
        pairs + Min(required - pairs, GreedyCount(criteria, index, maximum))
    {
      var current := criteria[index];
      GroupingStep(criteria, index, required - pairs, maximum, grouped);
      if pairs < required && index + 1 < |criteria| && Units(current) + 1 + Units(criteria[index + 1]) <= maximum {
        grouped := grouped + [current + "\n" + criteria[index + 1]];
        pairs := pairs + 1;
        index := index + 2;
      } else {
        grouped := grouped + [current];
        index := index + 1;
      }
    }
    GroupingEnds(criteria, required - pairs, maximum);
    assert grouped + [] == grouped;
  }

  /** Regroups exactly when grouping can reach the bound, and leaves the criteria alone otherwise. */
  method GroupCriteria(criteria: seq<string>, maxPerTask: real, maximum: int) returns (r: seq<string>, changed: bool)
    ensures changed <==> Groupable(criteria, maxPerTask, maximum)
    ensures !changed ==> r == criteria
    ensures changed ==> r == Grouping(criteria, 0, |criteria| - maxPerTask.Floor, maximum)
    ensures changed ==> |r| == maxPerTask.Floor
    ensures changed ==> forall c <- r :: Units(c) <= maximum
    ensures changed ==> Join(r, "\n") == Join(criteria, "\n")
  {
    GroupableExactly(criteria, maxPerTask, maximum);
    if !Attempts(criteria, maxPerTask, maximum) { return criteria, false; }
    var required := |criteria| - maxPerTask.Floor;
    var grouped, pairs := PairAdjacent(criteria, required, maximum);
    GroupingCount(criteria, 0, required, maximum);
    GroupingFits(criteria, 0, required, maximum);
    GroupingLossless(criteria, 0, required, maximum);
    assert criteria[0..] == criteria;
    if pairs == required { return grouped, true; }
    return criteria, false;
  }

  // The whole draft.

  ghost predicate CriteriaWithin(task: PlannedTask, b: Bounds) {
    |task.acceptanceCriteria| <= b.maxAcceptanceCriteriaPerTask &&
    forall c <- task.acceptanceCriteria :: Units(c) <= b.maxAcceptanceCriterionCharacters
  }

  ghost predicate TaskGroupable(task: PlannedTask, b: Bounds) {
    Groupable(task.acceptanceCriteria, b.maxAcceptanceCriteriaPerTask as real, b.maxAcceptanceCriterionCharacters)
  }

  /**
   * The task keeps everything but its criteria, whose text is preserved, and the validator's
   * criteria bounds hold afterwards exactly when they held before or grouping can establish them.
   */
  ghost predicate GroupedTask(before: PlannedTask, after: PlannedTask, b: Bounds) {
    && after == before.(acceptanceCriteria := after.acceptanceCriteria)
    && Join(after.acceptanceCriteria, "\n") == Join(before.acceptanceCriteria, "\n")
    && (CriteriaWithin(after, b) <==> CriteriaWithin(before, b) || TaskGroupable(before, b))
    && (!TaskGroupable(before, b) ==> after == before)
  }

  method GroupTask(task: PlannedTask, b: Bounds) returns (r: PlannedTask, changed: bool)
    ensures GroupedTask(task, r, b) && (changed <==> TaskGroupable(task, b))
  {
    var criteria;
    criteria, changed := GroupCriteria(task.acceptanceCriteria, b.maxAcceptanceCriteriaPerTask as real,
                                       b.maxAcceptanceCriterionCharacters);
    r := if changed then task.(acceptanceCriteria := criteria) else task;
  }

  method GroupPlanAcceptanceCriteria(tasks: seq<PlannedTask>, b: Bounds) returns (r: seq<PlannedTask>, changed: bool)
    ensures |r| == |tasks| && forall i :: 0 <= i < |tasks| ==> GroupedTask(tasks[i], r[i], b)
    ensures changed <==> exists i :: 0 <= i < |tasks| && TaskGroupable(tasks[i], b)
    ensures !changed ==> r == tasks
  {
    hide TaskGroupable;
    r, changed := [], false;
    for i := 0 to |tasks|
      invariant |r| == i && forall j :: 0 <= j < i ==> GroupedTask(tasks[j], r[j], b)
      invariant changed <==> exists j :: 0 <= j < i && TaskGroupable(tasks[j], b)
    {
      var task, regrouped := GroupTask(tasks[i], b);
      if regrouped { changed := true; }
      r := r + [task];
    }
    if !changed { return tasks, false; }
  }
}

/**
 * The patient's milestone logic (src/components/PatientDashboard.tsx): the
 * points total, the completed and remaining counts, and toggling a
 * milestone's completion.
 */
module Progress {
  import opened Wrappers
  import opened Records
  import opened Seqs

  /** The sum of `points` over all the given milestones. */
  function SumPoints(ms: seq<Milestone>): int
    decreases |ms|
  {
    if ms == [] then 0 else SumPoints(ms[..|ms| - 1]) + ms[|ms| - 1].points
  }

  /** Every milestone's points are non-negative. */
  predicate NonNegativePoints(ms: seq<Milestone>)
  {
    forall i :: 0 <= i < |ms| ==> ms[i].points >= 0
  }

  /**
   * The left-to-right `reduce` that adds a milestone's points to the
   * accumulator when it is completed, starting from 0.
   */
  function TotalPoints(ms: seq<Milestone>): (total: int)
    ensures NonNegativePoints(ms) ==> 0 <= total <= SumPoints(ms)
    decreases |ms|
  {
    if ms == [] then 0
    else
      var acc := TotalPoints(ms[..|ms| - 1]);
      var m := ms[|ms| - 1];
      if m.completed then acc + m.points else acc
  }

  /** The completed milestones. */
  function Completed(ms: seq<Milestone>): seq<Milestone>
  {
    Filter(ms, (m: Milestone) => m.completed)
  }

  /** The milestones not yet completed. */
  function Remaining(ms: seq<Milestone>): seq<Milestone>
  {
    Filter(ms, (m: Milestone) => !m.completed)
  }

  /** The "Completed" figure of the progress card. */
  function CompletedCount(ms: seq<Milestone>): nat
  {
    |Completed(ms)|
  }

  /** The "Remaining" figure of the progress card. */
  function RemainingCount(ms: seq<Milestone>): nat
  {
    |Remaining(ms)|
  }

  /** The total is the sum of the points of the completed milestones. */
  lemma {:induction false} TotalPointsIsCompletedSum(ms: seq<Milestone>)
    ensures TotalPoints(ms) == SumPoints(Completed(ms))
    decreases |ms|
  {
    if ms != [] {
      var init, m := ms[..|ms| - 1], ms[|ms| - 1];
      var c := Completed(init);
      assert ms == init + [m];
      TotalPointsIsCompletedSum(init);
      CompletedSnoc(init, m);
      if m.completed {
        SumPointsSnoc(c, m);
        assert SumPoints(Completed(ms)) == SumPoints(c) + m.points;
      } else {
        assert Completed(ms) == c + [] == c;
      }
    }
  }

  lemma CompletedSnoc(ms: seq<Milestone>, m: Milestone)
    ensures Completed(ms + [m]) == Completed(ms) + (if m.completed then [m] else [])
  {
    FilterSnoc(ms, m, (m: Milestone) => m.completed);
  }

  lemma SumPointsSnoc(ms: seq<Milestone>, m: Milestone)
    ensures SumPoints(ms + [m]) == SumPoints(ms) + m.points
  {
    assert (ms + [m])[..|ms|] == ms;
  }

  /** Completed and remaining milestones together are all of them. */
  lemma CountsPartition(ms: seq<Milestone>)
    ensures CompletedCount(ms) + RemainingCount(ms) == |ms|
  {
    FilterPartition(ms, (m: Milestone) => m.completed, (m: Milestone) => !m.completed);
  }

  /** `milestones.find(m => m.id === milestoneId)`, as an index. */
  function MilestoneIndex(ms: seq<Milestone>, id: string): (r: Option<nat>)
    ensures r.Some? ==> r.value < |ms| && ms[r.value].id == id
    ensures r.Some? ==> forall j :: 0 <= j < r.value ==> ms[j].id != id
    ensures r.None? <==> forall j :: 0 <= j < |ms| ==> ms[j].id != id
  {
    FindFirst(ms, (m: Milestone) => m.id == id)
  }

  /** `b` is `a` with at most its `completed` field changed. */
  predicate SameButCompleted(a: Milestone, b: Milestone)
  {
    a.(completed := b.completed) == b
  }

  /**
   * The collection after `toggleMilestone(id)`: `completed` is negated on the
   * first milestone carrying the id, and nothing else changes.
   */
  function ToggleFirst(ms: seq<Milestone>, id: string): (r: seq<Milestone>)
    ensures |r| == |ms|
    ensures forall j :: 0 <= j < |ms| ==> SameButCompleted(ms[j], r[j])
    ensures forall j :: 0 <= j < |ms| ==>
      (r[j].completed != ms[j].completed <==> ms[j].id == id && forall k :: 0 <= k < j ==> ms[k].id != id)
  {
    match MilestoneIndex(ms, id)
    case None => ms
    case Some(i) => ms[i := ms[i].(completed := !ms[i].completed)]
  }

  /** Toggling an id no milestone carries changes nothing. */
  lemma ToggleUnknownId(ms: seq<Milestone>, id: string)
    requires forall j :: 0 <= j < |ms| ==> ms[j].id != id
    ensures ToggleFirst(ms, id) == ms
  {
    var r := ToggleFirst(ms, id);
    forall j | 0 <= j < |ms|
      ensures r[j] == ms[j]
    {
      assert SameButCompleted(ms[j], r[j]);
    }
  }

  /** Toggling the same milestone twice restores the collection. */
  lemma ToggleTwice(ms: seq<Milestone>, id: string)
    ensures ToggleFirst(ToggleFirst(ms, id), id) == ms
  {
    var once := ToggleFirst(ms, id);
    var twice := ToggleFirst(once, id);
    assert forall j :: 0 <= j < |ms| ==> once[j].id == ms[j].id;
    forall j | 0 <= j < |ms|
      ensures twice[j] == ms[j]
    {
      assert SameButCompleted(ms[j], once[j]) && SameButCompleted(once[j], twice[j]);
    }
  }
}

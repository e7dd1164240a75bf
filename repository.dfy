/**
 * The tracker component's problem list: mutable state that the three
 * mutations commit through the storage write.
 */
module Repository {
  import opened Wrappers
  import opened Text
  import opened Records
  import opened Mutations
  import opened Aggregates

  class Tracker {
    /** The list in memory, in insertion order. */
    var problems: seq<Problem>

    /** The lists handed to the storage write, oldest first, whether or not the write succeeded. */
    var writes: seq<seq<Problem>>

    /**
     * Every record keeps the solving-date invariant. This is a domain
     * invariant that every method preserves; no method needs it to run.
     */
    ghost predicate Valid()
      reads this
    {
      AllConsistent(problems)
    }

    /** The component starts with an empty list (loading from storage is not part of this model). */
    constructor ()
      ensures problems == [] && writes == [] && Valid()
    {
      problems := [];
      writes := [];
    }

    /**
     * `saveProblems`: the list is replaced only after the storage write of
     * `updated` succeeded (`saveOk`); a failed write leaves it as it was.
     */
    method Save(updated: seq<Problem>, saveOk: bool)
      modifies this
      ensures writes == old(writes) + [updated]
      ensures problems == if saveOk then updated else old(problems)
    {
      writes := writes + [updated];
      if saveOk {
        problems := updated;
      }
    }

    /**
     * `addProblem`: a draft whose name trims to nothing is refused without
     * saving; otherwise the new record is appended and the list saved.
     */
    method Add(draft: Draft, id: int, today: Date, saveOk: bool)
      modifies this
      ensures IsBlank(draft.name) ==> writes == old(writes) && problems == old(problems)
      ensures !IsBlank(draft.name) ==> writes == old(writes) + [old(problems) + [NewProblem(draft, id, today)]]
      ensures problems == if !IsBlank(draft.name) && saveOk
                          then old(problems) + [NewProblem(draft, id, today)]
                          else old(problems)
      ensures old(Valid()) ==> Valid()
      ensures DistinctIds(old(problems)) && !HasId(old(problems), id) ==> DistinctIds(problems)
    {
      if Trim(draft.name) == [] {
        return;
      }
      var p := NewProblem(draft, id, today);
      if AllConsistent(problems) {
        AppendKeepsConsistent(problems, draft, id, today);
      }
      if DistinctIds(problems) && !HasId(problems, id) {
        AppendKeepsDistinct(problems, p);
      }
      Save(problems + [p], saveOk);
    }

    /**
     * `updateProblemStatus`: every record with id `id` gets status `s` and
     * the matching solving date; an unknown id saves the list unchanged.
     */
    method UpdateStatus(id: int, s: Status, today: Date, saveOk: bool)
      modifies this
      ensures writes == old(writes) + [WithStatus(old(problems), id, s, today)]
      ensures problems == if saveOk then WithStatus(old(problems), id, s, today) else old(problems)
      ensures !HasId(old(problems), id) ==> problems == old(problems)
      ensures old(Valid()) ==> Valid()
      ensures DistinctIds(old(problems)) ==> DistinctIds(problems)
    {
      var updated := WithStatus(problems, id, s, today);
      if !HasId(problems, id) {
        WithStatusUnknownId(problems, id, s, today);
      }
      if AllConsistent(problems) {
        WithStatusKeepsConsistent(problems, id, s, today);
      }
      if DistinctIds(problems) {
        WithStatusKeepsDistinct(problems, id, s, today);
      }
      Save(updated, saveOk);
    }

    /**
     * `deleteProblem`: every record with id `id` is removed, the rest keep
     * their order; an unknown id saves the list unchanged.
     */
    method Delete(id: int, saveOk: bool)
      modifies this
      ensures writes == old(writes) + [Without(old(problems), id)]
      ensures problems == if saveOk then Without(old(problems), id) else old(problems)
      ensures saveOk ==> !HasId(problems, id)
      ensures !HasId(old(problems), id) ==> problems == old(problems)
      ensures old(Valid()) ==> Valid()
      ensures DistinctIds(old(problems)) ==> DistinctIds(problems)
    {
      var remaining := Without(problems, id);
      if !HasId(problems, id) {
        WithoutAbsentId(problems, id);
      }
      if DistinctIds(problems) {
        WithoutKeepsDistinct(problems, id);
      }
      Save(remaining, saveOk);
    }
  }

  /**
   * A worked example of a session: add an unsolved problem, mark it
   * solved, and read the dashboard totals.
   */
  method SolveOneProblem(id: int, today: Date) returns (st: Stats)
    ensures st == Stats(1, 1, 0, 0)
  {
    var t := new Tracker();
    var draft := Draft("Two Sum", Some(900), Arrays, LeetCode, Unsolved, "", "");
    NameNotBlank();
    t.Add(draft, id, today, true);
    assert t.writes == [t.problems];
    assert t.problems == [NewProblem(draft, id, today)];
    t.UpdateStatus(id, Solved, today, true);
    var p := t.problems[0];
    assert p.status == Solved && p.dateSolved == Some(today);
    StatsAfterAppend([], p);
    assert [] + [p] == t.problems;
    st := StatsOf(t.problems);
  }

  lemma NameNotBlank()
    ensures !IsBlank("Two Sum")
  {
    var name := "Two Sum";
    assert !IsTrimmable(name[0]) && !IsTrimmable(name[|name| - 1]);
    assert TrimStart(name) == name;
    assert TrimEnd(name) == name;
  }
}

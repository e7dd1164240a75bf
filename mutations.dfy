/**
 * The new problem lists that the three mutations of the tracker build
 * before committing them: an appended record, a status change mapped over
 * the list, and a removal by id.
 */
module Mutations {
  import opened Wrappers
  import opened Seqs
  import opened Text
  import opened Records

  /** The record invariant: a solving date is present exactly when the status is solved. */
  predicate DatesConsistent(p: Problem) {
    p.dateSolved.Some? <==> p.status == Solved
  }

  predicate AllConsistent(ps: seq<Problem>) {
    forall p :: p in ps ==> DatesConsistent(p)
  }

  /** No two records of `ps` share an id. */
  ghost predicate DistinctIds(ps: seq<Problem>) {
    ps == [] || ((forall p :: p in ps[1..] ==> p.id != ps[0].id) && DistinctIds(ps[1..]))
  }

  ghost predicate HasId(ps: seq<Problem>, id: int) {
    exists p :: p in ps && p.id == id
  }

  /**
   * A draft is refused when its name trims to nothing: exactly when every
   * character is whitespace or a line terminator, the empty name included.
   */
  predicate IsBlank(name: string)
    ensures IsBlank(name) <==> forall i :: 0 <= i < |name| ==> IsTrimmable(name[i])
  {
    Trim(name) == []
  }

  /** The solving date a record with status `status` gets on day `today`. */
  function SolvedDate(status: Status, today: Date): (d: Option<Date>)
    ensures d.Some? <==> status == Solved
    ensures d.Some? ==> d.value == today
  {
    if status == Solved then Some(today) else None
  }

  /** The record `addProblem` builds from the form on day `today`. */
  function NewProblem(d: Draft, id: int, today: Date): (p: Problem)
    ensures DraftOf(p) == d && p.id == id
    ensures p.dateAdded == today
    ensures DatesConsistent(p)
    ensures p.dateSolved == (if d.status == Solved then Some(today) else None)
  {
    Problem(id, d.name, d.difficulty, d.topic, d.platform, d.status, d.link, d.notes,
            today, SolvedDate(d.status, today))
  }

  /** One record after its status is set to `s` on day `today`. */
  function SetStatus(p: Problem, s: Status, today: Date): (q: Problem)
    ensures DraftOf(q) == DraftOf(p).(status := s)
    ensures q.id == p.id && q.dateAdded == p.dateAdded
    ensures DatesConsistent(q)
    ensures q.dateSolved.Some? ==> q.dateSolved.value == today
  {
    p.(status := s, dateSolved := SolvedDate(s, today))
  }

  /** The list `updateProblemStatus` builds: every record with id `id` given the new status, the rest kept. */
  function WithStatus(ps: seq<Problem>, id: int, s: Status, today: Date): (r: seq<Problem>)
    ensures |r| == |ps|
    ensures forall i :: 0 <= i < |ps| ==> r[i] == if ps[i].id == id then SetStatus(ps[i], s, today) else ps[i]
  {
    if ps == [] then []
    else [if ps[0].id == id then SetStatus(ps[0], s, today) else ps[0]] + WithStatus(ps[1..], id, s, today)
  }

  /** A status change for an id no record has leaves the list as it was. */
  lemma WithStatusUnknownId(ps: seq<Problem>, id: int, s: Status, today: Date)
    requires !HasId(ps, id)
    ensures WithStatus(ps, id, s, today) == ps
  {
    var r := WithStatus(ps, id, s, today);
    forall i | 0 <= i < |ps| ensures r[i] == ps[i] {
      assert ps[i] in ps;
    }
  }

  lemma WithStatusKeepsConsistent(ps: seq<Problem>, id: int, s: Status, today: Date)
    requires AllConsistent(ps)
    ensures AllConsistent(WithStatus(ps, id, s, today))
  {
    var r := WithStatus(ps, id, s, today);
    forall p | p in r ensures DatesConsistent(p) {
      var i :| 0 <= i < |r| && r[i] == p;
      assert ps[i] in ps;
    }
  }

  lemma {:induction false} WithStatusKeepsDistinct(ps: seq<Problem>, id: int, s: Status, today: Date)
    requires DistinctIds(ps)
    ensures DistinctIds(WithStatus(ps, id, s, today))
    decreases |ps|
  {
    if ps != [] {
      var r := WithStatus(ps, id, s, today);
      WithStatusKeepsDistinct(ps[1..], id, s, today);
      assert r[1..] == WithStatus(ps[1..], id, s, today);
      forall q | q in r[1..] ensures q.id != r[0].id {
        var i :| 0 <= i < |r[1..]| && r[1..][i] == q;
        assert ps[1..][i] in ps[1..];
      }
    }
  }

  /** The filter predicate `deleteProblem` passes to `filter`. */
  function OtherId(id: int): Problem -> bool {
    (p: Problem) => p.id != id
  }

  /** The list `deleteProblem` builds: every record whose id is not `id`, in order. */
  function Without(ps: seq<Problem>, id: int): (r: seq<Problem>)
    ensures forall p :: p in r <==> p in ps && p.id != id
    ensures forall p: Problem :: p.id != id ==> multiset(r)[p] == multiset(ps)[p]
    ensures IsSubsequence(r, ps)
  {
    FilterIsSubsequence(ps, OtherId(id));
    FilterMultiplicity(ps, OtherId(id));
    Filter(ps, OtherId(id))
  }

  /** Deleting an id no record has changes nothing. */
  lemma WithoutAbsentId(ps: seq<Problem>, id: int)
    requires !HasId(ps, id)
    ensures Without(ps, id) == ps
  {
    FilterKeepsAll(ps, OtherId(id));
  }

  /** A second delete of the same id is a no-op. */
  lemma WithoutTwice(ps: seq<Problem>, id: int)
    ensures Without(Without(ps, id), id) == Without(ps, id)
  {
    FilterIdempotent(ps, OtherId(id));
  }

  /** With distinct ids, deleting a present id removes exactly one record. */
  lemma {:induction false} WithoutRemovesOne(ps: seq<Problem>, id: int)
    requires DistinctIds(ps) && HasId(ps, id)
    ensures |Without(ps, id)| == |ps| - 1
    decreases |ps|
  {
    if ps[0].id == id {
      assert !HasId(ps[1..], id);
      WithoutAbsentId(ps[1..], id);
    } else {
      var p :| p in ps && p.id == id;
      assert p in ps[1..];
      WithoutRemovesOne(ps[1..], id);
    }
  }

  lemma WithoutKeepsConsistent(ps: seq<Problem>, id: int)
    requires AllConsistent(ps)
    ensures AllConsistent(Without(ps, id))
  {
  }

  lemma {:induction false} WithoutKeepsDistinct(ps: seq<Problem>, id: int)
    requires DistinctIds(ps)
    ensures DistinctIds(Without(ps, id))
    decreases |ps|
  {
    if ps != [] {
      WithoutKeepsDistinct(ps[1..], id);
      var r := Without(ps, id);
      if ps[0].id != id {
        assert r[1..] == Without(ps[1..], id);
      } else {
        assert r == Without(ps[1..], id);
      }
    }
  }

  /** Appending a record keeps the invariant exactly when the new record satisfies it. */
  lemma AppendKeepsConsistent(ps: seq<Problem>, d: Draft, id: int, today: Date)
    requires AllConsistent(ps)
    ensures AllConsistent(ps + [NewProblem(d, id, today)])
  {
  }

  /** Appending a record whose id is unused keeps the ids distinct. */
  lemma {:induction false} AppendKeepsDistinct(ps: seq<Problem>, q: Problem)
    requires DistinctIds(ps) && !HasId(ps, q.id)
    ensures DistinctIds(ps + [q])
    decreases |ps|
  {
    if ps == [] {
      assert ps + [q] == [q];
    } else {
      assert (ps + [q])[1..] == ps[1..] + [q];
      assert !HasId(ps[1..], q.id);
      AppendKeepsDistinct(ps[1..], q);
    }
  }
}

/**
 * The dashboard's summary figures, recomputed from the list on every
 * render: status totals, per-topic counts and difficulty buckets.
 */
module Aggregates {
  import opened Wrappers
  import opened Seqs
  import opened Records

  // ---------------------------------------------------------------- status totals

  datatype Stats = Stats(total: nat, solved: nat, unsolved: nat, revisit: nat)

  function HasStatus(s: Status): Problem -> bool {
    (p: Problem) => p.status == s
  }

  /** The number of records of `ps` with status `s`. */
  function CountStatus(ps: seq<Problem>, s: Status): (n: nat)
    ensures n <= |ps|
    ensures n == 0 <==> forall p :: p in ps ==> p.status != s
    ensures n == |ps| <==> forall p :: p in ps ==> p.status == s
  {
    FilterKeepsNone(ps, HasStatus(s));
    FilterFullLength(ps, HasStatus(s));
    |Filter(ps, HasStatus(s))|
  }

  /** The four headline numbers of the dashboard. */
  function StatsOf(ps: seq<Problem>): (st: Stats)
    ensures st.total == |ps|
  {
    Stats(|ps|, CountStatus(ps, Solved), CountStatus(ps, Unsolved), CountStatus(ps, Revisit))
  }

  /** Every record has one of the three statuses, so the status counts add up to the total. */
  lemma {:induction false} StatusCountsAddUp(ps: seq<Problem>)
    ensures StatsOf(ps).solved + StatsOf(ps).unsolved + StatsOf(ps).revisit == StatsOf(ps).total
    decreases |ps|
  {
    if ps != [] {
      StatusCountsAddUp(ps[1..]);
    }
  }

  /** One more record adds one to the total and one to its own status. */
  lemma StatsAfterAppend(ps: seq<Problem>, p: Problem)
    ensures StatsOf(ps + [p]) == Stats(
      StatsOf(ps).total + 1,
      StatsOf(ps).solved + (if p.status == Solved then 1 else 0),
      StatsOf(ps).unsolved + (if p.status == Unsolved then 1 else 0),
      StatsOf(ps).revisit + (if p.status == Revisit then 1 else 0))
  {
    FilterAppend(ps, [p], HasStatus(Solved));
    FilterAppend(ps, [p], HasStatus(Unsolved));
    FilterAppend(ps, [p], HasStatus(Revisit));
  }

  // ---------------------------------------------------------------- topics

  /** One bar of the topic chart; its label is `TopicName(topic)`. */
  datatype TopicStat = TopicStat(topic: Topic, solved: nat, total: nat)

  function InTopic(t: Topic): Problem -> bool {
    (p: Problem) => p.topic == t
  }

  function SolvedInTopic(t: Topic): Problem -> bool {
    (p: Problem) => p.topic == t && p.status == Solved
  }

  /** The entry for topic `t` before empty topics are dropped. */
  function TopicRow(ps: seq<Problem>, t: Topic): (r: TopicStat)
    ensures r.topic == t && r.solved <= r.total
    ensures r.total == 0 <==> forall p :: p in ps ==> p.topic != t
  {
    FilterMonotone(ps, SolvedInTopic(t), InTopic(t));
    FilterKeepsNone(ps, InTopic(t));
    TopicStat(t, |Filter(ps, SolvedInTopic(t))|, |Filter(ps, InTopic(t))|)
  }

  /** `topics.map(...)`: one entry per topic of `ts`, in that order. */
  function TopicRows(ps: seq<Problem>, ts: seq<Topic>): (rows: seq<TopicStat>)
    ensures |rows| == |ts|
    ensures forall i :: 0 <= i < |ts| ==> rows[i] == TopicRow(ps, ts[i])
  {
    if ts == [] then [] else [TopicRow(ps, ts[0])] + TopicRows(ps, ts[1..])
  }

  function NonEmptyTopic(r: TopicStat): bool {
    r.total > 0
  }

  /**
   * The topic chart: per-topic solved and total counts, topics without
   * records dropped; no more entries than topics, none of them empty
   * (`TopicStatsDistinct`: no topic twice).
   */
  function TopicStats(ps: seq<Problem>): (rows: seq<TopicStat>)
    ensures |rows| <= |AllTopics()|
    ensures forall r :: r in rows ==> 0 < r.total
  {
    Filter(TopicRows(ps, AllTopics()), NonEmptyTopic)
  }

  /** Every entry counts its own topic, is non-empty, and has no more solved than total. */
  lemma TopicStatsEntries(ps: seq<Problem>)
    ensures forall r :: r in TopicStats(ps) ==>
      r == TopicRow(ps, r.topic) && 0 < r.total && r.solved <= r.total
  {
    var rows := TopicRows(ps, AllTopics());
    forall r | r in TopicStats(ps)
      ensures r == TopicRow(ps, r.topic) && 0 < r.total && r.solved <= r.total
    {
      var i :| 0 <= i < |rows| && rows[i] == r;
    }
  }

  /** A topic has an entry exactly when some record carries it. */
  lemma TopicStatsPresence(ps: seq<Problem>, t: Topic)
    ensures TopicRow(ps, t) in TopicStats(ps) <==> exists p :: p in ps && p.topic == t
  {
    AllTopicsComplete(t);
    var ts := AllTopics();
    var rows := TopicRows(ps, ts);
    var row := TopicRow(ps, t);
    var i :| 0 <= i < |ts| && ts[i] == t;
    assert rows[i] == row;
    assert row in TopicStats(ps) <==> NonEmptyTopic(row);
    assert NonEmptyTopic(row) <==> exists p :: p in ps && p.topic == t;
  }

  function TopicsOf(rows: seq<TopicStat>): (ts: seq<Topic>)
    ensures |ts| == |rows|
    ensures forall i :: 0 <= i < |rows| ==> ts[i] == rows[i].topic
  {
    if rows == [] then [] else [rows[0].topic] + TopicsOf(rows[1..])
  }

  /** The entries follow the order of the topic list. */
  lemma TopicStatsOrder(ps: seq<Problem>)
    ensures IsSubsequence(TopicsOf(TopicStats(ps)), AllTopics())
  {
    TopicRowsOrder(ps, AllTopics());
  }

  /** No topic has two entries. */
  lemma TopicStatsDistinct(ps: seq<Problem>)
    ensures forall i, j :: 0 <= i < j < |TopicStats(ps)| ==> TopicStats(ps)[i].topic != TopicStats(ps)[j].topic
  {
    TopicStatsOrder(ps);
    SubsequenceNoDuplicates(TopicsOf(TopicStats(ps)), AllTopics());
  }

  lemma {:induction false} TopicRowsOrder(ps: seq<Problem>, ts: seq<Topic>)
    ensures IsSubsequence(TopicsOf(Filter(TopicRows(ps, ts), NonEmptyTopic)), ts)
    decreases |ts|
  {
    if ts != [] {
      var rows := TopicRows(ps, ts);
      assert rows[1..] == TopicRows(ps, ts[1..]);
      TopicRowsOrder(ps, ts[1..]);
      var out := TopicsOf(Filter(rows, NonEmptyTopic));
      if NonEmptyTopic(rows[0]) {
        assert out[1..] == TopicsOf(Filter(TopicRows(ps, ts[1..]), NonEmptyTopic));
      }
    }
  }

  function SumTotals(rows: seq<TopicStat>): nat {
    if rows == [] then 0 else rows[0].total + SumTotals(rows[1..])
  }

  function TopicAmong(ts: seq<Topic>): Problem -> bool {
    (p: Problem) => p.topic in ts
  }

  /** Over a list of distinct topics, the totals add up to the records carrying one of them. */
  lemma {:induction false} TopicRowsSum(ps: seq<Problem>, ts: seq<Topic>)
    requires forall i, j :: 0 <= i < j < |ts| ==> ts[i] != ts[j]
    ensures SumTotals(TopicRows(ps, ts)) == |Filter(ps, TopicAmong(ts))|
    decreases |ts|
  {
    if ts == [] {
      FilterKeepsNone(ps, TopicAmong(ts));
    } else {
      var rows := TopicRows(ps, ts);
      assert rows[1..] == TopicRows(ps, ts[1..]);
      TopicRowsSum(ps, ts[1..]);
      FilterDisjointUnion(ps, InTopic(ts[0]), TopicAmong(ts[1..]), TopicAmong(ts));
    }
  }

  /** Dropping empty entries does not change the sum of the totals. */
  lemma {:induction false} SumTotalsNonEmpty(rows: seq<TopicStat>)
    ensures SumTotals(Filter(rows, NonEmptyTopic)) == SumTotals(rows)
    decreases |rows|
  {
    if rows != [] {
      SumTotalsNonEmpty(rows[1..]);
      if NonEmptyTopic(rows[0]) {
        assert Filter(rows, NonEmptyTopic)[1..] == Filter(rows[1..], NonEmptyTopic);
      }
    }
  }

  /** Every record falls under exactly one topic of the chart: the totals add up to the list length. */
  lemma TopicTotalsAddUp(ps: seq<Problem>)
    ensures SumTotals(TopicStats(ps)) == |ps|
  {
    var ts := AllTopics();
    SumTotalsNonEmpty(TopicRows(ps, ts));
    TopicRowsSum(ps, ts);
    forall p | p in ps ensures TopicAmong(ts)(p) {
      AllTopicsComplete(p.topic);
    }
    FilterKeepsAll(ps, TopicAmong(ts));
  }

  // ---------------------------------------------------------------- difficulty

  /** The four rating ranges of the difficulty chart. */
  datatype Bucket = From800 | From1000 | From1200 | From1400

  function BucketName(b: Bucket): string {
    match b
    case From800 => "800-1000"
    case From1000 => "1000-1200"
    case From1200 => "1200-1400"
    case From1400 => "1400+"
  }

  /** The slice labels are distinct. */
  lemma BucketNamesDistinct(b1: Bucket, b2: Bucket)
    ensures BucketName(b1) == BucketName(b2) <==> b1 == b2
  {
  }

  /** The range test of each bucket; a rating that did not parse is in none. */
  predicate InBucket(d: Option<int>, b: Bucket) {
    d.Some? &&
    match b
    case From800 => 800 <= d.value < 1000
    case From1000 => 1000 <= d.value < 1200
    case From1200 => 1200 <= d.value < 1400
    case From1400 => 1400 <= d.value
  }

  /** The one bucket a rating falls in, if any: the buckets are disjoint and cover every rating from 800 on. */
  function BucketOf(d: Option<int>): (b: Option<Bucket>)
    ensures forall b' :: InBucket(d, b') <==> b == Some(b')
    ensures b.Some? <==> d.Some? && 800 <= d.value
  {
    if d.None? || d.value < 800 then None
    else if d.value < 1000 then Some(From800)
    else if d.value < 1200 then Some(From1000)
    else if d.value < 1400 then Some(From1200)
    else Some(From1400)
  }

  /** One slice of the difficulty chart. */
  datatype BucketStat = BucketStat(bucket: Bucket, value: nat)

  function InBucketOf(b: Bucket): Problem -> bool {
    (p: Problem) => InBucket(p.difficulty, b)
  }

  function BucketRow(ps: seq<Problem>, b: Bucket): (r: BucketStat)
    ensures r.bucket == b
    ensures r.value == 0 <==> forall p :: p in ps ==> !InBucket(p.difficulty, b)
  {
    FilterKeepsNone(ps, InBucketOf(b));
    BucketStat(b, |Filter(ps, InBucketOf(b))|)
  }

  function NonEmptyBucket(r: BucketStat): bool {
    r.value > 0
  }

  const AllBuckets := [From800, From1000, From1200, From1400]

  /** The four slices before empty ones are dropped: one per bucket, in the fixed order, each counting its own bucket. */
  function BucketRows(ps: seq<Problem>): (rows: seq<BucketStat>)
    ensures BucketsOf(rows) == AllBuckets
    ensures forall r :: r in rows ==> r == BucketRow(ps, r.bucket)
  {
    [BucketRow(ps, From800), BucketRow(ps, From1000), BucketRow(ps, From1200), BucketRow(ps, From1400)]
  }

  /** The difficulty chart: the four buckets in order, empty ones dropped; at most four slices, none empty. */
  function DifficultyStats(ps: seq<Problem>): (rows: seq<BucketStat>)
    ensures |rows| <= |AllBuckets|
    ensures forall r :: r in rows ==> 0 < r.value
  {
    Filter(BucketRows(ps), NonEmptyBucket)
  }

  /** Every slice is non-empty and counts its own bucket; a bucket has a slice exactly when some record is in it. */
  lemma DifficultyStatsEntries(ps: seq<Problem>, b: Bucket)
    ensures forall r :: r in DifficultyStats(ps) ==> r == BucketRow(ps, r.bucket) && 0 < r.value
    ensures BucketRow(ps, b) in DifficultyStats(ps) <==> exists p :: p in ps && InBucket(p.difficulty, b)
  {
    var rows := BucketRows(ps);
    forall r | r in DifficultyStats(ps) ensures r == BucketRow(ps, r.bucket) && 0 < r.value {
      var i :| 0 <= i < |rows| && rows[i] == r;
    }
    var i := match b case From800 => 0 case From1000 => 1 case From1200 => 2 case From1400 => 3;
    assert rows[i] == BucketRow(ps, b);
  }

  function BucketsOf(rows: seq<BucketStat>): (bs: seq<Bucket>)
    ensures |bs| == |rows|
    ensures forall i :: 0 <= i < |rows| ==> bs[i] == rows[i].bucket
  {
    if rows == [] then [] else [rows[0].bucket] + BucketsOf(rows[1..])
  }

  /** The slices keep the fixed bucket order. */
  lemma DifficultyStatsOrder(ps: seq<Problem>)
    ensures IsSubsequence(BucketsOf(DifficultyStats(ps)), AllBuckets)
  {
    var rows := BucketRows(ps);
    assert BucketsOf(rows) == AllBuckets;
    FilterIsSubsequence(rows, NonEmptyBucket);
    SubsequenceMap(DifficultyStats(ps), rows);
  }

  lemma {:induction false} SubsequenceMap(a: seq<BucketStat>, b: seq<BucketStat>)
    requires IsSubsequence(a, b)
    ensures IsSubsequence(BucketsOf(a), BucketsOf(b))
    decreases |b|
  {
    if a != [] {
      if a[0] == b[0] && IsSubsequence(a[1..], b[1..]) {
        SubsequenceMap(a[1..], b[1..]);
        assert BucketsOf(a)[1..] == BucketsOf(a[1..]);
        assert BucketsOf(b)[1..] == BucketsOf(b[1..]);
      } else {
        SubsequenceMap(a, b[1..]);
        assert BucketsOf(b)[1..] == BucketsOf(b[1..]);
      }
    }
  }

  function SumValues(rows: seq<BucketStat>): nat {
    if rows == [] then 0 else rows[0].value + SumValues(rows[1..])
  }

  function Rated800Plus(): Problem -> bool {
    (p: Problem) => p.difficulty.Some? && 800 <= p.difficulty.value
  }

  /** The buckets are disjoint: their counts add up to the records rated 800 or more, so never exceed the list. */
  lemma DifficultyTotalsAddUp(ps: seq<Problem>)
    ensures SumValues(DifficultyStats(ps)) == |Filter(ps, Rated800Plus())| <= |ps|
  {
    BucketCountsAddUp(ps);
    SumValuesNonEmpty(BucketRows(ps));
    SumValuesOfFour(BucketRows(ps));
  }

  lemma SumValuesOfFour(rows: seq<BucketStat>)
    requires |rows| == 4
    ensures SumValues(rows) == rows[0].value + rows[1].value + rows[2].value + rows[3].value
  {
    assert rows[1..][1..] == rows[2..];
    assert rows[2..][1..] == rows[3..];
    assert rows[3..][1..] == [];
    assert SumValues(rows[3..]) == rows[3].value;
    assert SumValues(rows[2..]) == rows[2].value + rows[3].value;
    assert SumValues(rows[1..]) == rows[1].value + rows[2].value + rows[3].value;
  }

  lemma {:induction false} BucketCountsAddUp(ps: seq<Problem>)
    ensures |Filter(ps, InBucketOf(From800))| + |Filter(ps, InBucketOf(From1000))|
          + |Filter(ps, InBucketOf(From1200))| + |Filter(ps, InBucketOf(From1400))|
         == |Filter(ps, Rated800Plus())|
    decreases |ps|
  {
    if ps != [] {
      BucketCountsAddUp(ps[1..]);
      var d := ps[0].difficulty;
      var b := BucketOf(d);
      FilterStep(ps, InBucketOf(From800));
      FilterStep(ps, InBucketOf(From1000));
      FilterStep(ps, InBucketOf(From1200));
      FilterStep(ps, InBucketOf(From1400));
      FilterStep(ps, Rated800Plus());
    }
  }

  lemma {:induction false} SumValuesNonEmpty(rows: seq<BucketStat>)
    ensures SumValues(Filter(rows, NonEmptyBucket)) == SumValues(rows)
    decreases |rows|
  {
    if rows != [] {
      SumValuesNonEmpty(rows[1..]);
      if NonEmptyBucket(rows[0]) {
        assert Filter(rows, NonEmptyBucket)[1..] == Filter(rows[1..], NonEmptyBucket);
      }
    }
  }

  // ---------------------------------------------------------------- worked cases

  /** Two graph problems, one solved: the chart has a Graphs entry with 1 solved of 2. */
  lemma TwoGraphProblems(a: Problem, b: Problem)
    requires a.topic == Graphs && a.status == Solved
    requires b.topic == Graphs && b.status != Solved
    ensures TopicStat(Graphs, 1, 2) in TopicStats([a, b])
  {
    var ps := [a, b];
    FilterStep(ps, InTopic(Graphs));
    FilterStep(ps[1..], InTopic(Graphs));
    FilterStep(ps, SolvedInTopic(Graphs));
    FilterStep(ps[1..], SolvedInTopic(Graphs));
    assert TopicRow(ps, Graphs) == TopicStat(Graphs, 1, 2);
    TopicStatsPresence(ps, Graphs);
    assert a in ps;
  }

  /** Ratings 850 and 1350: exactly the 800-1000 and 1200-1400 slices, one record each. */
  lemma TwoRatedProblems(a: Problem, b: Problem)
    requires a.difficulty == Some(850) && b.difficulty == Some(1350)
    ensures DifficultyStats([a, b]) == [BucketStat(From800, 1), BucketStat(From1200, 1)]
  {
    var ps := [a, b];
    OneOrNone(ps, From800, 1);
    OneOrNone(ps, From1000, 0);
    OneOrNone(ps, From1200, 1);
    OneOrNone(ps, From1400, 0);
    DropEmptySlices(BucketRows(ps));
  }

  lemma OneOrNone(ps: seq<Problem>, k: Bucket, n: nat)
    requires |ps| == 2 && ps[0].difficulty == Some(850) && ps[1].difficulty == Some(1350)
    requires n == if k == From800 || k == From1200 then 1 else 0
    ensures BucketRow(ps, k) == BucketStat(k, n)
  {
    FilterStep(ps, InBucketOf(k));
    FilterStep(ps[1..], InBucketOf(k));
  }

  lemma DropEmptySlices(rows: seq<BucketStat>)
    requires rows == [BucketStat(From800, 1), BucketStat(From1000, 0), BucketStat(From1200, 1), BucketStat(From1400, 0)]
    ensures Filter(rows, NonEmptyBucket) == [BucketStat(From800, 1), BucketStat(From1200, 1)]
  {
    assert rows[1..][1..] == rows[2..];
    assert rows[2..][1..] == rows[3..];
    assert rows[3..][1..] == [];
    assert Filter(rows[3..], NonEmptyBucket) == [];
    assert Filter(rows[2..], NonEmptyBucket) == [rows[2]];
    assert Filter(rows[1..], NonEmptyBucket) == [rows[2]];
  }
}

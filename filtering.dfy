/**
 * The problem list's filter: a topic choice, a status choice and a
 * case-insensitive search over names.
 */
module Filtering {
  import opened Seqs
  import opened Text
  import opened Records
  import opened Aggregates

  /** The topic drop-down: "all" or one topic. */
  datatype TopicFilter = AnyTopic | OnlyTopic(topic: Topic)

  /** The status drop-down: "all" or one status. */
  datatype StatusFilter = AnyStatus | OnlyStatus(status: Status)

  /** The drop-down's value: "all" or the topic's label. */
  function TopicFilterValue(tf: TopicFilter): string {
    if tf.AnyTopic? then "all" else TopicName(tf.topic)
  }

  /** The drop-down's value: "all" or the status value. */
  function StatusFilterValue(sf: StatusFilter): string {
    if sf.AnyStatus? then "all" else StatusName(sf.status)
  }

  /** The topic test, which agrees with comparing the drop-down's value to the record's label. */
  predicate MatchesTopic(p: Problem, tf: TopicFilter)
    ensures MatchesTopic(p, tf) <==> TopicFilterValue(tf) == "all" || TopicName(p.topic) == TopicFilterValue(tf)
  {
    match tf
    case AnyTopic => true
    case OnlyTopic(t) => TopicNamesDistinct(p.topic, t); p.topic == t
  }

  /** The status test, which agrees with comparing the drop-down's value to the record's status value. */
  predicate MatchesStatus(p: Problem, sf: StatusFilter)
    ensures MatchesStatus(p, sf) <==> StatusFilterValue(sf) == "all" || StatusName(p.status) == StatusFilterValue(sf)
  {
    match sf
    case AnyStatus => true
    case OnlyStatus(s) => StatusNamesDistinct(p.status, s); p.status == s
  }

  /** The lower-cased query occurs somewhere in the lower-cased name; an empty query always does. */
  predicate MatchesSearch(p: Problem, query: string)
    ensures MatchesSearch(p, query) <==> IsSubstring(ToLower(p.name), ToLower(query))
    ensures query == [] ==> MatchesSearch(p, query)
  {
    IncludesIffOccurs(ToLower(p.name), ToLower(query));
    Includes(ToLower(p.name), ToLower(query))
  }

  /** A record is shown when it passes all three tests; every record passes "all", "all" and an empty search. */
  predicate Matches(p: Problem, tf: TopicFilter, sf: StatusFilter, query: string)
    ensures tf.AnyTopic? && sf.AnyStatus? && query == [] ==> Matches(p, tf, sf, query)
  {
    MatchesTopic(p, tf) && MatchesStatus(p, sf) && MatchesSearch(p, query)
  }

  function Matcher(tf: TopicFilter, sf: StatusFilter, query: string): Problem -> bool {
    (p: Problem) => Matches(p, tf, sf, query)
  }

  /** The records the list view shows. */
  function FilteredProblems(ps: seq<Problem>, tf: TopicFilter, sf: StatusFilter, query: string): (r: seq<Problem>)
    ensures forall p :: p in r <==> p in ps && Matches(p, tf, sf, query)
    ensures forall p :: Matches(p, tf, sf, query) ==> multiset(r)[p] == multiset(ps)[p]
    ensures IsSubsequence(r, ps)
  {
    FilterIsSubsequence(ps, Matcher(tf, sf, query));
    FilterMultiplicity(ps, Matcher(tf, sf, query));
    Filter(ps, Matcher(tf, sf, query))
  }

  /** With both drop-downs on "all" and an empty search box, every record is shown, in order. */
  lemma ShowAll(ps: seq<Problem>)
    ensures FilteredProblems(ps, AnyTopic, AnyStatus, "") == ps
  {
    FilterKeepsAll(ps, Matcher(AnyTopic, AnyStatus, ""));
  }

  /** The search is case-insensitive: a query and its lower-cased form select the same records. */
  lemma SearchIgnoresQueryCase(ps: seq<Problem>, tf: TopicFilter, sf: StatusFilter, query: string)
    ensures FilteredProblems(ps, tf, sf, query) == FilteredProblems(ps, tf, sf, ToLower(query))
  {
    forall c | true ensures LowerChar(LowerChar(c)) == LowerChar(c) {}
    assert ToLower(ToLower(query)) == ToLower(query);
    FilterCongruent(ps, Matcher(tf, sf, query), Matcher(tf, sf, ToLower(query)));
  }

  /** Filtering by one status alone shows as many records as the dashboard counts for it. */
  lemma StatusFilterAgreesWithStats(ps: seq<Problem>, s: Status)
    ensures |FilteredProblems(ps, AnyTopic, OnlyStatus(s), "")| == CountStatus(ps, s)
  {
    FilterCongruent(ps, Matcher(AnyTopic, OnlyStatus(s), ""), HasStatus(s));
  }

  /** Filtering by one topic alone shows as many records as the topic chart totals for it. */
  lemma TopicFilterAgreesWithStats(ps: seq<Problem>, t: Topic)
    ensures |FilteredProblems(ps, OnlyTopic(t), AnyStatus, "")| == TopicRow(ps, t).total
  {
    FilterCongruent(ps, Matcher(OnlyTopic(t), AnyStatus, ""), InTopic(t));
  }

  /** Turning the topic drop-down back to "all" never hides a shown record, so never shows fewer. */
  lemma AnyTopicShowsMore(ps: seq<Problem>, tf: TopicFilter, sf: StatusFilter, query: string)
    ensures forall p :: p in FilteredProblems(ps, tf, sf, query) ==> p in FilteredProblems(ps, AnyTopic, sf, query)
    ensures |FilteredProblems(ps, tf, sf, query)| <= |FilteredProblems(ps, AnyTopic, sf, query)|
  {
    FilterMonotone(ps, Matcher(tf, sf, query), Matcher(AnyTopic, sf, query));
  }

  /** Turning the status drop-down back to "all" never hides a shown record, so never shows fewer. */
  lemma AnyStatusShowsMore(ps: seq<Problem>, tf: TopicFilter, sf: StatusFilter, query: string)
    ensures forall p :: p in FilteredProblems(ps, tf, sf, query) ==> p in FilteredProblems(ps, tf, AnyStatus, query)
    ensures |FilteredProblems(ps, tf, sf, query)| <= |FilteredProblems(ps, tf, AnyStatus, query)|
  {
    FilterMonotone(ps, Matcher(tf, sf, query), Matcher(tf, AnyStatus, query));
  }
}

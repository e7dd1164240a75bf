/**
 * The problem record of the tracker and the closed enumerations it is
 * tagged with.
 */
module Records {
  import opened Wrappers

  datatype Status = Solved | Unsolved | Revisit

  datatype Topic =
    | Arrays | Strings | TwoPointers | BinarySearch | Sorting | Greedy
    | DynamicProgramming | Graphs | Trees | Math | Recursion | Backtracking
    | BitManipulation | Stack | Queue | Heap

  datatype Platform = CodeForces | CodeChef | LeetCode | AtCoder | CSES

  /** A calendar date as the tracker stores it, `YYYY-MM-DD`. */
  type Date = string

  /** What the creation form collects; `difficulty` is `None` when the rating did not parse. */
  datatype Draft = Draft(
    name: string,
    difficulty: Option<int>,
    topic: Topic,
    platform: Platform,
    status: Status,
    link: string,
    notes: string)

  /** A tracked problem: the draft's fields plus the id and the two dates. */
  datatype Problem = Problem(
    id: int,
    name: string,
    difficulty: Option<int>,
    topic: Topic,
    platform: Platform,
    status: Status,
    link: string,
    notes: string,
    dateAdded: Date,
    dateSolved: Option<Date>)

  /** The form fields a record carries. */
  function DraftOf(p: Problem): Draft {
    Draft(p.name, p.difficulty, p.topic, p.platform, p.status, p.link, p.notes)
  }

  /** The topic list, in the order the topic chart uses. */
  function AllTopics(): (ts: seq<Topic>)
    ensures |ts| == 16
    ensures forall i, j :: 0 <= i < j < |ts| ==> ts[i] != ts[j]
  {
    [Arrays, Strings, TwoPointers, BinarySearch, Sorting, Greedy,
     DynamicProgramming, Graphs, Trees, Math, Recursion, Backtracking,
     BitManipulation, Stack, Queue, Heap]
  }

  /** The platform list of the creation form. */
  function AllPlatforms(): (ps: seq<Platform>)
    ensures |ps| == 5
    ensures forall i, j :: 0 <= i < j < |ps| ==> ps[i] != ps[j]
  {
    [CodeForces, CodeChef, LeetCode, AtCoder, CSES]
  }

  /** Every topic is on the topic list. */
  lemma AllTopicsComplete(t: Topic)
    ensures t in AllTopics()
  {
    match t {
      case Arrays => case Strings => case TwoPointers => case BinarySearch =>
      case Sorting => case Greedy => case DynamicProgramming => case Graphs =>
      case Trees => case Math => case Recursion => case Backtracking =>
      case BitManipulation => case Stack => case Queue => case Heap =>
    }
  }

  /** Every platform is on the platform list. */
  lemma AllPlatformsComplete(p: Platform)
    ensures p in AllPlatforms()
  {
    match p {
      case CodeForces => case CodeChef => case LeetCode => case AtCoder => case CSES =>
    }
  }

  /** The label the user sees and the chart shows for a topic. */
  function TopicName(t: Topic): string {
    match t
    case Arrays => "Arrays"
    case Strings => "Strings"
    case TwoPointers => "Two Pointers"
    case BinarySearch => "Binary Search"
    case Sorting => "Sorting"
    case Greedy => "Greedy"
    case DynamicProgramming => "Dynamic Programming"
    case Graphs => "Graphs"
    case Trees => "Trees"
    case Math => "Math"
    case Recursion => "Recursion"
    case Backtracking => "Backtracking"
    case BitManipulation => "Bit Manipulation"
    case Stack => "Stack"
    case Queue => "Queue"
    case Heap => "Heap"
  }

  function PlatformName(p: Platform): string {
    match p
    case CodeForces => "CodeForces"
    case CodeChef => "CodeChef"
    case LeetCode => "LeetCode"
    case AtCoder => "AtCoder"
    case CSES => "CSES"
  }

  /** The value a status is stored and selected under. */
  function StatusName(s: Status): string {
    match s
    case Solved => "solved"
    case Unsolved => "unsolved"
    case Revisit => "revisit"
  }

  /** Status values are distinct and none is the filter's "all". */
  lemma StatusNamesDistinct(s1: Status, s2: Status)
    ensures StatusName(s1) == StatusName(s2) <==> s1 == s2
    ensures StatusName(s1) != "all"
  {
  }

  /** Platform labels are distinct. */
  lemma PlatformNamesDistinct(p1: Platform, p2: Platform)
    ensures PlatformName(p1) == PlatformName(p2) <==> p1 == p2
  {
  }

  /**
   * Topic labels are distinct and none is the filter's "all", so comparing
   * labels (as the source does) is comparing topics.
   */
  lemma TopicNamesDistinct(t1: Topic, t2: Topic)
    ensures TopicName(t1) == TopicName(t2) <==> t1 == t2
    ensures TopicName(t1) != "all"
  {
  }
}

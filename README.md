# CP Tracker Pro — a Dafny model of the problem list

CP Tracker Pro is a single React component (`CPTrackerPro.jsx`) in which a
competitive programmer records the problems they attempted — name, rating,
topic, platform, status, link, notes, the day added and the day solved — and
reads summary charts. Everything in it that is not rendering is the problem
list held in the component's state: three mutations that build a new list and
commit it through `saveProblems`, the dashboard aggregates recomputed from the
list on every render, and the filter of the list view.

This project models that core:

- `records.dfy` (`Records`): the `Problem` record, the form `Draft`, and the
  closed `Status`, `Topic` and `Platform` enumerations with the fixed topic and
  platform lists.
- `mutations.dfy` (`Mutations`): the lists built by `addProblem`
  (`NewProblem`, appended), `updateProblemStatus` (`WithStatus`) and
  `deleteProblem` (`Without`), the record invariant "a solving date is present
  exactly when the status is solved", and the "ids are distinct" property.
- `repository.dfy` (`Repository`): the `Tracker` class whose `problems` field
  the methods `Save`, `Add`, `UpdateStatus` and `Delete` reassign; each
  method's contract ties the new list to the functions above. A second field,
  `writes`, logs the lists handed to the storage write.
- `aggregates.dfy` (`Aggregates`): `stats`, `topicStats` and
  `difficultyStats`.
- `filtering.dfy` (`Filtering`): `filteredProblems`.
- `seqs.dfy` (`Seqs`): `Filter`, the model of `Array.prototype.filter` that
  the deletion, the aggregates and the list filter are built from, with its
  order and counting lemmas.
- `text.dfy` (`Text`): the JavaScript string operations the core uses
  (`trim`, `toLowerCase`, `includes`).
- `wrappers.dfy` (`Wrappers`): `Option`, for the `null` solving date and an
  unparsed rating.

Modelling choices:

- The clock, the id source and the storage write are parameters: `today` is
  the date `new Date().toISOString().split('T')[0]` yields, `id` is the value of
  `Date.now()`, and `saveOk` says whether `window.storage.set` succeeded.
- Status, topic and platform are enumerations. The forms only offer their
  values, and no topic label is `"all"` (`Records.TopicNamesDistinct`), so
  comparing labels as the source does is comparing constructors. The filter
  drop-downs are `AnyTopic | OnlyTopic(t)` and `AnyStatus | OnlyStatus(s)`.
- A rating is `Option<int>`: `None` stands for the `NaN` that `parseInt`
  gives for an empty field (`CPTrackerPro.jsx:422`). Every comparison with
  `NaN` is false, so such a record falls in no difficulty bucket.
- A topic entry holds its `Topic`; the chart label is `TopicName(topic)`.
- Four points of the source's behaviour are easy to misread; the model
  follows the code. (1) `saveProblems` writes to storage first and updates the
  list only when the write succeeded, so a failed write leaves the in-memory
  list unchanged. (2) `updateProblemStatus` and `deleteProblem` act on every record
  with the given id, not only on the first. (3) Setting a solved record to
  solved again moves its solving date to today. (4) The stored name is the
  name as typed, not trimmed.

## Model

| member | source | states |
|---|---|---|
| `Records.AllTopics` | CPTrackerPro.jsx:23 | the topic list has 16 entries, no topic twice |
| `Records.AllTopicsComplete` | CPTrackerPro.jsx:23 | every topic is on the topic list |
| `Records.AllPlatforms` | CPTrackerPro.jsx:25 | the platform list has 5 entries, no platform twice |
| `Records.AllPlatformsComplete` | CPTrackerPro.jsx:25 | every platform is on the platform list |
| `Records.TopicNamesDistinct` | CPTrackerPro.jsx:23 | two topics have the same label only if they are the same topic, and no label is the filter's "all" |
| `Records.PlatformNamesDistinct` | CPTrackerPro.jsx:25 | two platforms have the same label only if they are the same platform |
| `Records.StatusNamesDistinct` | CPTrackerPro.jsx:250-253 | two statuses have the same stored string only if they are the same status, and none is the filter's "all" |
| `Text.TrimStart` | CPTrackerPro.jsx:53 | the result is a suffix of the input that does not start with a trimmable character, and everything cut off is trimmable |
| `Text.TrimEnd` | CPTrackerPro.jsx:53 | the result is a prefix of the input that does not end with a trimmable character, and everything cut off is trimmable |
| `Text.Trim` | CPTrackerPro.jsx:53 | the result is a contiguous slice of the input that neither starts nor ends with a trimmable character; everything cut off before and after it is trimmable; it is empty exactly when every character is whitespace or a line terminator |
| `Mutations.IsBlank` | CPTrackerPro.jsx:53 | a name is refused exactly when all of its characters are whitespace, the empty name included |
| `Text.ToLower` | CPTrackerPro.jsx:115 | lower-casing keeps the length and maps each character on its own |
| `Text.IncludesIffOccurs` | CPTrackerPro.jsx:115 | `includes` holds exactly when the query occurs in the string at some position |
| `Text.Includes` | CPTrackerPro.jsx:115 | the empty query is found in every string, and nothing longer than the string is found in it |
| `Mutations.SolvedDate` | CPTrackerPro.jsx:58 | the solving date is present exactly for the solved status, and is today |
| `Mutations.NewProblem` | CPTrackerPro.jsx:55-60 | the new record carries the draft's fields unchanged, the given id, `dateAdded` today, and `dateSolved` today if the draft is solved and null otherwise |
| `Mutations.AppendKeepsConsistent` | CPTrackerPro.jsx:55-62 | appending the new record keeps "solving date present iff solved" for every record |
| `Mutations.AppendKeepsDistinct` | CPTrackerPro.jsx:57-62 | appending a record whose id no record has keeps the ids distinct |
| `Mutations.SetStatus` | CPTrackerPro.jsx:78 | the updated record has the new status, the matching solving date (today or null), and every other field and the id kept |
| `Mutations.WithStatus` | CPTrackerPro.jsx:76-80 | same length; each record with the id is replaced by its status update, every other record is unchanged in place |
| `Mutations.WithStatusUnknownId` | CPTrackerPro.jsx:76-80 | a status update for an id no record has leaves the list equal to the original |
| `Mutations.WithStatusKeepsConsistent` | CPTrackerPro.jsx:76-80 | a status update keeps "solving date present iff solved" for every record |
| `Mutations.WithStatusKeepsDistinct` | CPTrackerPro.jsx:76-80 | a status update keeps the ids distinct |
| `Mutations.Without` | CPTrackerPro.jsx:85 | the result holds exactly the records whose id differs, each as often as before, in their original order |
| `Mutations.WithoutAbsentId` | CPTrackerPro.jsx:85 | deleting an id no record has leaves the list as it was |
| `Mutations.WithoutTwice` | CPTrackerPro.jsx:85 | deleting the same id a second time changes nothing |
| `Mutations.WithoutRemovesOne` | CPTrackerPro.jsx:85 | with distinct ids, deleting a present id removes exactly one record |
| `Mutations.WithoutKeepsConsistent` | CPTrackerPro.jsx:85 | deleting keeps "solving date present iff solved" for every record |
| `Mutations.WithoutKeepsDistinct` | CPTrackerPro.jsx:85 | deleting keeps the ids distinct |
| `Repository.Tracker.constructor` | CPTrackerPro.jsx:7 | the tracker starts with an empty list and no writes, which keeps the invariant |
| `Repository.Tracker.Save` | CPTrackerPro.jsx:43-50 | the new list is written to storage; it replaces the list if the write succeeded, and the list stays as it was otherwise |
| `Repository.Tracker.Add` | CPTrackerPro.jsx:52-62 | a blank name writes nothing and changes nothing; otherwise the old list plus the new record at the end is written, and becomes the list if the write succeeded; the invariant and distinct ids (for an unused id) are kept |
| `Repository.Tracker.UpdateStatus` | CPTrackerPro.jsx:75-82 | the mapped list is written and becomes the list if the write succeeded; an unknown id leaves the list unchanged; the invariant and distinct ids are kept |
| `Repository.Tracker.Delete` | CPTrackerPro.jsx:84-86 | the filtered list is written and becomes the list if the write succeeded, after which no record has the id; an unknown id leaves the list unchanged; the invariant and distinct ids are kept |
| `Seqs.Filter` | CPTrackerPro.jsx:85 | the result holds exactly the passing elements of the input and is no longer than the input |
| `Seqs.FilterMultiplicity` | CPTrackerPro.jsx:85 | each passing element is kept as often as it occurs in the input, every other element is dropped |
| `Seqs.FilterAppend` | CPTrackerPro.jsx:91-93 | filtering a concatenation is concatenating the filtered parts |
| `Seqs.FilterIsSubsequence` | CPTrackerPro.jsx:112-117 | filtering keeps the order of what it keeps |
| `Seqs.FilterKeepsAll` | CPTrackerPro.jsx:85 | filtering returns the input exactly when every element passes |
| `Seqs.SubsequenceNoDuplicates` | CPTrackerPro.jsx:96-100 | a subsequence of a list without duplicates has none |
| `Seqs.FilterIdempotent` | CPTrackerPro.jsx:85 | filtering twice by the same test is filtering once |
| `Aggregates.CountStatus` | CPTrackerPro.jsx:91-93 | a status count is at most the list length, zero exactly when no record has the status, the length exactly when all do |
| `Aggregates.StatsOf` | CPTrackerPro.jsx:89-94 | the total is the list length |
| `Aggregates.StatusCountsAddUp` | CPTrackerPro.jsx:89-94 | solved, unsolved and revisit add up to the total |
| `Aggregates.StatsAfterAppend` | CPTrackerPro.jsx:89-94 | one more record raises the total and its own status count by one and no other count |
| `Aggregates.TopicRow` | CPTrackerPro.jsx:97-99 | a topic's solved count is at most its total, and the total is zero exactly when no record has the topic |
| `Aggregates.TopicRows` | CPTrackerPro.jsx:96-99 | one entry per topic of the list, in the list's order |
| `Aggregates.TopicStats` | CPTrackerPro.jsx:96-100 | at most 16 entries, none with a zero total |
| `Aggregates.TopicStatsDistinct` | CPTrackerPro.jsx:96-100 | no topic has two entries |
| `Aggregates.TopicStatsEntries` | CPTrackerPro.jsx:96-100 | every entry counts its own topic, has a positive total, and no more solved than total |
| `Aggregates.TopicStatsPresence` | CPTrackerPro.jsx:96-100 | a topic has an entry exactly when some record has that topic |
| `Aggregates.TopicStatsOrder` | CPTrackerPro.jsx:96-100 | the entries follow the order of the topic list |
| `Aggregates.TopicTotalsAddUp` | CPTrackerPro.jsx:96-100 | the entries' totals add up to the list length |
| `Aggregates.TopicRowsSum` | CPTrackerPro.jsx:96-99 | over distinct topics, the totals add up to the records having one of them |
| `Aggregates.SumTotalsNonEmpty` | CPTrackerPro.jsx:100 | dropping empty topics leaves the sum of totals unchanged |
| `Aggregates.BucketOf` | CPTrackerPro.jsx:103-106 | over the four range tests `InBucket`, a rating lies in at most one bucket, and in one exactly when it is 800 or more |
| `Aggregates.BucketRow` | CPTrackerPro.jsx:103-106 | a bucket's count is zero exactly when no record's rating is in it |
| `Aggregates.BucketNamesDistinct` | CPTrackerPro.jsx:103-106 | two buckets have the same slice label only if they are the same bucket |
| `Aggregates.BucketRows` | CPTrackerPro.jsx:102-106 | one slice per bucket in the fixed order 800-1000, 1000-1200, 1200-1400, 1400+, each counting its own bucket |
| `Aggregates.DifficultyStats` | CPTrackerPro.jsx:102-107 | at most four slices, and no slice with a zero count |
| `Aggregates.DifficultyStatsEntries` | CPTrackerPro.jsx:102-107 | every slice counts its own bucket and is positive; a bucket has a slice exactly when some record is in it |
| `Aggregates.DifficultyStatsOrder` | CPTrackerPro.jsx:102-107 | the slices keep the fixed bucket order |
| `Aggregates.DifficultyTotalsAddUp` | CPTrackerPro.jsx:102-107 | the slices add up to the records rated 800 or more, so to at most the list length |
| `Aggregates.BucketCountsAddUp` | CPTrackerPro.jsx:103-106 | the four bucket counts add up to the records rated 800 or more |
| `Aggregates.TwoGraphProblems` | CPTrackerPro.jsx:96-100 | two Graphs records, one solved, give a Graphs entry with 1 solved of 2 |
| `Aggregates.TwoRatedProblems` | CPTrackerPro.jsx:102-107 | ratings 850 and 1350 give exactly the 800-1000 and 1200-1400 slices, one record each |
| `Filtering.MatchesTopic` | CPTrackerPro.jsx:113 | a record passes the topic filter exactly when the filter value is "all" or equals the record's topic label |
| `Filtering.MatchesStatus` | CPTrackerPro.jsx:114 | a record passes the status filter exactly when the filter value is "all" or equals the record's status string |
| `Filtering.Matches` | CPTrackerPro.jsx:112-117 | with "all", "all" and an empty search, every record passes |
| `Filtering.MatchesSearch` | CPTrackerPro.jsx:115 | a record passes the search exactly when the lower-cased query occurs in its lower-cased name; an empty query always passes |
| `Filtering.FilteredProblems` | CPTrackerPro.jsx:112-117 | the result holds exactly the records passing all three tests, each as often as before, in their original order |
| `Filtering.ShowAll` | CPTrackerPro.jsx:112-117 | with "all", "all" and an empty search, the whole list is shown in order |
| `Filtering.SearchIgnoresQueryCase` | CPTrackerPro.jsx:115 | a query and its lower-cased form select the same records |
| `Filtering.StatusFilterAgreesWithStats` | CPTrackerPro.jsx:114 | filtering by one status alone shows as many records as the dashboard counts for it |
| `Filtering.TopicFilterAgreesWithStats` | CPTrackerPro.jsx:113 | filtering by one topic alone shows as many records as the topic chart totals for it |
| `Filtering.AnyTopicShowsMore` | CPTrackerPro.jsx:113 | widening the topic filter to "all" keeps every record shown and shows at least as many |
| `Filtering.AnyStatusShowsMore` | CPTrackerPro.jsx:114 | widening the status filter to "all" keeps every record shown and shows at least as many |
| `Repository.SolveOneProblem` | CPTrackerPro.jsx:52-94 | worked example: adding one unsolved problem to a new tracker and marking it solved gives a dashboard of 1 total, 1 solved, 0 unsolved, 0 revisit |

## Left out

- Loading the list from storage (`useEffect`, `CPTrackerPro.jsx:28-40`): it is asynchronous I/O against an external store. The model starts from the empty list, so records with a status, topic or solving date outside the model's types cannot arise.
- `window.storage.set` and `JSON.stringify`/`JSON.parse`: library calls with no visible code. Only the outcome of the write is modelled, as `saveOk`. No encode/decode round trip is claimed.
- `Date.now()` and `new Date()`: the id and `today` are parameters. The source does not guarantee unique ids, so distinct ids are kept only for an id no record has.
- `Mutations.NewProblem`: one `today` stands for the two `new Date()` reads at `CPTrackerPro.jsx:58-59`, so a solved draft gets `dateSolved` equal to `dateAdded`; the source can give two different days when those reads straddle midnight UTC.
- Asynchrony: each mutation reads the list of the render it was called from and awaits the write. Interleaved mutations whose writes overlap are not modelled; each method runs to completion.
- `Text.ToLower`: maps only the ASCII letters. The full Unicode case mapping of `toLowerCase` is not modelled, including mappings that change the length.
- Strings are sequences of Unicode scalar values, not the UTF-16 code units of JavaScript.
- `Aggregates.StatsOf`: states only the total. The three status counts are `CountStatus`, whose contract and `StatusCountsAddUp` give their meaning.
- Rendering, the form's draft reset, the view and modal toggles, the chart colours and the pie chart's percentage label (floating point): presentation only (`CPTrackerPro.jsx:6-11`, `63-72`, `109`, `119-508`).

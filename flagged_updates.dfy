/**
 * The flagged-reports page (app/flagged-updates/page.tsx): the search, status and
 * priority filter over the report list, the per-status tally, the lookup tables for
 * badges and icons, and the Clear Filters reset.
 */
module FlaggedUpdates {
  import opened Wrappers
  import opened Seqs

  datatype PoliticianRef = PoliticianRef(name: string, position: string, photo: string, id: string)

  /** One report. `status` and `priority` are plain strings, as the page compares them. */
  datatype FlaggedUpdate = FlaggedUpdate(
    id: string,
    politician: PoliticianRef,
    issue: string,
    description: string,
    status: string,
    priority: string,
    dateReported: string,
    reportedBy: string,
    category: string,
    evidence: int,
    lastUpdated: string)

  /** The four values the `status` field is declared to take. */
  const Statuses: set<string> := {"Under Review", "Investigating", "Verified", "Dismissed"}

  // ---------------------------------------------------------------------------------------
  // JavaScript string operations used by the search
  // ---------------------------------------------------------------------------------------

  function LowerChar(c: char): char {
    if 'A' <= c <= 'Z' then (c as int + 32) as char else c
  }

  /**
   * `String.prototype.toLowerCase`, on the ASCII letters: each of `A`..`Z` becomes the
   * letter 32 code points later, every other character is kept, and no upper-case
   * ASCII letter is left.
   */
  function ToLower(s: string): (r: string)
    ensures |r| == |s|
    ensures forall i :: 0 <= i < |s| && 'A' <= s[i] <= 'Z' ==> r[i] as int == s[i] as int + 32
    ensures forall i :: 0 <= i < |s| && !('A' <= s[i] <= 'Z') ==> r[i] == s[i]
    ensures forall i :: 0 <= i < |s| ==> !('A' <= r[i] <= 'Z')
  {
    Map(LowerChar, s)
  }

  /** Lowering twice is lowering once. */
  lemma ToLowerIdempotent(s: string)
    ensures ToLower(ToLower(s)) == ToLower(s)
  {
  }

  /** `q` occurs in `s` starting at index `i`. */
  predicate OccursAt(s: string, q: string, i: nat) {
    i + |q| <= |s| && s[i..i + |q|] == q
  }

  /** `String.prototype.includes`: whether `q` occurs anywhere in `s`. */
  function Includes(s: string, q: string): (r: bool)
    ensures r <==> exists i: nat :: OccursAt(s, q, i)
    decreases |s|
  {
    if |q| > |s| then false
    else if s[..|q|] == q then (assert OccursAt(s, q, 0); true)
    else
      var r := Includes(s[1..], q);
      assert forall i: nat :: OccursAt(s[1..], q, i) <==> OccursAt(s, q, i + 1) by {
        forall i: nat ensures OccursAt(s[1..], q, i) <==> OccursAt(s, q, i + 1) {
          if i + |q| <= |s[1..]| {
            assert s[1..][i..i + |q|] == s[i + 1..i + 1 + |q|];
          }
        }
      }
      assert !OccursAt(s, q, 0);
      assert (exists i: nat :: OccursAt(s, q, i)) ==> exists i: nat :: OccursAt(s[1..], q, i) by {
        if exists i: nat :: OccursAt(s, q, i) {
          var i: nat :| OccursAt(s, q, i);
          assert i > 0;
          assert OccursAt(s[1..], q, i - 1);
        }
      }
      r
  }

  /** The empty query occurs in every string. */
  lemma EmptyQueryIncluded(s: string)
    ensures Includes(s, "")
  {
    assert OccursAt(s, "", 0);
  }

  // ---------------------------------------------------------------------------------------
  // The filter
  // ---------------------------------------------------------------------------------------

  /** The filter state; `dateFrom` and `dateTo` are kept and cleared but never read. */
  datatype Filters = Filters(
    searchQuery: string, statusFilter: string, priorityFilter: string, dateFrom: Option<int>, dateTo: Option<int>)

  /** The initial state, which Clear Filters restores. */
  const Cleared := Filters("", "all", "all", None, None)

  /** The Clear Filters handler. */
  function ClearFilters(f: Filters): (r: Filters)
    ensures r.searchQuery == "" && r.statusFilter == "all" && r.priorityFilter == "all"
    ensures r.dateFrom.None? && r.dateTo.None?
  {
    Cleared
  }

  predicate MatchesSearch(u: FlaggedUpdate, query: string) {
    Includes(ToLower(u.politician.name), ToLower(query)) || Includes(ToLower(u.issue), ToLower(query))
  }

  /**
   * The search ignores the case of the query: two queries that lower to the same string
   * keep the same reports, so `"SMITH"`, `"Smith"` and `"smith"` are one search.
   */
  lemma SearchIgnoresQueryCase(u: FlaggedUpdate, q1: string, q2: string)
    requires ToLower(q1) == ToLower(q2)
    ensures MatchesSearch(u, q1) == MatchesSearch(u, q2)
  {
  }

  /** An upper-case query finds what its lower-case form finds. */
  lemma SearchQueryCaseFolds(u: FlaggedUpdate, q: string)
    ensures MatchesSearch(u, q) == MatchesSearch(u, ToLower(q))
  {
    ToLowerIdempotent(q);
    SearchIgnoresQueryCase(u, q, ToLower(q));
  }

  predicate MatchesStatus(u: FlaggedUpdate, statusFilter: string) {
    statusFilter == "all" || u.status == statusFilter
  }

  predicate MatchesPriority(u: FlaggedUpdate, priorityFilter: string) {
    priorityFilter == "all" || u.priority == priorityFilter
  }

  function Keeps(f: Filters): FlaggedUpdate -> bool {
    (u: FlaggedUpdate) =>
      MatchesSearch(u, f.searchQuery) && MatchesStatus(u, f.statusFilter) && MatchesPriority(u, f.priorityFilter)
  }

  /** `filteredUpdates`. */
  function FilteredUpdates(updates: seq<FlaggedUpdate>, f: Filters): (r: seq<FlaggedUpdate>)
    ensures |r| <= |updates|
  {
    Filter(updates, Keeps(f))
  }

  /**
   * The filtered list is an order-preserving subsequence of the reports, and a report is
   * kept iff the lowered query occurs in its lowered politician name or lowered issue, its
   * status matches and its priority matches, where `"all"` matches anything.
   */
  lemma FilteredUpdatesSpec(updates: seq<FlaggedUpdate>, f: Filters)
    ensures IsSubsequence(FilteredUpdates(updates, f), updates)
    ensures forall i :: 0 <= i < |updates| ==>
      (updates[i] in FilteredUpdates(updates, f) <==>
        && ((exists k: nat :: OccursAt(ToLower(updates[i].politician.name), ToLower(f.searchQuery), k)) ||
            (exists k: nat :: OccursAt(ToLower(updates[i].issue), ToLower(f.searchQuery), k)))
        && (f.statusFilter == "all" || updates[i].status == f.statusFilter)
        && (f.priorityFilter == "all" || updates[i].priority == f.priorityFilter))
  {
    FilterIsSubsequence(updates, Keeps(f));
    FilterMembers(updates, Keeps(f));
  }

  /** A report listed twice is shown twice or not at all: the filter keeps every copy of a kept report. */
  lemma FilteredUpdatesMultiplicity(updates: seq<FlaggedUpdate>, f: Filters)
    ensures forall u :: multiset(FilteredUpdates(updates, f))[u] ==
                        if MatchesSearch(u, f.searchQuery) && MatchesStatus(u, f.statusFilter) &&
                           MatchesPriority(u, f.priorityFilter)
                        then multiset(updates)[u] else 0
  {
    forall u ensures multiset(FilteredUpdates(updates, f))[u] ==
      if MatchesSearch(u, f.searchQuery) && MatchesStatus(u, f.statusFilter) && MatchesPriority(u, f.priorityFilter)
      then multiset(updates)[u] else 0
    {
      FilterMultiplicity(updates, Keeps(f), u);
    }
  }

  /** A wildcard status or priority filter removes nothing the other conditions keep. */
  lemma AllIsNoConstraint(updates: seq<FlaggedUpdate>, f: Filters)
    requires f.statusFilter == "all" && f.priorityFilter == "all"
    ensures FilteredUpdates(updates, f) == Filter(updates, (u: FlaggedUpdate) => MatchesSearch(u, f.searchQuery))
  {
    FilterCongruent(updates, Keeps(f), (u: FlaggedUpdate) => MatchesSearch(u, f.searchQuery));
  }

  /** An empty query matches every report. */
  lemma EmptyQueryMatchesAll(u: FlaggedUpdate)
    ensures MatchesSearch(u, "")
  {
    assert ToLower("") == "";
    EmptyQueryIncluded(ToLower(u.politician.name));
  }

  /** After Clear Filters the page shows every report. */
  lemma ClearFiltersShowsAll(updates: seq<FlaggedUpdate>, f: Filters)
    ensures FilteredUpdates(updates, ClearFilters(f)) == updates
  {
    forall i | 0 <= i < |updates| ensures Keeps(ClearFilters(f))(updates[i]) {
      EmptyQueryMatchesAll(updates[i]);
    }
    FilterKeepsAll(updates, Keeps(ClearFilters(f)));
  }

  // ---------------------------------------------------------------------------------------
  // Status tally
  // ---------------------------------------------------------------------------------------

  datatype StatusCounts = StatusCounts(all: nat, underReview: nat, investigating: nat, verified: nat, dismissed: nat)

  function HasStatus(status: string): FlaggedUpdate -> bool {
    (u: FlaggedUpdate) => u.status == status
  }

  function CountStatus(updates: seq<FlaggedUpdate>, status: string): nat {
    |Filter(updates, HasStatus(status))|
  }

  /** `statusCounts`. */
  function Counts(updates: seq<FlaggedUpdate>): StatusCounts {
    StatusCounts(
      |updates|,
      CountStatus(updates, "Under Review"),
      CountStatus(updates, "Investigating"),
      CountStatus(updates, "Verified"),
      CountStatus(updates, "Dismissed"))
  }

  function StatusOf(u: FlaggedUpdate): string {
    u.status
  }

  /** A per-status count is the number of times that status occurs among the reports. */
  lemma {:induction false} CountIsMultiplicity(updates: seq<FlaggedUpdate>, status: string)
    ensures CountStatus(updates, status) == multiset(Map(StatusOf, updates))[status]
  {
    if updates != [] {
      CountIsMultiplicity(updates[1..], status);
      assert Map(StatusOf, updates) == [updates[0].status] + Map(StatusOf, updates[1..]);
    }
  }

  /** When every status is one of the four declared values, the four counts add up to the total. */
  lemma {:induction false} CountsPartition(updates: seq<FlaggedUpdate>)
    requires forall i :: 0 <= i < |updates| ==> updates[i].status in Statuses
    ensures var c := Counts(updates); c.underReview + c.investigating + c.verified + c.dismissed == c.all
  {
    if updates != [] {
      CountsPartition(updates[1..]);
    }
  }

  /** "Showing X of Y": X never exceeds Y. */
  lemma ShowingAtMostTotal(updates: seq<FlaggedUpdate>, f: Filters)
    ensures |FilteredUpdates(updates, f)| <= Counts(updates).all
  {
  }

  // ---------------------------------------------------------------------------------------
  // Lookup tables
  // ---------------------------------------------------------------------------------------

  /** `getStatusColor`: the class for each listed status, blue for anything else. */
  function StatusColor(status: string): (c: string)
    ensures status == "Under Review" ==> c == "bg-yellow-100 text-yellow-800 border-yellow-200"
    ensures status == "Investigating" ==> c == "bg-red-100 text-red-800 border-red-200"
    ensures status == "Verified" ==> c == "bg-green-100 text-green-800 border-green-200"
    ensures status == "Dismissed" ==> c == "bg-gray-100 text-gray-800 border-gray-200"
    ensures c == "bg-blue-100 text-blue-800 border-blue-200" <==> status !in Statuses
  {
    if status == "Under Review" then "bg-yellow-100 text-yellow-800 border-yellow-200"
    else if status == "Investigating" then "bg-red-100 text-red-800 border-red-200"
    else if status == "Verified" then "bg-green-100 text-green-800 border-green-200"
    else if status == "Dismissed" then "bg-gray-100 text-gray-800 border-gray-200"
    else "bg-blue-100 text-blue-800 border-blue-200"
  }

  /** `getPriorityColor`: the class for each listed priority, grey for anything else. */
  function PriorityColor(priority: string): (c: string)
    ensures priority == "High" ==> c == "bg-red-100 text-red-800"
    ensures priority == "Medium" ==> c == "bg-yellow-100 text-yellow-800"
    ensures priority == "Low" ==> c == "bg-green-100 text-green-800"
    ensures c == "bg-gray-100 text-gray-800" <==> priority !in {"High", "Medium", "Low"}
  {
    if priority == "High" then "bg-red-100 text-red-800"
    else if priority == "Medium" then "bg-yellow-100 text-yellow-800"
    else if priority == "Low" then "bg-green-100 text-green-800"
    else "bg-gray-100 text-gray-800"
  }

  datatype StatusIcon = Clock | AlertTriangle | CheckCircle

  /** `getStatusIcon`: a check mark for closed reports, a warning while investigating, a clock otherwise. */
  function IconForStatus(status: string): (icon: StatusIcon)
    ensures icon == CheckCircle <==> status == "Verified" || status == "Dismissed"
    ensures icon == AlertTriangle <==> status == "Investigating"
    ensures icon == Clock <==> status !in {"Verified", "Dismissed", "Investigating"}
  {
    if status == "Under Review" then Clock
    else if status == "Investigating" then AlertTriangle
    else if status == "Verified" then CheckCircle
    else if status == "Dismissed" then CheckCircle
    else Clock
  }
}

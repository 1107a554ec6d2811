/**
 * The explore page (app/explore/page.tsx): the party badge colour table and the page counter
 * moved by the Previous and Next buttons.
 */
module Explore {

  /** The eight listed parties and their badge classes. */
  const PartyColors: map<string, string> := map[
    "Unity Alliance Party" := "bg-red-100 text-red-800",
    "Democratic Reform Party" := "bg-blue-100 text-blue-800",
    "Progressive Vision Movement" := "bg-green-100 text-green-800",
    "People's Justice Party" := "bg-purple-100 text-purple-800",
    "United Citizens Front" := "bg-yellow-100 text-yellow-800",
    "National Development Party" := "bg-indigo-100 text-indigo-800",
    "Front for Change" := "bg-pink-100 text-pink-800",
    "Justice & Equity Party" := "bg-teal-100 text-teal-800"
  ]

  const FallbackPartyColor := "bg-gray-100 text-gray-800"

  /** `getPartyColor`: the listed class for a listed party, grey for any other name. */
  function PartyColor(party: string): (c: string)
    ensures party in PartyColors ==> c == PartyColors[party]
    ensures party !in PartyColors ==> c == FallbackPartyColor
  {
    // Every listed class is non-empty, so `||` falls back only for names not in the table.
    if party in PartyColors && PartyColors[party] != "" then PartyColors[party] else FallbackPartyColor
  }

  /** No listed class is the grey one, so the fallback marks exactly the unlisted names. */
  lemma PartyColorFallbackIffUnlisted(party: string)
    ensures PartyColor(party) == FallbackPartyColor <==> party !in PartyColors
  {
    assert forall p :: p in PartyColors ==> PartyColors[p] != FallbackPartyColor;
  }

  // ---------------------------------------------------------------------------------------
  // Pagination
  // ---------------------------------------------------------------------------------------

  /** The Previous handler, `Math.max(1, currentPage - 1)`. */
  function PreviousPage(page: int): (r: int)
    ensures r >= 1
    ensures page > 1 ==> r == page - 1
    ensures page <= 1 ==> r == 1
  {
    if 1 >= page - 1 then 1 else page - 1
  }

  /** The Next handler, `currentPage + 1`, with no upper bound. */
  function NextPage(page: int): (r: int)
    ensures r == page + 1
  {
    page + 1
  }

  /**
   * Previous undoes Next on every page, and Next undoes Previous everywhere except on the
   * first page, where Previous does nothing and Next then moves on to page 2.
   */
  lemma PreviousNextInverse(page: int)
    requires page >= 1
    ensures PreviousPage(NextPage(page)) == page
    ensures page > 1 ==> NextPage(PreviousPage(page)) == page
    ensures page == 1 ==> NextPage(PreviousPage(page)) == 2
  {
  }

  datatype PageOp = Previous | Next

  /** The page after a run of button presses. */
  function Run(page: int, ops: seq<PageOp>): int
    decreases |ops|
  {
    if ops == [] then page
    else Run(if ops[0] == Previous then PreviousPage(page) else NextPage(page), ops[1..])
  }

  function CountNext(ops: seq<PageOp>): nat {
    if ops == [] then 0 else (if ops[0] == Next then 1 else 0) + CountNext(ops[1..])
  }

  /**
   * From a page of at least 1, no sequence of presses takes the counter below 1, and it rises
   * by at most one per Next.
   */
  lemma {:induction false} RunBounds(page: int, ops: seq<PageOp>)
    requires page >= 1
    ensures 1 <= Run(page, ops) <= page + CountNext(ops)
    decreases |ops|
  {
    if ops != [] {
      var p := if ops[0] == Previous then PreviousPage(page) else NextPage(page);
      RunBounds(p, ops[1..]);
    }
  }

  /** Pressing only Next `k` times moves the counter up exactly `k` pages. */
  lemma {:induction false} RunAllNext(page: int, ops: seq<PageOp>)
    requires forall i :: 0 <= i < |ops| ==> ops[i] == Next
    ensures Run(page, ops) == page + |ops|
    decreases |ops|
  {
    if ops != [] {
      RunAllNext(page + 1, ops[1..]);
    }
  }

  /** The `currentPage` state and its two handlers. */
  class Pagination {
    var currentPage: int
    /** The number of Next presses so far. */
    ghost var nexts: nat

    ghost predicate Valid()
      reads this
    {
      1 <= currentPage <= 1 + nexts
    }

    /** `useState(1)`. */
    constructor()
      ensures Valid()
      ensures currentPage == 1 && nexts == 0
    {
      currentPage := 1;
      nexts := 0;
    }

    /**
     * Whether the Previous button is disabled: exactly on the first page, which is exactly
     * where pressing it would leave the page unchanged.
     */
    function PreviousDisabled(): (d: bool)
      reads this
      ensures d <==> currentPage == 1
      ensures d <==> PreviousPage(currentPage) == currentPage
    {
      currentPage == 1
    }

    method Previous()
      requires Valid()
      modifies this
      ensures Valid()
      ensures currentPage == PreviousPage(old(currentPage)) && nexts == old(nexts)
      ensures old(currentPage) == 1 ==> currentPage == 1
    {
      currentPage := PreviousPage(currentPage);
    }

    method Next()
      requires Valid()
      modifies this
      ensures Valid()
      ensures currentPage == NextPage(old(currentPage)) && nexts == old(nexts) + 1
    {
      currentPage := NextPage(currentPage);
      nexts := nexts + 1;
    }
  }
}

/**
 * The news banner (app/components/news-ticker-banner.tsx): four fixed headlines and a
 * `currentIndex` advanced with `(prev + 1) % newsItems.length` on each tick.
 */
module NewsTickerBanner {
  import opened Rotation

  const NewsItems: seq<string> := [
    "Investigation launched into Kisumu County land deals.",
    "New policy on youth empowerment passed by Parliament.",
    "Public forum on healthcare reforms scheduled for next week.",
    "Politician X responds to public criticism."
  ]

  class Banner {
    var currentIndex: nat
    /** The number of ticks so far. */
    ghost var ticks: nat

    /** The index is the position `ticks` steps round from 0. */
    ghost predicate Valid()
      reads this
    {
      currentIndex == Advance(0, |NewsItems|, ticks)
    }

    /** `useState(0)`. */
    constructor()
      ensures Valid()
      ensures currentIndex == 0 && ticks == 0
    {
      currentIndex := 0;
      ticks := 0;
    }

    /** One run of the interval callback. */
    method Tick()
      requires Valid()
      modifies this
      ensures Valid()
      ensures ticks == old(ticks) + 1
      ensures currentIndex == Next(old(currentIndex), |NewsItems|)
    {
      currentIndex := Next(currentIndex, |NewsItems|);
      ticks := ticks + 1;
    }

    /** `newsItems[currentIndex]`, always a valid position. */
    function Headline(): (h: string)
      requires Valid()
      reads this
      ensures currentIndex < |NewsItems|
      ensures h in NewsItems && h == NewsItems[Advance(0, |NewsItems|, ticks)]
    {
      NewsItems[currentIndex]
    }
  }

  /** The four headlines are different from one another. */
  lemma NewsItemsDistinct()
    ensures |NewsItems| == 4
    ensures forall a, b :: 0 <= a < b < |NewsItems| ==> NewsItems[a] != NewsItems[b]
  {
  }

  /** After four ticks the banner is back on the headline it started from. */
  lemma BannerCycle(ticks: nat)
    ensures Advance(0, |NewsItems|, ticks + 4) == Advance(0, |NewsItems|, ticks)
  {
    AdvancePeriod(0, |NewsItems|, ticks);
  }

  /** The headline on screen after `ticks + k` ticks. */
  function ShownAt(ticks: nat, k: nat): string {
    NewsItems[Advance(0, |NewsItems|, ticks + k)]
  }

  /** Equal headlines sit at equal positions. */
  lemma SameHeadlineSamePosition(a: nat, b: nat)
    requires a < |NewsItems| && b < |NewsItems|
    requires NewsItems[a] == NewsItems[b]
    ensures a == b
  {
    NewsItemsDistinct();
  }

  /** Over any four consecutive ticks each headline is shown exactly once. */
  lemma EachHeadlineOncePerRound(ticks: nat, h: nat)
    requires h < |NewsItems|
    ensures exists k :: 0 <= k < 4 && ShownAt(ticks, k) == NewsItems[h]
    ensures forall k, l ::
      0 <= k < 4 && 0 <= l < 4 && ShownAt(ticks, k) == NewsItems[h] && ShownAt(ticks, l) == NewsItems[h] ==> k == l
  {
    var n := |NewsItems|;
    var start := Advance(0, n, ticks);
    EachPositionOncePerRound(start, n, h);
    var w :| 0 <= w < n && Advance(start, n, w) == h;
    AdvanceAdd(0, n, ticks, w);
    assert ShownAt(ticks, w) == NewsItems[h];
    forall k, l | 0 <= k < 4 && 0 <= l < 4 && ShownAt(ticks, k) == NewsItems[h] && ShownAt(ticks, l) == NewsItems[h]
      ensures k == l
    {
      AdvanceAdd(0, n, ticks, k);
      AdvanceAdd(0, n, ticks, l);
      SameHeadlineSamePosition(Advance(start, n, k), h);
      SameHeadlineSamePosition(Advance(start, n, l), h);
    }
  }
}

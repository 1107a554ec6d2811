/**
 * The alert ticker (app/components/alert-ticker.tsx): a list of alerts and a `currentIndex`
 * that an interval callback advances with `(prev + 1) % alerts.length`; nothing is shown for
 * an empty list, otherwise the alert at the index with an icon chosen by its type.
 */
module AlertTicker {
  import opened Wrappers
  import opened Rotation

  datatype AlertKind = Warning | Info | Urgent

  datatype Alert = Alert(id: string, message: string, kind: AlertKind, timestamp: string)

  /** The alerts the component starts with. */
  const SampleAlerts: seq<Alert> := [
    Alert("1", "New corruption case filed against MP John Doe", Warning, "2 hours ago"),
    Alert("2", "Governor Jane Smith transparency score updated", Info, "4 hours ago"),
    Alert("3", "URGENT: Ethics committee investigation launched", Urgent, "1 hour ago")
  ]

  /**
   * The index as a JavaScript number: a position, or `NaN`, which is what `(prev + 1) % 0`
   * gives once a tick has run on an empty list.
   */
  datatype Index = At(n: nat) | NaN

  class Ticker {
    const alerts: seq<Alert>
    var currentIndex: Index
    /** The number of ticks so far. */
    ghost var ticks: nat

    /**
     * On a non-empty list the index is the position `ticks` steps round from 0; on an empty
     * list it is 0 until the first tick and `NaN` from then on.
     */
    ghost predicate Valid()
      reads this
    {
      if |alerts| > 0 then currentIndex == At(Advance(0, |alerts|, ticks))
      else currentIndex == if ticks == 0 then At(0) else NaN
    }

    /** `useState(0)`. */
    constructor(alerts: seq<Alert>)
      ensures Valid()
      ensures this.alerts == alerts && currentIndex == At(0) && ticks == 0
    {
      this.alerts := alerts;
      currentIndex := At(0);
      ticks := 0;
    }

    /** One run of the interval callback. */
    method Tick()
      requires Valid()
      modifies this
      ensures Valid()
      ensures ticks == old(ticks) + 1
      ensures |alerts| > 0 ==> currentIndex == At(Next(old(currentIndex).n, |alerts|))
      ensures |alerts| == 0 ==> currentIndex == NaN
    {
      if |alerts| == 0 {
        currentIndex := NaN;
      } else {
        currentIndex := At(Next(currentIndex.n, |alerts|));
      }
      ticks := ticks + 1;
    }

    /** The alert on screen: none for an empty list, otherwise the one at the index. */
    function Current(): (a: Option<Alert>)
      requires Valid()
      reads this
      ensures a.None? <==> |alerts| == 0
      ensures a.Some? ==> a.value in alerts && a.value == alerts[Advance(0, |alerts|, ticks)]
    {
      if |alerts| == 0 then None else Some(alerts[currentIndex.n])
    }
  }

  datatype Icon = AlertTriangle | TrendingUp

  /** The warning triangle for urgent alerts, the trend arrow for the rest. */
  function IconOf(a: Alert): (icon: Icon)
    ensures icon == AlertTriangle <==> a.kind == Urgent
    ensures icon == TrendingUp <==> a.kind != Urgent
  {
    if a.kind == Urgent then AlertTriangle else TrendingUp
  }

  /** After as many ticks as there are alerts, the ticker shows the alert it showed before them. */
  lemma AlertsCycle(alerts: seq<Alert>, ticks: nat)
    requires |alerts| > 0
    ensures Advance(0, |alerts|, ticks + |alerts|) == Advance(0, |alerts|, ticks)
    ensures Advance(0, |alerts|, ticks) < |alerts|
  {
    AdvancePeriod(0, |alerts|, ticks);
  }

  /** The starting alerts: three of them, the urgent one last. */
  lemma SampleAlertsShape()
    ensures |SampleAlerts| == 3
    ensures IconOf(SampleAlerts[0]) == TrendingUp && IconOf(SampleAlerts[1]) == TrendingUp
    ensures IconOf(SampleAlerts[2]) == AlertTriangle
  {
  }
}

/**
 * The metric tabs above the globe: three tabs, one of them active, and an
 * information card for the active tab that a second click on that tab hides
 * or shows again. Switching to another tab tells the page which metric is
 * now wanted.
 */
module MetricTabs {
  import opened Wrappers

  datatype Metric = Losses | Fatalities | Buildings

  /** The two state cells of the component. */
  datatype TabState = TabState(activeTab: Metric, cardVisible: bool)

  /** The state the component mounts with. */
  const Initial := TabState(Losses, true)

  /**
   * `handleTabClick(tab)`: the new state, and the metric handed to
   * `onMetricChange` when the click switched tabs.
   */
  function Click(s: TabState, tab: Metric): (r: (TabState, Option<Metric>))
    ensures r.0.activeTab == tab
    ensures r.0.cardVisible <==> tab != s.activeTab || !s.cardVisible
    ensures r.1 == Some(tab) <==> tab != s.activeTab
    ensures r.1 == None <==> tab == s.activeTab
  {
    if tab == s.activeTab then (TabState(s.activeTab, !s.cardVisible), None)
    else (TabState(tab, true), Some(tab))
  }

  /** Clicking the active tab only flips the card and tells nobody. */
  lemma ClickActiveTab(s: TabState)
    ensures Click(s, s.activeTab) == (s.(cardVisible := !s.cardVisible), None)
  {
  }

  /** Clicking the active tab twice gives back the state before. */
  lemma DoubleClickRestores(s: TabState)
    ensures var (s1, n1) := Click(s, s.activeTab);
      var (s2, n2) := Click(s1, s.activeTab);
      s2 == s && n1 == None && n2 == None
  {
  }

  function Notified(n: Option<Metric>): seq<Metric> {
    if n.Some? then [n.value] else []
  }

  /**
   * A sequence of clicks from state `s`: the final state and every metric
   * passed to `onMetricChange`, in order.
   */
  function Run(s: TabState, clicks: seq<Metric>): (r: (TabState, seq<Metric>))
    ensures |r.1| <= |clicks|
    decreases |clicks|
  {
    if clicks == [] then (s, [])
    else
      var (s1, n) := Click(s, clicks[0]);
      var (s2, log) := Run(s1, clicks[1..]);
      (s2, Notified(n) + log)
  }

  /**
   * The callback never hears the same metric twice in a row, its first
   * metric is not the one active at the start, and its last one is the tab
   * active at the end.
   */
  lemma {:induction false} RunNotifications(s: TabState, clicks: seq<Metric>)
    ensures var (t, log) := Run(s, clicks);
      (forall i :: 0 <= i < |log| - 1 ==> log[i] != log[i + 1])
      && (log != [] ==> log[0] != s.activeTab && log[|log| - 1] == t.activeTab)
      && (log == [] ==> t.activeTab == s.activeTab)
    decreases |clicks|
  {
    if clicks != [] {
      var (s1, n) := Click(s, clicks[0]);
      var (s2, log) := Run(s1, clicks[1..]);
      RunNotifications(s1, clicks[1..]);
      var full := Notified(n) + log;
      assert Run(s, clicks) == (s2, full);
      if n.Some? {
        assert full == [clicks[0]] + log;
        assert forall i :: 1 <= i < |full| ==> full[i] == log[i - 1];
      }
    }
  }

  /** Starting from the initial state, the first metric reported is never losses. */
  lemma FirstNotificationIsNotLosses(clicks: seq<Metric>)
    ensures Run(Initial, clicks).1 != [] ==> Run(Initial, clicks).1[0] != Losses
  {
    RunNotifications(Initial, clicks);
  }

  /** After any non-empty click sequence the last tab clicked is the active one. */
  lemma {:induction false} RunEndsOnLastClick(s: TabState, clicks: seq<Metric>)
    requires clicks != []
    ensures Run(s, clicks).0.activeTab == clicks[|clicks| - 1]
    decreases |clicks|
  {
    if |clicks| > 1 {
      var (s1, _) := Click(s, clicks[0]);
      RunEndsOnLastClick(s1, clicks[1..]);
      assert clicks[1..][|clicks| - 2] == clicks[|clicks| - 1];
    }
  }

  // ------------------------------------------------------------------
  // Which card is rendered
  // ------------------------------------------------------------------

  /** The three `cardVisible && activeTab === …` conditions of the markup. */
  function ShownCards(s: TabState): (cards: set<Metric>) {
    (if s.cardVisible && s.activeTab == Losses then {Losses} else {})
    + (if s.cardVisible && s.activeTab == Fatalities then {Fatalities} else {})
    + (if s.cardVisible && s.activeTab == Buildings then {Buildings} else {})
  }

  /** Exactly the active tab's card is shown while the card is visible, and none otherwise. */
  lemma ShownCardIsActiveTab(s: TabState)
    ensures ShownCards(s) == if s.cardVisible then {s.activeTab} else {}
    ensures |ShownCards(s)| <= 1
  {
  }

  // ------------------------------------------------------------------
  // The component
  // ------------------------------------------------------------------

  class MetricTabsView {
    var activeTab: Metric
    var cardVisible: bool

    function State(): TabState
      reads this
    {
      TabState(activeTab, cardVisible)
    }

    constructor()
      ensures State() == Initial
    {
      activeTab := Losses;
      cardVisible := true;
    }

    /** Returns the metric passed to `onMetricChange`, if the click switched tabs. */
    method HandleTabClick(tab: Metric) returns (notify: Option<Metric>)
      modifies this
      ensures (State(), notify) == Click(old(State()), tab)
    {
      if tab == activeTab {
        cardVisible := !cardVisible;
        notify := None;
      } else {
        activeTab := tab;
        cardVisible := true;
        notify := Some(tab);
      }
    }
  }
}

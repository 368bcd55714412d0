// Which inactive runtimes of a thread stay warm (apps/desktop/src/browserManager.ts,
// suspendInactiveTabs): the most recently active ones, by a stable sort.
module BrowserEviction {
  import opened BrowserTypes

  // BROWSER_MAX_WARM_INACTIVE_RUNTIMES_PER_THREAD
  const MAX_WARM: nat := 1

  function StampOf(stamps: map<Key, nat>, thread: ThreadId, tab: TabId): nat {
    if Key(thread, tab) in stamps then stamps[Key(thread, tab)] else 0
  }

  // Before all entries with a smaller stamp, after all others.
  function InsertByRecency(sorted: seq<TabId>, tab: TabId, stamps: map<Key, nat>, thread: ThreadId): (r: seq<TabId>)
    ensures |r| == |sorted| + 1
  {
    if sorted == [] || StampOf(stamps, thread, sorted[|sorted| - 1]) >= StampOf(stamps, thread, tab) then sorted + [tab]
    else InsertByRecency(sorted[..|sorted| - 1], tab, stamps, thread) + [sorted[|sorted| - 1]]
  }

  // tabs.sort((left, right) => stamp(right) - stamp(left))
  function ByRecency(tabs: seq<TabId>, stamps: map<Key, nat>, thread: ThreadId): (r: seq<TabId>)
    ensures |r| == |tabs|
  {
    if tabs == [] then []
    else InsertByRecency(ByRecency(tabs[..|tabs| - 1], stamps, thread), tabs[|tabs| - 1], stamps, thread)
  }

  // .slice(0, MAX_WARM)
  function Warm(tabs: seq<TabId>, stamps: map<Key, nat>, thread: ThreadId): (r: seq<TabId>)
    ensures |r| <= MAX_WARM && |r| <= |tabs|
  {
    var sorted := ByRecency(tabs, stamps, thread);
    if |sorted| > MAX_WARM then sorted[..MAX_WARM] else sorted
  }

  predicate Distinct(tabs: seq<TabId>) {
    forall i, j :: 0 <= i < j < |tabs| ==> tabs[i] != tabs[j]
  }

  // The place of a tab in the order of the tabs.
  function Place(tabs: seq<TabId>, tab: TabId): (i: nat)
    requires tab in tabs
    ensures i < |tabs| && tabs[i] == tab
  {
    if tabs[|tabs| - 1] == tab then |tabs| - 1
    else
      assert tab in tabs[..|tabs| - 1];
      Place(tabs[..|tabs| - 1], tab)
  }

  // One tab outlasts another: more recently active, or as recent and earlier in order.
  predicate Outlasts(a: TabId, b: TabId, tabs: seq<TabId>, stamps: map<Key, nat>, thread: ThreadId)
    requires a in tabs && b in tabs
  {
    StampOf(stamps, thread, a) > StampOf(stamps, thread, b)
    || (StampOf(stamps, thread, a) == StampOf(stamps, thread, b) && Place(tabs, a) < Place(tabs, b))
  }

  lemma {:induction false} InsertHas(sorted: seq<TabId>, tab: TabId, stamps: map<Key, nat>, thread: ThreadId)
    ensures forall t :: t in InsertByRecency(sorted, tab, stamps, thread) <==> t in sorted || t == tab
  {
    if !(sorted == [] || StampOf(stamps, thread, sorted[|sorted| - 1]) >= StampOf(stamps, thread, tab)) {
      InsertHas(sorted[..|sorted| - 1], tab, stamps, thread);
      assert sorted == sorted[..|sorted| - 1] + [sorted[|sorted| - 1]];
    }
  }

  // Each entry outlasts the ones behind it.
  ghost predicate Descending(sorted: seq<TabId>, tabs: seq<TabId>, stamps: map<Key, nat>, thread: ThreadId) {
    && (forall t :: t in sorted ==> t in tabs)
    && (forall i, j :: 0 <= i < j < |sorted| && sorted[i] in tabs && sorted[j] in tabs ==>
          Outlasts(sorted[i], sorted[j], tabs, stamps, thread))
  }

  lemma DescendingMore(sorted: seq<TabId>, tab: TabId, tabs: seq<TabId>, stamps: map<Key, nat>, thread: ThreadId)
    requires Descending(sorted, tabs, stamps, thread) && tab in tabs
    requires forall t :: t in sorted && t in tabs ==> Outlasts(t, tab, tabs, stamps, thread)
    ensures Descending(sorted + [tab], tabs, stamps, thread)
  {
  }

  lemma DescendingLess(sorted: seq<TabId>, tabs: seq<TabId>, stamps: map<Key, nat>, thread: ThreadId)
    requires sorted != [] && Descending(sorted, tabs, stamps, thread)
    ensures var rest, last := sorted[..|sorted| - 1], sorted[|sorted| - 1];
            && Descending(rest, tabs, stamps, thread) && last in tabs
            && forall t :: t in rest ==> t in tabs && Outlasts(t, last, tabs, stamps, thread)
  {
  }

  lemma OutlastsAll(a: TabId, b: TabId, c: TabId, tabs: seq<TabId>, stamps: map<Key, nat>, thread: ThreadId)
    requires a in tabs && b in tabs && c in tabs
    ensures Outlasts(a, b, tabs, stamps, thread) && Outlasts(b, c, tabs, stamps, thread) ==>
              Outlasts(a, c, tabs, stamps, thread)
    ensures a != c && Place(tabs, c) == |tabs| - 1 && StampOf(stamps, thread, a) >= StampOf(stamps, thread, c) ==>
              Outlasts(a, c, tabs, stamps, thread)
    ensures StampOf(stamps, thread, c) > StampOf(stamps, thread, a) ==> Outlasts(c, a, tabs, stamps, thread)
  {
  }

  // Inserting the last tab of the order.
  lemma {:induction false} InsertDescending(sorted: seq<TabId>, tab: TabId, tabs: seq<TabId>, stamps: map<Key, nat>,
                                            thread: ThreadId)
    requires Descending(sorted, tabs, stamps, thread) && tab !in sorted
    requires tab in tabs && Place(tabs, tab) == |tabs| - 1
    ensures Descending(InsertByRecency(sorted, tab, stamps, thread), tabs, stamps, thread)
  {
    hide Descending, Outlasts, StampOf, Place;
    if sorted == [] {
      assert sorted + [tab] == [tab];
      DescendingOne(tab, tabs, stamps, thread);
    } else {
      var rest, last := sorted[..|sorted| - 1], sorted[|sorted| - 1];
      assert sorted == rest + [last];
      DescendingLess(sorted, tabs, stamps, thread);
      if StampOf(stamps, thread, last) >= StampOf(stamps, thread, tab) {
        forall t | t in sorted && t in tabs
          ensures Outlasts(t, tab, tabs, stamps, thread)
        {
          OutlastsAll(last, tab, tab, tabs, stamps, thread);
          OutlastsAll(t, last, tab, tabs, stamps, thread);
        }
        DescendingMore(sorted, tab, tabs, stamps, thread);
      } else {
        InsertDescending(rest, tab, tabs, stamps, thread);
        InsertHas(rest, tab, stamps, thread);
        var before := InsertByRecency(rest, tab, stamps, thread);
        forall t | t in before && t in tabs
          ensures Outlasts(t, last, tabs, stamps, thread)
        {
          OutlastsAll(last, tab, tab, tabs, stamps, thread);
        }
        DescendingMore(before, last, tabs, stamps, thread);
      }
    }
  }

  lemma DescendingOne(tab: TabId, tabs: seq<TabId>, stamps: map<Key, nat>, thread: ThreadId)
    requires tab in tabs
    ensures Descending([], tabs, stamps, thread) && Descending([tab], tabs, stamps, thread)
  {
  }

  lemma DescendingLonger(sorted: seq<TabId>, tabs: seq<TabId>, last: TabId, stamps: map<Key, nat>, thread: ThreadId)
    requires Descending(sorted, tabs, stamps, thread) && last !in tabs
    ensures Descending(sorted, tabs + [last], stamps, thread)
  {
  }

  lemma {:induction false} RecencyDescending(tabs: seq<TabId>, stamps: map<Key, nat>, thread: ThreadId)
    requires Distinct(tabs)
    ensures Descending(ByRecency(tabs, stamps, thread), tabs, stamps, thread)
    ensures forall t :: t in ByRecency(tabs, stamps, thread) <==> t in tabs
  {
    if tabs != [] {
      hide Descending, Place;
      var rest, last := tabs[..|tabs| - 1], tabs[|tabs| - 1];
      RecencyDescending(rest, stamps, thread);
      assert tabs == rest + [last];
      var sorted := ByRecency(rest, stamps, thread);
      DescendingLonger(sorted, rest, last, stamps, thread);
      LastPlace(rest, last);
      InsertHas(sorted, last, stamps, thread);
      InsertDescending(sorted, last, tabs, stamps, thread);
    }
  }

  lemma LastPlace(tabs: seq<TabId>, last: TabId)
    ensures Place(tabs + [last], last) == |tabs|
  {
  }

  // The warm tabs are the ones that outlast every other candidate.
  lemma WarmOutlasts(tabs: seq<TabId>, stamps: map<Key, nat>, thread: ThreadId, kept: TabId, dropped: TabId)
    requires Distinct(tabs) && kept in Warm(tabs, stamps, thread)
    requires dropped in tabs && dropped !in Warm(tabs, stamps, thread)
    ensures kept in tabs && Outlasts(kept, dropped, tabs, stamps, thread)
  {
    hide Outlasts, ByRecency;
    RecencyDescending(tabs, stamps, thread);
    var sorted := ByRecency(tabs, stamps, thread);
    var warm := Warm(tabs, stamps, thread);
    assert forall i :: 0 <= i < |warm| ==> warm[i] == sorted[i];
    var i :| 0 <= i < |warm| && warm[i] == kept;
    var j :| 0 <= j < |sorted| && sorted[j] == dropped;
    assert forall m :: 0 <= m < |warm| ==> warm[m] != dropped;
  }

  lemma WarmAreCandidates(tabs: seq<TabId>, stamps: map<Key, nat>, thread: ThreadId)
    requires Distinct(tabs)
    ensures forall t :: t in Warm(tabs, stamps, thread) ==> t in tabs
    ensures |tabs| <= MAX_WARM ==> forall t :: t in tabs ==> t in Warm(tabs, stamps, thread)
  {
    RecencyDescending(tabs, stamps, thread);
    var sorted, warm := ByRecency(tabs, stamps, thread), Warm(tabs, stamps, thread);
    assert forall i :: 0 <= i < |warm| ==> warm[i] == sorted[i];
    assert forall i :: 0 <= i < |warm| ==> sorted[i] in sorted;
  }
}

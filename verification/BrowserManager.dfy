// The browser runtime manager (apps/desktop/src/browserManager.ts): threads, their tabs,
// the live runtimes of tabs, and the one attached to the window.
//
// A method that may throw returns whether it ran to its end. What Electron decides is an
// argument or an event. A tab's status is its membership in `live`.
module BrowserManager {
  import opened Wrappers
  import opened BrowserTypes
  import opened BrowserDownloads
  import opened BrowserInputs
  import opened BrowserWindowOpens
  import opened BrowserEviction

  datatype Thread = Thread(open: bool, active: Option<TabId>, tabs: seq<TabId>)

  // serial is the identity of the runtime object.
  datatype Runtime = Runtime(page: WebContents, serial: nat)

  // ---- Invariants ----

  // Tab ids are distinct, and the active one is null exactly when there are none.
  predicate ThreadOk(t: Thread, nextTab: nat) {
    && Distinct(t.tabs)
    && (forall i :: 0 <= i < |t.tabs| ==> t.tabs[i] < nextTab)
    && (t.active.None? <==> t.tabs == [])
    && (t.active.Some? ==> t.active.value in t.tabs)
  }

  ghost predicate ThreadsOk(threads: map<ThreadId, Thread>, nextTab: nat) {
    forall t :: t in threads ==> ThreadOk(threads[t], nextTab)
  }

  predicate HasTab(threads: map<ThreadId, Thread>, key: Key) {
    key.thread in threads && key.tab in threads[key.thread].tabs
  }

  // Every runtime belongs to an existing tab.
  ghost predicate RuntimesOk(runtimes: map<Key, Runtime>, threads: map<ThreadId, Thread>) {
    forall k :: k in runtimes ==> HasTab(threads, k)
  }

  // No two runtimes share a page, or are the same object.
  ghost predicate PagesOk(runtimes: map<Key, Runtime>, nextView: nat, serial: nat) {
    && (forall k :: k in runtimes ==>
          runtimes[k].serial < serial && !runtimes[k].page.Popup?
          && (runtimes[k].page.Native? ==> runtimes[k].page.n < nextView))
    && (forall k, l :: k in runtimes && l in runtimes && k != l ==>
          runtimes[k].page != runtimes[l].page && runtimes[k].serial != runtimes[l].serial)
  }

  // The attached runtime is none or a live one.
  predicate AttachedOk(attached: Option<Key>, runtimes: map<Key, Runtime>) {
    attached.Some? ==> attached.value in runtimes
  }

  // The tab of a pending commit is nowhere yet, and no tab id will be given again.
  ghost predicate ReservedOk(commits: map<Key, Commit>, log: seq<BrowserWindowOpens.Note>,
                             threads: map<ThreadId, Thread>, nextTab: nat)
  {
    && (forall k :: k in commits ==> commits[k].tab < nextTab)
    && (forall k, t :: k in commits && t in threads ==> commits[k].tab !in threads[t].tabs)
    && (forall i :: 0 <= i < |log| && log[i].Committed? ==> log[i].tab < nextTab)
  }

  lemma WithoutRuntime(runtimes: map<Key, Runtime>, threads: map<ThreadId, Thread>, nextView: nat, serial: nat, key: Key)
    requires RuntimesOk(runtimes, threads) && PagesOk(runtimes, nextView, serial)
    ensures RuntimesOk(runtimes - {key}, threads) && PagesOk(runtimes - {key}, nextView, serial)
    ensures key !in runtimes ==> runtimes - {key} == runtimes
  {
  }

  lemma WithRuntime(runtimes: map<Key, Runtime>, threads: map<ThreadId, Thread>, nextView: nat, serial: nat, key: Key,
                    page: WebContents)
    requires RuntimesOk(runtimes, threads) && PagesOk(runtimes, nextView, serial)
    requires HasTab(threads, key) && !page.Popup? && (page.Native? ==> page.n == nextView)
    requires forall k :: k in runtimes && k != key ==> runtimes[k].page != page
    ensures RuntimesOk(runtimes[key := Runtime(page, serial)], threads)
    ensures PagesOk(runtimes[key := Runtime(page, serial)], nextView + if page.Native? then 1 else 0, serial + 1)
  {
    hide HasTab;
  }

  lemma NativePageIsNew(runtimes: map<Key, Runtime>, nextView: nat, serial: nat)
    requires PagesOk(runtimes, nextView, serial)
    ensures forall k :: k in runtimes ==> runtimes[k].page != Native(nextView)
  {
  }

  lemma WithoutCommit(commits: map<Key, Commit>, log: seq<BrowserWindowOpens.Note>, threads: map<ThreadId, Thread>,
                      nextTab: nat, key: Key)
    requires ReservedOk(commits, log, threads, nextTab)
    ensures ReservedOk(commits - {key}, log, threads, nextTab)
  {
  }

  lemma ThreadChanged(threads: map<ThreadId, Thread>, t: ThreadId, th: Thread, nextTab: nat, last: nat,
                      runtimes: map<Key, Runtime>, commits: map<Key, Commit>, log: seq<BrowserWindowOpens.Note>)
    requires ThreadsOk(threads, nextTab) && RuntimesOk(runtimes, threads) && ReservedOk(commits, log, threads, nextTab)
    requires nextTab <= last && ThreadOk(th, last)
    requires forall k :: k in runtimes && k.thread == t ==> k.tab in th.tabs
    requires forall k :: k in commits ==> commits[k].tab !in th.tabs
    ensures ThreadsOk(threads[t := th], last) && RuntimesOk(runtimes, threads[t := th])
    ensures ReservedOk(commits, log, threads[t := th], last)
  {
    forall u | u in threads
      ensures ThreadOk(threads[u], last)
    {
      assert ThreadOk(threads[u], nextTab);
    }
  }

  // The tabs of a thread, but for the active one, that have a runtime, in order.
  function Inactive(tabs: seq<TabId>, active: Option<TabId>, running: set<Key>, thread: ThreadId): (r: seq<TabId>)
    ensures forall t :: t in r <==> t in tabs && Some(t) != active && Key(thread, t) in running
    ensures Distinct(tabs) ==> Distinct(r)
  {
    if tabs == [] then []
    else
      var last := tabs[|tabs| - 1];
      var rest := Inactive(tabs[..|tabs| - 1], active, running, thread);
      if Some(last) != active && Key(thread, last) in running then rest + [last] else rest
  }

  datatype Rest = Rest(threads: map<ThreadId, Thread>, runtimes: map<Key, Runtime>, live: set<Key>,
                       lastActive: map<Key, nat>, provenance: map<Key, nat>, queues: map<Key, seq<Pending>>,
                       commits: map<Key, Commit>, tasks: map<Key, Task>)

  // Of the inactive tabs exactly the most recently active ones kept their runtime.
  ghost predicate IsTrimmed(tabs: seq<TabId>, active: Option<TabId>, thread: ThreadId, before: map<Key, Runtime>,
                            stamps: map<Key, nat>, after: map<Key, Runtime>)
  {
    var warm := Warm(Inactive(tabs, active, before.Keys, thread), stamps, thread);
    forall tab :: tab in tabs && Some(tab) != active ==> (Key(thread, tab) in after <==> tab in warm)
  }

  lemma StaysTrimmed(tabs: seq<TabId>, active: Option<TabId>, thread: ThreadId, before: map<Key, Runtime>,
                     stamps: map<Key, nat>, after: map<Key, Runtime>, later: map<Key, Runtime>)
    requires IsTrimmed(tabs, active, thread, before, stamps, after)
    requires active.Some? && after - {Key(thread, active.value)} == later - {Key(thread, active.value)}
    ensures IsTrimmed(tabs, active, thread, before, stamps, later)
  {
    hide Warm, Inactive;
    var key := Key(thread, active.value);
    forall k: Key | k != key
      ensures k in after <==> k in later
    {
      assert k in after <==> k in after - {key};
      assert k in later <==> k in later - {key};
    }
  }

  class DesktopBrowserManager {
    const downloads: AutomationDownloads
    const inputs: AutomationInputs
    const opens: WindowOpens
    var threads: map<ThreadId, Thread>
    var live: set<Key>
    var runtimes: map<Key, Runtime>
    var attached: Option<Key>
    var rendererOnly: set<Key>
    var lastActive: map<Key, nat>
    var activeThread: Option<ThreadId>
    var boundsThread: Option<ThreadId>      // whose panel bounds are set
    var hasWindow: bool
    var tabTimers: set<Key>
    var threadTimers: set<ThreadId>
    var popups: map<nat, Key>
    var destroyed: set<WebContents>
    var disposed: bool
    var nextTab: nat
    var nextView: nat
    var serial: nat
    var now: nat

    ghost predicate Valid()
      reads this, downloads, inputs, opens
    {
      && ThreadsOk(threads, nextTab)
      && RuntimesOk(runtimes, threads)
      && PagesOk(runtimes, nextView, serial)
      && AttachedOk(attached, runtimes)
      && ReservedOk(opens.commits, opens.log, threads, nextTab)
      && downloads.Valid() && inputs.Valid() && opens.Valid()
    }

    // What there is of the other threads: their tabs and runtimes, what is recorded about
    // these, the attribution of their pages, and what is pending for them.
    ghost function Elsewhere(t: ThreadId): Rest
      reads this`threads, this`runtimes, this`live, this`lastActive, downloads`provenance, inputs`queues,
        opens`commits, opens`tasks
    {
      Rest(threads - {t}, Others(runtimes, t), OthersIn(live, t), Others(lastActive, t), Others(downloads.provenance, t),
           Others(inputs.queues, t), Others(opens.commits, t), Others(opens.tasks, t))
    }

    // A tab gets its runtime, or is suspended.
    method MarkLive(key: Key, on: bool)
      requires Valid()
      modifies this`live
      ensures Valid() && live == (if on then old(live) + {key} else old(live) - {key})
      ensures Elsewhere(key.thread) == old(Elsewhere(key.thread))
    {
      OthersInChange(live, key);
      live := if on then live + {key} else live - {key};
    }

    constructor ()
      ensures Valid() && threads == map[] && runtimes == map[]
      ensures fresh(downloads) && fresh(inputs) && fresh(opens)
    {
      downloads := new AutomationDownloads();
      inputs := new AutomationInputs();
      opens := new WindowOpens();
      threads, live, runtimes, attached, rendererOnly, lastActive := map[], {}, map[], None, {}, map[];
      activeThread, boundsThread, hasWindow, tabTimers, threadTimers, popups := None, None, false, {}, {}, map[];
      destroyed, disposed, nextTab, nextView, serial, now := {}, false, 0, 0, 0, 0;
    }

    // The part of destroyRuntime about what is recorded and pending for a page.
    method ForgetPage(key: Key, preserve: bool)
      requires Valid()
      modifies this`lastActive, this`tabTimers, downloads, inputs, opens
      ensures Valid()
      ensures tabTimers == old(tabTimers) - {key} && lastActive == old(lastActive) - {key}
      ensures opens.commits == old(opens.commits) - {key} && opens.tasks == old(opens.tasks) - {key}
      ensures opens.publications == old(opens.publications) - {key}
      ensures opens.log == old(opens.log) && opens.listeners == old(opens.listeners) - {key}
      ensures downloads.log == old(downloads.log) + [TornDown(key, preserve)]
      ensures downloads.provenance == if preserve then old(downloads.provenance) else old(downloads.provenance) - {key}
      ensures downloads.listeners == if preserve then old(downloads.listeners) else old(downloads.listeners) - {key}
      ensures inputs.queues == old(inputs.queues) - {key}
      ensures inputs.depth == if preserve && (key in old(downloads.listeners) || key in old(downloads.provenance))
                              then old(inputs.depth) else old(inputs.depth) - {key}
    {
      hide AutomationDownloads.Valid, AutomationInputs.Valid, WindowOpens.Valid, ThreadsOk, RuntimesOk, PagesOk, ReservedOk,
        AttachedOk, Elsewhere;
      WithoutCommit(opens.commits, opens.log, threads, nextTab, key);
      var preserved := downloads.TearDown(key, preserve);
      opens.TearDown(key);
      inputs.TearDown(key, preserved);
      tabTimers := tabTimers - {key};
      lastActive := lastActive - {key};
    }

    // destroyRuntime
    method DestroyRuntime(key: Key, preserve: bool)
      requires Valid()
      modifies this`runtimes, this`attached, this`lastActive, this`tabTimers, this`destroyed, downloads, inputs, opens
      ensures Valid() && Elsewhere(key.thread) == old(Elsewhere(key.thread))
      ensures runtimes == old(runtimes) - {key} && tabTimers == old(tabTimers) - {key}
      ensures lastActive == old(lastActive) - {key}
      ensures attached == if old(attached) == Some(key) then None else old(attached)
      ensures destroyed == old(destroyed) + if key in old(runtimes) && old(runtimes[key]).page.Native?
                                            then {old(runtimes[key]).page} else {}
      ensures opens.commits == old(opens.commits) - {key} && opens.tasks == old(opens.tasks) - {key}
      ensures opens.log == old(opens.log) && inputs.queues == old(inputs.queues) - {key}
      ensures downloads.log == old(downloads.log) + [TornDown(key, preserve)]
      ensures downloads.provenance == if preserve then old(downloads.provenance) else old(downloads.provenance) - {key}
      ensures opens.publications == old(opens.publications) - {key}
    {
      hide AutomationDownloads.Valid, AutomationInputs.Valid, WindowOpens.Valid, ThreadsOk, RuntimesOk, PagesOk, ReservedOk,
        Others, OthersIn;
      WithoutRuntime(runtimes, threads, nextView, serial, key);
      PageChange(key);
      ForgetPage(key, preserve);
      if key !in runtimes {
        return;
      }
      if attached == Some(key) {
        attached := None;
      }
      if runtimes[key].page.Native? {
        destroyed := destroyed + {runtimes[key].page};
      }
      runtimes := runtimes - {key};
    }

    // Taking a page out of what is recorded is nothing to the other threads.
    lemma PageChange(key: Key)
      ensures Others(runtimes - {key}, key.thread) == Others(runtimes, key.thread)
      ensures Others(lastActive - {key}, key.thread) == Others(lastActive, key.thread)
      ensures Others(downloads.provenance - {key}, key.thread) == Others(downloads.provenance, key.thread)
      ensures Others(inputs.queues - {key}, key.thread) == Others(inputs.queues, key.thread)
      ensures Others(opens.commits - {key}, key.thread) == Others(opens.commits, key.thread)
      ensures Others(opens.tasks - {key}, key.thread) == Others(opens.tasks, key.thread)
    {
    }

    // No page of the thread is attributed to the agent.
    ghost predicate Unattributed(t: ThreadId)
      reads downloads
    {
      forall k :: k in downloads.provenance ==> k.thread != t
    }

    // markHumanControl
    method MarkHumanControl(thread: ThreadId)
      requires Valid()
      modifies downloads
      ensures Valid()
      ensures Elsewhere(thread) == old(Elsewhere(thread))
      ensures downloads.log == old(downloads.log) + [HumanControl(thread)]
      ensures Unattributed(thread) && downloads.provenance.Keys <= old(downloads.provenance).Keys
    {
      hide Marked, Grouped, QueuesOk, OneShot, Counts, PendingOk, CommittedOnce, ThreadsOk, RuntimesOk, PagesOk, ReservedOk;
      downloads.MarkHumanControl(thread);
    }

    // ---- Threads and tabs ----

    method UpdateThread(t: ThreadId, th: Thread, last: nat)
      requires Valid() && nextTab <= last && ThreadOk(th, last)
      requires forall k :: k in runtimes && k.thread == t ==> k.tab in th.tabs
      requires forall k :: k in opens.commits ==> opens.commits[k].tab !in th.tabs
      modifies this`threads, this`nextTab
      ensures Valid() && threads == old(threads)[t := th] && nextTab == last
      ensures Elsewhere(t) == old(Elsewhere(t))
    {
      hide AutomationDownloads.Valid, AutomationInputs.Valid, WindowOpens.Valid, ThreadsOk, RuntimesOk, PagesOk, ReservedOk,
        ThreadOk;
      ThreadChanged(threads, t, th, nextTab, last, runtimes, opens.commits, opens.log);
      threads := threads[t := th];
      nextTab := last;
    }

    // getOrCreateState
    method GetOrCreate(t: ThreadId)
      requires Valid()
      modifies this`threads
      ensures Valid() && t in threads
      ensures Elsewhere(t) == old(Elsewhere(t))
      ensures threads == if t in old(threads) then old(threads) else old(threads)[t := Thread(false, None, [])]
    {
      hide AutomationDownloads.Valid, AutomationInputs.Valid, WindowOpens.Valid, ThreadsOk, PagesOk;
      if t !in threads {
        ThreadChanged(threads, t, Thread(false, None, []), nextTab, nextTab, runtimes, opens.commits, opens.log);
        hide ReservedOk, RuntimesOk;
        threads := threads[t := Thread(false, None, [])];
      }
    }

    method SetOpen(t: ThreadId)
      requires Valid() && t in threads
      modifies this`threads
      ensures Valid() && threads == old(threads)[t := old(threads[t]).(open := true)]
      ensures Elsewhere(t) == old(Elsewhere(t))
    {
      SetThread(t, threads[t].(open := true));
    }

    method SetActive(t: ThreadId, tab: TabId)
      requires Valid() && HasTab(threads, Key(t, tab))
      modifies this`threads
      ensures Valid() && threads == old(threads)[t := old(threads[t]).(active := Some(tab))]
      ensures Elsewhere(t) == old(Elsewhere(t))
    {
      SetThread(t, threads[t].(active := Some(tab)));
    }

    // A change that keeps the tabs of the thread.
    method SetThread(t: ThreadId, th: Thread)
      requires Valid() && t in threads && th.tabs == threads[t].tabs
      requires ThreadOk(threads[t], nextTab) ==> ThreadOk(th, nextTab)
      modifies this`threads
      ensures Valid() && threads == old(threads)[t := th]
      ensures Elsewhere(t) == old(Elsewhere(t))
    {
      hide AutomationDownloads.Valid, AutomationInputs.Valid, WindowOpens.Valid, PagesOk, ThreadOk;
      ThreadChanged(threads, t, th, nextTab, nextTab, runtimes, opens.commits, opens.log);
      hide ReservedOk, RuntimesOk, ThreadsOk;
      threads := threads[t := th];
    }

    // A new tab at the end.
    method AppendTab(t: ThreadId, activate: bool) returns (tab: TabId)
      requires Valid() && t in threads
      modifies this`threads, this`nextTab
      ensures Valid() && tab == old(nextTab) && nextTab == tab + 1
      ensures Elsewhere(t) == old(Elsewhere(t))
      ensures var before := old(threads[t]);
              threads == old(threads)[t := Thread(before.open,
                                                  if activate || before.active.None? then Some(tab) else before.active,
                                                  before.tabs + [tab])]
    {
      hide AutomationDownloads.Valid, AutomationInputs.Valid, WindowOpens.Valid, PagesOk, Elsewhere;
      tab := nextTab;
      var before := threads[t];
      assert ThreadOk(before, nextTab);
      var active := if activate || before.active.None? then Some(tab) else before.active;
      UpdateThread(t, Thread(before.open, active, before.tabs + [tab]), tab + 1);
    }

    // ensureWorkspace: a thread with at least one tab. By the invariant its active tab is
    // one of them already.
    method EnsureWorkspace(t: ThreadId)
      requires Valid()
      modifies this`threads, this`nextTab
      ensures Valid() && t in threads && threads[t].tabs != [] && threads[t].active.Some?
      ensures Elsewhere(t) == old(Elsewhere(t))
      ensures t in old(threads) && old(threads[t]).tabs != [] ==> threads == old(threads) && nextTab == old(nextTab)
      ensures t !in old(threads) || old(threads[t]).tabs == [] ==>
                nextTab == old(nextTab) + 1
                && threads == old(threads)[t := Thread(t in old(threads) && old(threads[t]).open,
                                                       Some(old(nextTab)), [old(nextTab)])]
    {
      hide AutomationDownloads.Valid, AutomationInputs.Valid, WindowOpens.Valid, RuntimesOk, PagesOk, ReservedOk, AttachedOk,
        Elsewhere;
      GetOrCreate(t);
      assert ThreadOk(threads[t], nextTab);
      if threads[t].tabs == [] {
        var tab := AppendTab(t, true);
        assert [] + [tab] == [tab];
        assert threads == old(threads)[t := threads[t]];
      }
    }

    // ---- Runtimes ----

    method AttachRuntime(key: Key)
      requires Valid() && key in runtimes
      modifies this`attached, this`lastActive
      ensures Valid() && attached == if hasWindow then Some(key) else old(attached)
      ensures lastActive == if hasWindow then old(lastActive)[key := now] else old(lastActive)
      ensures Elsewhere(key.thread) == old(Elsewhere(key.thread))
    {
      if hasWindow {
        OthersChange(lastActive, key, now);
        lastActive := lastActive[key := now];
        attached := Some(key);
      }
    }

    method DetachAttachedRuntime()
      requires Valid()
      modifies this`attached
      ensures Valid() && attached == None
    {
      attached := None;
    }

    // The runtime object of a key; a page of our own is new.
    method StoreRuntime(key: Key, page: WebContents)
      requires Valid() && HasTab(threads, key) && !page.Popup? && (page.Native? ==> page.n == nextView)
      requires forall k :: k in runtimes && k != key ==> runtimes[k].page != page
      modifies this`runtimes, this`nextView, this`serial
      ensures Valid() && runtimes == old(runtimes)[key := Runtime(page, old(serial))] && serial == old(serial) + 1
      ensures Elsewhere(key.thread) == old(Elsewhere(key.thread))
    {
      hide AutomationDownloads.Valid, AutomationInputs.Valid, WindowOpens.Valid, ThreadsOk, ReservedOk, RuntimesOk, PagesOk,
        HasTab;
      WithRuntime(runtimes, threads, nextView, serial, key, page);
      OthersChange(runtimes, key, Runtime(page, serial));
      runtimes := runtimes[key := Runtime(page, serial)];
      serial := serial + 1;
      if page.Native? {
        nextView := nextView + 1;
      }
    }

    // ensureLiveRuntime; it throws for a tab that waits for its renderer.
    method EnsureLiveRuntime(key: Key) returns (ok: bool)
      requires Valid() && HasTab(threads, key)
      modifies this`runtimes, this`attached, this`lastActive, this`tabTimers, this`destroyed, this`live, this`nextView,
        this`serial, downloads, inputs, opens
      ensures Valid()
      ensures Elsewhere(key.thread) == old(Elsewhere(key.thread))
      ensures ok ==> key in runtimes
      ensures !ok ==> key in rendererOnly && key !in runtimes
      ensures runtimes - {key} == old(runtimes) - {key} && live - {key} == old(live) - {key}
      ensures key in old(live) ==> key in live
      ensures opens.commits == old(opens.commits) || opens.commits == old(opens.commits) - {key}
      ensures downloads.provenance.Keys <= old(downloads.provenance).Keys && opens.log == old(opens.log)
      // one that is there and not destroyed is returned, any other is made anew, of our own
      ensures tabTimers == old(tabTimers) - {key}
      ensures if key in old(runtimes) && old(runtimes[key]).page !in old(destroyed)
              then ok && runtimes == old(runtimes) && live == old(live) && attached == old(attached)
              else ok == (key !in rendererOnly)
                   && (ok ==> key in live && runtimes[key] == Runtime(Native(old(nextView)), old(serial)))
      ensures attached == if key in old(runtimes) && old(runtimes[key]).page in old(destroyed) && old(attached) == Some(key)
                          then None else old(attached)
    {
      hide AutomationDownloads.Valid, AutomationInputs.Valid, WindowOpens.Valid, ThreadsOk, ReservedOk, RuntimesOk, PagesOk,
        HasTab, Elsewhere;
      tabTimers := tabTimers - {key};
      if key in runtimes {
        if runtimes[key].page in destroyed {
          DestroyRuntime(key, false);
        } else {
          return true;
        }
      }
      if key in rendererOnly {
        return false;
      }
      NativePageIsNew(runtimes, nextView, serial);
      StoreRuntime(key, Native(nextView));
      MarkLive(key, true);
      ok := true;
    }

    // One turn of the loop over the tabs.
    method TrimTab(key: Key, active: bool, warm: bool)
      requires Valid()
      modifies this`runtimes, this`attached, this`lastActive, this`tabTimers, this`destroyed, this`live, downloads, inputs,
        opens
      ensures Valid()
      ensures Elsewhere(key.thread) == old(Elsewhere(key.thread))
      ensures runtimes == if active || warm then old(runtimes) else old(runtimes) - {key}
      ensures live == if active || (warm && key in old(runtimes)) then old(live) else old(live) - {key}
      ensures attached == if old(attached) == Some(key) && !active && !warm then None else old(attached)
      ensures downloads.provenance.Keys <= old(downloads.provenance).Keys && opens.log == old(opens.log)
      ensures tabTimers == if active then old(tabTimers) - {key}
                           else if key !in old(runtimes) then old(tabTimers)
                           else if warm then old(tabTimers) + {key} else old(tabTimers) - {key}
    {
      hide AutomationDownloads.Valid, AutomationInputs.Valid, WindowOpens.Valid, ThreadsOk, RuntimesOk, PagesOk, ReservedOk,
        Elsewhere;
      if active {
        tabTimers := tabTimers - {key};
      } else if key in runtimes && warm {
        tabTimers := tabTimers + {key};
      } else {
        if key in runtimes {
          DestroyRuntime(key, false);
        } else {
          assert runtimes - {key} == runtimes;
        }
        MarkLive(key, false);
      }
    }

    // suspendInactiveTabs: of the inactive runtimes of the thread the most recently active
    // ones stay warm, the others are evicted; every inactive tab without one is suspended.
    method SuspendInactiveTabs(t: ThreadId, active: Option<TabId>)
      requires Valid()
      modifies this`runtimes, this`attached, this`lastActive, this`tabTimers, this`destroyed, this`live, downloads, inputs,
        opens
      ensures Valid()
      ensures Elsewhere(t) == old(Elsewhere(t))
      ensures t in threads ==>
                var tabs := threads[t].tabs;
                var warm := Warm(Inactive(tabs, active, old(runtimes).Keys, t), old(lastActive), t);
                && (forall tab :: tab in tabs && Some(tab) != active ==> (Key(t, tab) in runtimes <==> tab in warm))
                && (forall tab :: tab in tabs && Some(tab) != active && tab !in warm ==> Key(t, tab) !in live)
                && |Inactive(tabs, active, runtimes.Keys, t)| <= MAX_WARM
      ensures forall k :: k in runtimes ==> k in old(runtimes) && runtimes[k] == old(runtimes[k])
      ensures forall k :: k in old(runtimes) && (k.thread != t || Some(k.tab) == active) ==> k in runtimes
      ensures forall k: Key :: k.thread != t || Some(k.tab) == active ==> (k in live <==> k in old(live))
      ensures attached == old(attached) || (attached == None && old(attached).Some? && old(attached).value !in runtimes)
      ensures downloads.provenance.Keys <= old(downloads.provenance).Keys && opens.log == old(opens.log)
    {
      hide AutomationDownloads.Valid, AutomationInputs.Valid, WindowOpens.Valid, ThreadsOk, RuntimesOk, PagesOk, ReservedOk,
        Warm, Inactive, AttachedOk, Distinct, Elsewhere;
      if t !in threads {
        return;
      }
      var tabs := threads[t].tabs;
      var candidates := Inactive(tabs, active, runtimes.Keys, t);
      var warm := Warm(candidates, lastActive, t);
      TabsDistinct(threads, nextTab, t);
      WarmAreCandidates(candidates, lastActive, t);
      var i := 0;
      while i < |tabs|
        invariant 0 <= i <= |tabs| && Valid() && Elsewhere(t) == old(Elsewhere(t))
        invariant forall k :: k in runtimes ==> k in old(runtimes) && runtimes[k] == old(runtimes[k])
        invariant forall k :: k in old(runtimes) && (k.thread != t || Some(k.tab) == active || k.tab in warm) ==>
                                k in runtimes
        invariant forall k: Key :: k.thread != t || Some(k.tab) == active ==> (k in live <==> k in old(live))
        invariant forall j :: 0 <= j < |tabs| && j >= i && Key(t, tabs[j]) in old(runtimes) ==> Key(t, tabs[j]) in runtimes
        invariant forall j :: 0 <= j < i && Some(tabs[j]) != active && tabs[j] !in warm ==>
                    Key(t, tabs[j]) !in runtimes && Key(t, tabs[j]) !in live
        invariant attached == old(attached) || (attached == None && old(attached).Some? && old(attached).value !in runtimes)
        invariant downloads.provenance.Keys <= old(downloads.provenance).Keys && opens.log == old(opens.log)
      {
        TrimTab(Key(t, tabs[i]), Some(tabs[i]) == active, tabs[i] in warm);
        i := i + 1;
      }
      FewerThan(Inactive(tabs, active, runtimes.Keys, t), warm);
    }

    method ScheduleThreadSuspend(t: ThreadId)
      requires Valid()
      modifies this`threadTimers
      ensures Valid()
      ensures threadTimers == old(threadTimers)
                              + if t in threads && threads[t].open && activeThread != Some(t) then {t} else {}
    {
      if t in threads && threads[t].open && activeThread != Some(t) {
        threadTimers := threadTimers + {t};
      }
    }

    // activateThreadForPendingRenderer. The thread that loses its place is asked to be
    // suspended while it still is the active one, so no timer is set for it.
    method ActivateForPendingRenderer(t: ThreadId)
      requires Valid()
      modifies this`threadTimers, this`activeThread, this`boundsThread
      ensures Valid() && activeThread == Some(t) && boundsThread == Some(t)
      ensures threadTimers == old(threadTimers) - {t}
    {
      hide AutomationDownloads.Valid, AutomationInputs.Valid, WindowOpens.Valid, ThreadsOk, RuntimesOk, PagesOk, ReservedOk,
        AttachedOk, Elsewhere;
      if activeThread.Some? && activeThread != Some(t) {
        ScheduleThreadSuspend(activeThread.value);
      }
      activeThread, boundsThread := Some(t), Some(t);
      threadTimers := threadTimers - {t};
    }

    // The active tab of the thread has its runtime, or waits for the renderer to make it.
    predicate Woken(t: ThreadId)
      reads this
    {
      && t in threads && threads[t].active.Some?
      && var key := Key(t, threads[t].active.value);
         if key in runtimes then key in live else key in rendererOnly
    }

    // And if it has one it is attached to the window, or else the thread is the active one.
    predicate Shown(t: ThreadId)
      reads this
    {
      && Woken(t)
      && var key := Key(t, threads[t].active.value);
         if key in runtimes then hasWindow ==> attached == Some(key)
         else activeThread == Some(t) && boundsThread == Some(t)
    }

    // The runtime of the tab to show. A tab that waits for its renderer gets none of our own.
    method WakeTab(key: Key) returns (ok: bool, waits: bool)
      requires Valid() && HasTab(threads, key)
      modifies this`runtimes, this`attached, this`lastActive, this`tabTimers, this`destroyed, this`live, this`nextView,
        this`serial, downloads, inputs, opens
      ensures Valid()
      ensures Elsewhere(key.thread) == old(Elsewhere(key.thread))
      ensures runtimes - {key} == old(runtimes) - {key}
      ensures ok && !waits ==> key in runtimes && key in live
      ensures waits ==> ok && key in rendererOnly && key !in runtimes
      ensures downloads.provenance.Keys <= old(downloads.provenance).Keys && opens.log == old(opens.log)
      ensures attached == old(attached) || attached == None
      ensures key in runtimes && !runtimes[key].page.Native? ==>
                key in old(runtimes) && runtimes[key] == old(runtimes[key])
    {
      hide AutomationDownloads.Valid, AutomationInputs.Valid, WindowOpens.Valid, ThreadsOk, RuntimesOk, PagesOk, ReservedOk,
        AttachedOk, HasTab, Warm, Inactive, Elsewhere;
      ok, waits := true, false;
      if key in rendererOnly && (key !in runtimes || runtimes[key].page.Native?) {
        if key in runtimes {
          DestroyRuntime(key, false);
          assert runtimes - {key} == old(runtimes) - {key};
        }
        waits := true;
        return;
      }
      ok := EnsureLiveRuntime(key);
      if ok {
        MarkLive(key, true);
      }
    }

    // suspendInactiveTabs and the active tab of a thread.
    method TrimThread(t: ThreadId) returns (key: Key)
      requires Valid() && t in threads && threads[t].active.Some?
      modifies this`runtimes, this`attached, this`lastActive, this`tabTimers, this`destroyed, this`live, downloads, inputs,
        opens
      ensures Valid() && key == Key(t, threads[t].active.value) && HasTab(threads, key)
      ensures Elsewhere(t) == old(Elsewhere(t))
      ensures IsTrimmed(threads[t].tabs, threads[t].active, t, old(runtimes), old(lastActive), runtimes)
      ensures downloads.provenance.Keys <= old(downloads.provenance).Keys && opens.log == old(opens.log)
      ensures attached == old(attached) || attached == None
      ensures forall k :: k in runtimes ==> k in old(runtimes) && runtimes[k] == old(runtimes[k])
    {
      hide AutomationDownloads.Valid, AutomationInputs.Valid, WindowOpens.Valid, ThreadsOk, RuntimesOk, PagesOk, ReservedOk,
        AttachedOk, HasTab, Warm, Inactive, Elsewhere;
      key := Key(t, threads[t].active.value);
      SuspendInactiveTabs(t, threads[t].active);
      ActiveHasTab(threads, nextTab, t);
    }

    // resumeThread: only the active tab gets a runtime.
    method ResumeThread(t: ThreadId) returns (ok: bool)
      requires Valid()
      modifies this, downloads, inputs, opens
      ensures Valid() && t in threads
      ensures Elsewhere(t) == old(Elsewhere(t))
      ensures t in old(threads) && old(threads[t]).tabs != [] ==> threads == old(threads) && nextTab == old(nextTab)
      ensures rendererOnly == old(rendererOnly) && activeThread == old(activeThread) && boundsThread == old(boundsThread)
      ensures threads[t].active.Some? && threads[t].tabs != []
      ensures ok && threads[t].open ==> Woken(t)
      ensures threads[t].open ==>
                IsTrimmed(threads[t].tabs, threads[t].active, t, old(runtimes), old(lastActive), runtimes)
      ensures downloads.provenance.Keys <= old(downloads.provenance).Keys && opens.log == old(opens.log)
      ensures threadTimers == if threads[t].open then old(threadTimers) - {t} else old(threadTimers)
      ensures attached == old(attached) || attached == None
      ensures var key := Key(t, threads[t].active.value);
              key in runtimes && !runtimes[key].page.Native? ==>
                key in old(runtimes) && runtimes[key] == old(runtimes[key])
    {
      hide AutomationDownloads.Valid, AutomationInputs.Valid, WindowOpens.Valid, ThreadsOk, RuntimesOk, PagesOk, ReservedOk,
        AttachedOk, HasTab, Warm, Inactive, Elsewhere, IsTrimmed;
      EnsureWorkspace(t);
      ok := true;
      if threads[t].open {
        threadTimers := threadTimers - {t};
        var key := TrimThread(t);
        ghost var trimmed := runtimes;
        var waits;
        ok, waits := WakeTab(key);
        StaysTrimmed(threads[t].tabs, threads[t].active, t, old(runtimes), old(lastActive), trimmed, runtimes);
      }
    }

    // attachActiveTab
    method AttachActiveTab(t: ThreadId) returns (ok: bool)
      requires Valid()
      modifies this, downloads, inputs, opens
      ensures Valid() && t in threads
      ensures Elsewhere(t) == old(Elsewhere(t))
      ensures t in old(threads) && old(threads[t]).tabs != [] ==> threads == old(threads) && nextTab == old(nextTab)
      ensures rendererOnly == old(rendererOnly) && hasWindow == old(hasWindow) && popups == old(popups)
      ensures activeThread == old(activeThread) || activeThread == Some(t)
      ensures boundsThread == old(boundsThread) || boundsThread == Some(t)
      ensures ok ==> Shown(t)
      ensures threads[t].active.Some?
              && IsTrimmed(threads[t].tabs, threads[t].active, t, old(runtimes), old(lastActive), runtimes)
      ensures downloads.provenance.Keys <= old(downloads.provenance).Keys && opens.log == old(opens.log)
      ensures threadTimers == old(threadTimers) || threadTimers == old(threadTimers) - {t}
      ensures attached == old(attached) || attached == None || attached == Some(Key(t, threads[t].active.value))
      ensures var key := Key(t, threads[t].active.value);
              key in runtimes && !runtimes[key].page.Native? ==>
                key in old(runtimes) && runtimes[key] == old(runtimes[key])
    {
      hide AutomationDownloads.Valid, AutomationInputs.Valid, WindowOpens.Valid, ThreadsOk, RuntimesOk, PagesOk, ReservedOk,
        AttachedOk, HasTab, Warm, Inactive, Elsewhere, IsTrimmed;
      EnsureWorkspace(t);
      var key := TrimThread(t);
      ghost var trimmed := runtimes;
      var waits;
      ok, waits := WakeTab(key);
      StaysTrimmed(threads[t].tabs, threads[t].active, t, old(runtimes), old(lastActive), trimmed, runtimes);
      if waits {
        ActivateForPendingRenderer(t);
      } else if ok {
        AttachRuntime(key);
      }
    }

    // attachActiveTab, where the thread is the active one and its bounds are known.
    method ShowActiveTab(t: ThreadId) returns (ok: bool)
      requires Valid()
      modifies this, downloads, inputs, opens
      ensures popups == old(popups)
      ensures !(old(activeThread) == Some(t) == old(boundsThread)) ==> unchanged(this, downloads, inputs, opens)
      ensures ok && old(activeThread) == Some(t) && old(boundsThread) == Some(t) ==> Shown(t)
      ensures Valid() && rendererOnly == old(rendererOnly)
      ensures Elsewhere(t) == old(Elsewhere(t))
      ensures t in old(threads) && old(threads[t]).tabs != [] ==> threads == old(threads) && nextTab == old(nextTab)
      ensures downloads.provenance.Keys <= old(downloads.provenance).Keys && opens.log == old(opens.log)
    {
      hide AutomationDownloads.Valid, AutomationInputs.Valid, WindowOpens.Valid, ThreadsOk, RuntimesOk, PagesOk, ReservedOk,
        AttachedOk, Elsewhere;
      ok := true;
      if activeThread == Some(t) && boundsThread == Some(t) {
        ok := AttachActiveTab(t);
      }
    }

    // activateThread
    method ActivateThread(t: ThreadId) returns (ok: bool)
      requires Valid()
      modifies this, downloads, inputs, opens
      ensures activeThread == Some(t) && boundsThread == Some(t) && (ok ==> Shown(t))
      ensures Valid() && rendererOnly == old(rendererOnly)
      ensures Elsewhere(t) == old(Elsewhere(t))
      ensures t in old(threads) && old(threads[t]).tabs != [] ==> threads == old(threads) && nextTab == old(nextTab)
      ensures downloads.provenance.Keys <= old(downloads.provenance).Keys && opens.log == old(opens.log)
      ensures threadTimers - {t} == old(threadTimers) - {t}
      ensures t in threads && threads[t].active.Some?
      ensures attached == old(attached) || attached == None || attached == Some(Key(t, threads[t].active.value))
      ensures var key := Key(t, threads[t].active.value);
              key in runtimes && !runtimes[key].page.Native? ==>
                key in old(runtimes) && runtimes[key] == old(runtimes[key])
    {
      hide AutomationDownloads.Valid, AutomationInputs.Valid, WindowOpens.Valid, ThreadsOk, RuntimesOk, PagesOk, ReservedOk,
        AttachedOk, Elsewhere;
      if activeThread.Some? && activeThread != Some(t) {
        ScheduleThreadSuspend(activeThread.value);
      }
      activeThread, boundsThread := Some(t), Some(t);
      ok := ResumeThread(t);
      if ok {
        ok := AttachActiveTab(t);
      }
    }

    method DestroyThreadRuntimes(t: ThreadId)
      requires Valid()
      modifies this`runtimes, this`attached, this`lastActive, this`tabTimers, this`destroyed, this`live, downloads, inputs,
        opens
      ensures Valid()
      ensures Elsewhere(t) == old(Elsewhere(t))
      ensures runtimes == Others(old(runtimes), t)
      ensures t in threads ==> forall tab :: tab in threads[t].tabs ==> Key(t, tab) !in live
      ensures downloads.provenance.Keys <= old(downloads.provenance).Keys && opens.log == old(opens.log)
    {
      hide AutomationDownloads.Valid, AutomationInputs.Valid, WindowOpens.Valid, ThreadsOk, RuntimesOk, PagesOk, ReservedOk,
        AttachedOk, Elsewhere;
      RuntimesHaveTabs(runtimes, threads);
      if t !in threads {
        return;
      }
      var tabs := threads[t].tabs;
      var i := 0;
      while i < |tabs|
        invariant 0 <= i <= |tabs| && Valid() && Elsewhere(t) == old(Elsewhere(t))
        invariant forall k: Key :: k.thread != t ==> (k in runtimes <==> k in old(runtimes))
        invariant forall k :: k in runtimes ==> k in old(runtimes) && runtimes[k] == old(runtimes[k])
        invariant forall j :: 0 <= j < i ==> Key(t, tabs[j]) !in runtimes && Key(t, tabs[j]) !in live
        invariant downloads.provenance.Keys <= old(downloads.provenance).Keys && opens.log == old(opens.log)
      {
        DestroyRuntime(Key(t, tabs[i]), false);
        MarkLive(Key(t, tabs[i]), false);
        i := i + 1;
      }
    }

    method DestroyAllRuntimes()
      requires Valid()
      modifies this`runtimes, this`attached, this`lastActive, this`tabTimers, this`destroyed, downloads, inputs, opens
      ensures Valid() && runtimes == map[] && attached == None
    {
      hide AutomationDownloads.Valid, AutomationInputs.Valid, WindowOpens.Valid, ThreadsOk, RuntimesOk, PagesOk, ReservedOk,
        AttachedOk, Elsewhere;
      attached := None;
      NoneAttached(runtimes);
      while runtimes != map[]
        invariant Valid() && attached == None
        decreases |runtimes|
      {
        var key :| key in runtimes;
        assert runtimes.Keys == (runtimes - {key}).Keys + {key};
        DestroyRuntime(key, false);
      }
    }

    // removes a tab that has no runtime any more; the last tab left becomes active if it was.
    method RemoveTab(key: Key)
      requires Valid() && HasTab(threads, key) && key !in runtimes
      modifies this`threads, this`nextTab
      ensures Valid() && nextTab == old(nextTab) && key.thread in threads && key.tab !in threads[key.thread].tabs
      ensures Elsewhere(key.thread) == old(Elsewhere(key.thread))
      ensures threads == old(threads)[key.thread := threads[key.thread]]
      ensures threads[key.thread].open == old(threads[key.thread].open)
      ensures IsWithout(threads[key.thread].tabs, old(threads[key.thread]).tabs, key.tab)
      ensures threads[key.thread].tabs == [] <==> old(threads[key.thread]).tabs == [key.tab]
      ensures threads[key.thread].active == ActiveWithout(old(threads[key.thread]), key.tab, threads[key.thread].tabs)
    {
      hide AutomationDownloads.Valid, AutomationInputs.Valid, WindowOpens.Valid, ThreadsOk, RuntimesOk, PagesOk, ReservedOk,
        AttachedOk, Elsewhere, IsWithout, ThreadOk;
      ThreadWithout(threads, nextTab, runtimes, opens.commits, opens.log, key);
      var t := threads[key.thread];
      var tabs := WithoutTab(t.tabs, key.tab);
      var active := if t.active != Some(key.tab) then t.active else if tabs == [] then None else Some(tabs[|tabs| - 1]);
      UpdateThread(key.thread, Thread(t.open, active, tabs), nextTab);
    }

    // Closing one tab: its popups, its runtime and the tab go, and nothing else.
    method DropTab(key: Key)
      requires Valid() && HasTab(threads, key)
      modifies this`threads, this`nextTab, this`runtimes, this`attached, this`lastActive, this`tabTimers, this`destroyed,
        this`rendererOnly, this`popups, downloads, inputs, opens
      ensures Valid() && nextTab == old(nextTab)
      ensures Elsewhere(key.thread) == old(Elsewhere(key.thread))
      ensures key.thread in threads && threads == old(threads)[key.thread := threads[key.thread]]
      ensures var before, after := old(threads[key.thread]), threads[key.thread];
              after.open == before.open && IsWithout(after.tabs, before.tabs, key.tab)
              && after.active == ActiveWithout(before, key.tab, after.tabs)
              && (after.tabs == [] <==> before.tabs == [key.tab]) && key.tab !in after.tabs
      ensures runtimes == old(runtimes) - {key} && rendererOnly == old(rendererOnly) - {key}
      ensures attached == if old(attached) == Some(key) then None else old(attached)
      ensures popups == map w | w in old(popups) && old(popups)[w] != key :: old(popups)[w]
      ensures downloads.provenance == old(downloads.provenance) - {key} && opens.log == old(opens.log)
      ensures opens.publications == old(opens.publications) - {key}
    {
      hide AutomationDownloads.Valid, AutomationInputs.Valid, WindowOpens.Valid, ThreadsOk, RuntimesOk, PagesOk, ReservedOk,
        AttachedOk, Elsewhere, IsWithout;
      ClosePopups(key);
      DestroyRuntime(key, false);
      rendererOnly := rendererOnly - {key};
      RemoveTab(key);
    }

    // resolveTab, in a thread with tabs.
    function Resolve(t: ThreadId, tab: Option<TabId>): TabId
      requires t in threads && threads[t].tabs != [] && threads[t].active.Some?
      reads this
    {
      var wanted := if tab.Some? then tab.value else threads[t].active.value;
      if wanted in threads[t].tabs then wanted else threads[t].tabs[0]
    }

    method ClosePopups(key: Key)
      requires Valid()
      modifies this`popups
      ensures Valid() && popups == map w | w in old(popups) && old(popups)[w] != key :: old(popups)[w]
    {
      popups := map w | w in popups && popups[w] != key :: popups[w];
    }

    // ---- The panel and the user ----

    // setWindow: with the window it was in, everything alive goes.
    method SetWindow(present: bool, same: bool) returns (ok: bool)
      requires Valid()
      modifies this, downloads, inputs, opens
      ensures Valid() && hasWindow == present
      ensures popups == if old(hasWindow) && !same then map[] else old(popups)
      ensures !present ==> threads == old(threads)
                           && runtimes == if old(hasWindow) && !same then map[] else old(runtimes)
      ensures !present && old(hasWindow) && !same ==> attached == None
      ensures ok && present && old(activeThread).Some? && old(boundsThread) == old(activeThread) ==>
                Shown(old(activeThread).value)
      ensures present && !(old(activeThread).Some? && old(boundsThread) == old(activeThread)) ==>
                threads == old(threads)
                && runtimes == (if old(hasWindow) && !same then map[] else old(runtimes))
                && attached == (if old(hasWindow) && !same then None else old(attached))
    {
      hide AutomationDownloads.Valid, AutomationInputs.Valid, WindowOpens.Valid, ThreadsOk, RuntimesOk, PagesOk, ReservedOk,
        AttachedOk, Elsewhere;
      ok := true;
      if hasWindow && !same {
        DestroyAllRuntimes();
        popups := map[];
      }
      hasWindow := present;
      if present && activeThread.Some? && boundsThread == activeThread {
        ok := AttachActiveTab(activeThread.value);
      }
    }

    method OpenBrowser(t: ThreadId, newUrl: bool, blank: bool) returns (ok: bool)
      requires Valid()
      modifies this, downloads, inputs, opens
      ensures Valid() && t in threads && threads[t].open && threads[t].tabs != []
      ensures Elsewhere(t) == old(Elsewhere(t))
      ensures t in old(threads) && old(threads[t]).tabs != [] ==>
                threads == old(threads)[t := old(threads[t]).(open := true)]
      ensures ok && !blank && !(newUrl && t in old(threads) && old(threads[t]).tabs != [])
              && old(boundsThread) == Some(t) && (old(activeThread) == None || old(activeThread) == Some(t)) ==>
                activeThread == Some(t) && Shown(t)
      ensures !(t in old(threads) && old(threads[t]).open) ==> Unattributed(t)
    {
      hide AutomationDownloads.Valid, AutomationInputs.Valid, WindowOpens.Valid, ThreadsOk, RuntimesOk, PagesOk, ReservedOk,
        AttachedOk, Elsewhere;
      ok := true;
      var navigates := newUrl && t in threads && threads[t].tabs != [];
      if !(t in threads && threads[t].open) && !navigates {
        MarkHumanControl(t);
      }
      EnsureWorkspace(t);
      SetOpen(t);
      ActiveHasTab(threads, nextTab, t);
      if navigates {
        ok := Navigate(t, threads[t].active);
      } else if boundsThread == Some(t) && (activeThread == None || activeThread == Some(t)) && !blank {
        ok := ActivateThread(t);
      }
    }

    method CloseThreadPopups(t: ThreadId)
      requires Valid()
      modifies this`popups
      ensures Valid() && popups == map w | w in old(popups) && old(popups)[w].thread != t :: old(popups)[w]
    {
      popups := map w | w in popups && popups[w].thread != t :: popups[w];
    }

    // The first part of close: the person takes over, and the thread leaves the panel.
    method LeavePanel(t: ThreadId)
      requires Valid()
      modifies this`threadTimers, this`attached, this`activeThread, this`boundsThread, this`popups, downloads
      ensures Valid() && Unattributed(t)
      ensures Elsewhere(t) == old(Elsewhere(t))
      ensures popups == map w | w in old(popups) && old(popups)[w].thread != t :: old(popups)[w]
      ensures activeThread == (if old(activeThread) == Some(t) then None else old(activeThread))
      ensures boundsThread == (if old(boundsThread) == Some(t) then None else old(boundsThread))
      ensures threadTimers == old(threadTimers) - {t}
    {
      hide AutomationDownloads.Valid, AutomationInputs.Valid, WindowOpens.Valid, ThreadsOk, RuntimesOk, PagesOk, ReservedOk,
        AttachedOk, Elsewhere;
      MarkHumanControl(t);
      threadTimers := threadTimers - {t};
      LeaveThread(t);
      if boundsThread == Some(t) {
        boundsThread := None;
      }
      CloseThreadPopups(t);
    }

    method CloseBrowser(t: ThreadId)
      requires Valid()
      modifies this, downloads, inputs, opens
      ensures Valid() && threads == old(threads)[t := Thread(false, None, [])] && Unattributed(t)
      ensures Elsewhere(t) == old(Elsewhere(t))
      ensures runtimes == Others(old(runtimes), t)
      ensures popups == map w | w in old(popups) && old(popups)[w].thread != t :: old(popups)[w]
      ensures activeThread == (if old(activeThread) == Some(t) then None else old(activeThread))
      ensures boundsThread == (if old(boundsThread) == Some(t) then None else old(boundsThread))
    {
      hide AutomationDownloads.Valid, AutomationInputs.Valid, WindowOpens.Valid, ThreadsOk, RuntimesOk, PagesOk, ReservedOk,
        AttachedOk, Elsewhere, Others;
      LeavePanel(t);
      DestroyThreadRuntimes(t);
      NoneOfThread(runtimes, old(runtimes), t);
      ForgetTabs(t);
    }

    method LeaveThread(t: ThreadId)
      requires Valid()
      modifies this`attached, this`activeThread
      ensures Valid() && activeThread != Some(t)
      ensures Elsewhere(t) == old(Elsewhere(t))
      ensures old(activeThread) != Some(t) ==> activeThread == old(activeThread) && attached == old(attached)
      ensures old(activeThread) == Some(t) ==> attached == None && activeThread == None
    {
      hide AutomationDownloads.Valid, AutomationInputs.Valid, WindowOpens.Valid, ThreadsOk, RuntimesOk, PagesOk, ReservedOk,
        AttachedOk, Elsewhere;
      if activeThread == Some(t) {
        DetachAttachedRuntime();
        activeThread := None;
      }
    }

    // A thread without runtimes starts anew.
    method ForgetTabs(t: ThreadId)
      requires Valid() && forall k: Key :: k.thread == t ==> k !in runtimes
      modifies this`threads, this`nextTab, this`rendererOnly
      ensures Valid() && threads == old(threads)[t := Thread(false, None, [])]
      ensures Elsewhere(t) == old(Elsewhere(t))
      ensures rendererOnly == old(rendererOnly)
                              - (if t in old(threads) then set tab | tab in old(threads[t]).tabs :: Key(t, tab) else {})
    {
      hide AutomationDownloads.Valid, AutomationInputs.Valid, WindowOpens.Valid, ThreadsOk, RuntimesOk, PagesOk, ReservedOk,
        AttachedOk, Elsewhere;
      if t in threads {
        rendererOnly := rendererOnly - (set tab | tab in threads[t].tabs :: Key(t, tab));
      }
      assert ThreadOk(Thread(false, None, []), nextTab);
      UpdateThread(t, Thread(false, None, []), nextTab);
    }

    method HideBrowser(t: ThreadId)
      requires Valid()
      modifies this, downloads
      ensures Valid() && threads == old(threads) && runtimes == old(runtimes) && activeThread != Some(t) && Unattributed(t)
      ensures Elsewhere(t) == old(Elsewhere(t))
      ensures old(activeThread) == Some(t) ==> attached == None && activeThread == None
      ensures old(activeThread) != Some(t) ==> attached == old(attached) && activeThread == old(activeThread)
      ensures t in threads && threads[t].open ==> t in threadTimers
    {
      hide AutomationDownloads.Valid, AutomationInputs.Valid, WindowOpens.Valid, ThreadsOk, RuntimesOk, PagesOk, ReservedOk,
        AttachedOk, Elsewhere;
      MarkHumanControl(t);
      if activeThread == Some(t) {
        DetachAttachedRuntime();
        activeThread := None;
      }
      if t in threads && threads[t].open {
        ScheduleThreadSuspend(t);
      }
    }

    // The rest of setPanelBounds, for an open thread with bounds.
    method ShowPanel(t: ThreadId, native: bool, renderer: bool, same: bool) returns (ok: bool)
      requires Valid() && t in threads && boundsThread == Some(t)
      modifies this, downloads, inputs, opens
      ensures Valid() && activeThread == Some(t) && boundsThread == Some(t)
      ensures Elsewhere(t) == old(Elsewhere(t))
      ensures old(threads[t]).tabs != [] ==> threads == old(threads)
      ensures ok && old(threads[t]).active.Some?
              && !(old(activeThread) == Some(t) && old(attached) == Some(Key(t, old(threads[t]).active.value)))
              && !(renderer && Key(t, old(threads[t]).active.value) !in old(runtimes)) ==>
                Shown(t)
      // a guest gives way to a runtime of our own on the native surface
      ensures ok && old(threads[t]).active.Some? && native ==>
                var key := Key(t, old(threads[t]).active.value);
                key in old(runtimes) && key !in old(rendererOnly) && key in runtimes ==> runtimes[key].page.Native?
      // bounds as they are change nothing, others only the stamp of what is attached
      ensures old(threads[t]).active.Some? && old(activeThread) == Some(t) ==>
                var key := Key(t, old(threads[t]).active.value);
                old(attached) == Some(key)
                && !(native && key !in old(rendererOnly) && key in old(runtimes) && !old(runtimes[key]).page.Native?) ==>
                  && runtimes == old(runtimes) && attached == old(attached) && live == old(live)
                  && lastActive == (if same || !hasWindow then old(lastActive) else old(lastActive)[key := now])
    {
      hide AutomationDownloads.Valid, AutomationInputs.Valid, WindowOpens.Valid, ThreadsOk, RuntimesOk, PagesOk, ReservedOk,
        Elsewhere;
      ok := true;
      ActiveHasTab(threads, nextTab, t);
      var active := threads[t].active;
      if active.None? {
        ok := PlaceThread(t, attached == None && same);
        return;
      }
      var key := Key(t, active.value);
      var requiresRenderer := key in rendererOnly;
      var running := key in runtimes;
      if native && !requiresRenderer && running && !runtimes[key].page.Native? {
        DestroyRuntime(key, false);
        MarkLive(key, false);
        DetachAttachedRuntime();
      }
      if (renderer || requiresRenderer) && !running {
        ActivateForPendingRenderer(t);
        return;
      }
      if activeThread == Some(t) && attached == Some(key) {
        if !same && key in runtimes {
          AttachRuntime(key);
        }
        return;
      }
      ok := PlaceThread(t, false);
    }

    // native, renderer: the requested surface, if any; same: the bounds are as applied.
    method SetPanelBounds(t: ThreadId, bounds: bool, native: bool, renderer: bool, same: bool) returns (ok: bool)
      requires Valid()
      modifies this, downloads, inputs, opens
      ensures Valid()
      ensures Elsewhere(t) == old(Elsewhere(t))
      ensures ok && bounds && t in old(threads) && old(threads[t]).open && old(threads[t]).active.Some?
              && !(old(activeThread) == Some(t) && old(attached) == Some(Key(t, old(threads[t]).active.value)))
              && !(renderer && Key(t, old(threads[t]).active.value) !in old(runtimes)) ==>
                Shown(t)
      ensures t in old(threads) && old(threads[t]).tabs != [] ==> threads == old(threads)
      ensures var visible := bounds && t in old(threads) && old(threads[t]).open;
              if visible then activeThread == Some(t) && boundsThread == Some(t)
              else activeThread != Some(t) && runtimes == old(runtimes) && (!bounds ==> boundsThread != Some(t))
      ensures !(bounds && t in old(threads) && old(threads[t]).open) && old(activeThread) == Some(t) ==>
                attached == None && (t in threads && threads[t].open ==> t in threadTimers)
    {
      hide AutomationDownloads.Valid, AutomationInputs.Valid, WindowOpens.Valid, ThreadsOk, RuntimesOk, PagesOk, ReservedOk,
        AttachedOk, Elsewhere;
      ok := true;
      GetOrCreate(t);
      if bounds {
        boundsThread := Some(t);
      } else if boundsThread == Some(t) {
        boundsThread := None;
      }
      if !threads[t].open || !bounds {
        if activeThread == Some(t) {
          DetachAttachedRuntime();
          activeThread := None;
          ScheduleThreadSuspend(t);
        }
        return;
      }
      ok := ShowPanel(t, native, renderer, same);
    }

    // The end of setPanelBounds, where no runtime of the thread is attached.
    method PlaceThread(t: ThreadId, skip: bool) returns (ok: bool)
      requires Valid() && boundsThread == Some(t)
      modifies this, downloads, inputs, opens
      ensures Valid() && activeThread == Some(t) && boundsThread == Some(t)
      ensures Elsewhere(t) == old(Elsewhere(t))
      ensures t in old(threads) && old(threads[t]).tabs != [] ==> threads == old(threads)
      ensures ok && !(skip && old(activeThread) == Some(t)) ==> Shown(t)
      ensures old(t in threads && threads[t].active.Some? && threads[t].tabs != []) ==>
                var key := Key(t, threads[t].active.value);
                key in runtimes && !runtimes[key].page.Native? ==>
                  key in old(runtimes) && runtimes[key] == old(runtimes[key])
    {
      hide AutomationDownloads.Valid, AutomationInputs.Valid, WindowOpens.Valid, ThreadsOk, RuntimesOk, PagesOk, ReservedOk,
        AttachedOk, Elsewhere;
      ok := true;
      if activeThread == Some(t) {
        if !skip {
          ok := AttachActiveTab(t);
        }
      } else {
        ok := ActivateThread(t);
      }
    }

    // The rest of navigate, for the tab it goes to.
    method NavigateTab(key: Key)
      requires Valid() && HasTab(threads, key)
      modifies this`runtimes, this`attached, this`lastActive, this`tabTimers, this`destroyed, this`live, this`nextView,
        this`serial, this`threadTimers, downloads, inputs, opens
      ensures Valid()
      ensures Elsewhere(key.thread) == old(Elsewhere(key.thread))
      ensures downloads.provenance.Keys <= old(downloads.provenance).Keys && opens.log == old(opens.log)
      ensures if key !in old(runtimes) && (activeThread != Some(key.thread) || key in rendererOnly) then
                runtimes == old(runtimes) && live == old(live) && attached == old(attached)
                && threadTimers == old(threadTimers)
              else
                && key in runtimes && key in live && runtimes - {key} == old(runtimes) - {key}
                && (key in old(runtimes) ==> runtimes == old(runtimes))
                && (if threads[key.thread].active == Some(key.tab) && boundsThread == Some(key.thread) && hasWindow
                    then attached == Some(key) else attached == old(attached))
                && threadTimers == (if key in old(runtimes) then old(threadTimers) else old(threadTimers) - {key.thread})
    {
      hide AutomationDownloads.Valid, AutomationInputs.Valid, WindowOpens.Valid, ThreadsOk, RuntimesOk, PagesOk, ReservedOk,
        AttachedOk, Elsewhere;
      if key !in runtimes {
        if activeThread != Some(key.thread) || key in rendererOnly {
          return;
        }
        var ok := EnsureLiveRuntime(key);
        threadTimers := threadTimers - {key.thread};
      }
      if threads[key.thread].active == Some(key.tab) && boundsThread == Some(key.thread) {
        AttachRuntime(key);
      }
      MarkLive(key, true);
    }

    method Navigate(t: ThreadId, tab: Option<TabId>) returns (ok: bool)
      requires Valid()
      modifies this, downloads, inputs, opens
      ensures Valid()
      ensures Elsewhere(t) == old(Elsewhere(t))
      ensures t in old(threads) && old(threads[t]).tabs != [] ==> threads == old(threads)
      ensures t in threads && threads[t].tabs != [] && Unattributed(t)
      ensures ok && threads[t].active.Some?
      ensures var key := Key(t, Resolve(t, tab));
              if key !in old(runtimes) && (old(activeThread) != Some(t) || key in old(rendererOnly)) then
                runtimes == old(runtimes) && live == old(live) && attached == old(attached)
                && threadTimers == old(threadTimers)
              else
                && key in runtimes && key in live && runtimes - {key} == old(runtimes) - {key}
                && (key in old(runtimes) ==> runtimes == old(runtimes))
                && (if threads[t].active == Some(key.tab) && boundsThread == Some(t) && hasWindow
                    then attached == Some(key) else attached == old(attached))
                && threadTimers == (if key in old(runtimes) then old(threadTimers) else old(threadTimers) - {t})
    {
      hide AutomationDownloads.Valid, AutomationInputs.Valid, WindowOpens.Valid, ThreadsOk, RuntimesOk, PagesOk, ReservedOk,
        AttachedOk, Elsewhere;
      MarkHumanControl(t);
      EnsureWorkspace(t);
      var key := Key(t, Resolve(t, tab));
      ok := true;
      NavigateTab(key);
    }

    method Reload(t: ThreadId, tab: Option<TabId>) returns (ok: bool)
      requires Valid()
      modifies this, downloads, inputs, opens
      ensures Valid() && Unattributed(t)
      ensures Elsewhere(t) == old(Elsewhere(t))
      ensures t in old(threads) && old(threads[t]).tabs != [] ==> threads == old(threads)
      ensures t in threads && threads[t].tabs != [] && threads[t].active.Some?
      ensures var key := Key(t, Resolve(t, tab));
              && (key in old(runtimes) || old(activeThread) != Some(t) ==>
                    ok && runtimes == old(runtimes) && live == old(live) && attached == old(attached))
              && (ok && key !in old(runtimes) && old(activeThread) == Some(t) ==>
                    if key in runtimes then key in live else key in rendererOnly)
    {
      hide AutomationDownloads.Valid, AutomationInputs.Valid, WindowOpens.Valid, ThreadsOk, RuntimesOk, PagesOk, ReservedOk,
        AttachedOk, Elsewhere;
      MarkHumanControl(t);
      EnsureWorkspace(t);
      var key := Key(t, Resolve(t, tab));
      ok := true;
      if key !in runtimes && activeThread == Some(t) {
        ok := ResumeThread(t);
        if ok {
          var loaded := EnsureLiveRuntime(key);
          if loaded {
            MarkLive(key, true);
          }
        }
      }
    }

    // goBack and goForward.
    method GoInHistory(t: ThreadId)
      requires Valid()
      modifies this`threads, downloads
      ensures Valid() && Unattributed(t)
      ensures Elsewhere(t) == old(Elsewhere(t))
      ensures t in old(threads) ==> threads == old(threads)
      ensures t !in old(threads) ==> threads == old(threads)[t := Thread(false, None, [])]
    {
      hide AutomationDownloads.Valid, AutomationInputs.Valid, WindowOpens.Valid, ThreadsOk, RuntimesOk, PagesOk, ReservedOk,
        AttachedOk, Elsewhere;
      MarkHumanControl(t);
      GetOrCreate(t);
    }

    method NewTab(t: ThreadId, activate: bool) returns (tab: TabId, ok: bool)
      requires Valid()
      modifies this, downloads, inputs, opens
      ensures Valid() && t in threads && HasTab(threads, Key(t, tab)) && Unattributed(t)
      ensures Elsewhere(t) == old(Elsewhere(t))
      ensures t in old(threads) && old(threads[t]).tabs != [] ==>
                tab == old(nextTab) && threads[t].tabs == old(threads[t]).tabs + [tab]
                && threads == old(threads)[t := threads[t]] && threads[t].open == old(threads[t]).open
                && threads[t].active == if activate then Some(tab) else old(threads[t]).active
      ensures ok && activate && old(activeThread) == Some(t) == old(boundsThread) ==> Shown(t)
      ensures activate ==> threads[t].active == Some(tab)
      ensures opens.log == old(opens.log)
      ensures old(activeThread) != Some(t) ==> Key(t, tab) !in live
      ensures old(activeThread) != Some(t) || threads[t].active != Some(tab) || old(boundsThread) != Some(t) ==>
                attached == old(attached) || attached == None
    {
      hide AutomationDownloads.Valid, AutomationInputs.Valid, WindowOpens.Valid, ThreadsOk, RuntimesOk, PagesOk, ReservedOk,
        AttachedOk, Elsewhere;
      MarkHumanControl(t);
      EnsureWorkspace(t);
      tab := AppendTab(t, activate);
      ok := true;
      if activeThread == Some(t) {
        ok := ResumeThread(t);
        if ok && threads[t].active == Some(tab) && boundsThread == Some(t) {
          ok := AttachActiveTab(t);
        }
      } else {
        MarkLive(Key(t, tab), false);
      }
    }

    method CloseTab(key: Key) returns (ok: bool)
      requires Valid()
      modifies this, downloads, inputs, opens
      ensures Valid() && key !in runtimes && !HasTab(threads, key) && Unattributed(key.thread)
      ensures Elsewhere(key.thread) == old(Elsewhere(key.thread))
      ensures key.thread in threads && threads[key.thread].tabs != []
      // a tab that was not there changes nothing
      ensures key.thread in old(threads) && old(threads[key.thread]).tabs != [] && !HasTab(old(threads), key) ==>
                threads == old(threads) && runtimes == old(runtimes) && live == old(live) && popups == old(popups)
      // any other goes alone, and a new blank one comes for the last one
      ensures HasTab(old(threads), key) ==>
                var before, after := old(threads[key.thread]), threads[key.thread];
                && after.open == before.open
                && if before.tabs == [key.tab] then after == Thread(before.open, Some(old(nextTab)), [old(nextTab)])
                   else IsWithout(after.tabs, before.tabs, key.tab)
                        && after.active == ActiveWithout(before, key.tab, after.tabs)
      ensures HasTab(old(threads), key) ==>
                popups == map w | w in old(popups) && old(popups)[w] != key :: old(popups)[w]
      ensures HasTab(old(threads), key) && !(old(activeThread) == Some(key.thread) == old(boundsThread)) ==>
                runtimes == old(runtimes) - {key}
      ensures HasTab(old(threads), key) && old(threads[key.thread]).tabs != [key.tab]
              && ok && old(activeThread) == Some(key.thread) == old(boundsThread) ==>
                Shown(key.thread)
    {
      hide AutomationDownloads.Valid, AutomationInputs.Valid, WindowOpens.Valid, ThreadsOk, RuntimesOk, PagesOk, ReservedOk,
        AttachedOk, Elsewhere, IsWithout;
      var t := key.thread;
      MarkHumanControl(t);
      EnsureWorkspace(t);
      ok := true;
      if key.tab !in threads[t].tabs {
        RuntimesHaveTabs(runtimes, threads);
        return;
      }
      TabsAreOld(threads, nextTab, t);
      DropTab(key);
      if threads[t].tabs == [] {
        var replacement := AppendTab(t, true);
        assert [] + [replacement] == [replacement];
        RuntimesHaveTabs(runtimes, threads);
        return;
      }
      ok := ShowActiveTab(t);
      RuntimesHaveTabs(runtimes, threads);
    }

    method SelectTab(t: ThreadId, tab: TabId) returns (ok: bool)
      requires Valid()
      modifies this, downloads, inputs, opens
      ensures Valid() && t in threads
      ensures Elsewhere(t) == old(Elsewhere(t))
      ensures HasTab(old(threads), Key(t, tab)) ==>
                threads == old(threads)[t := old(threads[t]).(active := Some(tab))]
      ensures Unattributed(t)
      ensures ok && old(activeThread) == Some(t) && old(boundsThread) == Some(t) ==> Shown(t)
      ensures old(activeThread) != Some(t) || old(boundsThread) != Some(t) ==>
                attached == old(attached) || attached == None
    {
      hide AutomationDownloads.Valid, AutomationInputs.Valid, WindowOpens.Valid, ThreadsOk, RuntimesOk, PagesOk, ReservedOk,
        AttachedOk, Elsewhere;
      MarkHumanControl(t);
      EnsureWorkspace(t);
      SetActive(t, Resolve(t, Some(tab)));
      ok := true;
      if activeThread == Some(t) {
        ok := ResumeThread(t);
        if ok && boundsThread == Some(t) {
          ok := AttachActiveTab(t);
        }
      }
    }

    // openDevTools, and the first part of a screenshot, which is not a human action.
    method ShowTab(t: ThreadId, tab: TabId, human: bool) returns (ok: bool)
      requires Valid()
      modifies this, downloads, inputs, opens
      ensures Valid() && (human ==> Unattributed(t))
      ensures Elsewhere(t) == old(Elsewhere(t))
      ensures downloads.provenance.Keys <= old(downloads.provenance).Keys && opens.log == old(opens.log)
      ensures HasTab(old(threads), Key(t, tab)) ==>
                threads == old(threads)[t := old(threads[t]).(active := Some(tab))]
      ensures ok && old(boundsThread) == Some(t) ==> Shown(t)
      ensures old(boundsThread) != Some(t) ==> attached == old(attached) || attached == None
      ensures ok && HasTab(old(threads), Key(t, tab)) && old(boundsThread) != Some(t) ==> Key(t, tab) in runtimes
    {
      hide AutomationDownloads.Valid, AutomationInputs.Valid, WindowOpens.Valid, ThreadsOk, RuntimesOk, PagesOk, ReservedOk,
        AttachedOk, Elsewhere;
      if human {
        MarkHumanControl(t);
      }
      EnsureWorkspace(t);
      var chosen := Resolve(t, Some(tab));
      SetActive(t, chosen);
      ok := ResumeThread(t);
      if ok {
        ok := EnsureLiveRuntime(Key(t, chosen));
      }
      if ok && boundsThread == Some(t) {
        ok := AttachActiveTab(t);
      }
    }

    // ---- The guests of the renderer ----

    // findRendererRuntimeByWebContentsId
    method FindGuest(page: WebContents) returns (found: Option<Key>)
      requires Valid() && page.Guest?
      ensures found.Some? ==> found.value in runtimes && runtimes[found.value].page == page
      ensures forall k :: k in runtimes && runtimes[k].page == page ==> found == Some(k)
    {
      hide AutomationDownloads.Valid, AutomationInputs.Valid, WindowOpens.Valid, ThreadsOk, RuntimesOk, ReservedOk,
        Elsewhere;
      found := None;
      var left := runtimes.Keys;
      while left != {}
        invariant left <= runtimes.Keys && found == None
        invariant forall k :: k in runtimes && k !in left ==> runtimes[k].page != page
      {
        var key :| key in left;
        if runtimes[key].page == page {
          return Some(key);
        }
        left := left - {key};
      }
    }

    // attachWebview; accepted: it is a <webview> of this window and partition.
    method AttachWebview(key: Key, guest: nat, accepted: bool) returns (ok: bool)
      requires Valid()
      modifies this, downloads, inputs, opens
      ensures Valid() && threads == old(threads)
      ensures ok ==> key in runtimes && runtimes[key].page == Guest(guest) && key in rendererOnly && key in live
      ensures ok && old(boundsThread) == Some(key.thread) && old(hasWindow) ==> attached == Some(key)
      ensures var considered := old(Available(key) && threads[key.thread].active == Some(key.tab))
                                && Guest(guest) !in old(destroyed) && accepted;
              if considered then runtimes - {key} == WithoutPage(old(runtimes), Guest(guest)) - {key}
              else !ok && unchanged(this, downloads, inputs, opens)
      ensures key in old(runtimes) && old(runtimes[key]).page == Guest(guest) ==>
                runtimes == old(runtimes) && downloads.provenance == old(downloads.provenance)
    {
      hide AutomationDownloads.Valid, AutomationInputs.Valid, WindowOpens.Valid, ThreadsOk, RuntimesOk, PagesOk, ReservedOk,
        AttachedOk, Elsewhere, WithoutPage;
      if !HasTab(threads, key) || !threads[key.thread].open || threads[key.thread].active != Some(key.tab)
         || Guest(guest) in destroyed || !accepted {
        return false;
      }
      var other := FindGuest(Guest(guest));
      OnlyOnePage(runtimes, nextView, serial, Guest(guest), other, key);
      if other.Some? && other.value != key {
        DestroyRuntime(other.value, false);
      }
      ok := BindGuest(key, Guest(guest));
      if ok {
        rendererOnly := rendererOnly + {key};
        if boundsThread == Some(key.thread) {
          AttachRuntime(key);
        }
        MarkLive(key, true);
      }
    }

    // A tab keeps a live guest of its own, and refuses another.
    method BindGuest(key: Key, page: WebContents) returns (ok: bool)
      requires Valid() && HasTab(threads, key) && page.Guest?
      requires forall k :: k in runtimes && k != key ==> runtimes[k].page != page
      modifies this`runtimes, this`attached, this`lastActive, this`tabTimers, this`destroyed, this`nextView, this`serial,
        downloads, inputs, opens
      ensures Valid()
      ensures Elsewhere(key.thread) == old(Elsewhere(key.thread))
      ensures ok ==> key in runtimes && runtimes[key].page == page
      ensures !ok ==> runtimes == old(runtimes) && key in runtimes && runtimes[key].page.Guest?
      ensures downloads.provenance == old(downloads.provenance)
      ensures ok && key in old(runtimes) && old(runtimes[key]).page == page ==> runtimes == old(runtimes)
      ensures runtimes - {key} == old(runtimes) - {key}
      // a live guest of another page is not replaced, everything else is
      ensures ok <==> !(key in old(runtimes) && old(runtimes[key]).page != page && old(runtimes[key]).page.Guest?
                        && old(runtimes[key]).page !in old(destroyed))
      ensures downloads.log == old(downloads.log)
                               + if ok && key in old(runtimes) && old(runtimes[key]).page != page
                                 then [TornDown(key, true)] else []
    {
      hide AutomationDownloads.Valid, AutomationInputs.Valid, WindowOpens.Valid, ThreadsOk, RuntimesOk, PagesOk, ReservedOk,
        AttachedOk, Elsewhere;
      ok := true;
      if key !in runtimes || runtimes[key].page != page {
        if key in runtimes {
          if !runtimes[key].page.Native? && runtimes[key].page !in destroyed {
            NoPopupPages(runtimes, nextView, serial);
            return false;
          }
          DestroyRuntime(key, true);
        }
        StoreRuntime(key, page);
        assert runtimes - {key} == old(runtimes) - {key};
      }
    }

    // detachWebview: a stale call, for another guest, does nothing.
    method DetachWebview(key: Key, guest: nat)
      requires Valid()
      modifies this, downloads, inputs, opens
      ensures Valid() && threads == old(threads)
      ensures Elsewhere(key.thread) == old(Elsewhere(key.thread))
      ensures if key in old(runtimes) && old(runtimes[key]).page == Guest(guest)
              then runtimes == old(runtimes) - {key} && live == old(live) - {key}
                   && downloads.log == old(downloads.log) + [TornDown(key, false)]
              else unchanged(this, downloads, inputs, opens)
    {
      hide AutomationDownloads.Valid, AutomationInputs.Valid, WindowOpens.Valid, ThreadsOk, RuntimesOk, PagesOk, ReservedOk,
        AttachedOk, Elsewhere;
      RuntimesHaveTabs(runtimes, threads);
      if HasTab(threads, key) && key in runtimes && runtimes[key].page == Guest(guest) {
        DestroyRuntime(key, false);
        MarkLive(key, false);
      }
    }

    // handleRuntimeLoss, installed by the runtime object with this serial: an event of an
    // object that was replaced or removed changes nothing.
    method RuntimeLost(key: Key, installer: nat) returns (ok: bool)
      requires Valid()
      modifies this, downloads, inputs, opens
      ensures Valid()
      ensures Elsewhere(key.thread) == old(Elsewhere(key.thread))
      ensures !(key in old(runtimes) && old(runtimes[key]).serial == installer) ==>
                unchanged(this, downloads, inputs, opens)
      ensures threads == old(threads) && opens.log == old(opens.log)
      ensures key in old(runtimes) && old(runtimes[key]).serial == installer
              && !(old(activeThread) == Some(key.thread) == old(boundsThread)) ==>
                runtimes == old(runtimes) - {key} && live == old(live) - {key}
      ensures ok && key in old(runtimes) && old(runtimes[key]).serial == installer ==>
                old(activeThread) == Some(key.thread) == old(boundsThread) ==> Shown(key.thread)
    {
      hide AutomationDownloads.Valid, AutomationInputs.Valid, WindowOpens.Valid, ThreadsOk, RuntimesOk, PagesOk, ReservedOk,
        AttachedOk, Elsewhere;
      ok := true;
      if key !in runtimes || runtimes[key].serial != installer {
        return;
      }
      RuntimesHaveTabs(runtimes, threads);
      DestroyRuntime(key, false);
      MarkLive(key, false);
      ok := ShowActiveTab(key.thread);
    }

    // ---- Timers ----

    // suspendThread and the timer that calls it.
    method ThreadSuspendFires(t: ThreadId)
      requires Valid() && t in threadTimers
      modifies this, downloads, inputs, opens
      ensures Valid() && threads == old(threads)
      ensures Elsewhere(t) == old(Elsewhere(t))
      ensures activeThread != Some(t) ==> runtimes == Others(old(runtimes), t)
      ensures activeThread == Some(t) ==> runtimes == old(runtimes)
      ensures threadTimers == old(threadTimers) - {t}
    {
      hide AutomationDownloads.Valid, AutomationInputs.Valid, WindowOpens.Valid, ThreadsOk, RuntimesOk, PagesOk, ReservedOk,
        AttachedOk, Elsewhere;
      RuntimesHaveTabs(runtimes, threads);
      if t in threads && activeThread != Some(t) {
        DestroyThreadRuntimes(t);
      }
      threadTimers := threadTimers - {t};
    }

    method TabSuspendFires(key: Key)
      requires Valid() && key in tabTimers
      modifies this, downloads, inputs, opens
      ensures Valid() && threads == old(threads) && tabTimers == old(tabTimers) - {key}
      ensures Elsewhere(key.thread) == old(Elsewhere(key.thread))
      ensures runtimes == old(runtimes) - {key}
      ensures HasTab(threads, key) ==> live == old(live) - {key}
    {
      hide AutomationDownloads.Valid, AutomationInputs.Valid, WindowOpens.Valid, ThreadsOk, RuntimesOk, PagesOk, ReservedOk,
        AttachedOk, Elsewhere;
      RuntimesHaveTabs(runtimes, threads);
      tabTimers := tabTimers - {key};
      if HasTab(threads, key) {
        DestroyRuntime(key, false);
        MarkLive(key, false);
      }
    }

    // The deferred publication of a change.
    method PublicationFires(key: Key) returns (ok: bool)
      requires Valid()
      modifies this, downloads, inputs, opens
      ensures Valid() && opens.log == old(opens.log)
      ensures Elsewhere(key.thread) == old(Elsewhere(key.thread))
      ensures var reattaches := !old(disposed) && key.thread in old(threads)
                                && key in old(opens.publications) && old(opens.publications)[key];
              && (!reattaches ==>
                    unchanged(this, downloads, inputs) && opens.publications == old(opens.publications) - {key})
              && (reattaches && ok && old(activeThread) == Some(key.thread) == old(boundsThread) ==> Shown(key.thread))
    {
      hide AutomationDownloads.Valid, AutomationInputs.Valid, WindowOpens.Valid, ThreadsOk, RuntimesOk, PagesOk, ReservedOk,
        AttachedOk, Elsewhere;
      ok := true;
      var reattach := opens.TakePublication(key);
      if !disposed && key.thread in threads && reattach {
        ok := ShowActiveTab(key.thread);
      }
    }

    // ---- Automation ----

    method PrepareAutomationTab(t: ThreadId, reuse: bool) returns (tab: TabId)
      requires Valid()
      modifies this`threads, this`nextTab, this`rendererOnly
      ensures Valid() && t in threads && threads[t].open && threads[t].active == Some(tab)
      ensures Elsewhere(t) == old(Elsewhere(t))
      ensures Key(t, tab) in rendererOnly
      ensures var had := t in old(threads) && old(threads[t]).tabs != [];
              had ==> threads[t].tabs == old(threads[t]).tabs + (if reuse then [] else [tab])
                      && if reuse then old(threads[t]).active == Some(tab) else tab == old(nextTab)
    {
      hide AutomationDownloads.Valid, AutomationInputs.Valid, WindowOpens.Valid, ThreadsOk, RuntimesOk, PagesOk, ReservedOk,
        AttachedOk, Elsewhere;
      var had := t in threads && threads[t].tabs != [];
      EnsureWorkspace(t);
      ActiveHasTab(threads, nextTab, t);
      if reuse || !had {
        tab := threads[t].active.value;
      } else {
        tab := AppendTab(t, false);
      }
      rendererOnly := rendererOnly + {Key(t, tab)};
      SetOpen(t);
      SetActive(t, tab);
    }

    // The tab of an open thread, or the methods throw.
    predicate Available(key: Key)
      reads this
    {
      HasTab(threads, key) && threads[key.thread].open
    }

    method SelectAutomationTab(key: Key) returns (ok: bool)
      requires Valid()
      modifies this, downloads, inputs, opens
      ensures Valid() && ok == old(Available(key))
      ensures Elsewhere(key.thread) == old(Elsewhere(key.thread))
      ensures if ok then threads == old(threads)[key.thread := old(threads[key.thread]).(active := Some(key.tab))]
              else unchanged(this, downloads, inputs, opens)
      ensures runtimes - {key} == old(runtimes) - {key}
      ensures ok ==> key.thread in threads && threads[key.thread].active == Some(key.tab)
      ensures ok ==> key in runtimes ==> !runtimes[key].page.Native?
      ensures downloads.provenance == old(downloads.provenance)
      ensures forall k :: k != key ==> (k in runtimes <==> k in old(runtimes))
      ensures ok ==> rendererOnly == old(rendererOnly) + {key}
                     && if key in old(runtimes) && old(runtimes[key]).page.Native?
                        then runtimes == old(runtimes) - {key} && live == old(live) - {key}
                        else runtimes == old(runtimes) && live == old(live)
    {
      hide AutomationDownloads.Valid, AutomationInputs.Valid, WindowOpens.Valid, ThreadsOk, RuntimesOk, PagesOk, ReservedOk,
        AttachedOk, Elsewhere;
      ok := Available(key);
      if !ok {
        return;
      }
      rendererOnly := rendererOnly + {key};
      assert runtimes - {key} - {key} == runtimes - {key};
      if key in runtimes && runtimes[key].page.Native? {
        DestroyRuntime(key, true);
        MarkLive(key, false);
      }
      SetActive(key.thread, key.tab);
    }

    method PrepareAutomationNavigation(key: Key) returns (ok: bool)
      requires Valid()
      modifies this`threads, this`rendererOnly
      ensures Valid() && ok == old(Available(key))
      ensures Elsewhere(key.thread) == old(Elsewhere(key.thread))
      ensures if ok then threads == old(threads)[key.thread := old(threads[key.thread]).(active := Some(key.tab))]
              else unchanged(this)
      ensures ok ==> key.thread in threads && threads[key.thread].active == Some(key.tab) && key in rendererOnly
    {
      hide AutomationDownloads.Valid, AutomationInputs.Valid, WindowOpens.Valid, ThreadsOk, RuntimesOk, PagesOk, ReservedOk,
        AttachedOk, Elsewhere;
      ok := Available(key);
      if ok {
        rendererOnly := rendererOnly + {key};
        SetActive(key.thread, key.tab);
      }
    }

    // getAutomationRuntime: a guest that is not the visible page is replaced by a runtime
    // of our own, keeping the attribution of downloads.
    method GetAutomationRuntime(key: Key) returns (ok: bool)
      requires Valid()
      modifies this, downloads, inputs, opens
      ensures Valid() && ok == old(Available(key))
      ensures Elsewhere(key.thread) == old(Elsewhere(key.thread))
      ensures if ok then threads == old(threads)[key.thread := old(threads[key.thread]).(active := Some(key.tab))]
              else unchanged(this, downloads, inputs, opens)
      ensures runtimes - {key} == old(runtimes) - {key}
      ensures ok ==> key in runtimes && threads[key.thread].active == Some(key.tab) && key !in rendererOnly
      ensures ok && !runtimes[key].page.Native? ==> attached == Some(key) && activeThread == Some(key.thread)
      ensures ok ==> downloads.provenance
                     == if key in old(runtimes) && old(runtimes[key]).page in old(destroyed)
                        then old(downloads.provenance) - {key} else old(downloads.provenance)
      ensures ok ==>
                var visible := key in old(runtimes) && !old(runtimes[key]).page.Native?
                               && old(activeThread) == Some(key.thread) && old(attached) == Some(key) && old(boundsThread) == Some(key.thread);
                if key in old(runtimes) && old(runtimes[key]).page !in old(destroyed)
                   && (old(runtimes[key]).page.Native? || visible)
                then runtimes == old(runtimes) && live == old(live)
                else runtimes[key] == Runtime(Native(old(nextView)), old(serial)) && key in live
    {
      hide AutomationDownloads.Valid, AutomationInputs.Valid, WindowOpens.Valid, ThreadsOk, RuntimesOk, PagesOk, ReservedOk,
        AttachedOk, Elsewhere;
      ok := Available(key);
      if !ok {
        return;
      }
      SetActive(key.thread, key.tab);
      rendererOnly := rendererOnly - {key};
      var visible := key in runtimes && !runtimes[key].page.Native? && activeThread == Some(key.thread)
                     && attached == Some(key) && boundsThread == Some(key.thread);
      if key in runtimes && runtimes[key].page !in destroyed && !visible && !runtimes[key].page.Native? {
        DestroyRuntime(key, true);
        assert runtimes - {key} == old(runtimes) - {key};
      }
      if key !in runtimes || runtimes[key].page in destroyed {
        var made := MakeRuntime(key);
      }
    }

    // ensureLiveRuntime for a tab without a live runtime that does not wait for one.
    method MakeRuntime(key: Key) returns (made: bool)
      requires Valid() && HasTab(threads, key) && key !in rendererOnly
      requires key !in runtimes || runtimes[key].page in destroyed
      modifies this`runtimes, this`attached, this`lastActive, this`tabTimers, this`destroyed, this`live, this`nextView,
        this`serial, downloads, inputs, opens
      ensures Valid() && made && key in runtimes && runtimes[key].page.Native?
      ensures Elsewhere(key.thread) == old(Elsewhere(key.thread))
      ensures runtimes - {key} == old(runtimes) - {key}
      ensures downloads.provenance
              == if key in old(runtimes) then old(downloads.provenance) - {key} else old(downloads.provenance)
      ensures runtimes == old(runtimes)[key := Runtime(Native(old(nextView)), old(serial))]
      ensures tabTimers == old(tabTimers) - {key} && live == old(live) + {key}
      ensures downloads.log == old(downloads.log) + if key in old(runtimes) then [TornDown(key, false)] else []
    {
      hide AutomationDownloads.Valid, AutomationInputs.Valid, WindowOpens.Valid, ThreadsOk, RuntimesOk, PagesOk, ReservedOk,
        AttachedOk, Elsewhere;
      if key in runtimes {
        DestroyRuntime(key, false);
      }
      tabTimers := tabTimers - {key};
      NativePageIsNew(runtimes, nextView, serial);
      StoreRuntime(key, Native(nextView));
      MarkLive(key, true);
      made := true;
      assert runtimes - {key} == old(runtimes) - {key};
    }

    method CloseAutomationTab(key: Key) returns (ok: bool)
      requires Valid()
      modifies this, downloads, inputs, opens
      ensures Valid() && ok == old(Available(key))
      ensures Elsewhere(key.thread) == old(Elsewhere(key.thread))
      ensures ok ==> key !in runtimes && !HasTab(threads, key)
      ensures ok ==> runtimes == old(runtimes) - {key} && downloads.provenance == old(downloads.provenance) - {key}
      ensures ok ==>
                key.thread in threads
                && var before, after := old(threads[key.thread]), threads[key.thread];
                   && after.open == before.open && IsWithout(after.tabs, before.tabs, key.tab)
                   && after.active == ActiveWithout(before, key.tab, after.tabs)
      ensures ok ==> popups == map w | w in old(popups) && old(popups)[w] != key :: old(popups)[w]
      ensures !ok ==> unchanged(this, downloads, inputs, opens)
      ensures ok ==> opens.publications
                     == if key in old(runtimes) && !old(runtimes[key]).page.Native? && !disposed
                           && old(threads[key.thread]).tabs == [key.tab]
                        then (old(opens.publications) - {key})[key := false] else old(opens.publications) - {key}
    {
      hide AutomationDownloads.Valid, AutomationInputs.Valid, WindowOpens.Valid, ThreadsOk, RuntimesOk, PagesOk, ReservedOk,
        AttachedOk, Elsewhere, IsWithout;
      ok := Available(key);
      if !ok {
        return;
      }
      var guest := key in runtimes && !runtimes[key].page.Native?;
      DropTab(key);
      if guest && threads[key.thread].tabs == [] && !disposed {
        opens.Publish(key, false);
      }
    }

    // ---- Downloads, inputs, gestures ----

    method TrackDownload(key: Key, lease: nat, freshGroup: nat)
      requires Valid() && lease !in downloads.leases && freshGroup !in downloads.members && lease !in inputs.open
      modifies downloads, inputs
      ensures Valid() && downloads.log == old(downloads.log) + [Tracked(key)]
      ensures key in downloads.listeners && lease in downloads.members[downloads.listeners[key]]
      ensures inputs.open == old(inputs.open)[lease := key]
      ensures inputs.depth == old(inputs.depth)[key := old(DepthOf(inputs.depth, key)) + 1]
    {
      hide AutomationDownloads.Valid, AutomationInputs.Valid, WindowOpens.Valid, ThreadsOk, RuntimesOk, PagesOk, ReservedOk,
        AttachedOk, Elsewhere;
      downloads.Track(key, lease, freshGroup);
      inputs.BeginGesture(key, lease);
    }

    method ReleaseDownload(lease: nat)
      requires Valid() && lease in downloads.leases
      modifies downloads, inputs
      ensures Valid() && downloads.log == old(downloads.log) && downloads.released == old(downloads.released) + {lease}
      ensures inputs.open == if lease in old(downloads.released) then old(inputs.open) else old(inputs.open) - {lease}
    {
      hide AutomationDownloads.Valid, AutomationInputs.Valid, WindowOpens.Valid, ThreadsOk, RuntimesOk, PagesOk, ReservedOk,
        AttachedOk, Elsewhere;
      var first := downloads.Release(lease);
      if first {
        inputs.EndGesture(lease);
      }
    }

    // The page of a runtime, or of an open popup, belongs to a tab.
    ghost predicate BelongsTo(page: WebContents, key: Key)
      reads this
    {
      || (key in runtimes && runtimes[key].page == page)
      || (page.Popup? && page.window in popups && page !in destroyed && popups[page.window] == key)
    }

    // findRuntimeContext: the tab a page belongs to, as its runtime or as its popup.
    method FindContext(page: WebContents) returns (context: Option<Key>)
      requires Valid()
      ensures page.Popup? ==>
                context == if page.window in popups && page !in destroyed then Some(popups[page.window]) else None
      ensures !page.Popup? && context.Some? ==> context.value in runtimes && runtimes[context.value].page == page
      ensures forall k :: k in runtimes && runtimes[k].page == page ==> context == Some(k)
    {
      hide AutomationDownloads.Valid, AutomationInputs.Valid, WindowOpens.Valid, ThreadsOk, RuntimesOk, ReservedOk,
        Elsewhere;
      context := None;
      var left := runtimes.Keys;
      while left != {}
        invariant left <= runtimes.Keys && context == None
        invariant forall k :: k in runtimes && k !in left ==> runtimes[k].page != page
      {
        var key :| key in left;
        if runtimes[key].page == page {
          return Some(key);
        }
        left := left - {key};
      }
      if page.Popup? && page.window in popups && page !in destroyed {
        context := Some(popups[page.window]);
      }
    }

    // handleSessionDownload: a download of a page that belongs to a tab is cancelled exactly
    // when it is attributed to the agent.
    method HandleDownload(page: WebContents) returns (cancelled: bool, notified: set<nat>)
      requires Valid()
      ensures cancelled <==> !disposed && exists k :: BelongsTo(page, k) && Attributed(downloads.log, k)
      ensures !cancelled ==> notified == {}
      ensures forall k :: BelongsTo(page, k) && k !in downloads.listeners ==> notified == {}
      ensures forall k, l :: cancelled && BelongsTo(page, k) && k in downloads.listeners ==>
                (l in notified <==> l in downloads.members[downloads.listeners[k]]
                                    && downloads.leases[l].epoch == EpochOf(downloads.epochs, k.thread))
    {
      hide AutomationDownloads.Valid, AutomationInputs.Valid, WindowOpens.Valid, ThreadsOk, RuntimesOk, ReservedOk,
        AttachedOk, Elsewhere;
      hide Attributed;
      var found := FindContext(page);
      cancelled, notified := false, {};
      if !disposed && found.Some? {
        assert BelongsTo(page, found.value);
        cancelled, notified := downloads.Download(found.value);
      }
    }

    // A native key or mouse event of a runtime: the agent's own, or a person's.
    method NativeInput(key: Key, signal: Signal) returns (swallowed: bool)
      requires Valid() && key in runtimes
      modifies downloads, inputs
      ensures Valid() && threads == old(threads) && runtimes == old(runtimes)
      ensures Elsewhere(key.thread) == old(Elsewhere(key.thread))
      ensures swallowed <==> IsExpected(old(inputs.Queue(key)), signal, now)
      ensures swallowed ==> downloads.log == old(downloads.log)
      ensures !swallowed ==> downloads.log == old(downloads.log) + [HumanControl(key.thread)] && Unattributed(key.thread)
    {
      hide AutomationDownloads.Valid, AutomationInputs.Valid, WindowOpens.Valid, ThreadsOk, RuntimesOk, PagesOk, ReservedOk,
        AttachedOk, Others, OthersIn;
      OthersQueue(inputs.queues, key);
      swallowed := inputs.Consume(key, signal, now);
      if !swallowed {
        MarkHumanControl(key.thread);
      }
    }

    method ExpectAgentInput(key: Key, signal: Signal, token: nat) returns (entry: nat)
      requires Valid() && token !in inputs.open
      modifies inputs
      ensures Valid() && inputs.registered == old(inputs.registered) + [Registration(key, signal, now, None)]
      ensures key in inputs.queues && inputs.queues == old(inputs.queues)[key := inputs.queues[key]]
              && IsQueued(inputs.queues[key], old(inputs.Queue(key)), now, Pending(entry, signal, now + EXPIRY_MS))
    {
      hide AutomationDownloads.Valid, AutomationInputs.Valid, WindowOpens.Valid, ThreadsOk, RuntimesOk, PagesOk, ReservedOk,
        AttachedOk, Elsewhere;
      entry := inputs.Expect(key, signal, now, token);
    }

    method ReleaseAgentInput(key: Key, entry: nat, token: nat)
      requires Valid() && entry < inputs.serial && entry < |inputs.registered| && inputs.registered[entry].key == key
      requires token in inputs.open <==> inputs.registered[entry].releasedAt.None?
      modifies inputs
      ensures Valid() && inputs.open == old(inputs.open) - {token}
      ensures token in old(inputs.open) ==>
                inputs.queues == WithQueue(old(inputs.queues), key,
                                           Shorten(Unexpired(old(inputs.Queue(key)), now), entry, now + RELEASE_GRACE_MS))
    {
      hide AutomationDownloads.Valid, AutomationInputs.Valid, WindowOpens.Valid, ThreadsOk, RuntimesOk, PagesOk, ReservedOk,
        AttachedOk, Elsewhere;
      inputs.Release(key, entry, now, token);
    }

    method PopupInput(window: nat, closes: bool)
      requires Valid()
      modifies this`popups, downloads
      ensures Valid() && (window in old(popups) ==> Unattributed(old(popups[window]).thread))
      ensures popups == if closes then old(popups) - {window} else old(popups)
    {
      hide AutomationDownloads.Valid, AutomationInputs.Valid, WindowOpens.Valid, ThreadsOk, RuntimesOk, PagesOk, ReservedOk,
        AttachedOk, Elsewhere;
      if window in popups {
        MarkHumanControl(popups[window].thread);
        if closes {
          popups := popups - {window};
        }
      }
    }

    method RegisterPopup(window: nat, key: Key)
      requires Valid()
      modifies this`popups
      ensures Valid() && popups == if window in old(popups) then old(popups) else old(popups)[window := key]
    {
      hide AutomationDownloads.Valid, AutomationInputs.Valid, WindowOpens.Valid, ThreadsOk, RuntimesOk, PagesOk, ReservedOk,
        AttachedOk, Elsewhere;
      if window !in popups {
        popups := popups[window := key];
      }
    }

    method PopupClosed(window: nat)
      requires Valid()
      modifies this`popups
      ensures Valid() && popups == old(popups) - {window}
    {
      hide AutomationDownloads.Valid, AutomationInputs.Valid, WindowOpens.Valid, ThreadsOk, RuntimesOk, PagesOk, ReservedOk,
        AttachedOk, Elsewhere;
      popups := popups - {window};
    }

    // Electron destroys a page; the loss is reported by events of its own.
    method PageDestroyed(page: WebContents)
      requires Valid()
      modifies this`destroyed
      ensures Valid() && destroyed == old(destroyed) + {page}
    {
      hide AutomationDownloads.Valid, AutomationInputs.Valid, WindowOpens.Valid, ThreadsOk, RuntimesOk, PagesOk, ReservedOk,
        AttachedOk, Elsewhere;
      destroyed := destroyed + {page};
    }

    method TimePasses(to: nat)
      requires Valid()
      modifies this`now
      ensures Valid() && now == to
    {
      hide AutomationDownloads.Valid, AutomationInputs.Valid, WindowOpens.Valid, ThreadsOk, RuntimesOk, PagesOk, ReservedOk,
        AttachedOk, Elsewhere;
      now := to;
    }

    // ---- Windows opened by pages ----

    method TrackWindowOpen(key: Key, lease: nat, freshGroup: nat)
      requires Valid() && lease !in opens.leases && freshGroup !in opens.members && lease !in inputs.open
      modifies opens, inputs
      ensures Valid() && opens.log == old(opens.log) && opens.commits == old(opens.commits)
      ensures key in opens.listeners && lease in opens.members[opens.listeners[key]]
      ensures inputs.open == old(inputs.open)[lease := key]
      ensures inputs.depth == old(inputs.depth)[key := old(DepthOf(inputs.depth, key)) + 1]
    {
      hide AutomationDownloads.Valid, AutomationInputs.Valid, WindowOpens.Valid, ThreadsOk, RuntimesOk, PagesOk, ReservedOk,
        AttachedOk, Elsewhere;
      opens.Track(key, lease, freshGroup);
      inputs.BeginGesture(key, lease);
    }

    // Whether releasing this lease leaves its observer set empty.
    predicate LastObserver(lease: nat)
      requires lease in opens.leases
      reads opens
    {
      var group := opens.leases[lease].group;
      lease !in opens.released && group in opens.members && opens.members[group] - {lease} == {}
    }

    // The disposer of an observer: the last one commits what is pending.
    method ReleaseWindowOpen(lease: nat)
      requires Valid() && lease in opens.leases
      modifies this`threads, this`nextTab, this`rendererOnly, inputs, opens
      ensures Valid()
      ensures inputs.open == if lease in old(opens.released) then old(inputs.open) else old(inputs.open) - {lease}
      ensures if old(LastObserver(lease)) then Commits(old(opens.leases[lease].key))
              else threads == old(threads) && opens.log == old(opens.log) && opens.commits == old(opens.commits)
    {
      hide AutomationDownloads.Valid, AutomationInputs.Valid, WindowOpens.Valid, ThreadsOk, RuntimesOk, PagesOk, ReservedOk,
        AttachedOk, Elsewhere;
      var key := opens.leases[lease].key;
      var first, last := opens.Release(lease);
      if first {
        inputs.EndGesture(lease);
      }
      if last {
        CommitWindowOpen(key);
      }
    }

    // The decision about a new tab is put off until Electron's callback has returned.
    method ScheduleWindowOpen(key: Key, source: WebContents)
      requires Valid()
      modifies opens
      ensures Valid() && threads == old(threads) && opens.commits == old(opens.commits) && opens.log == old(opens.log)
      ensures opens.tasks ==
              if key in old(opens.tasks) || key in opens.commits || disposed then old(opens.tasks)
              else old(opens.tasks)[key := Task(old(opens.handle), source, DepthOf(inputs.depth, key) > 0)]
    {
      hide AutomationDownloads.Valid, AutomationInputs.Valid, WindowOpens.Valid, ThreadsOk, RuntimesOk, PagesOk, ReservedOk,
        AttachedOk, Elsewhere;
      var automation := inputs.GestureActive(key);
      if !disposed {
        opens.Schedule(key, source, automation);
      }
    }

    // isCurrentWindowOpenSource
    predicate IsCurrentSource(key: Key, source: WebContents)
      reads this
    {
      (key in runtimes && runtimes[key].page == source)
      || (source.Popup? && source.window in popups && popups[source.window] == key)
    }

    // Whether a new tab of this page may still be added.
    predicate MayOpen(key: Key, source: WebContents)
      reads this
    {
      !disposed && source !in destroyed && IsCurrentSource(key, source) && Available(key)
    }

    // The callback of setImmediate.
    method WindowOpenTaskRuns(key: Key, handle: nat) returns (ok: bool)
      requires Valid()
      modifies this, downloads, inputs, opens
      ensures Valid()
      ensures Elsewhere(key.thread) == old(Elsewhere(key.thread))
      ensures !(key in old(opens.tasks) && old(opens.tasks[key]).handle == handle) ==>
                unchanged(this, downloads, inputs, opens)
      ensures key in old(opens.tasks) && old(opens.tasks[key]).handle == handle ==>
                var task, tab := old(opens.tasks[key]), old(nextTab);
                if !old(MayOpen(key, opens.tasks[key].source)) then
                  unchanged(this, downloads, inputs) && opens.log == old(opens.log)
                  && opens.tasks == old(opens.tasks) - {key} && opens.commits == old(opens.commits)
                else if task.automation then
                  threads == old(threads) && opens.log == old(opens.log) + [Announced(key, tab)]
                  && opens.tasks == old(opens.tasks) - {key}
                  && key in opens.commits && opens.commits[key].tab == tab && opens.commits[key].source == task.source
                else
                  opens.log == old(opens.log) && Unattributed(key.thread)
                  && var before := old(threads[key.thread]);
                     threads == old(threads)[key.thread := Thread(before.open, Some(tab), before.tabs + [tab])]
    {
      hide AutomationDownloads.Valid, AutomationInputs.Valid, WindowOpens.Valid, ThreadsOk, RuntimesOk, PagesOk, ReservedOk,
        AttachedOk, Others, OthersIn;
      ok := true;
      OthersTask(opens.tasks, key);
      var task := opens.TakeTask(key, handle);
      if task.None? || !MayOpen(key, task.value.source) {
        return;
      }
      if task.value.automation {
        AnnounceTab(key, task.value.source);
      } else {
        var tab;
        tab, ok := NewTab(key.thread, true);
        if ok {
          ok := ShowActiveTab(key.thread);
        }
      }
    }

    // The observers learn the id of the tab that is to come.
    method AnnounceTab(key: Key, source: WebContents)
      requires Valid() && key !in opens.tasks && key !in opens.commits
      modifies this`nextTab, opens
      ensures Valid() && nextTab == old(nextTab) + 1
      ensures Elsewhere(key.thread) == old(Elsewhere(key.thread))
      ensures opens.log == old(opens.log) + [Announced(key, old(nextTab))]
      ensures key in opens.commits && opens.commits[key].tab == old(nextTab) && opens.commits[key].source == source
      ensures opens.tasks == old(opens.tasks)
    {
      hide AutomationDownloads.Valid, AutomationInputs.Valid, WindowOpens.Valid, ThreadsOk, RuntimesOk, PagesOk, ReservedOk,
        AttachedOk, WasCommitted, Others, OthersIn;
      ReserveTab(opens.commits, opens.log, threads, nextTab, key, source, opens.handle);
      OthersChange(opens.commits, key, Commit(source, nextTab, opens.handle));
      opens.AnnounceTab(key, source, nextTab);
      nextTab := nextTab + 1;
    }

    // What a commit does: the announced tab is appended, at most once, and becomes the
    // active one, if its page may still open it.
    twostate predicate Commits(key: Key)
      reads this, downloads, inputs, opens
    {
      var appends := key in old(opens.commits) && old(MayOpen(key, opens.commits[key].source));
      && key !in opens.commits
      && opens.commits == old(opens.commits) - {key}
      && (!appends ==> threads == old(threads) && opens.log == old(opens.log)
                       && rendererOnly == old(rendererOnly) && opens.publications == old(opens.publications))
      && (appends ==> opens.publications == if key in old(opens.publications) then old(opens.publications)
                                            else old(opens.publications)[key := true])
      && (appends ==>
            var tab := old(opens.commits[key]).tab;
            var before := old(threads[key.thread]);
            threads == old(threads)[key.thread := Thread(true, Some(tab), before.tabs + [tab])]
            && rendererOnly == old(rendererOnly) + {Key(key.thread, tab)}
            && opens.log == old(opens.log) + [Committed(key, tab)])
    }

    // commitPendingAutomationWindowOpen
    method CommitWindowOpen(key: Key)
      requires Valid()
      modifies this`threads, this`nextTab, this`rendererOnly, opens
      ensures Valid() && nextTab == old(nextTab) && Commits(key)
      ensures Elsewhere(key.thread) == old(Elsewhere(key.thread))
    {
      hide AutomationDownloads.Valid, AutomationInputs.Valid, WindowOpens.Valid, ThreadsOk, RuntimesOk, PagesOk, ReservedOk,
        AttachedOk, Others, OthersIn;
      if key !in opens.commits {
        NoCommit(opens.commits, key);
        OthersCommit(opens.commits, key);
        return;
      }
      var source, tab := opens.commits[key].source, opens.commits[key].tab;
      var appends := MayOpen(key, source);
      if appends {
        CommitIsNew(opens.commits, opens.log, threads, nextTab, key);
      }
      WithoutCommit(opens.commits, opens.log, threads, nextTab, key);
      CommittedIsOld(opens.commits, opens.log, threads, nextTab, key);
      OthersDiffer(opens, key);
      RuntimesHaveTabs(runtimes, threads);
      OthersCommit(opens.commits, key);
      var commit := opens.TakeCommit(key, appends);
      if appends {
        var before := threads[key.thread];
        UpdateThread(key.thread, Thread(before.open, Some(tab), before.tabs + [tab]), nextTab);
        rendererOnly := rendererOnly + {Key(key.thread, tab)};
        opens.Publish(key, true);
      } else {
        assert opens.log == old(opens.log);
      }
    }

    // The fallback timer of a commit, unless it was cleared.
    method FallbackFires(key: Key, timer: nat)
      requires Valid()
      modifies this`threads, this`nextTab, this`rendererOnly, opens
      ensures Valid()
      ensures Elsewhere(key.thread) == old(Elsewhere(key.thread))
      ensures if key in old(opens.commits) && old(opens.commits[key]).timer == timer
              then Commits(key) else unchanged(this, opens)
    {
      hide AutomationDownloads.Valid, AutomationInputs.Valid, WindowOpens.Valid, ThreadsOk, RuntimesOk, PagesOk, ReservedOk,
        AttachedOk, Elsewhere;
      if key in opens.commits && opens.commits[key].timer == timer {
        CommitWindowOpen(key);
      }
    }

    method Dispose()
      requires Valid()
      modifies this, downloads, inputs, opens
      ensures Valid() && disposed && threads == map[] && runtimes == map[] && attached == None
      ensures opens.tasks == map[] && opens.commits == map[] && popups == map[]
      ensures threadTimers == {} && tabTimers == {} && activeThread == None && !hasWindow
      ensures downloads.provenance == map[] && inputs.queues == map[]
    {
      hide AutomationDownloads.Valid, AutomationInputs.Valid, WindowOpens.Valid, ThreadsOk, RuntimesOk, PagesOk, ReservedOk,
        AttachedOk, Elsewhere;
      DestroyAllRuntimes();
      ForgetEverything();
      StandDown();
    }

    method StandDown()
      requires Valid()
      modifies this`disposed, this`threadTimers, this`tabTimers, this`popups, this`lastActive, this`rendererOnly,
        this`hasWindow, this`activeThread, this`boundsThread
      ensures Valid() && disposed && !hasWindow && activeThread == None && boundsThread == None
      ensures threadTimers == {} && tabTimers == {} && popups == map[]
    {
      hide AutomationDownloads.Valid, AutomationInputs.Valid, WindowOpens.Valid, ThreadsOk, RuntimesOk, PagesOk, ReservedOk,
        AttachedOk, Elsewhere;
      ClearTimers();
      disposed, hasWindow, activeThread, boundsThread := true, false, None, None;
    }

    method ClearTimers()
      requires Valid()
      modifies this`threadTimers, this`tabTimers, this`popups, this`lastActive, this`rendererOnly
      ensures Valid() && threadTimers == {} && tabTimers == {} && popups == map[]
    {
      hide AutomationDownloads.Valid, AutomationInputs.Valid, WindowOpens.Valid, ThreadsOk, RuntimesOk, PagesOk, ReservedOk,
        AttachedOk, Elsewhere;
      threadTimers, tabTimers, popups, lastActive, rendererOnly := {}, {}, map[], map[], {};
    }

    method ForgetEverything()
      requires Valid() && runtimes == map[] && attached == None
      modifies this`threads, downloads, inputs, opens
      ensures Valid() && threads == map[] && opens.tasks == map[] && opens.commits == map[]
      ensures downloads.provenance == map[] && inputs.queues == map[]
    {
      hide AutomationDownloads.Valid, AutomationInputs.Valid, WindowOpens.Valid, ThreadsOk, RuntimesOk, PagesOk, ReservedOk,
        AttachedOk, Elsewhere;
      NothingLeft(threads, nextTab, nextView, serial, opens.log, opens.commits);
      opens.Dispose();
      downloads.Dispose();
      inputs.Dispose();
      threads := map[];
    }
  }

  // One list of tabs is the other without this tab.
  ghost predicate IsWithout(after: seq<TabId>, before: seq<TabId>, tab: TabId) {
    exists i :: 0 <= i < |before| && before[i] == tab && after == before[..i] + before[i + 1..]
  }

  // The active tab after closing one: the same, or the last one left if it was the closed one.
  function ActiveWithout(before: Thread, tab: TabId, left: seq<TabId>): Option<TabId> {
    if before.active != Some(tab) then before.active
    else if left == [] then None
    else Some(left[|left| - 1])
  }

  lemma {:induction false} WithoutAbsent(tabs: seq<TabId>, id: TabId)
    requires id !in tabs
    ensures WithoutTab(tabs, id) == tabs
  {
    if tabs != [] {
      var n := |tabs| - 1;
      WithoutAbsent(tabs[..n], id);
      assert tabs == tabs[..n] + [tabs[n]];
    }
  }

  lemma {:induction false} WithoutTabAt(tabs: seq<TabId>, id: TabId, i: nat)
    requires Distinct(tabs) && i < |tabs| && tabs[i] == id
    ensures WithoutTab(tabs, id) == tabs[..i] + tabs[i + 1..]
  {
    var n := |tabs| - 1;
    if i == n {
      assert id !in tabs[..n];
      WithoutAbsent(tabs[..n], id);
    } else {
      WithoutTabAt(tabs[..n], id, i);
      assert tabs[..n][..i] == tabs[..i];
      assert tabs[..n][i + 1..] + [tabs[n]] == tabs[i + 1..];
    }
  }

  lemma WithoutTabMeans(tabs: seq<TabId>, id: TabId)
    requires Distinct(tabs) && id in tabs
    ensures IsWithout(WithoutTab(tabs, id), tabs, id)
    ensures WithoutTab(tabs, id) == [] <==> tabs == [id]
  {
    var i :| 0 <= i < |tabs| && tabs[i] == id;
    WithoutTabAt(tabs, id, i);
  }

  // tabs.filter((tab) => tab.id !== id)
  function WithoutTab(tabs: seq<TabId>, id: TabId): (r: seq<TabId>)
    ensures forall t :: t in r <==> t in tabs && t != id
    ensures Distinct(tabs) ==> Distinct(r)
  {
    if tabs == [] then []
    else
      var before, last := tabs[..|tabs| - 1], tabs[|tabs| - 1];
      var rest := WithoutTab(before, id);
      assert forall i :: 0 <= i < |rest| ==> rest[i] in before;
      if last == id then rest else rest + [last]
  }

  lemma TabsWithout(t: Thread, nextTab: nat, tab: TabId)
    requires ThreadOk(t, nextTab) && tab in t.tabs
    ensures var tabs := WithoutTab(t.tabs, tab);
            && ThreadOk(Thread(t.open, ActiveWithout(t, tab, tabs), tabs), nextTab)
            && IsWithout(tabs, t.tabs, tab) && (tabs == [] <==> t.tabs == [tab])
  {
    var tabs := WithoutTab(t.tabs, tab);
    hide IsWithout, WithoutTab, Distinct;
    WithoutTabMeans(t.tabs, tab);
    forall i | 0 <= i < |tabs|
      ensures tabs[i] < nextTab
    {
      TabIsOld(t.tabs, nextTab, tabs[i]);
    }
    var active := ActiveWithout(t, tab, tabs);
    assert active.None? <==> tabs == [];
    assert active.Some? ==> active.value in tabs;
  }

  lemma TabIsOld(tabs: seq<TabId>, nextTab: nat, tab: TabId)
    requires tab in tabs && forall i :: 0 <= i < |tabs| ==> tabs[i] < nextTab
    ensures tab < nextTab
  {
  }

  lemma ThreadWithout(threads: map<ThreadId, Thread>, nextTab: nat, runtimes: map<Key, Runtime>,
                      commits: map<Key, Commit>, log: seq<BrowserWindowOpens.Note>, key: Key)
    requires ThreadsOk(threads, nextTab) && RuntimesOk(runtimes, threads) && ReservedOk(commits, log, threads, nextTab)
    requires HasTab(threads, key) && key !in runtimes
    ensures var t := threads[key.thread];
            var tabs := WithoutTab(t.tabs, key.tab);
            && ThreadOk(Thread(t.open, ActiveWithout(t, key.tab, tabs), tabs), nextTab)
            && IsWithout(tabs, t.tabs, key.tab) && (tabs == [] <==> t.tabs == [key.tab])
            && (forall k :: k in runtimes && k.thread == key.thread ==> k.tab in tabs)
            && (forall k :: k in commits ==> commits[k].tab !in tabs)
  {
    hide IsWithout, ThreadOk, WithoutTab, ActiveWithout;
    TabsWithout(threads[key.thread], nextTab, key.tab);
  }

  lemma TabsAreOld(threads: map<ThreadId, Thread>, nextTab: nat, t: ThreadId)
    requires ThreadsOk(threads, nextTab) && t in threads
    ensures forall tab :: tab in threads[t].tabs ==> tab < nextTab
  {
  }

  lemma ActiveHasTab(threads: map<ThreadId, Thread>, nextTab: nat, t: ThreadId)
    requires ThreadsOk(threads, nextTab) && t in threads
    ensures threads[t].active.Some? ==> HasTab(threads, Key(t, threads[t].active.value))
    ensures threads[t].active.None? <==> threads[t].tabs == []
  {
  }

  lemma RuntimesHaveTabs(runtimes: map<Key, Runtime>, threads: map<ThreadId, Thread>)
    requires RuntimesOk(runtimes, threads)
    ensures forall k :: k in runtimes ==> k.thread in threads && k.tab in threads[k.thread].tabs
  {
  }

  lemma OthersQueue(queues: map<Key, seq<Pending>>, key: Key)
    ensures forall entries :: Others(WithQueue(queues, key, entries), key.thread) == Others(queues, key.thread)
  {
  }

  lemma OthersTask(tasks: map<Key, Task>, key: Key)
    ensures Others(tasks - {key}, key.thread) == Others(tasks, key.thread)
  {
  }

  lemma OthersCommit(commits: map<Key, Commit>, key: Key)
    ensures Others(commits - {key}, key.thread) == Others(commits, key.thread)
  {
  }

  lemma NoneOfThread(runtimes: map<Key, Runtime>, before: map<Key, Runtime>, t: ThreadId)
    requires runtimes == Others(before, t)
    ensures forall k: Key :: k.thread == t ==> k !in runtimes
  {
  }

  // The runtimes of other pages.
  function WithoutPage(runtimes: map<Key, Runtime>, page: WebContents): map<Key, Runtime> {
    map k | k in runtimes && runtimes[k].page != page :: runtimes[k]
  }

  lemma OnlyOnePage(runtimes: map<Key, Runtime>, nextView: nat, serial: nat, page: WebContents, found: Option<Key>, key: Key)
    requires PagesOk(runtimes, nextView, serial)
    requires found.Some? ==> found.value in runtimes && runtimes[found.value].page == page
    requires forall k :: k in runtimes && runtimes[k].page == page ==> found == Some(k)
    ensures WithoutPage(runtimes, page) - {key}
         == (if found.Some? then runtimes - {found.value} else runtimes) - {key}
    ensures found == Some(key) || found == None ==> WithoutPage(runtimes, page) - {key} == runtimes - {key}
  {
  }

  lemma ReserveTab(commits: map<Key, Commit>, log: seq<BrowserWindowOpens.Note>, threads: map<ThreadId, Thread>,
                   nextTab: nat, key: Key, source: WebContents, timer: nat)
    requires ReservedOk(commits, log, threads, nextTab) && ThreadsOk(threads, nextTab)
    ensures !WasCommitted(log, nextTab) && forall k :: k in commits ==> commits[k].tab != nextTab
    ensures ReservedOk(commits[key := Commit(source, nextTab, timer)], log + [Announced(key, nextTab)], threads, nextTab + 1)
    ensures ThreadsOk(threads, nextTab + 1)
  {
  }

  lemma NoCommit(commits: map<Key, Commit>, key: Key)
    ensures key !in commits ==> commits - {key} == commits
  {
  }

  lemma CommitIsNew(commits: map<Key, Commit>, log: seq<BrowserWindowOpens.Note>, threads: map<ThreadId, Thread>,
                    nextTab: nat, key: Key)
    requires ReservedOk(commits, log, threads, nextTab) && ThreadsOk(threads, nextTab) && key in commits
    requires key.thread in threads
    ensures var before, tab := threads[key.thread], commits[key].tab;
            ThreadOk(Thread(before.open, Some(tab), before.tabs + [tab]), nextTab)
  {
    assert ThreadOk(threads[key.thread], nextTab);
  }

  lemma CommittedIsOld(commits: map<Key, Commit>, log: seq<BrowserWindowOpens.Note>, threads: map<ThreadId, Thread>,
                       nextTab: nat, key: Key)
    requires ReservedOk(commits, log, threads, nextTab) && key in commits
    ensures ReservedOk(commits - {key}, log + [Committed(key, commits[key].tab)], threads, nextTab)
    ensures forall k, t :: k in commits && t in threads ==> commits[k].tab !in threads[t].tabs
  {
  }

  lemma OthersDiffer(opens: WindowOpens, key: Key)
    requires opens.Valid() && key in opens.commits
    ensures forall k :: k in opens.commits && k != key ==> opens.commits[k].tab != opens.commits[key].tab
  {
  }

  lemma NothingLeft(threads: map<ThreadId, Thread>, nextTab: nat, nextView: nat, serial: nat,
                    log: seq<BrowserWindowOpens.Note>, commits: map<Key, Commit>)
    requires ReservedOk(commits, log, threads, nextTab)
    ensures ThreadsOk(map[], nextTab) && RuntimesOk(map[], map[]) && PagesOk(map[], nextView, serial)
    ensures ReservedOk(map[], log, map[], nextTab)
  {
  }

  lemma NoPopupPages(runtimes: map<Key, Runtime>, nextView: nat, serial: nat)
    requires PagesOk(runtimes, nextView, serial)
    ensures forall k :: k in runtimes ==> !runtimes[k].page.Popup?
  {
  }

  lemma NoneAttached(runtimes: map<Key, Runtime>)
    ensures AttachedOk(None, runtimes)
  {
  }

  // Distinct tabs out of a list are no more than the list has.
  lemma {:induction false} FewerThan(some: seq<TabId>, all: seq<TabId>)
    requires Distinct(some) && forall t :: t in some ==> t in all
    ensures |some| <= |all|
  {
    if some != [] {
      var rest, last := some[..|some| - 1], some[|some| - 1];
      assert last in some;
      var i :| 0 <= i < |all| && all[i] == last;
      var others := all[..i] + all[i + 1..];
      forall t | t in rest
        ensures t in others
      {
        assert t in some && t != last;
        var j :| 0 <= j < |all| && all[j] == t;
        assert others[if j < i then j else j - 1] == t;
      }
      FewerThan(rest, others);
    }
  }

  lemma TabsDistinct(threads: map<ThreadId, Thread>, nextTab: nat, t: ThreadId)
    requires ThreadsOk(threads, nextTab) && t in threads
    ensures Distinct(threads[t].tabs)
  {
  }
}

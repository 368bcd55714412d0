// Windows opened by pages: the deferred decision, the pending commit of an agent's tab,
// and the observers (apps/desktop/src/browserManager.ts: trackAutomationWindowOpen,
// scheduleWindowOpenTab, commitPendingAutomationWindowOpen, clearPendingWindowOpenTask).
module BrowserWindowOpens {
  import opened Wrappers
  import opened BrowserTypes

  // Scheduled by setImmediate; handle is its identity.
  datatype Task = Task(handle: nat, source: WebContents, automation: bool)

  // A tab announced to the observers and not appended yet; timer is its fallback timer.
  datatype Commit = Commit(source: WebContents, tab: TabId, timer: nat)

  datatype Note = Announced(key: Key, tab: TabId) | Committed(key: Key, tab: TabId)

  // Never both a scheduled task and a pending commit for a page.
  predicate Exclusive(tasks: map<Key, Task>, commits: map<Key, Commit>) {
    forall k :: k in tasks ==> k !in commits
  }

  ghost predicate WasAnnounced(log: seq<Note>, key: Key, tab: TabId) {
    exists i :: 0 <= i < |log| && log[i] == Announced(key, tab)
  }

  ghost predicate WasCommitted(log: seq<Note>, tab: TabId) {
    exists i :: 0 <= i < |log| && log[i].Committed? && log[i].tab == tab
  }

  // A pending commit is of a tab that was announced for its page, that was not committed,
  // and that no other pending commit has.
  ghost predicate PendingOk(commits: map<Key, Commit>, log: seq<Note>) {
    && (forall k :: k in commits ==> WasAnnounced(log, k, commits[k].tab) && !WasCommitted(log, commits[k].tab))
    && (forall k, l :: k in commits && l in commits && commits[k].tab == commits[l].tab ==> k == l)
  }

  // A tab is committed at most once, after it was announced for the same page.
  ghost predicate CommittedOnce(log: seq<Note>) {
    && (forall i :: 0 <= i < |log| && log[i].Committed? ==> WasAnnounced(log[..i], log[i].key, log[i].tab))
    && (forall i, j :: 0 <= i < j < |log| && log[i].Committed? && log[j].Committed? ==> log[i].tab != log[j].tab)
  }

  lemma AnnouncedNext(log: seq<Note>, note: Note, key: Key, tab: TabId)
    ensures WasAnnounced(log + [note], key, tab) <==> WasAnnounced(log, key, tab) || note == Announced(key, tab)
  {
    var all := log + [note];
    assert all[|log|] == note;
    if WasAnnounced(log, key, tab) {
      var i :| 0 <= i < |log| && log[i] == Announced(key, tab);
      assert all[i] == log[i];
    }
  }

  lemma CommittedNext(log: seq<Note>, note: Note, tab: TabId)
    ensures WasCommitted(log + [note], tab) <==> WasCommitted(log, tab) || (note.Committed? && note.tab == tab)
  {
    var all := log + [note];
    assert all[|log|] == note;
    if WasCommitted(log, tab) {
      var i :| 0 <= i < |log| && log[i].Committed? && log[i].tab == tab;
      assert all[i] == log[i];
    }
  }

  lemma Announce(commits: map<Key, Commit>, log: seq<Note>, key: Key, commit: Commit)
    requires PendingOk(commits, log) && CommittedOnce(log) && key !in commits
    requires !WasCommitted(log, commit.tab) && forall k :: k in commits ==> commits[k].tab != commit.tab
    ensures var after := log + [Announced(key, commit.tab)];
            PendingOk(commits[key := commit], after) && CommittedOnce(after)
  {
    var note := Announced(key, commit.tab);
    var after := log + [note];
    CommittedOnceAnnounced(log, note);
    hide CommittedOnce, WasAnnounced, WasCommitted;
    var more := commits[key := commit];
    forall k | k in more
      ensures WasAnnounced(after, k, more[k].tab) && !WasCommitted(after, more[k].tab)
    {
      AnnouncedNext(log, note, k, more[k].tab);
      CommittedNext(log, note, more[k].tab);
    }
  }

  lemma CommittedOnceAnnounced(log: seq<Note>, note: Note)
    requires CommittedOnce(log) && note.Announced?
    ensures CommittedOnce(log + [note])
  {
    hide WasAnnounced;
    var after := log + [note];
    assert forall i :: 0 <= i < |log| ==> after[i] == log[i] && after[..i] == log[..i];
  }

  lemma CommitOne(commits: map<Key, Commit>, log: seq<Note>, key: Key)
    requires PendingOk(commits, log) && CommittedOnce(log) && key in commits
    ensures var after := log + [Committed(key, commits[key].tab)];
            PendingOk(commits - {key}, after) && CommittedOnce(after)
  {
    var note := Committed(key, commits[key].tab);
    var after := log + [note];
    CommittedOnceCommitted(log, note);
    hide CommittedOnce, WasAnnounced, WasCommitted;
    forall k | k in commits && k != key
      ensures WasAnnounced(after, k, commits[k].tab) && !WasCommitted(after, commits[k].tab)
    {
      AnnouncedNext(log, note, k, commits[k].tab);
      CommittedNext(log, note, commits[k].tab);
    }
  }

  lemma CommittedOnceCommitted(log: seq<Note>, note: Note)
    requires CommittedOnce(log) && note.Committed?
    requires WasAnnounced(log, note.key, note.tab) && !WasCommitted(log, note.tab)
    ensures CommittedOnce(log + [note])
  {
    hide WasAnnounced;
    var after := log + [note];
    assert after[..|log|] == log;
    assert forall i :: 0 <= i < |log| ==> after[i] == log[i] && after[..i] == log[..i];
  }

  datatype Lease = Lease(key: Key, group: nat)

  class WindowOpens {
    var tasks: map<Key, Task>
    var commits: map<Key, Commit>
    var publications: map<Key, bool>        // a deferred publication, and whether it reattaches
    var handle: nat                         // the next handle of a task or timer
    var listeners: map<Key, nat>            // the observer set of a page
    var members: map<nat, set<nat>>
    var leases: map<nat, Lease>
    var released: set<nat>
    ghost var log: seq<Note>

    ghost predicate Valid()
      reads this
    {
      && Exclusive(tasks, commits)
      && PendingOk(commits, log)
      && CommittedOnce(log)
      && (forall k :: k in listeners ==> listeners[k] in members)
    }

    constructor ()
      ensures Valid() && log == [] && commits == map[]
    {
      tasks, commits, publications, handle := map[], map[], map[], 0;
      listeners, members, leases, released, log := map[], map[], map[], {}, [];
    }

    // trackAutomationWindowOpen, but for the gesture.
    method Track(key: Key, lease: nat, freshGroup: nat)
      requires Valid() && lease !in leases && freshGroup !in members
      modifies this`listeners, this`members, this`leases
      ensures Valid()
      ensures var group := if key in old(listeners) then old(listeners)[key] else freshGroup;
              listeners == old(listeners)[key := group]
              && members == old(members)[group := (if key in old(listeners) then old(members)[group] else {}) + {lease}]
      ensures leases == old(leases)[lease := Lease(key, listeners[key])]
    {
      hide PendingOk, CommittedOnce;
      var group := if key in listeners then listeners[key] else freshGroup;
      var others := if key in listeners then members[group] else {};
      leases := leases[lease := Lease(key, group)];
      members := members[group := others + {lease}];
      listeners := listeners[key := group];
    }

    // The disposer; last tells whether the observer set it belongs to is now empty.
    method Release(lease: nat) returns (first: bool, last: bool)
      requires Valid() && lease in leases
      modifies this`listeners, this`members, this`released
      ensures Valid() && first == (lease !in old(released)) && released == old(released) + {lease}
      ensures !first ==> !last && members == old(members) && listeners == old(listeners)
      ensures first && leases[lease].group in old(members) ==>
                var l := leases[lease];
                members == old(members)[l.group := old(members)[l.group] - {lease}]
                && listeners == if last then old(listeners) - {l.key} else old(listeners)
      ensures last <==> first && leases[lease].group in old(members)
                        && old(members[leases[lease].group]) - {lease} == {}
    {
      hide PendingOk, CommittedOnce;
      first, last := lease !in released, false;
      if first {
        released := released + {lease};
        var l := leases[lease];
        if l.group in members {
          members := members[l.group := members[l.group] - {lease}];
          if members[l.group] == {} {
            listeners := listeners - {l.key};
            last := true;
          }
        }
      }
    }

    // scheduleWindowOpenTab: while a decision is pending for the page, further callbacks
    // add nothing.
    method Schedule(key: Key, source: WebContents, automation: bool)
      requires Valid()
      modifies this`tasks, this`handle
      ensures Valid()
      ensures tasks == if key in old(tasks) || key in commits then old(tasks)
                       else old(tasks)[key := Task(old(handle), source, automation)]
      ensures handle == old(handle) + if key in old(tasks) || key in commits then 0 else 1
    {
      hide PendingOk, CommittedOnce;
      if key in tasks || key in commits {
        return;
      }
      tasks := tasks[key := Task(handle, source, automation)];
      handle := handle + 1;
    }

    // The callback of setImmediate takes its task, unless it was cleared or replaced.
    method TakeTask(key: Key, h: nat) returns (task: Option<Task>)
      requires Valid()
      modifies this`tasks
      ensures Valid()
      ensures task == if key in old(tasks) && old(tasks)[key].handle == h then Some(old(tasks)[key]) else None
      ensures tasks == if task.Some? then old(tasks) - {key} else old(tasks)
      ensures task.Some? ==> key !in commits
    {
      hide PendingOk, CommittedOnce;
      task := None;
      if key in tasks && tasks[key].handle == h {
        task := Some(tasks[key]);
        tasks := tasks - {key};
      }
    }

    // The tab is announced to the observers and waits for its commit.
    method AnnounceTab(key: Key, source: WebContents, tab: TabId)
      requires Valid() && key !in tasks && key !in commits
      requires !WasCommitted(log, tab) && forall k :: k in commits ==> commits[k].tab != tab
      modifies this`commits, this`handle, this`log
      ensures Valid() && log == old(log) + [Announced(key, tab)]
      ensures commits == old(commits)[key := Commit(source, tab, old(handle))] && handle == old(handle) + 1
    {
      hide PendingOk, CommittedOnce, WasCommitted;
      Announce(commits, log, key, Commit(source, tab, handle));
      commits := commits[key := Commit(source, tab, handle)];
      handle := handle + 1;
      log := log + [Announced(key, tab)];
    }

    // commitPendingAutomationWindowOpen takes the pending commit, if there is one, and
    // appends its tab, if it may.
    method TakeCommit(key: Key, mayAppend: bool) returns (commit: Option<Commit>)
      requires Valid()
      modifies this`commits, this`log
      ensures Valid() && key !in commits && commits == old(commits) - {key}
      ensures commit == if key in old(commits) then Some(old(commits)[key]) else None
      ensures log == old(log) + if commit.Some? && mayAppend then [Committed(key, commit.value.tab)] else []
    {
      hide PendingOk, CommittedOnce;
      commit := None;
      if key in commits {
        commit := Some(commits[key]);
        if mayAppend {
          CommitOne(commits, log, key);
          log := log + [Committed(key, commits[key].tab)];
        } else {
          FewerPending(commits, log, key);
        }
        commits := commits - {key};
      }
    }

    // clearPendingWindowOpenTask, and the observers of a page that is torn down.
    method TearDown(key: Key)
      requires Valid()
      modifies this`tasks, this`commits, this`publications, this`listeners
      ensures Valid() && tasks == old(tasks) - {key} && commits == old(commits) - {key}
      ensures publications == old(publications) - {key} && listeners == old(listeners) - {key}
    {
      hide PendingOk, CommittedOnce;
      FewerPending(commits, log, key);
      tasks := tasks - {key};
      commits := commits - {key};
      publications := publications - {key};
      listeners := listeners - {key};
    }

    // scheduleDeferredStatePublication
    method Publish(key: Key, reattach: bool)
      requires Valid()
      modifies this`publications
      ensures Valid()
      ensures publications == if key in old(publications) then old(publications) else old(publications)[key := reattach]
    {
      if key !in publications {
        publications := publications[key := reattach];
      }
    }

    method TakePublication(key: Key) returns (reattach: bool)
      requires Valid()
      modifies this`publications
      ensures Valid() && publications == old(publications) - {key}
      ensures reattach <==> key in old(publications) && old(publications)[key]
    {
      reattach := key in publications && publications[key];
      publications := publications - {key};
    }

    method Dispose()
      requires Valid()
      modifies this`tasks, this`commits, this`publications, this`listeners
      ensures Valid() && commits == map[] && tasks == map[] && publications == map[] && listeners == map[]
    {
      hide CommittedOnce;
      tasks, commits, publications, listeners := map[], map[], map[], map[];
    }
  }

  lemma FewerPending(commits: map<Key, Commit>, log: seq<Note>, key: Key)
    requires PendingOk(commits, log)
    ensures PendingOk(commits - {key}, log)
  {
  }
}

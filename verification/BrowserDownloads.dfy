// Attribution of downloads to the agent (apps/desktop/src/browserManager.ts:
// trackAutomationDownload, handleSessionDownload, markHumanControl and the part of
// destroyRuntime that concerns them).
module BrowserDownloads {
  import opened Wrappers
  import opened BrowserTypes

  datatype Lease = Lease(key: Key, group: nat, epoch: nat)

  // ---- What happened, and what it means for a page ----

  datatype Note =
    | Tracked(key: Key)
    | HumanControl(thread: ThreadId)
    | TornDown(key: Key, preserve: bool)
    | Disposed

  // The note ends the attribution of downloads of this page to the agent.
  predicate Ends(note: Note, key: Key) {
    match note
    case Tracked(_) => false
    case HumanControl(thread) => thread == key.thread
    case TornDown(other, preserve) => other == key && !preserve
    case Disposed => true
  }

  // An agent action was tracked on the page, and nothing has ended its attribution since.
  ghost predicate Attributed(log: seq<Note>, key: Key) {
    exists i :: 0 <= i < |log| && log[i] == Tracked(key) && forall j :: i < j < |log| ==> !Ends(log[j], key)
  }

  lemma AttributedNext(log: seq<Note>, note: Note, key: Key)
    ensures Attributed(log + [note], key) <==> note == Tracked(key) || (Attributed(log, key) && !Ends(note, key))
  {
    var all := log + [note];
    assert all[|log|] == note;
    if Attributed(all, key) {
      var i :| 0 <= i < |all| && all[i] == Tracked(key) && forall j :: i < j < |all| ==> !Ends(all[j], key);
      if i < |log| {
        assert log[i] == Tracked(key) && forall j :: i < j < |log| ==> log[j] == all[j];
      }
    }
    if Attributed(log, key) && !Ends(note, key) {
      var i :| 0 <= i < |log| && log[i] == Tracked(key) && forall j :: i < j < |log| ==> !Ends(log[j], key);
      assert all[i] == Tracked(key) && forall j :: i < j < |log| ==> log[j] == all[j];
    }
  }

  lemma TrackedEndsNothing(key: Key)
    ensures forall k :: !Ends(Tracked(key), k)
  {
  }

  function EpochOf(epochs: map<ThreadId, nat>, thread: ThreadId): nat {
    if thread in epochs then epochs[thread] else 0
  }

  // There is a provenance marker exactly for the attributed pages, and each carries the
  // current epoch of its thread.
  ghost predicate Marked(provenance: map<Key, nat>, epochs: map<ThreadId, nat>, log: seq<Note>) {
    && (forall k :: k in provenance <==> Attributed(log, k))
    && (forall k :: k in provenance ==> provenance[k] == EpochOf(epochs, k.thread))
  }

  lemma MarkedAfter(provenance: map<Key, nat>, after: map<Key, nat>, epochs: map<ThreadId, nat>,
                    epochsAfter: map<ThreadId, nat>, log: seq<Note>, note: Note)
    requires Marked(provenance, epochs, log)
    requires forall k :: k in after <==> note == Tracked(k) || (k in provenance && !Ends(note, k))
    requires forall k :: k in after ==> after[k] == EpochOf(epochsAfter, k.thread)
    ensures Marked(after, epochsAfter, log + [note])
  {
    hide Attributed, Ends;
    forall k
      ensures k in after <==> Attributed(log + [note], k)
    {
      AttributedNext(log, note, k);
    }
  }

  // Every member of a listener set is a lease of that set.
  ghost predicate Grouped(members: map<nat, set<nat>>, leases: map<nat, Lease>) {
    forall g, l :: g in members && l in members[g] ==> l in leases && leases[l].group == g
  }

  lemma TrackedGroup(members: map<nat, set<nat>>, leases: map<nat, Lease>, group: nat, lease: nat, key: Key, epoch: nat)
    requires Grouped(members, leases) && lease !in leases
    ensures var others := if group in members then members[group] else {};
            Grouped(members[group := others + {lease}], leases[lease := Lease(key, group, epoch)])
  {
  }

  lemma TrackedMarks(provenance: map<Key, nat>, epochs: map<ThreadId, nat>, log: seq<Note>, key: Key)
    requires Marked(provenance, epochs, log)
    ensures Marked(provenance[key := EpochOf(epochs, key.thread)], epochs, log + [Tracked(key)])
  {
    hide Attributed, Ends;
    TrackedEndsNothing(key);
    MarkedAfter(provenance, provenance[key := EpochOf(epochs, key.thread)], epochs, epochs, log, Tracked(key));
  }

  class AutomationDownloads {
    var epochs: map<ThreadId, nat>
    var provenance: map<Key, nat>
    var listeners: map<Key, nat>            // the listener set of a page
    var members: map<nat, set<nat>>         // the leases in a set; a disposer keeps its own set
    var leases: map<nat, Lease>             // every lease ever given
    var released: set<nat>                  // those whose disposer has run
    ghost var log: seq<Note>

    ghost predicate Valid()
      reads this
    {
      && Marked(provenance, epochs, log)
      && Grouped(members, leases)
      && (forall k :: k in listeners ==> listeners[k] in members)
    }

    constructor ()
      ensures Valid() && log == []
    {
      epochs, provenance, listeners, members, leases, released, log := map[], map[], map[], map[], map[], {}, [];
    }

    // trackAutomationDownload: the given numbers are fresh object identities.
    method Track(key: Key, lease: nat, freshGroup: nat)
      requires Valid() && lease !in leases && freshGroup !in members
      modifies this
      ensures Valid() && log == old(log) + [Tracked(key)]
      ensures var group := if key in old(listeners) then old(listeners)[key] else freshGroup;
              listeners == old(listeners)[key := group]
              && members == old(members)[group := (if key in old(listeners) then old(members)[group] else {}) + {lease}]
      ensures provenance == old(provenance)[key := EpochOf(epochs, key.thread)] && released == old(released)
      ensures leases == old(leases)[lease := Lease(key, listeners[key], EpochOf(epochs, key.thread))]
      ensures epochs == old(epochs)
    {
      hide Attributed, Ends, Grouped, Marked;
      var epoch := EpochOf(epochs, key.thread);
      TrackedGroup(members, leases, if key in listeners then listeners[key] else freshGroup, lease, key, epoch);
      TrackedMarks(provenance, epochs, log, key);
      var group := if key in listeners then listeners[key] else freshGroup;
      var others := if key in listeners then members[group] else {};
      leases := leases[lease := Lease(key, group, epoch)];
      members := members[group := others + {lease}];
      listeners := listeners[key := group];
      provenance := provenance[key := epoch];
      log := log + [Tracked(key)];
    }

    // The disposer of a lease; only its first call does anything. The provenance stays.
    method Release(lease: nat) returns (first: bool)
      requires Valid() && lease in leases
      modifies this`members, this`listeners, this`released
      ensures Valid() && first == (lease !in old(released)) && released == old(released) + {lease}
      ensures first ==> forall g :: g in members ==> lease !in members[g]
      ensures first ==>
                var l := leases[lease];
                members == (map g | g in old(members) :: old(members)[g] - {lease})
                && listeners == if l.group in members && members[l.group] == {} then old(listeners) - {l.key}
                                else old(listeners)
      ensures !first ==> members == old(members) && listeners == old(listeners)
    {
      hide Attributed, Marked;
      first := lease !in released;
      if first {
        released := released + {lease};
        var l := leases[lease];
        assert forall g :: g in members && g != l.group ==> members[g] - {lease} == members[g];
        if l.group in members {
          members := members[l.group := members[l.group] - {lease}];
          if members[l.group] == {} {
            listeners := listeners - {l.key};
          }
        }
      }
    }

    // markHumanControl
    method MarkHumanControl(thread: ThreadId)
      requires Valid()
      modifies this`epochs, this`provenance, this`log
      ensures Valid() && log == old(log) + [HumanControl(thread)]
      ensures epochs == old(epochs)[thread := old(EpochOf(epochs, thread)) + 1]
      ensures provenance == Others(old(provenance), thread)
    {
      hide Attributed, Marked;
      ghost var before, epochsBefore := provenance, epochs;
      epochs := epochs[thread := EpochOf(epochs, thread) + 1];
      var entries := provenance.Keys;
      while entries != {}
        modifies this`provenance
        invariant entries <= before.Keys
        invariant forall k :: k in provenance <==> k in before && (k in entries || k.thread != thread)
        invariant forall k :: k in provenance ==> provenance[k] == before[k]
      {
        var key :| key in entries;
        if key.thread == thread {
          provenance := provenance - {key};
        }
        entries := entries - {key};
      }
      MarkedHuman(before, provenance, epochsBefore, epochs, log, thread);
      log := log + [HumanControl(thread)];
    }

    // The part of destroyRuntime: whether the tracking survives, and dropping it if not.
    method TearDown(key: Key, preserve: bool) returns (preserved: bool)
      requires Valid()
      modifies this`listeners, this`provenance, this`log
      ensures Valid() && log == old(log) + [TornDown(key, preserve)]
      ensures preserved <==> preserve && (key in old(listeners) || key in old(provenance))
      ensures listeners == if preserve then old(listeners) else old(listeners) - {key}
      ensures provenance == if preserve then old(provenance) else old(provenance) - {key}
    {
      hide Attributed;
      preserved := preserve && (key in listeners || key in provenance);
      MarkedAfter(provenance, if preserved then provenance else provenance - {key}, epochs, epochs, log,
                  TornDown(key, preserve));
      if !preserved {
        listeners := listeners - {key};
        provenance := provenance - {key};
      }
      log := log + [TornDown(key, preserve)];
    }

    // The rest of handleSessionDownload, for the page that started the download. It is
    // cancelled exactly when it is attributed to the agent, and only leases taken in the
    // current epoch of the thread are told.
    method Download(key: Key) returns (cancelled: bool, notified: set<nat>)
      requires Valid()
      ensures cancelled <==> Attributed(log, key)
      ensures !cancelled || key !in listeners ==> notified == {}
      ensures cancelled && key in listeners ==>
                forall l :: l in notified <==>
                              l in members[listeners[key]] && leases[l].epoch == EpochOf(epochs, key.thread)
    {
      hide Attributed;
      var epoch := EpochOf(epochs, key.thread);
      cancelled := key in provenance && provenance[key] == epoch;
      notified := {};
      if cancelled && key in listeners {
        notified := set l | l in members[listeners[key]] && leases[l].epoch == epoch;
      }
    }

    method Dispose()
      requires Valid()
      modifies this`epochs, this`provenance, this`listeners, this`log
      ensures Valid() && log == old(log) + [Disposed] && provenance == map[] && epochs == map[] && listeners == map[]
    {
      hide Attributed;
      MarkedAfter(provenance, map[], epochs, map[], log, Disposed);
      epochs, provenance, listeners := map[], map[], map[];
      log := log + [Disposed];
    }
  }

  lemma MarkedHuman(before: map<Key, nat>, after: map<Key, nat>, epochs: map<ThreadId, nat>,
                    epochsAfter: map<ThreadId, nat>, log: seq<Note>, thread: ThreadId)
    requires Marked(before, epochs, log)
    requires forall k :: k in after <==> k in before && k.thread != thread
    requires forall k :: k in after ==> after[k] == before[k]
    requires epochsAfter == epochs[thread := EpochOf(epochs, thread) + 1]
    ensures Marked(after, epochsAfter, log + [HumanControl(thread)])
  {
    hide Attributed;
    MarkedAfter(before, after, epochs, epochsAfter, log, HumanControl(thread));
  }
}

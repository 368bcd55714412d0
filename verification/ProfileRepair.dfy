// Completing a browser profile copied by the compatibility bridge
// (apps/desktop/src/desktopUserDataProfile.ts, repairBrowserProfileFromBridgeManifest).
//
// A partition is a map from entry names to contents. Every file operation may
// throw, as decided by an arbitrary function of how many came before it.
module ProfileRepair {
  import opened Wrappers

  const ENTRY_GROUPS: seq<seq<string>> := [
    ["Cookies", "Cookies-journal", "Cookies-wal", "Cookies-shm"],
    ["Local Storage"],
    ["IndexedDB"],
    ["Session Storage"],
    ["WebStorage"],
    ["Service Worker"],
    ["Preferences"],
    ["Network Persistent State"],
    ["TransportSecurity"],
    ["Trust Tokens", "Trust Tokens-journal", "Trust Tokens-wal", "Trust Tokens-shm"],
    ["SharedStorage", "SharedStorage-journal", "SharedStorage-wal", "SharedStorage-shm"],
    ["shared_proto_db"]
  ]

  function Names(s: seq<string>): set<string> {
    set n | n in s
  }

  predicate Distinct(s: seq<string>) {
    forall i, j :: 0 <= i < j < |s| ==> s[i] != s[j]
  }

  // A group: a base entry and its sidecars.
  predicate IsGroup(group: seq<string>) {
    group != [] && Distinct(group)
  }

  function Pick<C>(m: map<string, C>, names: set<string>): map<string, C> {
    map n | n in m && n in names :: m[n]
  }

  function Filter<C>(s: seq<string>, m: map<string, C>): (r: seq<string>)
    ensures forall n :: n in r <==> n in s && n in m
    ensures Distinct(s) ==> Distinct(r)
  {
    if s == [] then []
    else if s[0] in m then [s[0]] + Filter(s[1..], m) else Filter(s[1..], m)
  }

  lemma {:induction false} FilterAppend<C>(s: seq<string>, n: string, m: map<string, C>)
    ensures Filter(s + [n], m) == Filter(s, m) + if n in m then [n] else []
  {
    if s == [] {
      assert Filter([n][1..], m) == [];
    } else {
      assert (s + [n])[1..] == s[1..] + [n];
      FilterAppend(s[1..], n, m);
    }
  }

  lemma {:induction false} FilterPrefix<C>(s: seq<string>, k: nat, m: map<string, C>)
    requires k <= |s|
    ensures Filter(s[..k], m) <= Filter(s, m)
    decreases |s|
  {
    if s != [] && k > 0 {
      assert s[..k][1..] == s[1..][..k - 1];
      FilterPrefix(s[1..], k - 1, m);
    }
  }

  lemma NamesAppend(s: seq<string>, n: string)
    ensures Names(s + [n]) == Names(s) + {n}
  {
  }

  // The target once a group was installed whole: the source generation of the
  // group's entries, and nothing of the target's own generation of them.
  function Generation<C>(target: map<string, C>, source: map<string, C>, group: seq<string>): map<string, C> {
    (target - Names(group)) + Pick(source, Names(group))
  }

  // A state of the target other processes may see: entries outside the group are as
  // they were, and a base that was not there before comes with all its source sidecars.
  ghost predicate Observable<C(!new)>(start: map<string, C>, source: map<string, C>, group: seq<string>, t: map<string, C>)
    requires group != []
  {
    && t - Names(group) == start - Names(group)
    && (group[0] in t && group[0] !in start ==> t == Generation(start, source, group))
  }

  // In the middle of an install: these entries moved to the backup, those moved in.
  ghost predicate Midway<C(!new)>(start: map<string, C>, source: map<string, C>, displaced: set<string>,
                                  installed: set<string>, target: map<string, C>)
  {
    && target == (start - displaced) + Pick(source, installed)
    && (forall n :: n in installed ==> n in source && (n in start ==> n in displaced))
  }

  lemma DisplaceMore<C(!new)>(start: map<string, C>, source: map<string, C>, displaced: set<string>, n: string,
                              target: map<string, C>)
    requires Midway(start, source, displaced, {}, target)
    ensures Midway(start, source, displaced + {n}, {}, target - {n})
    ensures n !in displaced && n in target ==> n in start && target[n] == start[n]
    ensures n in start ==> Pick(start, displaced + {n}) == Pick(start, displaced)[n := start[n]]
  {
  }

  lemma InstallMore<C(!new)>(start: map<string, C>, source: map<string, C>, displaced: set<string>,
                             installed: set<string>, n: string, target: map<string, C>)
    requires Midway(start, source, displaced, installed, target)
    requires n in source && (n in start ==> n in displaced)
    ensures Midway(start, source, displaced, installed + {n}, target[n := source[n]])
  {
  }

  lemma RemoveInstalled<C(!new)>(start: map<string, C>, source: map<string, C>, displaced: set<string>,
                                 installed: set<string>, n: string, target: map<string, C>)
    requires Midway(start, source, displaced, installed, target) && n in installed
    ensures Midway(start, source, displaced, installed - {n}, target - {n})
  {
  }

  lemma MidwayObservable<C(!new)>(start: map<string, C>, source: map<string, C>, group: seq<string>,
                                  displaced: set<string>, installed: set<string>, target: map<string, C>)
    requires group != [] && Midway(start, source, displaced, installed, target)
    requires displaced <= Names(group) && installed <= Names(group)
    requires group[0] !in start
    requires group[0] in installed ==>
               installed == Names(group) * source.Keys && displaced == Names(group) * start.Keys
    ensures Observable(start, source, group, target)
  {
    assert target - Names(group) == start - Names(group);
    if group[0] in target {
      assert group[0] in installed;
      assert target == Generation(start, source, group);
    }
  }

  lemma NoneMoved<C(!new)>(start: map<string, C>, source: map<string, C>, group: seq<string>)
    requires group != []
    ensures Filter(group[1..1], start) == [] && Names([]) == {}
    ensures Midway(start, source, {}, {}, start) && Pick(start, {}) == map[]
  {
  }

  // A sidecar not reached yet is in the target exactly when it was there at the start.
  lemma SidecarFree<C(!new)>(start: map<string, C>, source: map<string, C>, group: seq<string>, i: nat,
                             target: map<string, C>)
    requires IsGroup(group) && 1 <= i < |group|
    requires Midway(start, source, Names(Filter(group[1..i], start)), {}, target)
    ensures group[i] in target <==> group[i] in start
    ensures group[i] !in Names(Filter(group[1..i], start))
  {
  }

  lemma PrefixOfSidecars<C(!new)>(group: seq<string>, i: nat, start: map<string, C>)
    requires group != [] && 1 <= i <= |group|
    ensures Filter(group[1..i], start) <= Filter(group[1..], start)
  {
    assert group[1..][..i - 1] == group[1..i];
    FilterPrefix(group[1..], i - 1, start);
  }

  lemma SidecarsObservable<C(!new)>(start: map<string, C>, source: map<string, C>, group: seq<string>,
                                    displaced: seq<string>, target: map<string, C>)
    requires IsGroup(group) && group[0] !in start
    requires Midway(start, source, Names(displaced), {}, target)
    requires exists k :: 1 <= k <= |group| && displaced == Filter(group[1..k], start)
    ensures Observable(start, source, group, target)
  {
  }

  // Sidecars first, the base last.
  function InstallOrder<C>(group: seq<string>, source: map<string, C>): seq<string>
    requires group != []
  {
    Filter(group[1..], source) + [group[0]]
  }

  lemma InstallOrderIsTheGeneration<C(!new)>(group: seq<string>, source: map<string, C>)
    requires IsGroup(group) && group[0] in source
    ensures Names(InstallOrder(group, source)) == Names(group) * source.Keys
    ensures Distinct(InstallOrder(group, source))
  {
  }

  lemma InstallNext<C(!new)>(start: map<string, C>, source: map<string, C>, group: seq<string>, i: nat,
                             target: map<string, C>)
    requires IsGroup(group) && group[0] !in start && group[0] in source
    requires i < |InstallOrder(group, source)|
    requires var order := InstallOrder(group, source);
             Midway(start, source, Names(Filter(group[1..], start)), Names(order[..i]), target)
    ensures var order := InstallOrder(group, source);
            && order[i] in source && order[i] in group && order[i] !in Names(order[..i])
            && Midway(start, source, Names(Filter(group[1..], start)), Names(order[..i + 1]),
                      target[order[i] := source[order[i]]])
  {
    var order := InstallOrder(group, source);
    InstallOrderIsTheGeneration(group, source);
    assert order[i] in Names(order);
    assert Names(order[..i + 1]) == Names(order[..i]) + {order[i]};
    InstallMore(start, source, Names(Filter(group[1..], start)), Names(order[..i]), order[i], target);
  }

  lemma PartOfOrderObservable<C(!new)>(start: map<string, C>, source: map<string, C>, group: seq<string>, i: nat,
                                       target: map<string, C>)
    requires IsGroup(group) && group[0] !in start && group[0] in source
    requires i <= |InstallOrder(group, source)|
    requires Midway(start, source, Names(Filter(group[1..], start)), Names(InstallOrder(group, source)[..i]), target)
    ensures Observable(start, source, group, target)
    ensures i < |InstallOrder(group, source)| ==> Undoable(start, group, target)
    ensures i == |InstallOrder(group, source)| ==> target == Generation(start, source, group)
  {
    var order := InstallOrder(group, source);
    var displaced := Names(Filter(group[1..], start));
    InstallOrderIsTheGeneration(group, source);
    assert displaced == Names(group) * start.Keys;
    if i == |order| {
      assert order[..i] == order;
    } else {
      assert order[|order| - 1] == group[0];
      assert group[0] !in order[..i];
    }
    MidwayObservable(start, source, group, displaced, Names(order[..i]), target);
  }

  lemma NothingStaged<C>(group: seq<string>, source: map<string, C>)
    ensures forall n :: n in Filter(group, source) ==> n in source
    ensures Pick(source, Names(Filter(group, source)[..0])) == map[]
    ensures Pick(source, Names(Filter(group, source))) == Pick(source, Names(group))
  {
  }

  lemma StageMore<C>(source: map<string, C>, names: seq<string>, i: nat)
    requires i < |names| && names[i] in source
    ensures Pick(source, Names(names[..i + 1])) == Pick(source, Names(names[..i]))[names[i] := source[names[i]]]
  {
  }

  // The base is not there and nothing outside the group changed.
  ghost predicate Undoable<C(!new)>(start: map<string, C>, group: seq<string>, t: map<string, C>)
    requires group != []
  {
    t - Names(group) == start - Names(group) && group[0] !in t
  }

  lemma UndoableStep<C(!new)>(start: map<string, C>, source: map<string, C>, group: seq<string>, n: string,
                              t: map<string, C>)
    requires IsGroup(group) && Undoable(start, group, t)
    ensures Observable(start, source, group, t)
    ensures n in group ==> Undoable(start, group, t - {n}) && Observable(start, source, group, t - {n})
    ensures n in group && n != group[0] && n in start ==>
              Undoable(start, group, t[n := start[n]]) && Observable(start, source, group, t[n := start[n]])
  {
  }

  ghost predicate SameAt<C>(a: map<string, C>, b: map<string, C>, n: string) {
    Lookup(a, n) == Lookup(b, n)
  }

  // While undoing: an entry of which no step threw, and that is not still installed, is as at
  // the start, or away if it is still in the backup.
  ghost predicate Undone<C(!new)>(start: map<string, C>, away: set<string>, installed: set<string>, failed: set<string>,
                                  target: map<string, C>)
  {
    forall n :: n !in failed && n !in installed ==> if n in away then n !in target else SameAt(target, start, n)
  }

  lemma MidwayUndone<C(!new)>(start: map<string, C>, source: map<string, C>, displaced: set<string>,
                              installed: set<string>, target: map<string, C>)
    requires Midway(start, source, displaced, installed, target)
    ensures Undone(start, displaced, installed, {}, target)
    ensures forall n :: n in installed && n in start ==> n in displaced
  {
  }

  lemma InstalledNames(installed: seq<string>)
    ensures forall i :: 0 <= i < |installed| ==> installed[i] in Names(installed)
  {
  }

  lemma UndoneWhole<C(!new)>(start: map<string, C>, failed: set<string>, target: map<string, C>)
    requires Undone(start, Names([]), {}, failed, target)
    ensures forall n :: n !in failed ==> SameAt(target, start, n)
  {
  }

  lemma UndoInstall<C(!new)>(start: map<string, C>, away: set<string>, installed: seq<string>, i: nat,
                             failed: set<string>, target: map<string, C>)
    requires i < |installed| && Undone(start, away, Names(installed[..i + 1]), failed, target)
    requires installed[i] in start ==> installed[i] in away
    ensures Undone(start, away, Names(installed[..i]), failed, target - {installed[i]})
    ensures Undone(start, away, Names(installed[..i]), failed + {installed[i]}, target)
  {
    assert installed[..i + 1] == installed[..i] + [installed[i]];
    NamesAppend(installed[..i], installed[i]);
  }

  lemma UndoDisplace<C(!new)>(start: map<string, C>, displaced: seq<string>, j: nat, failed: set<string>,
                              target: map<string, C>)
    requires j < |displaced| && Distinct(displaced) && displaced[j] in start
    requires Undone(start, Names(displaced[j..]), {}, failed, target)
    ensures var n := displaced[j];
            Undone(start, Names(displaced[j + 1..]), {}, failed, target[n := start[n]])
    ensures Undone(start, Names(displaced[j + 1..]), {}, failed + {displaced[j]}, target)
  {
    assert displaced[j..] == [displaced[j]] + displaced[j + 1..];
    assert Names(displaced[j..]) == {displaced[j]} + Names(displaced[j + 1..]);
  }

  lemma StagedInOrder<C(!new)>(group: seq<string>, source: map<string, C>)
    requires IsGroup(group) && group[0] in source
    ensures var order := InstallOrder(group, source);
            && order == Filter(group[1..], source) + [group[0]]
            && Distinct(order) && Names(order[..0]) == {} && order[..|order|] == order
            && (forall j :: 0 <= j < |order| ==>
                  order[j] in source && order[j] in Pick(source, Names(group))
                  && Pick(source, Names(group))[order[j]] == source[order[j]])
  {
    var order := InstallOrder(group, source);
    InstallOrderIsTheGeneration(group, source);
    assert forall j :: 0 <= j < |order| ==> order[j] in Names(order);
  }

  lemma ListsAreOfTheGroup<C(!new)>(start: map<string, C>, source: map<string, C>, group: seq<string>,
                                    installed: seq<string>, displaced: seq<string>)
    requires IsGroup(group) && group[0] in source
    requires installed <= InstallOrder(group, source) && displaced <= Filter(group[1..], start)
    ensures forall i :: 0 <= i < |installed| ==> installed[i] in group
    ensures forall j :: 0 <= j < |displaced| ==> displaced[j] in group && displaced[j] != group[0]
    ensures forall j :: 0 <= j < |displaced| ==>
              displaced[j] in start && displaced[j] in Pick(start, Names(displaced))
              && Pick(start, Names(displaced))[displaced[j]] == start[displaced[j]]
    ensures Distinct(installed) && Distinct(displaced)
    ensures installed[..|installed|] == installed && Names(installed[..0]) == {}
  {
    var order := InstallOrder(group, source);
    InstallOrderIsTheGeneration(group, source);
    assert forall i :: 0 <= i < |installed| ==> installed[i] == order[i] && order[i] in Names(order);
    var sidecars := Filter(group[1..], start);
    assert forall j :: 0 <= j < |displaced| ==> displaced[j] == sidecars[j] && sidecars[j] in group[1..];
    assert forall j :: 0 <= j < |displaced| ==> displaced[j] in Names(displaced);
  }

  lemma UninstallLast<C(!new)>(start: map<string, C>, source: map<string, C>, displaced: seq<string>,
                               installed: seq<string>, i: nat, target: map<string, C>)
    requires i < |installed| && Distinct(installed)
    requires Midway(start, source, Names(displaced), Names(installed[..i + 1]), target)
    ensures Midway(start, source, Names(displaced), Names(installed[..i]), target - {installed[i]})
  {
    assert Names(installed[..i + 1]) - {installed[i]} == Names(installed[..i]);
    assert installed[i] in Names(installed[..i + 1]) by { assert installed[..i + 1][i] == installed[i]; }
    RemoveInstalled(start, source, Names(displaced), Names(installed[..i + 1]), installed[i], target);
  }

  lemma RestoreFirst<C(!new)>(start: map<string, C>, source: map<string, C>, displaced: seq<string>, j: nat,
                              target: map<string, C>)
    requires j < |displaced| && Distinct(displaced) && displaced[j] in start
    requires Midway(start, source, Names(displaced[j..]), {}, target)
    ensures Midway(start, source, Names(displaced[j + 1..]), {}, target[displaced[j] := start[displaced[j]]])
  {
  }

  lemma AllRestored<C(!new)>(start: map<string, C>, source: map<string, C>, target: map<string, C>)
    requires Midway(start, source, Names([]), {}, target)
    ensures target == start
  {
  }

  lemma DisplacedUndoable<C(!new)>(start: map<string, C>, source: map<string, C>, group: seq<string>,
                                   displaced: seq<string>, target: map<string, C>)
    requires IsGroup(group) && group[0] !in start && displaced <= Filter(group[1..], start)
    requires Midway(start, source, Names(displaced), {}, target)
    ensures Undoable(start, group, target) && Names([]) == {}
  {
    var sidecars := Filter(group[1..], start);
    assert forall j :: 0 <= j < |displaced| ==> displaced[j] == sidecars[j] && sidecars[j] in group[1..];
    assert target - Names(group) == start - Names(group);
  }

  // ---- All the groups together ----

  predicate AreGroups(groups: seq<seq<string>>) {
    && (forall i :: 0 <= i < |groups| ==> IsGroup(groups[i]))
    && (forall i, j, n :: 0 <= i < j < |groups| && n in groups[i] ==> n !in groups[j])
  }

  // The twelve groups of the bridge are well formed and share no entry: no name occurs
  // twice in the list of all entries.
  lemma {:induction false} EntryGroupsAreGroups()
    ensures AreGroups(ENTRY_GROUPS)
  {
    forall i | 0 <= i < |ENTRY_GROUPS|
      ensures IsGroup(ENTRY_GROUPS[i])
    {
    }
    forall i, j, n | 0 <= i < j < |ENTRY_GROUPS| && n in ENTRY_GROUPS[i]
      ensures n !in ENTRY_GROUPS[j]
    {
      if n in ENTRY_GROUPS[j] {
        GroupOf(n, i);
        GroupOf(n, j);
      }
    }
  }

  // The place of the group a name belongs to.
  function Place(n: string): nat {
    if n == "Local Storage" then 1
    else if n == "IndexedDB" then 2
    else if n == "Session Storage" then 3
    else if n == "WebStorage" then 4
    else if n == "Service Worker" then 5
    else if n == "Preferences" then 6
    else if n == "Network Persistent State" then 7
    else if n == "TransportSecurity" then 8
    else if n in ENTRY_GROUPS[9] then 9
    else if n in ENTRY_GROUPS[10] then 10
    else if n == "shared_proto_db" then 11
    else 0
  }

  lemma GroupOf(n: string, i: nat)
    requires i < |ENTRY_GROUPS| && n in ENTRY_GROUPS[i]
    ensures Place(n) == i
  {
  }

  predicate Missing<C>(target: map<string, C>, source: map<string, C>, group: seq<string>)
    requires group != []
  {
    group[0] in source && group[0] !in target
  }

  // What a run over these groups makes of the target when nothing throws.
  function Completed<C>(target: map<string, C>, source: map<string, C>, groups: seq<seq<string>>): map<string, C>
    requires forall i :: 0 <= i < |groups| ==> groups[i] != []
  {
    if groups == [] then target
    else
      var before := Completed(target, source, groups[..|groups| - 1]);
      var group := groups[|groups| - 1];
      if Missing(before, source, group) then Generation(before, source, group) else before
  }

  function CopiedNames<C>(target: map<string, C>, source: map<string, C>, groups: seq<seq<string>>): seq<string>
    requires forall i :: 0 <= i < |groups| ==> groups[i] != []
  {
    if groups == [] then []
    else
      var before := Completed(target, source, groups[..|groups| - 1]);
      var group := groups[|groups| - 1];
      CopiedNames(target, source, groups[..|groups| - 1])
      + if Missing(before, source, group) then Filter(group, source) else []
  }

  function Lookup<C>(m: map<string, C>, n: string): Option<C> {
    if n in m then Some(m[n]) else None
  }

  lemma GenerationAt<C>(target: map<string, C>, source: map<string, C>, group: seq<string>, n: string)
    ensures Lookup(Generation(target, source, group), n) == Lookup(if n in group then source else target, n)
  {
  }

  // An entry outside every group is never touched.
  lemma {:induction false} OutsideIsUntouched<C>(target: map<string, C>, source: map<string, C>,
                                                 groups: seq<seq<string>>, n: string)
    requires forall i :: 0 <= i < |groups| ==> groups[i] != [] && n !in groups[i]
    ensures Lookup(Completed(target, source, groups), n) == Lookup(target, n)
  {
    if groups != [] {
      var rest := groups[..|groups| - 1];
      OutsideIsUntouched(target, source, rest, n);
      GenerationAt(Completed(target, source, rest), source, groups[|groups| - 1], n);
    }
  }

  // All or nothing: a group whose base was missing has exactly the source's generation
  // of every one of its entries, any other group is as it was.
  lemma {:induction false} GroupIsWhole<C>(target: map<string, C>, source: map<string, C>,
                                           groups: seq<seq<string>>, i: nat, n: string)
    requires AreGroups(groups) && i < |groups| && n in groups[i]
    ensures Lookup(Completed(target, source, groups), n)
         == Lookup(if Missing(target, source, groups[i]) then source else target, n)
  {
    var last := |groups| - 1;
    var rest := groups[..last];
    if i < last {
      GroupIsWhole(target, source, rest, i, n);
      GenerationAt(Completed(target, source, rest), source, groups[last], n);
    } else {
      OutsideIsUntouched(target, source, rest, n);
      OutsideIsUntouched(target, source, rest, groups[i][0]);
      GenerationAt(Completed(target, source, rest), source, groups[i], n);
    }
  }

  // The list of copied entries names exactly what was installed.
  lemma {:induction false} CopiedIsWhatWasInstalled<C>(target: map<string, C>, source: map<string, C>,
                                                       groups: seq<seq<string>>, n: string)
    requires AreGroups(groups)
    ensures n in CopiedNames(target, source, groups) <==>
            n in source && exists i :: 0 <= i < |groups| && n in groups[i] && Missing(target, source, groups[i])
  {
    if groups != [] {
      var last := |groups| - 1;
      var rest := groups[..last];
      CopiedIsWhatWasInstalled(target, source, rest, n);
      OutsideIsUntouched(target, source, rest, groups[last][0]);
      assert Missing(Completed(target, source, rest), source, groups[last]) == Missing(target, source, groups[last]);
      assert forall i :: 0 <= i < last ==> rest[i] == groups[i];
    }
  }

  // A second run has nothing left to do.
  lemma {:induction false} SecondRunCopiesNothing<C>(target: map<string, C>, source: map<string, C>,
                                                     groups: seq<seq<string>>, k: nat)
    requires AreGroups(groups) && k <= |groups|
    ensures var done := Completed(target, source, groups);
            Completed(done, source, groups[..k]) == done && CopiedNames(done, source, groups[..k]) == []
  {
    if k > 0 {
      SecondRunCopiesNothing(target, source, groups, k - 1);
      assert groups[..k][..k - 1] == groups[..k - 1];
      GroupIsWhole(target, source, groups, k - 1, groups[k - 1][0]);
      assert !Missing(Completed(target, source, groups), source, groups[k - 1]);
    }
  }

  datatype GroupResult =
    | NotNeeded            // no base in the source, or one in the target already
    | StagingFailed        // something threw before the target was touched
    | DoneElsewhere        // another startup finished this group meanwhile
    | RolledBack           // the install threw and was undone
    | RollbackFailed       // the install threw, and so did a step of undoing it
    | Installed

  datatype Status = Repaired | NotNeededStatus | RepairFailed

  class Partition<C(!new)> {
    const source: map<string, C>
    const throws: nat -> bool           // whether the n-th file operation throws

    var target: map<string, C>
    var staged: map<string, C>          // the "source" directory of the staging directory
    var backup: map<string, C>          // its "target-backup" directory
    var operations: nat
    ghost var seen: seq<map<string, C>> // every state the target went through

    constructor (source: map<string, C>, target: map<string, C>, throws: nat -> bool)
      ensures this.source == source && this.target == target && this.throws == throws
    {
      this.source, this.target, this.throws := source, target, throws;
      staged, backup, operations, seen := map[], map[], 0, [target];
    }

    // Any operation that does not touch the target: mkdir, mkdtemp, cleaning up.
    method Attempt() returns (ok: bool)
      modifies this`operations
      ensures operations == old(operations) + 1 && ok == !throws(old(operations))
    {
      ok := !throws(operations);
      operations := operations + 1;
    }

    method CopyToStaging(n: string) returns (ok: bool)
      requires n in source
      modifies this`operations, this`staged
      ensures operations == old(operations) + 1 && ok == !throws(old(operations))
      ensures staged == if ok then old(staged)[n := source[n]] else old(staged)
    {
      ok := Attempt();
      if ok {
        staged := staged[n := source[n]];
      }
    }

    method MoveToBackup(n: string) returns (ok: bool)
      requires n in target
      modifies this`operations, this`target, this`backup, this`seen
      ensures operations == old(operations) + 1 && ok == !throws(old(operations))
      ensures target == (if ok then old(target) - {n} else old(target)) && seen == old(seen) + [target]
      ensures backup == if ok then old(backup)[n := old(target)[n]] else old(backup)
    {
      ok := Attempt();
      if ok {
        backup := backup[n := target[n]];
        target := target - {n};
      }
      seen := seen + [target];
    }

    method MoveFromStaging(n: string) returns (ok: bool)
      requires n in staged
      modifies this`operations, this`target, this`staged, this`seen
      ensures operations == old(operations) + 1 && ok == !throws(old(operations))
      ensures target == (if ok then old(target)[n := old(staged)[n]] else old(target)) && seen == old(seen) + [target]
      ensures staged == if ok then old(staged) - {n} else old(staged)
    {
      ok := Attempt();
      if ok {
        target := target[n := staged[n]];
        staged := staged - {n};
      }
      seen := seen + [target];
    }

    method RemoveFromTarget(n: string) returns (ok: bool)
      modifies this`operations, this`target, this`seen
      ensures operations == old(operations) + 1 && ok == !throws(old(operations))
      ensures target == (if ok then old(target) - {n} else old(target)) && seen == old(seen) + [target]
    {
      ok := Attempt();
      if ok {
        target := target - {n};
      }
      seen := seen + [target];
    }

    method RestoreFromBackup(n: string) returns (ok: bool)
      requires n in backup
      modifies this`operations, this`target, this`backup, this`seen
      ensures operations == old(operations) + 1 && ok == !throws(old(operations))
      ensures target == (if ok then old(target)[n := old(backup)[n]] else old(target)) && seen == old(seen) + [target]
      ensures backup == if ok then old(backup) - {n} else old(backup)
    {
      ok := Attempt();
      if ok {
        target := target[n := backup[n]];
        backup := backup - {n};
      }
      seen := seen + [target];
    }

    // Everything seen since the given moment was fit to be seen.
    ghost predicate SeenSince(from: nat, start: map<string, C>, group: seq<string>)
      reads this
      requires group != []
    {
      forall k :: from <= k < |seen| ==> Observable(start, source, group, seen[k])
    }

    // Moves the target's own sidecars out of the way.
    method DisplaceSidecars(group: seq<string>) returns (displaced: seq<string>, ok: bool)
      requires IsGroup(group) && group[0] !in target && backup == map[]
      modifies this`operations, this`target, this`backup, this`seen
      ensures operations >= old(operations)
      ensures !ok ==> operations > old(operations) && throws(operations - 1)
      ensures displaced <= Filter(group[1..], old(target))
      ensures ok ==> displaced == Filter(group[1..], old(target))
      ensures Midway(old(target), source, Names(displaced), {}, target)
      ensures backup == Pick(old(target), Names(displaced))
      ensures old(seen) <= seen && SeenSince(|old(seen)|, old(target), group)
    {
      hide Midway, Observable, Pick, Names, Filter;
      ghost var start := target;
      displaced, ok := [], true;
      NoneMoved(start, source, group);
      var i := 1;
      while i < |group|
        invariant 1 <= i <= |group| && operations >= old(operations)
        invariant displaced == Filter(group[1..i], start)
        invariant Midway(start, source, Names(displaced), {}, target)
        invariant backup == Pick(start, Names(displaced))
        invariant old(seen) <= seen && SeenSince(|old(seen)|, start, group)
      {
        var n := group[i];
        assert group[1..i + 1] == group[1..i] + [n];
        FilterAppend(group[1..i], n, start);
        SidecarFree(start, source, group, i, target);
        if n in target {
          DisplaceMore(start, source, Names(displaced), n, target);
          NamesAppend(displaced, n);
          ok := MoveToBackup(n);
          if ok {
            displaced := displaced + [n];
          }
          SidecarsObservable(start, source, group, displaced, target);
          if !ok {
            PrefixOfSidecars(group, i, start);
            return;
          }
        }
        i := i + 1;
      }
      assert group[1..i] == group[1..];
    }

    // Renames the staged generation into the target, the base last.
    method InstallStaged(group: seq<string>, ghost start: map<string, C>) returns (installed: seq<string>, ok: bool)
      requires IsGroup(group) && group[0] !in start && group[0] in source
      requires Midway(start, source, Names(Filter(group[1..], start)), {}, target)
      requires staged == Pick(source, Names(group))
      modifies this`operations, this`target, this`staged, this`seen
      ensures operations >= old(operations)
      ensures !ok ==> operations > old(operations) && throws(operations - 1)
      ensures installed <= InstallOrder(group, source) && (ok <==> installed == InstallOrder(group, source))
      ensures Midway(start, source, Names(Filter(group[1..], start)), Names(installed), target)
      ensures ok ==> target == Generation(start, source, group)
      ensures !ok ==> Undoable(start, group, target)
      ensures old(seen) <= seen && SeenSince(|old(seen)|, start, group)
    {
      hide Midway, Observable, Pick, Names, Filter, Generation, Undoable, InstallOrder;
      var order := Filter(group[1..], source) + [group[0]];
      StagedInOrder(group, source);
      installed, ok := [], true;
      var i := 0;
      while i < |order|
        invariant 0 <= i <= |order| && operations >= old(operations)
        invariant installed == order[..i]
        invariant Midway(start, source, Names(Filter(group[1..], start)), Names(order[..i]), target)
        invariant forall j :: i <= j < |order| ==> order[j] in staged && staged[order[j]] == source[order[j]]
        invariant old(seen) <= seen && SeenSince(|old(seen)|, start, group)
      {
        var n := order[i];
        InstallNext(start, source, group, i, target);
        PartOfOrderObservable(start, source, group, i, target);
        ok := MoveFromStaging(n);
        if !ok {
          return;
        }
        assert order[..i + 1] == order[..i] + [n];
        PartOfOrderObservable(start, source, group, i + 1, target);
        installed := installed + [n];
        i := i + 1;
      }
      PartOfOrderObservable(start, source, group, i, target);
    }

    // Undoes an interrupted install, going on past steps that throw themselves.
    method RollBack(group: seq<string>, installed: seq<string>, displaced: seq<string>, ghost start: map<string, C>)
      returns (rollbackErrors: nat, ghost failed: set<string>)
      requires IsGroup(group) && group[0] !in start && group[0] in source
      requires installed <= InstallOrder(group, source) && displaced <= Filter(group[1..], start)
      requires Midway(start, source, Names(displaced), Names(installed), target)
      requires backup == Pick(start, Names(displaced)) && Undoable(start, group, target)
      modifies this`operations, this`target, this`backup, this`seen
      ensures operations >= old(operations)
      ensures rollbackErrors == 0 ==> target == start && failed == {}
      // every entry is as at the start but for those of which a step threw
      ensures forall n :: n !in failed ==> SameAt(target, start, n)
      ensures rollbackErrors > 0 ==> exists k :: old(operations) <= k < operations && throws(k)
      ensures Undoable(start, group, target)
      ensures old(seen) <= seen && SeenSince(|old(seen)|, start, group)
    {
      hide Midway, Observable, Pick, Names, Filter, Undoable, InstallOrder, Undone, SameAt;
      ListsAreOfTheGroup(start, source, group, installed, displaced);
      MidwayUndone(start, source, Names(displaced), Names(installed), target);
      InstalledNames(installed);
      failed := {};
      ghost var fault := 0;
      rollbackErrors := 0;
      var i := |installed|;
      while i > 0
        invariant 0 <= i <= |installed| && operations >= old(operations)
        invariant rollbackErrors == 0 ==> Midway(start, source, Names(displaced), Names(installed[..i]), target)
        invariant rollbackErrors > 0 ==> old(operations) <= fault < operations && throws(fault)
        invariant Undone(start, Names(displaced), Names(installed[..i]), failed, target)
        invariant rollbackErrors == 0 ==> failed == {}
        invariant Undoable(start, group, target) && backup == old(backup)
        invariant old(seen) <= seen && SeenSince(|old(seen)|, start, group)
      {
        i := i - 1;
        var n := installed[i];
        UndoableStep(start, source, group, n, target);
        UndoInstall(start, Names(displaced), installed, i, failed, target);
        if rollbackErrors == 0 {
          UninstallLast(start, source, displaced, installed, i, target);
        }
        var ok := RemoveFromTarget(n);
        if !ok {
          failed := failed + {n};
          fault := operations - 1;
          rollbackErrors := rollbackErrors + 1;
        }
      }
      var j := 0;
      assert displaced[0..] == displaced;
      while j < |displaced|
        invariant 0 <= j <= |displaced| && operations >= old(operations)
        invariant rollbackErrors == 0 ==> Midway(start, source, Names(displaced[j..]), {}, target)
        invariant rollbackErrors > 0 ==> old(operations) <= fault < operations && throws(fault)
        invariant Undone(start, Names(displaced[j..]), {}, failed, target)
        invariant rollbackErrors == 0 ==> failed == {}
        invariant forall m :: j <= m < |displaced| ==>
                    displaced[m] in backup && backup[displaced[m]] == start[displaced[m]]
        invariant Undoable(start, group, target)
        invariant old(seen) <= seen && SeenSince(|old(seen)|, start, group)
      {
        var n := displaced[j];
        UndoableStep(start, source, group, n, target);
        UndoDisplace(start, displaced, j, failed, target);
        if rollbackErrors == 0 {
          RestoreFirst(start, source, displaced, j, target);
        }
        var ok := RestoreFromBackup(n);
        if !ok {
          failed := failed + {n};
          fault := operations - 1;
          rollbackErrors := rollbackErrors + 1;
        }
        j := j + 1;
      }
      assert displaced[j..] == [];
      UndoneWhole(start, failed, target);
      if rollbackErrors == 0 {
        AllRestored(start, source, target);
      }
    }

    // Copies a whole source generation of a group next to the target, which it does not touch.
    method StageGroup(group: seq<string>) returns (ok: bool)
      modifies this`operations, this`staged
      ensures operations >= old(operations)
      ensures ok ==> staged == Pick(source, Names(group))
      ensures !ok ==> operations > old(operations) && throws(operations - 1)
    {
      var names := Filter(group, source);
      NothingStaged(group, source);
      hide Pick, Names, Filter;
      staged := map[];
      ok := Attempt();
      if !ok {
        return;
      }
      var i := 0;
      while i < |names|
        invariant 0 <= i <= |names| && operations >= old(operations) && ok
        invariant staged == Pick(source, Names(names[..i]))
      {
        StageMore(source, names, i);
        ok := CopyToStaging(names[i]);
        if !ok {
          return;
        }
        i := i + 1;
      }
      assert names[..i] == names;
    }

    // The two renaming passes, and undoing them when one throws.
    method InstallGroup(group: seq<string>) returns (result: GroupResult)
      requires IsGroup(group) && group[0] !in target && group[0] in source
      requires staged == Pick(source, Names(group))
      modifies this`operations, this`target, this`staged, this`backup, this`seen
      ensures operations >= old(operations)
      ensures result.Installed? || result.RolledBack? || result.RollbackFailed?
      ensures result.Installed? ==> target == Generation(old(target), source, group)
      ensures result.RolledBack? ==> target == old(target)
      ensures result.RollbackFailed? ==> Undoable(old(target), group, target)
      ensures !result.Installed? ==> exists k :: old(operations) <= k < operations && throws(k)
      ensures result.RollbackFailed? ==>
                exists j, k :: old(operations) <= j < k < operations && throws(j) && throws(k)
      ensures old(seen) <= seen && SeenSince(|old(seen)|, old(target), group)
    {
      hide Midway, Observable, Pick, Filter, Generation, InstallOrder;
      ghost var start := target;
      var installed, displaced: seq<string> := [], [];
      backup := map[];
      NoneMoved(start, source, group);
      assert Undoable(start, group, target);
      hide Undoable, Names;
      var ok := Attempt();
      if ok {
        displaced, ok := DisplaceSidecars(group);
        if ok {
          installed, ok := InstallStaged(group, start);
        } else {
          DisplacedUndoable(start, source, group, displaced, target);
        }
      }
      if ok {
        return Installed;
      }
      ghost var failedAt := operations - 1;
      var rollbackErrors, failed := RollBack(group, installed, displaced, start);
      result := if rollbackErrors > 0 then RollbackFailed else RolledBack;
      assert throws(failedAt);
    }

    // One turn of the loop over the groups. Between staging and installing, another
    // startup may have left the target in the given state.
    method RepairGroup(group: seq<string>, elsewhere: Option<map<string, C>>)
      returns (result: GroupResult, cleanupFailed: bool, copied: seq<string>, ghost start: map<string, C>)
      requires IsGroup(group)
      modifies this
      ensures operations >= old(operations)
      ensures start == if elsewhere.Some? && !result.NotNeeded? && !result.StagingFailed? then elsewhere.value
                       else old(target)
      ensures !result.NotNeeded? && !result.StagingFailed? ==>
                operations > old(operations) && cleanupFailed == throws(operations - 1)
      ensures result.NotNeeded? <==> group[0] !in source || group[0] in old(target)
      ensures result.NotNeeded? || result.StagingFailed? ==> target == old(target)
      ensures result.DoneElsewhere? ==> target == start && group[0] in start
      ensures result.RolledBack? ==> target == start && group[0] !in start
      ensures result.RollbackFailed? ==> group[0] !in start && Undoable(start, group, target)
      ensures result.Installed? ==> group[0] !in start && target == Generation(start, source, group)
      ensures copied == if result.Installed? then Filter(group, source) else []
      ensures (result.StagingFailed? || result.RolledBack? || result.RollbackFailed? || cleanupFailed) ==>
                exists k :: old(operations) <= k < operations && throws(k)
      ensures result.RollbackFailed? ==>
                exists j, k :: old(operations) <= j < k < operations && throws(j) && throws(k)
      ensures old(seen) <= seen && SeenSince(|old(seen)|, start, group)
    {
      hide Midway, Pick, Filter, Names, Generation, InstallOrder, Undoable, Distinct;
      start := target;
      result, cleanupFailed, copied := NotNeeded, false, [];
      if group[0] !in source || group[0] in target {
        return;
      }
      result := StagingFailed;
      var ok := Attempt();
      if !ok {
        return;
      }
      ok := Attempt();
      if !ok {
        return;
      }
      ok := StageGroup(group);
      if ok {
        if elsewhere.Some? {
          target := elsewhere.value;
          start := target;
          seen := seen + [target];
        }
        if group[0] in target {
          result := DoneElsewhere;
        } else {
          result := InstallGroup(group);
          if result.Installed? {
            copied := Filter(group, source);
          }
        }
      }
      ok := Attempt();
      cleanupFailed := !ok;
    }

    // The whole repair. The loop ends at the first group that throws; what it copied
    // until then stays.
    method Repair(groups: seq<seq<string>>, elsewhere: nat -> Option<map<string, C>>)
      returns (status: Status, copied: seq<string>, ghost done: nat)
      requires AreGroups(groups)
      modifies this
      ensures done <= |groups|
      ensures status == NotNeededStatus ==> copied == [] && done == |groups|
      ensures status == Repaired ==> copied != [] && done == |groups|
      ensures status == RepairFailed ==> exists k :: old(operations) <= k < operations && throws(k)
      ensures (forall i :: elsewhere(i) == None) ==>
                && copied == CopiedNames(old(target), source, groups[..done])
                && var before := Completed(old(target), source, groups[..done]);
                   target != before ==> status == RepairFailed && done < |groups| && Undoable(before, groups[done], target)
      ensures (forall i :: elsewhere(i) == None) && status != RepairFailed ==>
                target == Completed(old(target), source, groups)
    {
      hide Generation, Filter, Undoable, Names, Distinct;
      copied, done := [], 0;
      ghost var calm := forall i :: elsewhere(i) == None;
      var i := 0;
      while i < |groups|
        invariant 0 <= i <= |groups| && done == i && operations >= old(operations)
        invariant calm ==> copied == CopiedNames(old(target), source, groups[..i])
        invariant calm ==> target == Completed(old(target), source, groups[..i])
      {
        assert groups[..i + 1][..i] == groups[..i];
        var result, cleanupFailed, names, start := RepairGroup(groups[i], elsewhere(i));
        copied := copied + names;
        if result.Installed? {
          done := i + 1;
        }
        if cleanupFailed || result.StagingFailed? || result.RolledBack? || result.RollbackFailed? {
          status := RepairFailed;
          return;
        }
        i := i + 1;
        done := i;
      }
      assert groups[..i] == groups;
      status := if copied == [] then NotNeededStatus else Repaired;
    }
  }
}

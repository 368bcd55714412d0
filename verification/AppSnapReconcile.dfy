// The reconcile loop of the capture helper and the global shortcut it reserves
// (apps/desktop/src/appSnapManager.ts, #reconcileWatchProcess and its pass).
//
// A call runs up to its first await; promise reactions and the end of a pass are events
// of their own, in any order. Passes do not throw, unregistering succeeds, and the state
// listener does not call back into the manager.
module AppSnapReconcile {
  import opened Wrappers

  type Accelerator = string

  datatype Shortcut = BothOptionKeys | KeyChord(accelerator: Accelerator)

  // What a pass finds: permissions, the helper file, the registry, the directory, spawning.
  datatype World = World(permitted: bool, helperPresent: bool, registers: bool, directoryOk: bool, spawns: bool)

  // The loop of passes: the one under way waits for the directory or has run to its end.
  datatype Loop = Idle | AtDirectory | PassDone | Finishing

  // waiting: calls that wait for the promise of the loop; checking: calls whose promise is
  // settled and that have not yet looked at the flag. requests, served: how many requests
  // were made, and how many of them before the last pass began. begun, ended: passes.
  datatype State = State(requested: bool, loop: Loop, waiting: nat, checking: nat,
                         requests: nat, served: nat, begun: nat, ended: nat,
                         enabled: bool, disposed: bool, shortcut: Shortcut,
                         registered: Option<Accelerator>, held: set<Accelerator>, watching: bool)

  datatype Event =
    | Reconcile(world: World)                 // after a permission command
    | PassNext(world: World)
    | LoopSettles
    | CallerResumes(world: World)
    | SetEnabled(enabled: bool)
    | SetShortcut(shortcut: Shortcut, world: World)
    | Dispose
    | HelperFails                             // the process could not run
    | HelperExits(intentional: bool)
    | PermissionLost

  const START := State(false, Idle, 0, 0, 0, 0, 0, 0, false, false, BothOptionKeys, None, {}, false)

  // #releaseShortcutReservation
  function Release(s: State): State {
    if s.registered.None? then s else s.(registered := None, held := s.held - {s.registered.value})
  }

  function StopWatching(s: State): State {
    s.(watching := false)
  }

  // #reserveShortcut
  function Reserve(s: State, accelerator: Accelerator, registers: bool): State {
    if s.registered == Some(accelerator) || !registers then s
    else s.(registered := Some(accelerator), held := s.held + {accelerator})
  }

  // #reconcileWatchProcessOnce up to its await.
  function PassBegins(s: State, world: World): State {
    var done := s.(loop := PassDone);
    if s.disposed then done
    else if !s.enabled || !world.permitted || !world.helperPresent then Release(StopWatching(done))
    else
      var reserved := if s.shortcut.KeyChord? then Reserve(s, s.shortcut.accelerator, world.registers) else Release(s);
      if s.shortcut.KeyChord? && reserved.registered != Some(s.shortcut.accelerator) then
        StopWatching(reserved.(loop := PassDone))
      else if s.watching then reserved.(loop := PassDone)
      else reserved.(loop := AtDirectory)
  }

  // The rest of the pass.
  function PassResumes(s: State, world: World): State {
    var done := s.(loop := PassDone);
    if !world.directoryOk then Release(done)
    else if s.disposed || !s.enabled || s.watching || !world.permitted then
      if s.watching then done else Release(done)
    else if world.spawns then done.(watching := true)
    else Release(done)
  }

  // The condition of the loop.
  function Again(s: State, world: World): State {
    if s.requested then
      PassBegins(s.(requested := false, begun := s.begun + 1, served := s.requests), world)
    else s.(loop := Finishing)
  }

  // #reconcileWatchProcess up to its first await.
  function Call(s: State, world: World): State {
    var asked := s.(requested := true, requests := s.requests + 1);
    if s.loop.Idle? then Again(asked.(waiting := 1), world) else asked.(waiting := s.waiting + 1)
  }

  function Step(s: State, e: Event): State {
    match e
    case Reconcile(world) => Call(s, world)
    case PassNext(world) =>
      if s.loop.AtDirectory? then PassResumes(s, world)
      else if s.loop.PassDone? then Again(s.(ended := s.ended + 1), world)
      else s
    case LoopSettles =>
      if s.loop.Finishing? then s.(loop := Idle, checking := s.checking + s.waiting, waiting := 0) else s
    case CallerResumes(world) =>
      if s.checking == 0 then s
      else
        var resumed := s.(checking := s.checking - 1);
        if s.requested then Call(resumed, world) else resumed
    case SetEnabled(enabled) =>
      if s.disposed then s
      else if enabled then s.(enabled := true)
      else Release(StopWatching(s.(enabled := false)))
    case SetShortcut(shortcut, world) =>
      if shortcut == s.shortcut then s
      else
        var changed := Release(StopWatching(s)).(shortcut := shortcut);
        if s.enabled then Call(changed, world) else changed
    case Dispose => Release(StopWatching(s.(disposed := true)))
    case HelperFails => if s.watching then Release(StopWatching(s)) else s
    case HelperExits(intentional) =>
      if !s.watching then s
      else
        var stopped := StopWatching(s);
        if s.disposed || intentional || !s.enabled then stopped else Release(stopped)
    case PermissionLost => if s.disposed || !s.watching then s else Release(StopWatching(s))
  }

  function Run(events: seq<Event>): State {
    if events == [] then START else Step(Run(events[..|events| - 1]), events[|events| - 1])
  }

  // ---- Invariants ----

  predicate InPass(loop: Loop) {
    loop.AtDirectory? || loop.PassDone?
  }

  // A request not yet taken up is going to be: by the pass under way, or by a caller that
  // has still to look.
  ghost predicate Heard(requested: bool, loop: Loop, waiting: nat, checking: nat, requests: nat, served: nat) {
    && (loop.Idle? <==> waiting == 0)
    && (requested && loop.Idle? ==> checking > 0)
    && (!requested ==> served == requests)
  }

  // At most one pass at a time.
  ghost predicate OnePass(loop: Loop, begun: nat, ended: nat) {
    begun == ended + if InPass(loop) then 1 else 0
  }

  // What is held is what is recorded, and belongs to the current shortcut.
  ghost predicate Reserved(s: State) {
    && s.held == (if s.registered.Some? then {s.registered.value} else {})
    && (s.registered.Some? ==>
          s.enabled && !s.disposed && s.shortcut == KeyChord(s.registered.value))
  }

  ghost predicate Inv(s: State) {
    && Heard(s.requested, s.loop, s.waiting, s.checking, s.requests, s.served)
    && OnePass(s.loop, s.begun, s.ended)
    && Reserved(s)
  }

  lemma PassBeginsKeeps(s: State, world: World)
    requires Reserved(s)
    ensures var t := PassBegins(s, world);
            && Reserved(t) && InPass(t.loop)
            && t.requested == s.requested && t.waiting == s.waiting && t.checking == s.checking
            && t.requests == s.requests && t.served == s.served && t.begun == s.begun && t.ended == s.ended
  {
  }

  lemma PassResumesKeeps(s: State, world: World)
    requires Reserved(s)
    ensures var t := PassResumes(s, world);
            && Reserved(t) && t.loop == PassDone
            && t.requested == s.requested && t.waiting == s.waiting && t.checking == s.checking
            && t.requests == s.requests && t.served == s.served && t.begun == s.begun && t.ended == s.ended
  {
  }

  lemma AgainKeeps(s: State, world: World)
    requires Reserved(s) && s.waiting > 0 && s.begun == s.ended
    requires !s.requested ==> s.served == s.requests
    ensures Inv(Again(s, world))
  {
    if s.requested {
      PassBeginsKeeps(s.(requested := false, begun := s.begun + 1, served := s.requests), world);
      hide PassBegins;
    }
  }

  lemma CallKeeps(s: State, world: World)
    requires Reserved(s) && OnePass(s.loop, s.begun, s.ended) && (s.loop.Idle? <==> s.waiting == 0)
    ensures Inv(Call(s, world))
  {
    hide Again;
    if s.loop.Idle? {
      AgainKeeps(s.(requested := true, requests := s.requests + 1, waiting := 1), world);
    }
  }

  lemma StepKeeps(s: State, e: Event)
    requires Inv(s)
    ensures Inv(Step(s, e))
  {
    hide PassBegins, PassResumes, Again, Call;
    match e
    case Reconcile(world) => CallKeeps(s, world);
    case PassNext(world) =>
      if s.loop.AtDirectory? {
        PassResumesKeeps(s, world);
      } else if s.loop.PassDone? {
        AgainKeeps(s.(ended := s.ended + 1), world);
      }
    case CallerResumes(world) =>
      if s.checking > 0 && s.requested {
        CallKeeps(s.(checking := s.checking - 1), world);
      }
    case SetShortcut(shortcut, world) =>
      if shortcut != s.shortcut && s.enabled {
        CallKeeps(Release(StopWatching(s)).(shortcut := shortcut), world);
      }
    case _ =>
  }

  lemma {:induction false} RunKeeps(events: seq<Event>)
    ensures Inv(Run(events))
  {
    hide Step;
    if events != [] {
      RunKeeps(events[..|events| - 1]);
      StepKeeps(Run(events[..|events| - 1]), events[|events| - 1]);
    }
  }

  // Nothing is running and no caller has anything left to do.
  predicate Quiescent(s: State) {
    s.loop.Idle? && s.checking == 0
  }

  // Requests are never lost: when everything has come to rest, the flag is clear and a
  // pass has begun after the last request.
  lemma RequestsAreNeverLost(events: seq<Event>)
    ensures var s := Run(events); Quiescent(s) ==> !s.requested && s.served == s.requests
    ensures var s := Run(events); s.ended <= s.begun <= s.ended + 1
  {
    RunKeeps(events);
  }

  // Throughout a run at most one accelerator is held, and then it is that of the current
  // shortcut and the manager is enabled and not disposed.
  lemma OneAcceleratorAtMost(events: seq<Event>, a: Accelerator)
    ensures var s := Run(events);
            a in s.held ==> s.held == {a} && s.shortcut == KeyChord(a) && s.enabled && !s.disposed
  {
    RunKeeps(events);
  }

  // A request is taken up by the pass that begins with it, or while a call still waits.
  lemma PendingRequestHasACaller(events: seq<Event>)
    ensures var s := Run(events); s.requested ==> s.waiting + s.checking > 0
  {
    RunKeeps(events);
  }

  // ---- What passes and events come to ----

  // A whole pass, where nothing comes in between, ends with the helper running exactly if
  // the manager is enabled and permitted, the helper is there, the shortcut is or can be
  // reserved, and the helper was running or can be started; and with the accelerator of the
  // shortcut exactly if it runs.
  lemma PassMeans(s: State, begins: World, resumes: World)
    requires Reserved(s) && !s.disposed
    ensures var b := PassBegins(s, begins);
            var t := if b.loop.AtDirectory? then PassResumes(b, resumes) else b;
            var may := s.enabled && begins.permitted && begins.helperPresent
                       && (s.shortcut.KeyChord? ==> s.registered == Some(s.shortcut.accelerator) || begins.registers);
            && (t.watching <==> may && (s.watching || (resumes.directoryOk && resumes.permitted && resumes.spawns)))
            && t.registered == (if t.watching && s.shortcut.KeyChord? then Some(s.shortcut.accelerator) else None)
            && t.loop.PassDone? && t.enabled == s.enabled && t.shortcut == s.shortcut
  {
  }

  // A pass of a disposed manager does nothing, and one that is disposed or disabled while it
  // waits for the directory does not start the helper.
  lemma PassOfDisposed(s: State, world: World)
    ensures s.disposed ==> PassBegins(s, world) == s.(loop := PassDone)
    ensures s.disposed || !s.enabled ==> PassResumes(s, world).watching == s.watching
  {
  }

  // The helper runs only for an enabled manager that is not disposed.
  predicate WatchesEnabled(s: State) {
    s.watching ==> s.enabled && !s.disposed
  }

  lemma PassesWatchEnabled(s: State, world: World)
    requires WatchesEnabled(s)
    ensures WatchesEnabled(PassBegins(s, world)) && WatchesEnabled(PassResumes(s, world))
  {
  }

  lemma StepWatchesEnabled(s: State, e: Event)
    requires WatchesEnabled(s)
    ensures WatchesEnabled(Step(s, e))
  {
    hide PassBegins, PassResumes;
    match e
    case Reconcile(world) => PassesWatchEnabled(Called(s), world);
    case PassNext(world) =>
      PassesWatchEnabled(s, world);
      PassesWatchEnabled(s.(ended := s.ended + 1, requested := false, begun := s.begun + 1, served := s.requests), world);
    case CallerResumes(world) => if s.checking > 0 { PassesWatchEnabled(Called(s.(checking := s.checking - 1)), world); }
    case SetShortcut(shortcut, world) =>
      PassesWatchEnabled(Called(Release(StopWatching(s)).(shortcut := shortcut)), world);
    case _ =>
  }

  // The state in which a call begins a pass.
  function Called(s: State): State {
    s.(requested := false, requests := s.requests + 1, waiting := 1, begun := s.begun + 1, served := s.requests + 1)
  }

  lemma {:induction false} RunWatchesEnabled(events: seq<Event>)
    ensures WatchesEnabled(Run(events))
  {
    hide Step, WatchesEnabled;
    if events == [] {
      assert WatchesEnabled(START) by { StartDoesNotWatch(); }
    } else {
      RunWatchesEnabled(events[..|events| - 1]);
      StepWatchesEnabled(Run(events[..|events| - 1]), events[|events| - 1]);
    }
  }

  lemma StartDoesNotWatch()
    ensures WatchesEnabled(START)
  {
  }

  // Disposing, disabling, and losing the helper or a permission leave no helper and no
  // accelerator; an exit that was meant leaves the accelerator alone.
  lemma EventsRelease(s: State, e: Event)
    requires Inv(s)
    ensures e.Dispose? ==> Step(s, e).disposed && !Step(s, e).watching && Step(s, e).held == {}
    ensures e == SetEnabled(false) && !s.disposed ==>
              !Step(s, e).enabled && !Step(s, e).watching && Step(s, e).held == {}
    ensures e == SetEnabled(true) && !s.disposed ==> Step(s, e) == s.(enabled := true)
    ensures s.watching && (e.HelperFails? || (e.PermissionLost? && !s.disposed)) ==>
              !Step(s, e).watching && Step(s, e).held == {}
    ensures s.watching && e.HelperExits? ==>
              !Step(s, e).watching
              && (if e.intentional || s.disposed || !s.enabled then Step(s, e).held == s.held else Step(s, e).held == {})
    ensures !s.watching && (e.HelperFails? || e.HelperExits? || e.PermissionLost?) ==> Step(s, e) == s
  {
    hide PassBegins, PassResumes, Again, Call;
  }

  lemma PassBeginsOnly(s: State, world: World)
    ensures var t := PassBegins(s, world);
            && t.shortcut == s.shortcut && t.enabled == s.enabled && t.disposed == s.disposed
            && (t.watching ==> s.watching) && t.requests == s.requests && t.begun == s.begun && t.served == s.served
            && (forall a :: a in t.held ==> a in s.held || s.shortcut == KeyChord(a))
  {
  }

  // A new shortcut stops the helper, gives the old accelerator back, and asks for a pass if
  // the manager is enabled; every call asks for one, and begins it if none is under way.
  lemma ChangesReconcile(s: State, e: Event)
    requires Reserved(s)
    ensures e.SetShortcut? && e.shortcut != s.shortcut ==>
              var t := Step(s, e);
              && t.shortcut == e.shortcut && !t.watching && t.requests == s.requests + (if s.enabled then 1 else 0)
              && (s.registered.Some? && e.shortcut != KeyChord(s.registered.value) ==> s.registered.value !in t.held)
              && (s.enabled && s.loop.Idle? ==> t.begun == s.begun + 1)
    ensures e.SetShortcut? && e.shortcut == s.shortcut ==> Step(s, e) == s
    ensures e.Reconcile? ==>
              var t := Step(s, e);
              t.requests == s.requests + 1 && (if s.loop.Idle? then t.begun == s.begun + 1 else t.requested)
  {
    hide PassResumes, PassBegins, Inv;
    match e
    case Reconcile(world) => PassBeginsOnly(Called(s), world);
    case SetShortcut(shortcut, world) => PassBeginsOnly(Called(Release(StopWatching(s)).(shortcut := shortcut)), world);
    case _ =>
  }

  // While a request is open the loop goes on, and so do the callers: one more pass begins.
  lemma OpenRequestIsServed(s: State, world: World)
    requires Inv(s) && s.requested
    ensures s.loop.PassDone? ==>
              Step(s, PassNext(world)).begun == s.begun + 1 && Step(s, PassNext(world)).served == s.requests
    ensures s.loop.Idle? ==> s.checking > 0 && Step(s, CallerResumes(world)).begun == s.begun + 1
    ensures s.loop.Finishing? ==> Step(s, LoopSettles).loop.Idle? && Step(s, LoopSettles).checking > 0
    ensures s.loop.AtDirectory? ==> Step(s, PassNext(world)).loop.PassDone?
  {
    hide PassBegins;
    PassBeginsOnly(s.(ended := s.ended + 1, requested := false, begun := s.begun + 1, served := s.requests), world);
    if s.checking > 0 {
      PassBeginsOnly(Called(s.(checking := s.checking - 1)), world);
    }
  }

  // ---- The manager ----

  class Reconciler {
    var requested: bool
    var loop: Loop
    var waiting: nat
    var checking: nat
    var enabled: bool
    var disposed: bool
    var shortcut: Shortcut
    var registered: Option<Accelerator>
    var watching: bool
    ghost var held: set<Accelerator>    // what the registry holds for us
    ghost var requests: nat
    ghost var served: nat
    ghost var begun: nat
    ghost var ended: nat

    ghost function View(): State
      reads this
    {
      State(requested, loop, waiting, checking, requests, served, begun, ended,
            enabled, disposed, shortcut, registered, held, watching)
    }

    ghost predicate Valid()
      reads this
    {
      Inv(View())
    }

    constructor ()
      ensures Valid() && View() == START
    {
      requested, loop, waiting, checking := false, Idle, 0, 0;
      enabled, disposed, shortcut, registered, watching := false, false, BothOptionKeys, None, false;
      held, requests, served, begun, ended := {}, 0, 0, 0, 0;
    }

    method ReleaseShortcutReservation()
      modifies this`registered, this`held
      ensures View() == Release(old(View()))
    {
      if registered.Some? {
        held := held - {registered.value};
        registered := None;
      }
    }

    method ReserveShortcut(accelerator: Accelerator, registers: bool) returns (ok: bool)
      modifies this`registered, this`held
      ensures View() == Reserve(old(View()), accelerator, registers)
      ensures ok <==> registered == Some(accelerator)
    {
      if registered == Some(accelerator) {
        return true;
      }
      if !registers {
        return false;
      }
      held := held + {accelerator};
      registered := Some(accelerator);
      ok := true;
    }

    method ReconcileOnceBegins(world: World)
      modifies this
      ensures View() == PassBegins(old(View()), world)
    {
      if disposed {
        loop := PassDone;
        return;
      }
      if !enabled || !world.permitted || !world.helperPresent {
        watching := false;
        ReleaseShortcutReservation();
        loop := PassDone;
        return;
      }
      if shortcut.KeyChord? {
        var ok := ReserveShortcut(shortcut.accelerator, world.registers);
        if !ok {
          watching := false;
          loop := PassDone;
          return;
        }
      }
      if shortcut.BothOptionKeys? {
        ReleaseShortcutReservation();
      }
      loop := if watching then PassDone else AtDirectory;
    }

    method ReconcileOnceResumes(world: World)
      modifies this
      ensures View() == PassResumes(old(View()), world)
    {
      loop := PassDone;
      if !world.directoryOk {
        ReleaseShortcutReservation();
      } else if disposed || !enabled || watching || !world.permitted {
        if !watching {
          ReleaseShortcutReservation();
        }
      } else if world.spawns {
        watching := true;
      } else {
        ReleaseShortcutReservation();
      }
    }

    method LoopCondition(world: World)
      modifies this
      ensures View() == Again(old(View()), world)
    {
      if requested {
        requested := false;
        begun, served := begun + 1, requests;
        ReconcileOnceBegins(world);
      } else {
        loop := Finishing;
      }
    }

    method ReconcileWatchProcess(world: World)
      requires Valid()
      modifies this
      ensures Valid() && View() == Step(old(View()), Reconcile(world))
    {
      hide Inv, Call;
      StepKeeps(View(), Reconcile(world));
      CallReconcile(world);
    }

    // #reconcileWatchProcess up to its first await.
    method CallReconcile(world: World)
      modifies this
      ensures View() == Call(old(View()), world)
    {
      hide Again;
      requested := true;
      requests := requests + 1;
      if !loop.Idle? {
        waiting := waiting + 1;
      } else {
        waiting := 1;
        LoopCondition(world);
      }
    }

    // The await inside the pass, or of the pass, is over.
    method PassContinues(world: World)
      requires Valid()
      modifies this
      ensures Valid() && View() == Step(old(View()), PassNext(world))
    {
      hide Inv, Again, PassResumes;
      StepKeeps(View(), PassNext(world));
      if loop.AtDirectory? {
        ReconcileOnceResumes(world);
      } else if loop.PassDone? {
        ended := ended + 1;
        LoopCondition(world);
      }
    }

    // The promise of the loop is forgotten and settled.
    method Settle()
      requires Valid()
      modifies this
      ensures Valid() && View() == Step(old(View()), LoopSettles)
    {
      hide Inv;
      StepKeeps(View(), LoopSettles);
      if loop.Finishing? {
        loop := Idle;
        checking := checking + waiting;
        waiting := 0;
      }
    }

    // A caller comes back from its await and looks at the flag.
    method CallerContinues(world: World)
      requires Valid() && checking > 0
      modifies this
      ensures Valid() && View() == Step(old(View()), CallerResumes(world))
    {
      hide Call, Inv;
      StepKeeps(View(), CallerResumes(world));
      checking := checking - 1;
      if requested {
        CallReconcile(world);
      }
    }

    method Enable(on: bool)
      requires Valid()
      modifies this
      ensures Valid() && View() == Step(old(View()), SetEnabled(on))
    {
      hide Inv;
      StepKeeps(View(), SetEnabled(on));
      if disposed {
        return;
      }
      enabled := on;
      if !on {
        watching := false;
        ReleaseShortcutReservation();
      }
    }

    method ChangeShortcut(next: Shortcut, world: World)
      requires Valid()
      modifies this
      ensures Valid() && View() == Step(old(View()), SetShortcut(next, world))
    {
      hide Inv, Call;
      StepKeeps(View(), SetShortcut(next, world));
      if next == shortcut {
        return;
      }
      watching := false;
      ReleaseShortcutReservation();
      shortcut := next;
      if enabled {
        CallReconcile(world);
      }
    }

    method DisposeManager()
      requires Valid()
      modifies this
      ensures Valid() && View() == Step(old(View()), Dispose)
    {
      hide Inv;
      StepKeeps(View(), Dispose);
      disposed := true;
      watching := false;
      ReleaseShortcutReservation();
    }

    method OnHelperError()
      requires Valid()
      modifies this
      ensures Valid() && View() == Step(old(View()), HelperFails)
    {
      hide Inv;
      StepKeeps(View(), HelperFails);
      if watching {
        watching := false;
        ReleaseShortcutReservation();
      }
    }

    method OnHelperExit(intentional: bool)
      requires Valid()
      modifies this
      ensures Valid() && View() == Step(old(View()), HelperExits(intentional))
    {
      hide Inv;
      StepKeeps(View(), HelperExits(intentional));
      if watching {
        watching := false;
        if !(disposed || intentional || !enabled) {
          ReleaseShortcutReservation();
        }
      }
    }

    method OnPermissionLost()
      requires Valid()
      modifies this
      ensures Valid() && View() == Step(old(View()), PermissionLost)
    {
      hide Inv;
      StepKeeps(View(), PermissionLost);
      if !disposed && watching {
        watching := false;
        ReleaseShortcutReservation();
      }
    }
  }
}

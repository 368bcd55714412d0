// Telling the agent's native input from a person's, and the depth of agent gestures
// (apps/desktop/src/browserManager.ts: expectAutomationInput,
// consumeExpectedAutomationInput, beginAutomationGesture, endAutomationGesture).
module BrowserInputs {
  import opened Wrappers
  import opened BrowserTypes

  const MAX_EXPECTED: nat := 64
  const EXPIRY_MS := 1000
  const RELEASE_GRACE_MS := 100

  datatype MouseType = MouseDown | MouseWheel | ContextMenu

  datatype Button = Left | Middle | Right

  datatype Signal =
    | KeyPress(key: string, alt: bool, control: bool, meta: bool, shift: bool)
    | Mouse(kind: MouseType, x: real, y: real, button: Option<Button>)

  function Lower(c: char): char {
    if 'A' <= c <= 'Z' then (c as int + 32) as char else c
  }

  function NormalizeKey(key: string): string {
    if key == "Space" || key == " " then " "
    else if |key| == 1 then [Lower(key[0])]
    else key
  }

  predicate Near(a: real, b: real) {
    -1.5 <= a - b <= 1.5
  }

  // browserAutomationInputMatches
  predicate Matches(expected: Signal, actual: Signal) {
    match expected
    case KeyPress(key, alt, control, meta, shift) =>
      actual.KeyPress? && NormalizeKey(key) == NormalizeKey(actual.key) && alt == actual.alt
      && control == actual.control && meta == actual.meta && shift == actual.shift
    case Mouse(kind, x, y, button) =>
      actual.Mouse? && kind == actual.kind && (button.None? || button == actual.button)
      && Near(x, actual.x) && Near(y, actual.y)
  }

  // An expected signal in the queue of a page; serial is the identity of the entry.
  datatype Pending = Pending(serial: nat, signal: Signal, expiresAt: int)

  // entries.filter((entry) => entry.expiresAt > now)
  function Unexpired(entries: seq<Pending>, now: int): (r: seq<Pending>)
    ensures |r| <= |entries|
  {
    if entries == [] then []
    else
      var rest := Unexpired(entries[..|entries| - 1], now);
      if entries[|entries| - 1].expiresAt > now then rest + [entries[|entries| - 1]] else rest
  }

  // entries.slice(-63)
  function LastOnes(entries: seq<Pending>, n: nat): (r: seq<Pending>)
    ensures |r| <= n
  {
    if |entries| > n then entries[|entries| - n..] else entries
  }

  // What they are: the unexpired entries in their order, and the end of a list.
  lemma {:induction false} UnexpiredConcatenates(a: seq<Pending>, b: seq<Pending>, now: int)
    ensures Unexpired(a + b, now) == Unexpired(a, now) + Unexpired(b, now)
  {
    if b == [] {
      assert a + b == a;
    } else {
      var all := a + b;
      assert all[..|all| - 1] == a + b[..|b| - 1] && all[|all| - 1] == b[|b| - 1];
      UnexpiredConcatenates(a, b[..|b| - 1], now);
    }
  }

  ghost predicate IsEndOf(end: seq<Pending>, entries: seq<Pending>, n: nat) {
    (exists before :: entries == before + end) && |end| == if |entries| <= n then |entries| else n
  }

  lemma LastOnesIsTheEnd(entries: seq<Pending>, n: nat)
    ensures IsEndOf(LastOnes(entries, n), entries, n)
  {
    var end := LastOnes(entries, n);
    assert entries == entries[..|entries| - |end|] + end;
  }

  // A key matches itself with the same modifiers, in either case, and the two names of the
  // space bar; a mouse event matches its kind and button within a pixel and a half.
  lemma MatchesMeans(a: Signal, b: Signal)
    ensures Matches(a, b) ==> a.KeyPress? == b.KeyPress?
    ensures a.KeyPress? && b.KeyPress? ==>
              (Matches(a, b) <==> a.(key := NormalizeKey(a.key)) == b.(key := NormalizeKey(b.key)))
    ensures a.Mouse? && b.Mouse? && Matches(a, b) ==> a.kind == b.kind && (a.button == b.button || a.button == None)
    ensures a.Mouse? && b.Mouse? && Matches(a, b) ==> b.x - 1.5 <= a.x <= b.x + 1.5 && b.y - 1.5 <= a.y <= b.y + 1.5
    ensures a.Mouse? && b.Mouse? && a.(button := None) == b.(button := None)
            && (a.button == None || a.button == b.button) ==>
              Matches(a, b)
    ensures NormalizeKey("Space") == NormalizeKey(" ") && NormalizeKey("A") == NormalizeKey("a")
    ensures forall key :: |key| > 1 && key != "Space" ==> NormalizeKey(key) == key
  {
    assert "A"[0] == 'A' && "a"[0] == 'a';
  }

  predicate DistinctSerials(entries: seq<Pending>) {
    forall i, j :: 0 <= i < j < |entries| ==> entries[i].serial != entries[j].serial
  }

  lemma {:induction false} UnexpiredMeans(entries: seq<Pending>, now: int)
    ensures forall e :: e in Unexpired(entries, now) <==> e in entries && e.expiresAt > now
    ensures DistinctSerials(entries) ==> DistinctSerials(Unexpired(entries, now))
  {
    if entries != [] {
      var rest, last := entries[..|entries| - 1], entries[|entries| - 1];
      UnexpiredMeans(rest, now);
      assert entries == rest + [last];
      if DistinctSerials(entries) {
        var kept := Unexpired(rest, now);
        assert forall i :: 0 <= i < |kept| ==> kept[i] in rest;
      }
    }
  }

  // entries.findIndex((entry) => matches(entry.signal, signal))
  function FirstMatch(entries: seq<Pending>, signal: Signal): (r: Option<nat>)
    ensures r.Some? ==> r.value < |entries| && Matches(entries[r.value].signal, signal)
    ensures r.Some? ==> forall i :: 0 <= i < r.value ==> !Matches(entries[i].signal, signal)
    ensures r.None? ==> forall i :: 0 <= i < |entries| ==> !Matches(entries[i].signal, signal)
  {
    if entries == [] then None
    else if Matches(entries[0].signal, signal) then Some(0)
    else match FirstMatch(entries[1..], signal)
      case Some(i) => Some(i + 1)
      case None => None
  }

  // ---- What the queues promise, against what was registered ----

  datatype Registration = Registration(key: Key, signal: Signal, at: int, releasedAt: Option<int>)

  // Until when a registered signal may mask an input.
  function Limit(r: Registration): int {
    match r.releasedAt
    case Some(t) => if t + RELEASE_GRACE_MS < r.at + EXPIRY_MS then t + RELEASE_GRACE_MS else r.at + EXPIRY_MS
    case None => r.at + EXPIRY_MS
  }

  // An entry is that of a registration, and never outlives its limit.
  predicate Backed(e: Pending, key: Key, registered: seq<Registration>) {
    && e.serial < |registered| && registered[e.serial].key == key && registered[e.serial].signal == e.signal
    && e.expiresAt <= Limit(registered[e.serial])
  }

  // A native input taken for the agent's; released is when its signal had been released
  // by then, if it had.
  datatype Swallowed = Swallowed(serial: nat, key: Key, actual: Signal, at: int, released: Option<int>)

  predicate QueueOk(entries: seq<Pending>, key: Key, registered: seq<Registration>, spent: set<nat>) {
    && |entries| <= MAX_EXPECTED && DistinctSerials(entries)
    && forall i :: 0 <= i < |entries| ==> Backed(entries[i], key, registered) && entries[i].serial !in spent
  }

  ghost predicate QueuesOk(queues: map<Key, seq<Pending>>, registered: seq<Registration>, spent: set<nat>) {
    forall k :: k in queues ==> QueueOk(queues[k], k, registered, spent)
  }

  // The registration behind a swallowed input: of the same page, matching, and within a
  // second of its registration and a tenth of a second of its release.
  predicate Earned(s: Swallowed, registered: seq<Registration>) {
    && s.serial < |registered|
    && var r := registered[s.serial];
    && r.key == s.key && Matches(r.signal, s.actual) && s.at < r.at + EXPIRY_MS
    && (s.released.Some? ==> r.releasedAt == s.released && s.at < s.released.value + RELEASE_GRACE_MS)
  }

  // Every swallowed input has a registration of its own.
  ghost predicate OneShot(swallowed: seq<Swallowed>, registered: seq<Registration>, spent: set<nat>) {
    && (forall i :: 0 <= i < |swallowed| ==> Earned(swallowed[i], registered) && swallowed[i].serial in spent)
    && (forall i, j :: 0 <= i < j < |swallowed| ==> swallowed[i].serial != swallowed[j].serial)
    && (forall n :: n in spent ==> n < |registered|)
  }

  lemma MoreRegistered(queues: map<Key, seq<Pending>>, registered: seq<Registration>, swallowed: seq<Swallowed>,
                       spent: set<nat>, r: Registration)
    requires QueuesOk(queues, registered, spent) && OneShot(swallowed, registered, spent)
    ensures QueuesOk(queues, registered + [r], spent) && OneShot(swallowed, registered + [r], spent)
    ensures |registered| !in spent
    ensures forall k, i :: k in queues && 0 <= i < |queues[k]| ==> queues[k][i].serial < |registered|
  {
  }

  lemma QueueKeepsUnexpired(entries: seq<Pending>, key: Key, registered: seq<Registration>, spent: set<nat>, now: int)
    requires QueueOk(entries, key, registered, spent)
    ensures QueueOk(Unexpired(entries, now), key, registered, spent)
    ensures forall e :: e in Unexpired(entries, now) ==> e in entries && e.expiresAt > now
  {
    hide Backed;
    UnexpiredMeans(entries, now);
    var unexpired := Unexpired(entries, now);
    forall i | 0 <= i < |unexpired|
      ensures Backed(unexpired[i], key, registered) && unexpired[i].serial !in spent
    {
      assert unexpired[i] in entries;
    }
  }

  lemma Enqueue(entries: seq<Pending>, key: Key, registered: seq<Registration>, spent: set<nat>, now: int, p: Pending)
    requires QueueOk(entries, key, registered, spent) && Backed(p, key, registered) && p.serial !in spent
    requires forall i :: 0 <= i < |entries| ==> entries[i].serial != p.serial
    ensures QueueOk(Queued(entries, now, p), key, registered, spent)
  {
    hide Backed;
    QueueKeepsUnexpired(entries, key, registered, spent, now);
    var unexpired := Unexpired(entries, now);
    var current := LastOnes(unexpired, MAX_EXPECTED - 1);
    assert forall i :: 0 <= i < |current| ==> current[i] in unexpired;
  }

  // Taking one entry out.
  lemma TakeOut(entries: seq<Pending>, key: Key, registered: seq<Registration>, spent: set<nat>, i: nat)
    requires QueueOk(entries, key, registered, spent) && i < |entries|
    ensures QueueOk(entries[..i] + entries[i + 1..], key, registered, spent + {entries[i].serial})
  {
  }

  // Shortening the life of one entry.
  function Shorten(entries: seq<Pending>, serial: nat, until: int): (r: seq<Pending>)
    ensures |r| == |entries|
    ensures forall i :: 0 <= i < |entries| ==>
              r[i] == if entries[i].serial == serial && entries[i].expiresAt > until
                      then entries[i].(expiresAt := until) else entries[i]
  {
    seq(|entries|, i requires 0 <= i < |entries| =>
      if entries[i].serial == serial && entries[i].expiresAt > until then entries[i].(expiresAt := until) else entries[i])
  }

  lemma ReleaseBacked(queues: map<Key, seq<Pending>>, registered: seq<Registration>, swallowed: seq<Swallowed>,
                      spent: set<nat>, serial: nat, now: int)
    requires QueuesOk(queues, registered, spent) && OneShot(swallowed, registered, spent)
    requires serial < |registered| && registered[serial].releasedAt.None?
    ensures var after := registered[serial := registered[serial].(releasedAt := Some(now))];
            && OneShot(swallowed, after, spent)
            && (forall k :: k in queues && k != registered[serial].key ==> QueueOk(queues[k], k, after, spent))
            && (registered[serial].key in queues ==>
                  var k := registered[serial].key;
                  QueueOk(Shorten(Unexpired(queues[k], now), serial, now + RELEASE_GRACE_MS), k, after, spent))
  {
    hide Matches;
    var key := registered[serial].key;
    var after := registered[serial := registered[serial].(releasedAt := Some(now))];
    forall k | k in queues && k != key
      ensures QueueOk(queues[k], k, after, spent)
    {
      assert QueueOk(queues[k], k, registered, spent);
    }
    if key in queues {
      QueueKeepsUnexpired(queues[key], key, registered, spent, now);
    }
  }

  // ---- Gestures ----

  function LeasesOf(open: map<nat, Key>, key: Key): set<nat> {
    set t | t in open && open[t] == key
  }

  lemma OpenLease(open: map<nat, Key>, token: nat, key: Key, other: Key)
    requires token !in open
    ensures |LeasesOf(open[token := key], other)| == |LeasesOf(open, other)| + if other == key then 1 else 0
  {
    var after := LeasesOf(open[token := key], other);
    if other == key {
      assert after == LeasesOf(open, other) + {token};
    } else {
      assert after == LeasesOf(open, other);
    }
  }

  lemma CloseLease(open: map<nat, Key>, token: nat, other: Key)
    requires token in open
    ensures |LeasesOf(open - {token}, other)| == |LeasesOf(open, other)| - if other == open[token] then 1 else 0
  {
    var after := LeasesOf(open - {token}, other);
    if other == open[token] {
      assert LeasesOf(open, other) == after + {token};
      assert token !in after;
    } else {
      assert after == LeasesOf(open, other);
    }
  }

  function DepthOf(depth: map<Key, nat>, key: Key): nat {
    if key in depth then depth[key] else 0
  }

  // The depth counts unreleased leases, all of them on pages never torn down.
  ghost predicate Counts(depth: map<Key, nat>, open: map<nat, Key>, torn: set<Key>) {
    forall k :: DepthOf(depth, k) <= |LeasesOf(open, k)| && (k !in torn ==> DepthOf(depth, k) == |LeasesOf(open, k)|)
  }

  lemma CountsBegin(depth: map<Key, nat>, open: map<nat, Key>, torn: set<Key>, key: Key, token: nat)
    requires Counts(depth, open, torn) && token !in open
    ensures Counts(depth[key := DepthOf(depth, key) + 1], open[token := key], torn)
  {
    var after := depth[key := DepthOf(depth, key) + 1];
    forall k
      ensures DepthOf(after, k) <= |LeasesOf(open[token := key], k)|
      ensures k !in torn ==> DepthOf(after, k) == |LeasesOf(open[token := key], k)|
    {
      OpenLease(open, token, key, k);
    }
  }

  // Some entry that is not expired matches.
  ghost predicate IsExpected(entries: seq<Pending>, actual: Signal, now: int) {
    exists e :: e in entries && e.expiresAt > now && Matches(e.signal, actual)
  }

  // The first matching entry was taken out, and it is that of this serial.
  ghost predicate FirstTaken(entries: seq<Pending>, actual: Signal, serial: nat, left: seq<Pending>) {
    exists i :: 0 <= i < |entries| && Matches(entries[i].signal, actual)
                && (forall j :: 0 <= j < i ==> !Matches(entries[j].signal, actual))
                && entries[i].serial == serial && left == entries[..i] + entries[i + 1..]
  }

  // The queue with a new entry at its end.
  function Queued(entries: seq<Pending>, now: int, pending: Pending): seq<Pending> {
    LastOnes(Unexpired(entries, now), MAX_EXPECTED - 1) + [pending]
  }

  ghost predicate IsQueued(queue: seq<Pending>, entries: seq<Pending>, now: int, pending: Pending) {
    && queue != [] && queue[|queue| - 1] == pending
    && IsEndOf(queue[..|queue| - 1], Unexpired(entries, now), MAX_EXPECTED - 1)
  }

  lemma QueuedMeans(entries: seq<Pending>, now: int, pending: Pending)
    ensures IsQueued(Queued(entries, now, pending), entries, now, pending)
  {
    var current := LastOnes(Unexpired(entries, now), MAX_EXPECTED - 1);
    LastOnesIsTheEnd(Unexpired(entries, now), MAX_EXPECTED - 1);
    assert (current + [pending])[..|current|] == current;
  }

  function WithQueue(queues: map<Key, seq<Pending>>, key: Key, entries: seq<Pending>): map<Key, seq<Pending>> {
    if entries == [] then queues - {key} else queues[key := entries]
  }

  class AutomationInputs {
    var queues: map<Key, seq<Pending>>
    var depth: map<Key, nat>
    var open: map<nat, Key>                 // the gesture leases not released yet
    var serial: nat                         // the next entry's identity
    ghost var registered: seq<Registration>
    ghost var swallowed: seq<Swallowed>
    ghost var spent: set<nat>
    ghost var torn: set<Key>                // pages torn down with their gestures

    ghost predicate Valid()
      reads this
    {
      && serial == |registered|
      && QueuesOk(queues, registered, spent)
      && OneShot(swallowed, registered, spent)
      && Counts(depth, open, torn)
    }

    constructor ()
      ensures Valid() && open == map[] && torn == {}
    {
      queues, depth, open, serial, registered, swallowed, spent, torn := map[], map[], map[], 0, [], [], {}, {};
    }

    // beginAutomationGesture, for a new lease.
    method BeginGesture(key: Key, token: nat)
      requires Valid() && token !in open
      modifies this`depth, this`open
      ensures Valid() && open == old(open)[token := key]
      ensures depth == old(depth)[key := old(DepthOf(depth, key)) + 1]
    {
      hide QueuesOk, OneShot;
      CountsBegin(depth, open, torn, key, token);
      depth := depth[key := DepthOf(depth, key) + 1];
      open := open[token := key];
    }

    // endAutomationGesture, at the first release of a lease.
    method EndGesture(token: nat)
      requires Valid()
      modifies this`depth, this`open
      ensures Valid() && open == old(open) - {token}
      ensures token !in old(open) ==> depth == old(depth)
      ensures token in old(open) ==>
                var key := old(open[token]);
                depth == if old(DepthOf(depth, key)) <= 1 then old(depth) - {key}
                         else old(depth)[key := old(DepthOf(depth, key)) - 1]
    {
      hide QueuesOk, OneShot;
      if token !in open {
        return;
      }
      var key := open[token];
      forall k
        ensures |LeasesOf(open - {token}, k)| == |LeasesOf(open, k)| - if k == key then 1 else 0
      {
        CloseLease(open, token, k);
      }
      assert token in LeasesOf(open, key);
      var current: nat := if key in depth then depth[key] else 1;
      if current <= 1 {
        depth := depth - {key};
      } else {
        depth := depth[key := current - 1];
      }
      open := open - {token};
    }

    method GestureActive(key: Key) returns (active: bool)
      ensures active <==> DepthOf(depth, key) > 0
    {
      active := DepthOf(depth, key) > 0;
    }

    function Queue(key: Key): seq<Pending>
      reads this`queues
    {
      if key in queues then queues[key] else []
    }

    method SetQueue(key: Key, entries: seq<Pending>)
      modifies this`queues
      ensures queues == WithQueue(old(queues), key, entries)
    {
      if entries == [] {
        queues := queues - {key};
      } else {
        queues := queues[key := entries];
      }
    }

    // expectAutomationInput
    method Expect(key: Key, signal: Signal, now: int, token: nat) returns (entry: nat)
      requires Valid() && token !in open
      modifies this
      ensures Valid() && entry == old(serial)
      ensures registered == old(registered) + [Registration(key, signal, now, None)]
      ensures swallowed == old(swallowed) && torn == old(torn) && open == old(open)[token := key]
      // last in the queue of its page, behind those unexpired ones there is room for
      ensures key in queues && queues == old(queues)[key := queues[key]]
              && IsQueued(queues[key], old(Queue(key)), now, Pending(entry, signal, now + EXPIRY_MS))
      ensures depth == old(depth)[key := old(DepthOf(depth, key)) + 1]
    {
      entry := serial;
      MoreRegistered(queues, registered, swallowed, spent, Registration(key, signal, now, None));
      registered := registered + [Registration(key, signal, now, None)];
      serial := serial + 1;
      var pending := Pending(entry, signal, now + EXPIRY_MS);
      assert QueueOk(Queue(key), key, registered, spent);
      assert Backed(pending, key, registered);
      hide Backed, OneShot, QueueOk;
      Enqueue(Queue(key), key, registered, spent, now, pending);
      QueuedMeans(Queue(key), now, pending);
      hide Queued, IsQueued;
      queues := queues[key := Queued(Queue(key), now, pending)];
      hide QueuesOk;
      BeginGesture(key, token);
    }

    // The disposer of an expectation; only its first call does anything.
    method Release(key: Key, entry: nat, now: int, token: nat)
      requires Valid() && entry < serial && registered[entry].key == key
      requires token in open <==> registered[entry].releasedAt.None?
      modifies this
      ensures Valid() && open == old(open) - {token} && swallowed == old(swallowed) && torn == old(torn)
      ensures old(registered[entry].releasedAt.None?) ==>
                registered == old(registered)[entry := old(registered[entry]).(releasedAt := Some(now))]
      // the queue of its page loses what is expired, and this entry lives only a little longer
      ensures old(registered[entry].releasedAt.None?) ==>
                queues == WithQueue(old(queues), key,
                                    Shorten(Unexpired(old(Queue(key)), now), entry, now + RELEASE_GRACE_MS))
      ensures old(registered[entry].releasedAt.Some?) ==>
                registered == old(registered) && queues == old(queues) && depth == old(depth)
    {
      if token !in open {
        return;
      }
      ReleaseBacked(queues, registered, swallowed, spent, entry, now);
      registered := registered[entry := registered[entry].(releasedAt := Some(now))];
      hide Backed, OneShot, QueueOk;
      var remaining := Shorten(Unexpired(Queue(key), now), entry, now + RELEASE_GRACE_MS);
      SetQueue(key, remaining);
      EndGesture(token);
    }

    // consumeExpectedAutomationInput
    method Consume(key: Key, actual: Signal, now: int) returns (consumed: bool)
      requires Valid()
      modifies this`queues, this`swallowed, this`spent
      ensures Valid()
      ensures consumed <==> IsExpected(old(Queue(key)), actual, now)
      // an input that is not consumed leaves the unexpired entries, any other takes the first match
      ensures !consumed ==> queues == WithQueue(old(queues), key, Unexpired(old(Queue(key)), now))
      ensures consumed ==>
                swallowed != []
                && exists left ::
                     FirstTaken(Unexpired(old(Queue(key)), now), actual, swallowed[|swallowed| - 1].serial, left)
                     && queues == WithQueue(old(queues), key, left)
      ensures !consumed ==> swallowed == old(swallowed)
                            && forall i :: 0 <= i < |old(Queue(key))| ==>
                                 old(Queue(key))[i].expiresAt <= now || !Matches(old(Queue(key))[i].signal, actual)
      ensures consumed ==> |swallowed| == |old(swallowed)| + 1 && swallowed[..|old(swallowed)|] == old(swallowed)
                           && var s := swallowed[|old(swallowed)|];
                              && s.key == key && s.actual == actual && s.at == now && s.serial !in old(spent)
                              && s.serial < |registered| && s.released == registered[s.serial].releasedAt
    {
      hide QueuesOk, OneShot, Counts, FirstTaken, IsExpected, Matches, WithQueue, Unexpired;
      Skipped(queues, key, registered, spent, actual, now);
      var pending := Unexpired(Queue(key), now);
      var matched := FirstMatch(pending, actual);
      if matched.None? {
        SetQueue(key, pending);
        return false;
      }
      var i := matched.value;
      Taken(queues, key, registered, swallowed, spent, pending, i, actual, now);
      swallowed := swallowed + [Swallowed(pending[i].serial, key, actual, now, registered[pending[i].serial].releasedAt)];
      spent := spent + {pending[i].serial};
      SetQueue(key, pending[..i] + pending[i + 1..]);
      consumed := true;
    }

    // The part of destroyRuntime.
    method TearDown(key: Key, preserved: bool)
      requires Valid()
      modifies this`queues, this`depth, this`torn
      ensures Valid()
      ensures queues == old(queues) - {key} && torn == old(torn) + if preserved then {} else {key}
      ensures depth == if preserved then old(depth) else old(depth) - {key}
    {
      hide QueueOk, OneShot;
      queues := queues - {key};
      if !preserved {
        depth := depth - {key};
        torn := torn + {key};
      }
    }

    method Dispose()
      requires Valid()
      modifies this`queues, this`depth, this`torn
      ensures Valid() && queues == map[] && depth == map[]
    {
      hide QueueOk, OneShot;
      queues, depth := map[], map[];
      torn := torn + (set t | t in open :: open[t]);
      forall k | k !in torn
        ensures |LeasesOf(open, k)| == 0
      {
        assert LeasesOf(open, k) == {};
      }
    }
  }

  // The unexpired entries of a page, and what it means that none of them matches.
  lemma Skipped(queues: map<Key, seq<Pending>>, key: Key, registered: seq<Registration>, spent: set<nat>, actual: Signal,
                now: int)
    requires QueuesOk(queues, registered, spent)
    ensures var queue := if key in queues then queues[key] else [];
            var unexpired := Unexpired(queue, now);
            && QueueOk(unexpired, key, registered, spent)
            && (forall e :: e in unexpired ==> e.expiresAt > now)
            && QueuesOk(WithQueue(queues, key, unexpired), registered, spent)
            && ((forall i :: 0 <= i < |unexpired| ==> !Matches(unexpired[i].signal, actual)) ==>
                  !IsExpected(queue, actual, now)
                  && forall i :: 0 <= i < |queue| ==> queue[i].expiresAt <= now || !Matches(queue[i].signal, actual))
  {
    hide Matches, Backed;
    var queue := if key in queues then queues[key] else [];
    assert QueueOk(queue, key, registered, spent);
    QueueKeepsUnexpired(queue, key, registered, spent, now);
    UnexpiredMeans(queue, now);
    var unexpired := Unexpired(queue, now);
    forall i | 0 <= i < |queue| && queue[i].expiresAt > now
      ensures queue[i] in unexpired
    {
    }
  }

  lemma Taken(queues: map<Key, seq<Pending>>, key: Key, registered: seq<Registration>, swallowed: seq<Swallowed>,
              spent: set<nat>, pending: seq<Pending>, i: nat, actual: Signal, now: int)
    requires QueuesOk(queues, registered, spent) && OneShot(swallowed, registered, spent)
    requires QueueOk(pending, key, registered, spent) && i < |pending| && pending[i].expiresAt > now
    requires Matches(pending[i].signal, actual) && forall j :: 0 <= j < i ==> !Matches(pending[j].signal, actual)
    ensures forall entries :: pending == Unexpired(entries, now) ==> IsExpected(entries, actual, now)
    ensures var serial, left := pending[i].serial, pending[..i] + pending[i + 1..];
            && serial < |registered| && serial !in spent && FirstTaken(pending, actual, serial, left)
            && QueuesOk(WithQueue(queues, key, left), registered, spent + {serial})
            && OneShot(swallowed + [Swallowed(serial, key, actual, now, registered[serial].releasedAt)], registered,
                       spent + {serial})
  {
    forall entries | pending == Unexpired(entries, now)
      ensures IsExpected(entries, actual, now)
    {
      UnexpiredMeans(entries, now);
      assert pending[i] in entries;
    }
    TakeOut(pending, key, registered, spent, i);
    Spend(queues, key, registered, spent, swallowed, pending[i], actual, now);
    hide Matches, OneShot, QueueOk;
  }

  // Spending an entry: its registration is its own, and none of the other queues has it.
  lemma Spend(queues: map<Key, seq<Pending>>, key: Key, registered: seq<Registration>, spent: set<nat>,
              swallowed: seq<Swallowed>, e: Pending, actual: Signal, now: int)
    requires QueuesOk(queues, registered, spent) && OneShot(swallowed, registered, spent)
    requires Backed(e, key, registered) && e.serial !in spent && Matches(e.signal, actual) && e.expiresAt > now
    ensures forall k :: k in queues && k != key ==> QueueOk(queues[k], k, registered, spent + {e.serial})
    ensures var s := Swallowed(e.serial, key, actual, now, registered[e.serial].releasedAt);
            OneShot(swallowed + [s], registered, spent + {e.serial})
  {
    hide Matches;
    forall k | k in queues && k != key
      ensures QueueOk(queues[k], k, registered, spent + {e.serial})
    {
      assert QueueOk(queues[k], k, registered, spent);
    }
  }
}

// The bounded list of captures waiting for the composer
// (apps/desktop/src/appSnapManager.ts, #pendingCaptures).
//
// A capture is appended after its files were written, an acknowledgement takes it out
// after its files were deleted; both read the list and write it back without waiting in
// between, so a run is any sequence of these.
module AppSnapPending {
  import opened Wrappers
  import opened TextOrder

  const MAX_PENDING: nat := 8

  type Id = string
  type Bytes = seq<bv8>

  // Times are milliseconds.
  datatype Record = Record(id: Id, capturedAt: int, bytes: Bytes)

  predicate HasId(records: seq<Record>, id: Id) {
    exists i :: 0 <= i < |records| && records[i].id == id
  }

  predicate DistinctIds(records: seq<Record>) {
    forall i, j :: 0 <= i < j < |records| ==> records[i].id != records[j].id
  }

  // records.filter(({ capture }) => capture.id !== id)
  function Without(records: seq<Record>, id: Id): (r: seq<Record>)
    ensures |r| <= |records|
  {
    if records == [] then []
    else
      var rest := Without(records[..|records| - 1], id);
      var last := records[|records| - 1];
      if last.id == id then rest else rest + [last]
  }

  // records.slice(-MAX_PENDING_CAPTURES)
  function Newest(records: seq<Record>): (r: seq<Record>)
    ensures |r| <= MAX_PENDING
  {
    if |records| > MAX_PENDING then records[|records| - MAX_PENDING..] else records
  }

  function Appended(pending: seq<Record>, record: Record): seq<Record> {
    Newest(Without(pending, record.id) + [record])
  }

  // The record the list drops to make room.
  function Discarded(pending: seq<Record>, record: Record): Option<Record> {
    var next := Without(pending, record.id) + [record];
    if |next| > MAX_PENDING then Some(next[0]) else None
  }

  lemma {:induction false} WithoutMeans(records: seq<Record>, id: Id)
    ensures forall r :: r in Without(records, id) <==> r in records && r.id != id
  {
    if records != [] {
      var rest, last := records[..|records| - 1], records[|records| - 1];
      WithoutMeans(rest, id);
      assert records == rest + [last];
    }
  }

  lemma {:induction false} WithoutDistinct(records: seq<Record>, id: Id)
    requires DistinctIds(records)
    ensures DistinctIds(Without(records, id))
  {
    if records != [] {
      var rest, last := records[..|records| - 1], records[|records| - 1];
      WithoutDistinct(rest, id);
      WithoutMeans(rest, id);
      var r := Without(rest, id);
      assert forall i :: 0 <= i < |r| ==> r[i] in rest;
    }
  }

  lemma {:induction false} WithoutAbsent(records: seq<Record>, id: Id)
    requires forall i :: 0 <= i < |records| ==> records[i].id != id
    ensures Without(records, id) == records
  {
    if records != [] {
      WithoutAbsent(records[..|records| - 1], id);
      assert records == records[..|records| - 1] + [records[|records| - 1]];
    }
  }

  lemma {:induction false} WithoutFirst(records: seq<Record>)
    requires records != [] && DistinctIds(records)
    ensures Without(records, records[0].id) == records[1..]
  {
    if |records| > 1 {
      var rest := records[..|records| - 1];
      WithoutFirst(rest);
      assert records[1..] == rest[1..] + [records[|records| - 1]];
    }
  }

  // ---- The order a load puts the records in ----

  // By time of capture, then by id.
  predicate Before(a: Record, b: Record) {
    a.capturedAt < b.capturedAt || (a.capturedAt == b.capturedAt && LexLe(a.id, b.id))
  }

  predicate Ordered(records: seq<Record>) {
    forall i, j :: 0 <= i < j < |records| ==> Before(records[i], records[j])
  }

  function Insert(sorted: seq<Record>, record: Record): (r: seq<Record>)
    ensures |r| == |sorted| + 1
  {
    if sorted == [] || Before(sorted[|sorted| - 1], record) then sorted + [record]
    else Insert(sorted[..|sorted| - 1], record) + [sorted[|sorted| - 1]]
  }

  function Sort(records: seq<Record>): (r: seq<Record>)
    ensures |r| == |records|
  {
    if records == [] then [] else Insert(Sort(records[..|records| - 1]), records[|records| - 1])
  }

  lemma {:induction false} InsertHas(sorted: seq<Record>, record: Record)
    ensures forall r :: r in Insert(sorted, record) <==> r in sorted || r == record
  {
    if !(sorted == [] || Before(sorted[|sorted| - 1], record)) {
      InsertHas(sorted[..|sorted| - 1], record);
      assert sorted == sorted[..|sorted| - 1] + [sorted[|sorted| - 1]];
    }
  }

  lemma BeforeTotal(a: Record, b: Record, c: Record)
    ensures Before(a, b) || Before(b, a)
    ensures Before(a, b) && Before(b, c) ==> Before(a, c)
    ensures Before(a, b) ==> a.capturedAt <= b.capturedAt
    ensures Before(a, b) && Before(b, a) ==> a.capturedAt == b.capturedAt && a.id == b.id
  {
    LexTotal(a.id, b.id);
    if Before(a, b) && Before(b, a) {
      LexAntisymmetric(a.id, b.id);
    }
    if LexLe(a.id, b.id) && LexLe(b.id, c.id) {
      LexTransitive(a.id, b.id, c.id);
    }
  }

  lemma {:induction false} InsertOrdered(sorted: seq<Record>, record: Record)
    requires Ordered(sorted)
    ensures Ordered(Insert(sorted, record))
  {
    hide Before;
    if sorted == [] {
    } else {
      var last := sorted[|sorted| - 1];
      if Before(last, record) {
        forall i | 0 <= i < |sorted|
          ensures Before(sorted[i], record)
        {
          BeforeTotal(sorted[i], last, record);
        }
      } else {
        var rest := sorted[..|sorted| - 1];
        InsertOrdered(rest, record);
        InsertHas(rest, record);
        BeforeTotal(last, record, record);
        var r := Insert(rest, record);
        forall i | 0 <= i < |r|
          ensures Before(r[i], last)
        {
          assert r[i] in rest || r[i] == record;
        }
      }
    }
  }

  lemma {:induction false} InsertDistinct(sorted: seq<Record>, record: Record)
    requires DistinctIds(sorted) && !HasId(sorted, record.id)
    ensures DistinctIds(Insert(sorted, record))
  {
    hide Before;
    if !(sorted == [] || Before(sorted[|sorted| - 1], record)) {
      var rest := sorted[..|sorted| - 1];
      assert forall i :: 0 <= i < |rest| ==> rest[i] == sorted[i];
      InsertDistinct(rest, record);
      InsertHas(rest, record);
      var r := Insert(rest, record);
      forall i | 0 <= i < |r|
        ensures r[i].id != sorted[|sorted| - 1].id
      {
        assert r[i] in rest || r[i] == record;
      }
    }
  }

  // records.sort(...): the same records, ordered.
  lemma {:induction false} SortMeans(records: seq<Record>)
    ensures Ordered(Sort(records))
    ensures forall r :: r in Sort(records) <==> r in records
    ensures DistinctIds(records) ==> DistinctIds(Sort(records))
  {
    hide Before, Ordered;
    if records == [] {
      assert Ordered([]) by { OrderedEmpty(); }
    } else {
      var rest, last := records[..|records| - 1], records[|records| - 1];
      assert records == rest + [last];
      SortMeans(rest);
      InsertHas(Sort(rest), last);
      InsertOrdered(Sort(rest), last);
      if DistinctIds(records) {
        assert forall i :: 0 <= i < |Sort(rest)| ==> Sort(rest)[i] in rest;
        InsertDistinct(Sort(rest), last);
      }
    }
  }

  lemma OrderedEmpty()
    ensures Ordered([])
  {
  }

  // ---- The list and what happened to it ----

  datatype Change = Append(record: Record) | Acknowledge(id: Id) | Drop(id: Id)

  predicate About(change: Change, id: Id) {
    match change
    case Append(record) => record.id == id
    case Acknowledge(other) => other == id
    case Drop(other) => other == id
  }

  // By the changes alone: the record is in the list when nothing followed its append.
  ghost predicate Stays(log: seq<Change>, k: nat, record: Record) {
    && k < |log| && log[k] == Append(record)
    && forall m :: k < m < |log| ==> !About(log[m], record.id)
  }

  ghost predicate InLog(log: seq<Change>, record: Record) {
    exists k :: Stays(log, k, record)
  }

  // The list has exactly these records, in the order in which they were last appended.
  ghost predicate Reflects(pending: seq<Record>, log: seq<Change>, at: seq<nat>) {
    && |at| == |pending|
    && (forall i :: 0 <= i < |pending| ==> Stays(log, at[i], pending[i]))
    && (forall i, j :: 0 <= i < j < |at| ==> at[i] < at[j])
    && (forall r :: InLog(log, r) ==> r in pending)
  }

  lemma StaysLonger(log: seq<Change>, change: Change, k: nat, record: Record)
    ensures !About(change, record.id) && Stays(log, k, record) ==> Stays(log + [change], k, record)
    ensures Stays(log + [change], k, record) && change != Append(record) ==>
              !About(change, record.id) && Stays(log, k, record)
    ensures Stays(log + [change], k, record) && k < |log| ==> !About(change, record.id) && Stays(log, k, record)
  {
    var all := log + [change];
    assert all[|log|] == change;
    assert forall m :: 0 <= m < |log| ==> all[m] == log[m];
  }

  lemma InLogLonger(log: seq<Change>, change: Change, record: Record)
    ensures InLog(log + [change], record) <==> change == Append(record) || (InLog(log, record) && !About(change, record.id))
  {
    var all := log + [change];
    if InLog(all, record) {
      var k :| Stays(all, k, record);
      StaysLonger(log, change, k, record);
    }
    if change == Append(record) {
      assert Stays(all, |log|, record);
    } else if InLog(log, record) && !About(change, record.id) {
      var k :| Stays(log, k, record);
      StaysLonger(log, change, k, record);
    }
  }

  // Taking out what is about an id keeps the rest in order.
  lemma {:induction false} Keep(pending: seq<Record>, log: seq<Change>, at: seq<nat>, change: Change, id: Id)
    returns (left: seq<nat>)
    requires |at| == |pending| && About(change, id)
    requires forall i :: 0 <= i < |pending| ==> Stays(log, at[i], pending[i])
    requires forall i, j :: 0 <= i < j < |at| ==> at[i] < at[j]
    ensures |left| == |Without(pending, id)|
    ensures forall i :: 0 <= i < |left| ==> Stays(log + [change], left[i], Without(pending, id)[i])
    ensures forall i, j :: 0 <= i < j < |left| ==> left[i] < left[j]
    ensures forall i :: 0 <= i < |left| ==> left[i] in at
  {
    hide Stays;
    if pending == [] {
      left := [];
    } else {
      var n := |pending| - 1;
      assert forall i :: 0 <= i < n ==> pending[..n][i] == pending[i] && at[..n][i] == at[i];
      left := Keep(pending[..n], log, at[..n], change, id);
      if pending[n].id != id {
        StaysLonger(log, change, at[n], pending[n]);
        AboutOne(change, id, pending[n].id);
        assert forall i :: 0 <= i < |left| ==> left[i] in at[..n];
        left := left + [at[n]];
      }
    }
  }

  lemma AboutOne(change: Change, id: Id, other: Id)
    requires About(change, id) && other != id
    ensures !About(change, other)
  {
  }

  lemma RemoveReflects(pending: seq<Record>, log: seq<Change>, at: seq<nat>, change: Change, id: Id)
    returns (left: seq<nat>)
    requires Reflects(pending, log, at)
    requires About(change, id) && !change.Append?
    ensures Reflects(Without(pending, id), log + [change], left)
  {
    WithoutMeans(pending, id);
    left := Keep(pending, log, at, change, id);
    hide Stays, About;
    forall r | InLog(log + [change], r)
      ensures r in Without(pending, id)
    {
      InLogLonger(log, change, r);
    }
  }

  lemma AppendReflects(pending: seq<Record>, log: seq<Change>, at: seq<nat>, record: Record) returns (left: seq<nat>)
    requires Reflects(pending, log, at)
    ensures Reflects(Without(pending, record.id) + [record], log + [Append(record)], left)
  {
    var change := Append(record);
    WithoutMeans(pending, record.id);
    var kept := Keep(pending, log, at, change, record.id);
    assert forall i :: 0 <= i < |kept| ==> kept[i] in at;
    assert forall i :: 0 <= i < |at| ==> at[i] < |log|;
    left := kept + [|log|];
    assert Stays(log + [change], |log|, record);
    hide Stays, About;
    forall r | InLog(log + [change], r)
      ensures r in Without(pending, record.id) + [record]
    {
      InLogLonger(log, change, r);
      if r.id == record.id {
        assert About(change, r.id);
      }
    }
  }

  lemma ReflectsDistinct(pending: seq<Record>, log: seq<Change>, at: seq<nat>)
    requires Reflects(pending, log, at)
    ensures DistinctIds(pending)
  {
  }

  function Appends(records: seq<Record>): (log: seq<Change>)
    ensures |log| == |records|
    ensures forall i :: 0 <= i < |log| ==> log[i] == Append(records[i])
  {
    seq(|records|, i requires 0 <= i < |records| => Append(records[i]))
  }

  lemma LoadReflects(records: seq<Record>) returns (at: seq<nat>)
    requires DistinctIds(records)
    ensures Reflects(records, Appends(records), at)
  {
    at := seq(|records|, i => i);
    var log := Appends(records);
    forall r | InLog(log, r)
      ensures r in records
    {
      var k: nat :| Stays(log, k, r);
      assert records[k] == r;
    }
  }

  class PendingList {
    var pending: seq<Record>
    ghost var log: seq<Change>
    ghost var at: seq<nat>

    // At most so many, none twice, and the list is what the changes so far make it: a
    // record is there exactly when nothing about its id followed its append, and the
    // order is that of the appends.
    ghost predicate Valid()
      reads this
    {
      |pending| <= MAX_PENDING && Reflects(pending, log, at)
    }

    constructor Load(records: seq<Record>)
      requires DistinctIds(records) && |records| <= MAX_PENDING
      ensures Valid() && pending == records && log == Appends(records)
    {
      pending := records;
      log := Appends(records);
      new;
      at := LoadReflects(records);
    }

    // The end of #consumeCapture.
    method Append(record: Record) returns (discarded: Option<Record>)
      requires Valid()
      modifies this
      ensures Valid() && DistinctIds(pending)
      ensures pending != [] && pending[|pending| - 1] == record
      ensures (if discarded.Some? then [discarded.value] else []) + pending
           == Without(old(pending), record.id) + [record]
      ensures discarded.Some? ==> |pending| == MAX_PENDING
      ensures log == old(log) + [Change.Append(record)]
                     + if discarded.Some? then [Drop(discarded.value.id)] else []
    {
      hide Reflects, DistinctIds, Without;
      at := AppendReflects(pending, log, at, record);
      log := log + [Change.Append(record)];
      var next := Without(pending, record.id) + [record];
      ReflectsDistinct(next, log, at);
      WithoutShorter(pending, record.id);
      pending := next;
      discarded := None;
      if |next| > MAX_PENDING {
        discarded := Some(next[0]);
        WithoutFirst(next);
        at := RemoveReflects(pending, log, at, Drop(next[0].id), next[0].id);
        log := log + [Drop(next[0].id)];
        pending := next[|next| - MAX_PENDING..];
        assert [next[0]] + next[1..] == next;
      }
      ReflectsDistinct(pending, log, at);
    }

    // The end of acknowledgeCapture.
    method Acknowledge(id: Id)
      requires Valid()
      modifies this
      ensures Valid() && pending == Without(old(pending), id)
      ensures log == old(log) + [Change.Acknowledge(id)]
    {
      hide Reflects;
      at := RemoveReflects(pending, log, at, Change.Acknowledge(id), id);
      log := log + [Change.Acknowledge(id)];
      pending := Without(pending, id);
    }
  }

  lemma WithoutShorter(pending: seq<Record>, id: Id)
    ensures |Without(pending, id)| <= |pending|
  {
  }
}

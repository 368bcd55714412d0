// What the operations of the capture store come to: an append and its eviction, a whole
// consumption, recovery and acknowledgement, and the directory a load leaves behind
// (apps/desktop/src/appSnapManager.ts).
module AppSnapOutcomes {
  import opened Wrappers
  import opened AppSnapPending
  import opened AppSnapStore

  // ---- An append and its eviction ----

  // The record whose files the consumer is about to delete, or is deleting.
  function Discarding(consumer: Consumer): seq<Record> {
    match consumer
    case DiscardingImage(r) => [r]
    case DiscardingMeta(r) => [r]
    case _ => []
  }

  // A new list of at most eight: the old one without the earlier record of this id and
  // with the new record last; what does not fit, from its front, is what is discarded.
  lemma AppendEvictsTheOldest(s: State, fault: bool)
    requires s.consumer.Appending? && |s.pending| <= MAX_PENDING
    ensures var t, r := ConsumeStep(s, fault), s.consumer.record;
            && Discarding(t.consumer) + t.pending == Without(s.pending, r.id) + [r]
            && (Discarding(t.consumer) == [] <==> |Without(s.pending, r.id)| < MAX_PENDING)
            && |t.pending| <= MAX_PENDING && (t.consumer.Quiet? || t.consumer.DiscardingImage?)
            && t.disk == s.disk && t.released == s.released
  {
    hide Without;
    var r := s.consumer.record;
    var next := Without(s.pending, r.id) + [r];
    if |next| > MAX_PENDING {
      assert next == [next[0]] + next[1..];
    }
  }

  // What Without is: the records of other ids, in their order.
  lemma {:induction false} WithoutConcatenates(a: seq<Record>, b: seq<Record>, id: Id)
    ensures Without(a + b, id) == Without(a, id) + Without(b, id)
  {
    if b == [] {
      assert a + b == a;
    } else {
      var all := a + b;
      assert all[..|all| - 1] == a + b[..|b| - 1] && all[|all| - 1] == b[|b| - 1];
      WithoutConcatenates(a, b[..|b| - 1], id);
    }
  }

  lemma WithoutOne(r: Record, id: Id)
    ensures Without([r], id) == if r.id == id then [] else [r]
  {
    assert [r][..0] == [];
  }

  // The record being discarded is not in the list.
  ghost predicate DiscardsUnlisted(s: State) {
    forall r :: r in Discarding(s.consumer) ==> !HasId(s.pending, r.id)
  }

  lemma StepDiscardsUnlisted(s: State, e: Event)
    requires Inv(s) && ListSafe(s) && DiscardsUnlisted(s)
    ensures DiscardsUnlisted(Step(s, e))
  {
    hide Safe, PairHolds, GoodHelper, GoodPair, Agree, Owned, LoadInv, ConsumerInv, AckInv, LoadStep;
    match e
    case ConsumeNext(fault) =>
      if s.consumer.Appending? {
        AppendEvictsTheOldest(s, fault);
        AppendIsDistinct(s, fault);
      }
    case AckNext(token, fault) =>
      if token in s.acks && s.acks[token].AckList? {
        WithoutHasFewer(s.pending, s.acks[token].id);
      }
    case LoadNext(id, now, fault, readFault) => LoadKeepsTheConsumer(s, id, now, fault, readFault);
    case _ =>
  }

  lemma WithoutHasFewer(records: seq<Record>, id: Id)
    ensures forall k :: HasId(Without(records, id), k) ==> HasId(records, k) && k != id
  {
    WithoutMeans(records, id);
    var kept := Without(records, id);
    forall k | HasId(kept, k)
      ensures HasId(records, k) && k != id
    {
      var i :| 0 <= i < |kept| && kept[i].id == k;
      assert kept[i] in records;
    }
  }

  lemma LoadKeepsTheConsumer(s: State, id: Id, now: int, fault: bool, readFault: bool)
    requires Exclusive(s.load, s.consumer, s.acks, s.pending)
    ensures LoadStep(s, id, now, fault, readFault).consumer == s.consumer
    ensures s.load.Loaded? ==> LoadStep(s, id, now, fault, readFault) == s
    ensures !s.load.Loaded? ==> Discarding(s.consumer) == []
  {
    hide GoodPair, GoodHelper, HasId, Sort, Newest;
  }

  lemma AppendIsDistinct(s: State, fault: bool)
    requires s.consumer.Appending? && AllSafe(s.disk, s.released, s.pending)
    ensures DiscardsUnlisted(ConsumeStep(s, fault)) && DistinctIds(ConsumeStep(s, fault).pending)
  {
    hide Safe, Without, Discarded, Appended;
    var t, r := ConsumeStep(s, fault), s.consumer.record;
    AppendEvictsTheOldest(s, fault);
    WithoutMeans(s.pending, r.id);
    WithoutDistinct(s.pending, r.id);
    var next := Without(s.pending, r.id) + [r];
    assert DistinctIds(next);
    if Discarding(t.consumer) != [] {
      assert t.pending == next[1..] && Discarding(t.consumer) == [next[0]];
    } else {
      assert t.pending == next;
    }
  }

  // Over every run: the files of a capture in the list are never the ones discarded.
  lemma {:induction false} RunDiscardsUnlisted(s: State, events: seq<Event>)
    requires Inv(s) && ListSafe(s) && DiscardsUnlisted(s)
    ensures DiscardsUnlisted(Run(s, events))
    decreases |events|
  {
    hide Inv, Step, ListSafe, DiscardsUnlisted;
    if events != [] {
      var rest, last := events[..|events| - 1], events[|events| - 1];
      RunDiscardsUnlisted(s, rest);
      RunKeeps(s, rest);
      RunListSafe(s, rest);
      StepDiscardsUnlisted(Run(s, rest), last);
    }
  }

  // ---- How things begin ----

  // A crash leaves the directory only, and the next start loads what it finds there: files
  // without metadata first, then the pairs and the helper files.
  lemma CrashLeavesTheDirectory(s: State)
    ensures var t := Step(s, Crash);
            && t.disk == s.disk && t.load.NotLoaded? && t.pending == [] && t.consumer.Quiet? && t.acks == map[]
            && var u := Step(t, BeginLoad);
               && u.disk == s.disk && u.load.Orphans? && u.known == s.used
               && (forall id :: id in u.load.todo <==> id in s.disk.image && id !in s.disk.meta)
               && u.load.entries.metas == s.disk.meta.Keys && u.load.entries.helpers == s.disk.helper.Keys
  {
  }

  // A message is read once the one before it is done, and waits for the load.
  lemma ConsumptionBegins(s: State, id: Id, capturedAt: int, fault: bool)
    requires s.consumer.Quiet?
    ensures Step(s, Consume(id, capturedAt)) == s.(consumer := Reading(id, capturedAt))
    ensures !s.load.Loaded? ==>
              var t := Step(s, Consume(id, capturedAt)); Step(t, ConsumeNext(fault)) == t
  {
  }

  // ---- A whole consumption ----

  // The same event n times.
  function Again(e: Event, n: nat): seq<Event> {
    if n == 0 then [] else Again(e, n - 1) + [e]
  }

  lemma RunAgain(s: State, e: Event, n: nat)
    ensures Run(s, Again(e, n)) == if n == 0 then s else Step(Run(s, Again(e, n - 1)), e)
  {
    hide Step;
    if n > 0 {
      assert Again(e, n)[..|Again(e, n)| - 1] == Again(e, n - 1);
    }
  }

  function Written(d: Disk, r: Record): Disk {
    RemoveHelper(WriteMeta(WriteImage(d, r), r), r.id, false)
  }

  lemma WrittenMeans(d: Disk, r: Record)
    requires ValidPng(r.bytes)
    ensures RecordHolds(Written(d, r), r)
    ensures Written(d, r).helper == d.helper - {r.id} && Written(d, r).image == d.image[r.id := r.bytes]
    ensures Written(d, r).meta.Keys == d.meta.Keys + {r.id}
    ensures forall k :: k != r.id && k in d.meta ==> Written(d, r).meta[k] == d.meta[k]
  {
  }

  lemma ConsumptionWrites(s: State, id: Id, capturedAt: int)
    requires s.load.Loaded? && s.consumer == Reading(id, capturedAt) && GoodHelper(s.disk, id)
    ensures var r := Record(id, capturedAt, s.disk.helper[id]);
            Run(s, Again(ConsumeNext(false), 4)) == s.(disk := Written(s.disk, r), consumer := Appending(r))
  {
    hide Without, Appended, Discarded, ValidPng, Run, Again, WriteImage, WriteMeta, RemoveHelper, RemoveMeta, RemoveImage;
    var next := ConsumeNext(false);
    RunAgain(s, next, 0);
    RunAgain(s, next, 1);
    RunAgain(s, next, 2);
    RunAgain(s, next, 3);
    RunAgain(s, next, 4);
  }

  // With a good helper file and no failing step, a captured message ends up last in the
  // list and as a pair with its time on disk, and the helper's file is gone.
  lemma ConsumptionAppends(s: State, id: Id, capturedAt: int)
    requires s.load.Loaded? && s.consumer == Reading(id, capturedAt) && GoodHelper(s.disk, id)
    requires |s.pending| <= MAX_PENDING
    ensures var t, r := Run(s, Again(ConsumeNext(false), 5)), Record(id, capturedAt, s.disk.helper[id]);
            && RecordHolds(t.disk, r) && t.disk.helper == s.disk.helper - {id}
            && t.disk.image == s.disk.image[id := r.bytes] && t.disk.meta.Keys == s.disk.meta.Keys + {id}
            && (forall k :: k != id && k in s.disk.meta ==> t.disk.meta[k] == s.disk.meta[k])
            && t.pending != [] && t.pending[|t.pending| - 1] == r
            && Discarding(t.consumer) + t.pending == Without(s.pending, id) + [r]
            && (t.consumer.Quiet? || t.consumer.DiscardingImage?)
  {
    ConsumptionWrites(s, id, capturedAt);
    var r := Record(id, capturedAt, s.disk.helper[id]);
    WrittenMeans(s.disk, r);
    hide Run, Again, Without, Written, ConsumeStep, RecordHolds;
    var written := s.(disk := Written(s.disk, r), consumer := Appending(r));
    RunAgain(s, ConsumeNext(false), 5);
    AppendEvictsTheOldest(written, false);
    var t := ConsumeStep(written, false);
    assert (Discarding(t.consumer) + t.pending)[|Discarding(t.consumer) + t.pending| - 1] == r;
    assert t.pending != [];
  }

  // And the files of the record that had to make room are deleted, those only.
  lemma DiscardDeletes(s: State)
    requires s.consumer.DiscardingImage?
    ensures var t, id := Run(s, Again(ConsumeNext(false), 2)), s.consumer.record.id;
            && t.consumer.Quiet? && t.pending == s.pending && t.disk.helper == s.disk.helper
            && t.disk.image == s.disk.image - {id} && t.disk.meta == s.disk.meta - {id}
  {
    hide Run, Again;
    RunAgain(s, ConsumeNext(false), 0);
    RunAgain(s, ConsumeNext(false), 1);
    RunAgain(s, ConsumeNext(false), 2);
  }

  // A consumption that fails before its pair is complete leaves the helper's file, the list
  // and everything else as it was, and no image of its own.
  lemma FailedConsumption(s: State)
    requires s.load.Loaded? && (s.consumer.Reading? || s.consumer.SavingImage?)
    ensures Step(s, ConsumeNext(true)) == s.(consumer := Quiet)
  {
  }

  lemma FailedMetadata(s: State)
    requires s.consumer.SavingMeta?
    ensures var t := Step(Step(s, ConsumeNext(true)), ConsumeNext(false));
            t == s.(disk := s.disk.(image := s.disk.image - {s.consumer.record.id}), consumer := Quiet)
  {
  }

  // ---- A whole recovery ----

  // A good helper file with no record, and no failing step: its capture is recorded with the
  // time of the load and is a pair on disk, and the helper's file is gone.
  lemma RecoveryCompletes(s: State, id: Id, now: int)
    requires s.load.Helpers? && s.load.save.NoSave? && id in s.load.todo && !HasId(s.load.records, id)
    requires GoodHelper(s.disk, id)
    ensures var t, r := Run(s, Again(LoadNext(id, now, false, false), 4)), Record(id, now, s.disk.helper[id]);
            && t.load == Helpers(s.load.todo - {id}, NoSave, s.load.entries, s.load.records + [r], s.load.failed)
            && RecordHolds(t.disk, r) && t.disk.helper == s.disk.helper - {id}
            && t.disk.image == s.disk.image[id := r.bytes] && t.disk.meta.Keys == s.disk.meta.Keys + {id}
  {
    hide HasId, ValidPng, Sort, Newest, Run, Again;
    var next := LoadNext(id, now, false, false);
    RunAgain(s, next, 0);
    RunAgain(s, next, 1);
    RunAgain(s, next, 2);
    RunAgain(s, next, 3);
    RunAgain(s, next, 4);
    var r := Record(id, now, s.disk.helper[id]);
    var a, b, c := Run(s, Again(next, 1)), Run(s, Again(next, 2)), Run(s, Again(next, 3));
    var l := s.load;
    assert a == s.(load := Helpers(l.todo - {id}, SaveImage(r), l.entries, l.records, l.failed));
    assert b.disk == WriteImage(s.disk, r) && b.load.save == SaveMeta(r);
    assert c.disk == WriteMeta(b.disk, r) && c.load.save == UnlinkHelper(id);
  }

  // ---- A whole acknowledgement ----

  // Acknowledging a listed capture, with no failing step: its pair is deleted and it leaves
  // the list; one that is not listed costs no file.
  lemma AcknowledgementCompletes(s: State, token: nat, id: Id)
    requires s.load.Loaded? && token !in s.acks
    ensures var listed := HasId(s.pending, id);
            var t := Run(Step(s, Event.Acknowledge(token, id)), Again(AckNext(token, false), if listed then 3 else 1));
            && t.acks == s.acks && t.pending == Without(s.pending, id) && !HasId(t.pending, id)
            && t.disk.helper == s.disk.helper
            && t.disk.image == (if listed then s.disk.image - {id} else s.disk.image)
            && t.disk.meta == (if listed then s.disk.meta - {id} else s.disk.meta)
  {
    hide HasId, Run, Again;
    var begun := Step(s, Event.Acknowledge(token, id));
    assert begun.acks - {token} == s.acks;
    RunAgain(begun, AckNext(token, false), 0);
    RunAgain(begun, AckNext(token, false), 1);
    RunAgain(begun, AckNext(token, false), 2);
    RunAgain(begun, AckNext(token, false), 3);
    if HasId(s.pending, id) {
      var a, b := Run(begun, Again(AckNext(token, false), 1)), Run(begun, Again(AckNext(token, false), 2));
      assert a.acks[token] == AckMeta(id);
      assert b.acks[token] == AckList(id) && b.acks - {token} == s.acks;
    }
    WithoutHasFewer(s.pending, id);
  }

  // An acknowledgement whose unlink fails leaves the capture in the list and its image, or
  // at least its metadata, where it is.
  lemma FailedAcknowledgement(s: State, token: nat)
    requires token in s.acks && !s.acks[token].AckList?
    ensures var t := Step(s, AckNext(token, true)); t == s.(acks := s.acks - {token})
  {
  }

  // ---- The directory a load leaves behind ----

  // What the load has still to deal with: every file is in a list of what is to be done, or
  // belongs to a record.
  ghost predicate Tidy(d: Disk, load: Load, known: set<Id>) {
    match load
    case Orphans(todo, e) =>
      && (forall id :: id in d.image ==> id in d.meta || id in todo)
      && (forall id :: id in d.helper && id in known ==> id in e.helpers)
    case Pairs(todo, drop, e, records) =>
      && (forall id :: id in d.image ==> id in todo || HasId(records, id) || drop == DropImage(id))
      && (forall id :: id in d.meta ==> id in todo || HasId(records, id) || (!drop.NoDrop? && drop.id == id))
      && (forall id :: id in d.helper && id in known ==> id in e.helpers)
    case Helpers(todo, save, e, records, failed) =>
      && !save.UndoImage?
      && (forall id :: id in d.image ==> HasId(records, id) || (save.SaveMeta? && save.record.id == id))
      && (forall id :: id in d.meta ==> HasId(records, id))
      && (forall id :: id in d.helper && id in known ==> id in todo || Saving(save, id) || save == UnlinkHelper(id))
    case Overflow(excess, imageGone, kept) =>
      && (imageGone ==> excess != [])
      && var left := if imageGone then excess[1..] else excess;
         && RecordsHold(d, left + kept)
         && (forall id :: id in d.image ==> HasId(left + kept, id))
         && (forall id :: id in d.meta ==> HasId(left + kept, id) || (imageGone && id == excess[0].id))
         && (imageGone ==> !HasId(left + kept, excess[0].id))
         && (forall id :: id in d.helper ==> id !in known)
    case _ => true
  }

  lemma OrphansTidy(s: State, k: Id)
    requires s.load.Orphans? && LoadInv(s.disk, s.load, s.released) && Tidy(s.disk, s.load, s.known)
    ensures var t := LoadOrphan(s, k, false); Tidy(t.disk, t.load, t.known)
  {
  }

  lemma PairsTidy(s: State, k: Id, readFault: bool)
    requires s.load.Pairs? && Tidy(s.disk, s.load, s.known)
    ensures var t := LoadPair(s, k, false, readFault); Tidy(t.disk, t.load, t.known)
  {
    hide GoodPair, HasId;
    var l := s.load;
    if l.drop.NoDrop? && k in l.todo && GoodPair(s.disk, k) {
      GoodPairIsDescribed(s.disk, k);
      var record := Record(k, s.disk.meta[k].capturedAt, s.disk.image[k]);
      forall id
        ensures HasId(l.records + [record], id) <==> HasId(l.records, id) || id == k
      {
        HasIdMore(l.records, record, id);
      }
    }
  }

  lemma HelpersTidy(s: State, k: Id, now: int, readFault: bool)
    requires s.load.Helpers? && s.load.save.NoSave? && s.load.todo != {} && Tidy(s.disk, s.load, s.known)
    ensures var t := LoadHelper(s, k, now, false, readFault); Tidy(t.disk, t.load, t.known)
  {
    hide GoodHelper, HasId;
  }

  lemma SavesTidy(s: State)
    requires s.load.Helpers? && !s.load.save.NoSave? && Tidy(s.disk, s.load, s.known)
    ensures var t := LoadSave(s, false); Tidy(t.disk, t.load, t.known)
  {
    hide HasId;
    if s.load.save.SaveMeta? {
      var records, r := s.load.records, s.load.save.record;
      forall id
        ensures HasId(records + [r], id) <==> HasId(records, id) || id == r.id
      {
        HasIdMore(records, r, id);
      }
    }
  }

  lemma SortedHold(d: Disk, records: seq<Record>)
    requires RecordsHold(d, records)
    ensures RecordsHold(d, Sort(records))
    ensures forall id :: HasId(Sort(records), id) <==> HasId(records, id)
  {
    hide RecordHolds;
    SortMeans(records);
    var sorted := Sort(records);
    forall i | 0 <= i < |sorted|
      ensures RecordHolds(d, sorted[i])
    {
      assert sorted[i] in records;
    }
    forall id
      ensures HasId(sorted, id) <==> HasId(records, id)
    {
      SameIds(records, sorted, id);
    }
  }

  // The sorted records, split into those to evict and those to keep.
  lemma OverflowTidy(s: State, k: Id, now: int, readFault: bool)
    requires s.load.Helpers? && s.load.save.NoSave? && s.load.todo == {} && Tidy(s.disk, s.load, s.known)
    requires RecordsHold(s.disk, s.load.records)
    ensures var t := LoadHelper(s, k, now, false, readFault); Tidy(t.disk, t.load, t.known)
  {
    hide RecordsHold, HasId, Sort;
    SortedHold(s.disk, s.load.records);
    var t := LoadHelper(s, k, now, false, readFault);
    assert t.load.excess + t.load.kept == Sort(s.load.records);
  }

  lemma EvictionTidy(s: State)
    requires s.load.Overflow? && Tidy(s.disk, s.load, s.known)
    ensures var t := LoadOverflow(s, false); Tidy(t.disk, t.load, t.known)
  {
    hide PairHolds;
    var l := s.load;
    if l.excess != [] {
      var id := l.excess[0].id;
      var left := l.excess[1..] + l.kept;
      if !l.imageGone {
        var all := l.excess + l.kept;
        assert all == [l.excess[0]] + left;
        assert forall i :: 0 <= i < |left| ==> left[i] == all[i + 1];
        assert forall i :: 0 <= i < |left| ==> left[i].id != all[0].id;
        assert !HasId(left, id);
        forall k
          ensures HasId(all, k) <==> k == id || HasId(left, k)
        {
          SplitFirst(all, left, k);
        }
      }
      assert RecordsHold(s.disk, left);
      hide RecordsHold, HasId;
      RecordsHoldRemoving(s.disk, left, id, false);
    }
  }

  lemma SplitFirst(all: seq<Record>, rest: seq<Record>, k: Id)
    requires all != [] && all[1..] == rest
    ensures HasId(all, k) <==> k == all[0].id || HasId(rest, k)
  {
    if HasId(rest, k) {
      var i :| 0 <= i < |rest| && rest[i].id == k;
      assert all[i + 1].id == k;
    }
    if HasId(all, k) {
      var i :| 0 <= i < |all| && all[i].id == k;
      assert i > 0 ==> rest[i - 1].id == k;
    }
  }

  lemma BeginTidy(s: State)
    requires s.load.NotLoaded?
    ensures Tidy(Begin(s).disk, Begin(s).load, Begin(s).known)
  {
  }

  lemma ShotTidy(d: Disk, load: Load, known: set<Id>, k: Id, bytes: Bytes)
    requires Tidy(d, load, known) && k !in known && k !in d.helper
    ensures Tidy(d.(helper := d.helper[k := bytes]), load, known)
  {
    hide ValidPng, Describes, HasId, Saving, DistinctIds;
  }

  lemma StepTidy(s: State, e: Event)
    requires Inv(s) && Tidy(s.disk, s.load, s.known) && (e.LoadNext? ==> !e.fault)
    ensures Tidy(Step(s, e).disk, Step(s, e).load, Step(s, e).known)
  {
    hide ConsumerInv, AckInv, Agree, LoadOrphan, LoadPair, LoadHelper, LoadSave, LoadOverflow, Begin, ConsumeStep, AckStep,
      Tidy, RecordsHold;
    match e
    case Shot(k, bytes) => if k !in s.used { ShotTidy(s.disk, s.load, s.known, k, bytes); }
    case Crash => NothingUnderWayIsTidy(s.disk, s.known);
    case BeginLoad => if s.load.NotLoaded? { BeginTidy(s); }
    case LoadNext(k, now, fault, readFault) =>
      match s.load {
        case Orphans(_, _) => OrphansTidy(s, k);
        case Pairs(_, _, _, _) => PairsTidy(s, k, readFault);
        case Helpers(todo, save, _, _, _) =>
          if !save.NoSave? {
            SavesTidy(s);
          } else if todo == {} {
            OverflowTidy(s, k, now, readFault);
          } else {
            HelpersTidy(s, k, now, readFault);
          }
        case Overflow(_, _, _) => EvictionTidy(s);
        case _ =>
      }
    case ConsumeNext(fault) =>
      ConsumeOnlyLoaded(s, fault);
      ConsumeKeepsKnown(s, fault);
      NothingUnderWayIsTidy(ConsumeStep(s, fault).disk, s.known);
    case AckNext(token, fault) =>
      if token in s.acks {
        AckKeepsLoad(s, token, fault);
        NothingUnderWayIsTidy(AckStep(s, token, fault).disk, AckStep(s, token, fault).known);
      }
    case _ =>
  }

  lemma NothingUnderWayIsTidy(d: Disk, known: set<Id>)
    ensures Tidy(d, NotLoaded, known) && Tidy(d, Loaded, known)
  {
  }

  // In a run whose loads have no failing file step, whatever fails to be read.
  ghost predicate LoadsWrite(events: seq<Event>) {
    forall i :: 0 <= i < |events| && events[i].LoadNext? ==> !events[i].fault
  }

  lemma {:induction false} RunTidy(s: State, events: seq<Event>)
    requires Inv(s) && Tidy(s.disk, s.load, s.known) && LoadsWrite(events)
    ensures Tidy(Run(s, events).disk, Run(s, events).load, Run(s, events).known)
    decreases |events|
  {
    hide Inv, Step, Tidy;
    if events != [] {
      var rest, last := events[..|events| - 1], events[|events| - 1];
      assert forall i :: 0 <= i < |rest| ==> rest[i] == events[i];
      RunTidy(s, rest);
      RunKeeps(s, rest);
      StepTidy(Run(s, rest), last);
    }
  }

  // Such a load ends with exactly the pairs of its list on disk, each with its contents and
  // time, and no helper file that was there when it began: orphans, broken pairs, unreadable
  // helper files and what did not fit are gone.
  lemma LoadLeavesTheList(s: State, events: seq<Event>, id: Id, now: int)
    requires Inv(s) && Tidy(s.disk, s.load, s.known) && LoadsWrite(events)
    requires Run(s, events).load.Overflow? && Run(s, events).load.excess == []
    ensures var t := Step(Run(s, events), LoadNext(id, now, false, false));
            && t.load.Loaded? && RecordsHold(t.disk, t.pending)
            && (forall k :: k in t.disk.image <==> HasId(t.pending, k))
            && (forall k :: k in t.disk.meta <==> HasId(t.pending, k))
            && (forall k :: k in t.disk.helper ==> k !in t.known)
  {
    RunTidy(s, events);
    var o := Run(s, events);
    var t := Step(o, LoadNext(id, now, false, false));
    assert o.load.excess + o.load.kept == o.load.kept;
    assert t.pending == o.load.kept;
    hide Inv, Run, PairHolds;
    forall k | HasId(t.pending, k)
      ensures k in t.disk.image && k in t.disk.meta
    {
      var bytes := HasRecord(t.disk, t.pending, k);
      PairIsThere(t.disk, k, bytes);
    }
  }

  lemma PairIsThere(d: Disk, id: Id, bytes: Bytes)
    requires PairHolds(d, id, bytes)
    ensures id in d.image && id in d.meta
  {
  }

  // ---- A load ends ----

  // How far the load is from its end: the pass, the entries it has left, the steps of one entry.
  datatype Distance = Distance(pass: nat, entries: nat, steps: nat)

  function ToGo(load: Load): Distance {
    match load
    case Orphans(todo, _) => Distance(4, |todo|, 0)
    case Pairs(todo, drop, _, _) => Distance(3, |todo|, if drop.DropImage? then 2 else if drop.DropMeta? then 1 else 0)
    case Helpers(todo, save, _, _, _) =>
      Distance(2, |todo|, if save.SaveImage? then 3 else if save.SaveMeta? then 2 else if save.NoSave? then 0 else 1)
    case Overflow(excess, imageGone, _) => Distance(1, |excess|, if imageGone then 0 else 1)
    case _ => Distance(0, 0, 0)
  }

  predicate Closer(a: Distance, b: Distance) {
    || a.pass < b.pass
    || (a.pass == b.pass && (a.entries < b.entries || (a.entries == b.entries && a.steps < b.steps)))
  }

  // The entry the next step is about, where the step has one to choose.
  predicate Chooses(load: Load, id: Id) {
    match load
    case Orphans(todo, _) => todo == {} || id in todo
    case Pairs(todo, drop, _, _) => todo == {} || id in todo || !drop.NoDrop?
    case Helpers(todo, save, _, _, _) => todo == {} || id in todo || !save.NoSave?
    case _ => true
  }

  lemma PairAdvances(s: State, id: Id, fault: bool, readFault: bool)
    requires s.load.Pairs? && Chooses(s.load, id)
    ensures Closer(ToGo(LoadPair(s, id, fault, readFault).load), ToGo(s.load))
  {
    hide GoodPair, RemoveImage, RemoveMeta;
  }

  lemma HelperAdvances(s: State, id: Id, now: int, fault: bool, readFault: bool)
    requires s.load.Helpers? && s.load.save.NoSave? && Chooses(s.load, id)
    ensures Closer(ToGo(LoadHelper(s, id, now, fault, readFault).load), ToGo(s.load))
  {
    hide GoodHelper, HasId, Sort, Newest, RemoveHelper;
  }

  lemma SaveAdvances(s: State, fault: bool)
    requires s.load.Helpers? && !s.load.save.NoSave?
    ensures Closer(ToGo(LoadSave(s, fault).load), ToGo(s.load))
  {
    hide RemoveImage, RemoveHelper, WriteImage, WriteMeta;
  }

  lemma OverflowAdvances(s: State, fault: bool)
    requires s.load.Overflow?
    ensures Closer(ToGo(LoadOverflow(s, fault).load), ToGo(s.load))
  {
    hide RemoveImage, RemoveMeta;
  }

  // Every step of a load, whatever fails, brings it closer to its end.
  lemma LoadAdvances(s: State, id: Id, now: int, fault: bool, readFault: bool)
    requires !s.load.NotLoaded? && !s.load.Loaded? && Chooses(s.load, id)
    ensures Closer(ToGo(Step(s, LoadNext(id, now, fault, readFault)).load), ToGo(s.load))
  {
    hide LoadPair, LoadHelper, LoadSave, LoadOverflow, RemoveImage;
    match s.load
    case Pairs(_, _, _, _) => PairAdvances(s, id, fault, readFault);
    case Helpers(_, save, _, _, _) =>
      if save.NoSave? {
        HelperAdvances(s, id, now, fault, readFault);
      } else {
        SaveAdvances(s, fault);
      }
    case Overflow(_, _, _) => OverflowAdvances(s, fault);
    case _ =>
  }
}

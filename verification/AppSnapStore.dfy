// The crash-safe store of captures (apps/desktop/src/appSnapManager.ts).
//
// The helper writes appsnap-<id>.png; the manager copies it to the pair
// pending-<sha256 of id>.png and .json, then deletes it. A startup loads what it finds.
// Every await is one step of the machine below, an acknowledgement may come in between
// any two steps of a consumption, any file step may fail, and a crash may come at any
// point. The directory is three maps by capture id.
module AppSnapStore {
  import opened Wrappers
  import opened AppSnapPending

  const MAX_IMAGE_BYTES: nat := 10 * 1024 * 1024

  const PNG_SIGNATURE: Bytes := [0x89, 0x50, 0x4e, 0x47, 0x0d, 0x0a, 0x1a, 0x0a]

  // readValidatedPendingPng
  predicate ValidPng(bytes: Bytes) {
    0 < |bytes| <= MAX_IMAGE_BYTES && PNG_SIGNATURE <= bytes
  }

  // The signature, and at most ten megabytes.
  lemma PngLimits(rest: Bytes)
    ensures ValidPng(PNG_SIGNATURE + rest) <==> |rest| <= 10 * 1024 * 1024 - 8
    ensures !ValidPng([]) && (|rest| > 0 && rest[0] != 0x89 ==> !ValidPng(rest))
  {
  }

  datatype Meta = Stored(id: Id, capturedAt: int, sizeBytes: int) | Unreadable

  datatype Disk = Disk(helper: map<Id, Bytes>, image: map<Id, Bytes>, meta: map<Id, Meta>)

  predicate Describes(meta: Meta, id: Id, bytes: Bytes) {
    meta.Stored? && meta.id == id && meta.sizeBytes == |bytes|
  }

  predicate HelperHolds(d: Disk, id: Id, bytes: Bytes) {
    id in d.helper && d.helper[id] == bytes && ValidPng(bytes)
  }

  predicate PairHolds(d: Disk, id: Id, bytes: Bytes) {
    id in d.image && d.image[id] == bytes && ValidPng(bytes) && id in d.meta && Describes(d.meta[id], id, bytes)
  }

  // The capture is safe on disk: the helper's file or the pair.
  predicate Holds(d: Disk, id: Id, bytes: Bytes) {
    HelperHolds(d, id, bytes) || PairHolds(d, id, bytes)
  }

  predicate GoodHelper(d: Disk, id: Id) {
    id in d.helper && HelperHolds(d, id, d.helper[id])
  }

  predicate GoodPair(d: Disk, id: Id) {
    id in d.image && PairHolds(d, id, d.image[id])
  }

  predicate Durable(d: Disk, id: Id) {
    GoodHelper(d, id) || GoodPair(d, id)
  }

  // ---- What the manager is doing ----

  // What readdir found.
  datatype Entries = Entries(metas: set<Id>, helpers: set<Id>)

  datatype Drop = NoDrop | DropImage(id: Id) | DropMeta(id: Id)

  datatype Save = NoSave | SaveImage(record: Record) | SaveMeta(record: Record) | UndoImage(record: Record)
                | UnlinkHelper(id: Id)

  // #loadPendingCaptures: images without metadata, pairs, helper files, then the overflow.
  datatype Load =
    | NotLoaded
    | Orphans(todo: set<Id>, entries: Entries)
    | Pairs(todo: set<Id>, drop: Drop, entries: Entries, records: seq<Record>)
    | Helpers(todo: set<Id>, save: Save, entries: Entries, records: seq<Record>, failed: set<Id>)
    | Overflow(excess: seq<Record>, imageGone: bool, kept: seq<Record>)
    | Loaded

  // #consumeCapture; the queue lets only one run at a time.
  datatype Consumer =
    | Quiet
    | Reading(id: Id, capturedAt: int)
    | SavingImage(record: Record)
    | SavingMeta(record: Record)
    | Undoing(record: Record)
    | Unlinking(record: Record)
    | Appending(record: Record)
    | DiscardingImage(record: Record)
    | DiscardingMeta(record: Record)

  // acknowledgeCapture, after it found a record, and at its last step.
  datatype Ack = AckImage(id: Id) | AckMeta(id: Id) | AckList(id: Id)

  // released: captures whose image an acknowledgement or an eviction has deleted.
  // used: every id the helper has used; known: those used when the last load began.
  datatype State = State(disk: Disk, load: Load, pending: seq<Record>, consumer: Consumer, acks: map<nat, Ack>,
                         released: set<Id>, used: set<Id>, known: set<Id>)

  datatype Event =
    | Shot(id: Id, bytes: Bytes)
    | Crash
    | BeginLoad
    | LoadNext(id: Id, now: int, fault: bool, readFault: bool)
    | Consume(id: Id, capturedAt: int)
    | ConsumeNext(fault: bool)
    | Acknowledge(token: nat, id: Id)
    | AckNext(token: nat, fault: bool)
    | DisposeManager

  // ---- File steps; a failing one changes nothing ----

  function RemoveHelper(d: Disk, id: Id, fault: bool): Disk {
    if fault then d else d.(helper := d.helper - {id})
  }

  function RemoveImage(d: Disk, id: Id, fault: bool): Disk {
    if fault then d else d.(image := d.image - {id})
  }

  function RemoveMeta(d: Disk, id: Id, fault: bool): Disk {
    if fault then d else d.(meta := d.meta - {id})
  }

  function WriteImage(d: Disk, r: Record): Disk {
    d.(image := d.image[r.id := r.bytes])
  }

  function WriteMeta(d: Disk, r: Record): Disk {
    d.(meta := d.meta[r.id := Stored(r.id, r.capturedAt, |r.bytes|)])
  }

  // ---- Loading ----

  function Begin(s: State): State {
    s.(load := Orphans(s.disk.image.Keys - s.disk.meta.Keys, Entries(s.disk.meta.Keys, s.disk.helper.Keys)),
       known := s.used)
  }

  function LoadOrphan(s: State, id: Id, fault: bool): State
    requires s.load.Orphans?
  {
    var l := s.load;
    if l.todo == {} then s.(load := Pairs(l.entries.metas, NoDrop, l.entries, []))
    else if id !in l.todo then s
    else s.(disk := RemoveImage(s.disk, id, fault), load := Orphans(l.todo - {id}, l.entries))
  }

  function LoadPair(s: State, id: Id, fault: bool, readFault: bool): State
    requires s.load.Pairs?
  {
    var l := s.load;
    match l.drop
    case DropImage(k) => s.(disk := RemoveImage(s.disk, k, fault), load := Pairs(l.todo, DropMeta(k), l.entries, l.records))
    case DropMeta(k) => s.(disk := RemoveMeta(s.disk, k, fault), load := Pairs(l.todo, NoDrop, l.entries, l.records))
    case NoDrop =>
      if l.todo == {} then s.(load := Helpers(l.entries.helpers, NoSave, l.entries, l.records, {}))
      else if id !in l.todo then s
      else if GoodPair(s.disk, id) && !readFault then
        var record := Record(id, s.disk.meta[id].capturedAt, s.disk.image[id]);
        s.(load := Pairs(l.todo - {id}, NoDrop, l.entries, l.records + [record]))
      else s.(load := Pairs(l.todo - {id}, DropImage(id), l.entries, l.records))
  }

  function LoadHelper(s: State, id: Id, now: int, fault: bool, readFault: bool): State
    requires s.load.Helpers? && s.load.save.NoSave?
  {
    var l := s.load;
    if l.todo == {} then
      var sorted := Sort(l.records);
      var excess := if |sorted| > MAX_PENDING then |sorted| - MAX_PENDING else 0;
      s.(load := Overflow(sorted[..excess], false, Newest(sorted)))
    else if id !in l.todo then s
    else if HasId(l.records, id) || !GoodHelper(s.disk, id) || readFault then
      s.(disk := RemoveHelper(s.disk, id, fault),
         load := Helpers(l.todo - {id}, NoSave, l.entries, l.records, l.failed))
    else
      var record := Record(id, now, s.disk.helper[id]);
      s.(load := Helpers(l.todo - {id}, SaveImage(record), l.entries, l.records, l.failed))
  }

  function LoadSave(s: State, fault: bool): State
    requires s.load.Helpers? && !s.load.save.NoSave?
  {
    var l := s.load;
    match l.save
    case SaveImage(r) =>
      if fault then s.(load := Helpers(l.todo, NoSave, l.entries, l.records, l.failed + {r.id}))
      else s.(disk := WriteImage(s.disk, r), load := Helpers(l.todo, SaveMeta(r), l.entries, l.records, l.failed))
    case SaveMeta(r) =>
      if fault then s.(load := Helpers(l.todo, UndoImage(r), l.entries, l.records, l.failed))
      else s.(disk := WriteMeta(s.disk, r),
                load := Helpers(l.todo, UnlinkHelper(r.id), l.entries, l.records + [r], l.failed))
    case UndoImage(r) =>
      s.(disk := RemoveImage(s.disk, r.id, fault), load := Helpers(l.todo, NoSave, l.entries, l.records, l.failed + {r.id}))
    case UnlinkHelper(k) =>
      s.(disk := RemoveHelper(s.disk, k, fault), load := Helpers(l.todo, NoSave, l.entries, l.records, l.failed))
    case NoSave => s
  }

  function LoadOverflow(s: State, fault: bool): State
    requires s.load.Overflow?
  {
    var l := s.load;
    if l.excess == [] then s.(load := Loaded, pending := l.kept)
    else
      var r := l.excess[0];
      if l.imageGone then
        s.(disk := RemoveMeta(s.disk, r.id, fault), load := Overflow(l.excess[1..], false, l.kept))
      else if fault then s.(load := Overflow(l.excess[1..], false, l.kept))
      else
        s.(disk := RemoveImage(s.disk, r.id, false), released := s.released + {r.id}, load := Overflow(l.excess, true, l.kept))
  }

  function LoadStep(s: State, id: Id, now: int, fault: bool, readFault: bool): State {
    match s.load
    case Orphans(_, _) => LoadOrphan(s, id, fault)
    case Pairs(_, _, _, _) => LoadPair(s, id, fault, readFault)
    case Helpers(_, save, _, _, _) =>
      if save.NoSave? then LoadHelper(s, id, now, fault, readFault) else LoadSave(s, fault)
    case Overflow(_, _, _) => LoadOverflow(s, fault)
    case NotLoaded => s
    case Loaded => s
  }

  // ---- Consuming a captured message ----

  function ConsumeStep(s: State, fault: bool): State {
    match s.consumer
    case Quiet => s
    case Reading(id, capturedAt) =>
      if !s.load.Loaded? then s
      else if GoodHelper(s.disk, id) && !fault then
        s.(consumer := SavingImage(Record(id, capturedAt, s.disk.helper[id])))
      else s.(consumer := Quiet)
    case SavingImage(r) =>
      if fault then s.(consumer := Quiet)
      else s.(disk := WriteImage(s.disk, r), consumer := SavingMeta(r))
    case SavingMeta(r) =>
      if fault then s.(consumer := Undoing(r))
      else s.(disk := WriteMeta(s.disk, r), consumer := Unlinking(r))
    case Undoing(r) => s.(disk := RemoveImage(s.disk, r.id, fault), consumer := Quiet)
    case Unlinking(r) => s.(disk := RemoveHelper(s.disk, r.id, fault), consumer := Appending(r))
    case Appending(r) =>
      var discarded := Discarded(s.pending, r);
      s.(pending := Appended(s.pending, r),
         consumer := if discarded.Some? then DiscardingImage(discarded.value) else Quiet)
    case DiscardingImage(r) =>
      if fault then s.(consumer := Quiet)
      else s.(disk := RemoveImage(s.disk, r.id, false), released := s.released + {r.id}, consumer := DiscardingMeta(r))
    case DiscardingMeta(r) => s.(disk := RemoveMeta(s.disk, r.id, fault), consumer := Quiet)
  }

  // ---- Acknowledging ----

  function AckStep(s: State, token: nat, fault: bool): State
    requires token in s.acks
  {
    match s.acks[token]
    case AckImage(id) =>
      if fault then s.(acks := s.acks - {token})
      else
        s.(disk := RemoveImage(s.disk, id, false), released := s.released + {id}, acks := s.acks[token := AckMeta(id)])
    case AckMeta(id) =>
      if fault then s.(acks := s.acks - {token})
      else s.(disk := RemoveMeta(s.disk, id, false), acks := s.acks[token := AckList(id)])
    case AckList(id) => s.(pending := Without(s.pending, id), acks := s.acks - {token})
  }

  function Step(s: State, e: Event): State {
    match e
    case Shot(id, bytes) =>
      if id in s.used then s else s.(disk := s.disk.(helper := s.disk.helper[id := bytes]), used := s.used + {id})
    case Crash => s.(load := NotLoaded, pending := [], consumer := Quiet, acks := map[])
    case BeginLoad => if s.load.NotLoaded? then Begin(s) else s
    case LoadNext(id, now, fault, readFault) => LoadStep(s, id, now, fault, readFault)
    case Consume(id, capturedAt) => if s.consumer.Quiet? then s.(consumer := Reading(id, capturedAt)) else s
    case ConsumeNext(fault) => ConsumeStep(s, fault)
    case Acknowledge(token, id) =>
      if s.load.Loaded? && token !in s.acks then
        s.(acks := s.acks[token := if HasId(s.pending, id) then AckImage(id) else AckList(id)])
      else s
    case AckNext(token, fault) => if token in s.acks then AckStep(s, token, fault) else s
    case DisposeManager => s.(pending := [])
  }

  function Run(s: State, events: seq<Event>): State
    decreases |events|
  {
    if events == [] then s else Step(Run(s, events[..|events| - 1]), events[|events| - 1])
  }

  // A first start on any directory whatsoever.
  function Boot(disk: Disk): State {
    State(disk, NotLoaded, [], Quiet, map[], {}, disk.helper.Keys + disk.image.Keys + disk.meta.Keys, {})
  }

  // ---- Invariants ----

  // No file has an id the helper could still use.
  ghost predicate Owned(d: Disk, used: set<Id>) {
    d.helper.Keys <= used && d.image.Keys <= used && d.meta.Keys <= used
  }

  // Where a capture is there twice, both are the same.
  ghost predicate Agree(d: Disk) {
    forall id :: GoodHelper(d, id) && GoodPair(d, id) ==> d.helper[id] == d.image[id]
  }

  // Until the load is complete nothing else touches files or the list.
  ghost predicate Exclusive(load: Load, consumer: Consumer, acks: map<nat, Ack>, pending: seq<Record>) {
    !load.Loaded? ==> (consumer.Quiet? || consumer.Reading?) && acks == map[] && pending == []
  }

  // The pair of a record, with its contents and its time.
  predicate RecordHolds(d: Disk, r: Record) {
    PairHolds(d, r.id, r.bytes) && d.meta[r.id].capturedAt == r.capturedAt
  }

  ghost predicate RecordsHold(d: Disk, records: seq<Record>) {
    DistinctIds(records) && forall i :: 0 <= i < |records| ==> RecordHolds(d, records[i])
  }

  ghost predicate SaveInv(d: Disk, save: Save, records: seq<Record>) {
    match save
    case NoSave => true
    case SaveImage(r) => HelperHolds(d, r.id, r.bytes) && !HasId(records, r.id)
    case SaveMeta(r) =>
      HelperHolds(d, r.id, r.bytes) && !HasId(records, r.id) && r.id in d.image && d.image[r.id] == r.bytes
    case UndoImage(r) => HelperHolds(d, r.id, r.bytes) && !HasId(records, r.id)
    case UnlinkHelper(id) => HasId(records, id)
  }

  ghost predicate LoadInv(d: Disk, load: Load, released: set<Id>) {
    match load
    case NotLoaded => true
    case Orphans(todo, entries) => todo !! d.meta.Keys && entries.metas == d.meta.Keys
    case Pairs(todo, drop, entries, records) =>
      && RecordsHold(d, records)
      && (forall i :: 0 <= i < |records| ==> records[i].id !in todo)
      && (!drop.NoDrop? ==> !HasId(records, drop.id))
    case Helpers(todo, save, entries, records, failed) => RecordsHold(d, records) && SaveInv(d, save, records)
    case Overflow(excess, imageGone, kept) => imageGone ==> excess != [] && excess[0].id in released
    case Loaded => true
  }

  ghost predicate ConsumerInv(d: Disk, consumer: Consumer, released: set<Id>) {
    match consumer
    case SavingImage(r) => HelperHolds(d, r.id, r.bytes)
    case SavingMeta(r) =>
      HelperHolds(d, r.id, r.bytes) && if r.id in d.image then d.image[r.id] == r.bytes else r.id in released
    case Undoing(r) => HelperHolds(d, r.id, r.bytes)
    case Unlinking(r) => PairHolds(d, r.id, r.bytes) || r.id in released
    case DiscardingMeta(r) => r.id in released
    case _ => true
  }

  ghost predicate AckInv(acks: map<nat, Ack>, released: set<Id>) {
    forall t :: t in acks && acks[t].AckMeta? ==> acks[t].id in released
  }

  ghost predicate Inv(s: State) {
    && s.known <= s.used
    && Owned(s.disk, s.used)
    && Agree(s.disk)
    && Exclusive(s.load, s.consumer, s.acks, s.pending)
    && LoadInv(s.disk, s.load, s.released)
    && ConsumerInv(s.disk, s.consumer, s.released)
    && AckInv(s.acks, s.released)
  }

  // ---- Single file steps ----

  lemma RemovingHelper(d: Disk, k: Id, fault: bool, id: Id, bytes: Bytes)
    ensures var e := RemoveHelper(d, k, fault);
            && (PairHolds(e, id, bytes) <==> PairHolds(d, id, bytes))
            && (HelperHolds(e, id, bytes) ==> HelperHolds(d, id, bytes))
            && (id != k || fault ==> (HelperHolds(e, id, bytes) <==> HelperHolds(d, id, bytes)))
  {
  }

  lemma RemovingImage(d: Disk, k: Id, fault: bool, id: Id, bytes: Bytes)
    ensures var e := RemoveImage(d, k, fault);
            && (HelperHolds(e, id, bytes) <==> HelperHolds(d, id, bytes))
            && (PairHolds(e, id, bytes) ==> PairHolds(d, id, bytes))
            && (id != k || fault ==> (PairHolds(e, id, bytes) <==> PairHolds(d, id, bytes)))
  {
  }

  lemma RemovingMeta(d: Disk, k: Id, fault: bool, id: Id, bytes: Bytes)
    ensures var e := RemoveMeta(d, k, fault);
            && (HelperHolds(e, id, bytes) <==> HelperHolds(d, id, bytes))
            && (PairHolds(e, id, bytes) ==> PairHolds(d, id, bytes))
            && (id != k || fault ==> (PairHolds(e, id, bytes) <==> PairHolds(d, id, bytes)))
  {
  }

  lemma WritingImage(d: Disk, r: Record, id: Id, bytes: Bytes)
    ensures var e := WriteImage(d, r);
            && (HelperHolds(e, id, bytes) <==> HelperHolds(d, id, bytes))
            && (id != r.id ==> (PairHolds(e, id, bytes) <==> PairHolds(d, id, bytes)))
            && (PairHolds(e, r.id, bytes) ==> bytes == r.bytes)
  {
  }

  lemma WritingMeta(d: Disk, r: Record, id: Id, bytes: Bytes)
    ensures var e := WriteMeta(d, r);
            && (HelperHolds(e, id, bytes) <==> HelperHolds(d, id, bytes))
            && (id != r.id ==> (PairHolds(e, id, bytes) <==> PairHolds(d, id, bytes)))
            && (PairHolds(e, r.id, bytes) ==> r.id in d.image && d.image[r.id] == bytes)
            && (r.id in d.image && d.image[r.id] == r.bytes && ValidPng(r.bytes) ==> PairHolds(e, r.id, r.bytes))
  {
  }

  // ---- Failing reads ----

  // The load fails to read a good pair, or a good helper file it has no record for.
  predicate FailsAGoodRead(s: State, e: Event) {
    && e.LoadNext? && e.readFault
    && match s.load
       case Pairs(todo, drop, _, _) => drop.NoDrop? && e.id in todo && GoodPair(s.disk, e.id)
       case Helpers(todo, save, _, records, _) =>
         save.NoSave? && e.id in todo && !HasId(records, e.id) && GoodHelper(s.disk, e.id)
       case _ => false
  }

  function Heard(e: Event): Event {
    if e.LoadNext? then e.(readFault := false) else e
  }

  ghost predicate GoodReads(s: State, events: seq<Event>) {
    forall i :: 0 <= i < |events| ==> !FailsAGoodRead(Run(s, events[..i]), events[i])
  }

  // Any other failing read changes nothing: what cannot be read is broken, or not wanted.
  lemma OtherReadsMayFail(s: State, e: Event)
    requires !FailsAGoodRead(s, e)
    ensures Step(s, e) == Step(s, Heard(e))
  {
    hide GoodPair, GoodHelper, HasId, LoadSave, LoadOrphan, LoadOverflow, RemoveHelper, Sort, Newest;
  }

  // Of a capture of which nothing else is left on disk, the load fails to read the pair,
  // and will take it for a broken one.
  predicate MisreadsPair(s: State, e: Event, id: Id) {
    && FailsAGoodRead(s, e) && s.load.Pairs?
    && e.id == id && !GoodHelper(s.disk, id)
  }

  // Of such a capture the load fails to read the helper's file, and deletes it.
  predicate MisreadsHelper(s: State, e: Event, id: Id) {
    && FailsAGoodRead(s, e) && s.load.Helpers?
    && e.id == id && !GoodPair(s.disk, id) && !e.fault
  }

  ghost predicate Misread(s: State, events: seq<Event>, id: Id) {
    exists i :: 0 <= i < |events|
                && (MisreadsPair(Run(s, events[..i]), events[i], id) || MisreadsHelper(Run(s, events[..i]), events[i], id))
  }

  // The unlink by which a capture is lost.
  predicate Loses(s: State, e: Event, id: Id) {
    || MisreadsHelper(s, e, id)
    || (e.LoadNext? && !e.fault && s.load.Pairs? && !s.load.drop.NoDrop? && s.load.drop.id == id
        && GoodPair(s.disk, id) && !GoodHelper(s.disk, id))
  }

  // ---- What is lost ----

  // A pair being dropped is not a good one. Only a failing read makes it so.
  ghost predicate DropsBad(d: Disk, load: Load) {
    load.Pairs? && !load.drop.NoDrop? ==> !GoodPair(d, load.drop.id)
  }

  // ... or has a good helper file, for one capture.
  ghost predicate DropIsSafe(d: Disk, load: Load, id: Id) {
    load.Pairs? && !load.drop.NoDrop? && load.drop.id == id && GoodPair(d, id) ==> GoodHelper(d, id)
  }

  lemma AgreeAt(d: Disk, id: Id, a: Bytes, b: Bytes)
    requires Agree(d) && HelperHolds(d, id, a) && PairHolds(d, id, b)
    ensures a == b
  {
  }

  lemma HasRecord(d: Disk, records: seq<Record>, id: Id) returns (bytes: Bytes)
    requires RecordsHold(d, records) && HasId(records, id)
    ensures PairHolds(d, id, bytes)
  {
    var i :| 0 <= i < |records| && records[i].id == id;
    bytes := records[i].bytes;
  }

  lemma LoadOrphanLosesNothing(s: State, k: Id, fault: bool, id: Id, bytes: Bytes)
    requires s.load.Orphans? && LoadInv(s.disk, s.load, s.released) && Holds(s.disk, id, bytes)
    ensures Holds(LoadOrphan(s, k, fault).disk, id, bytes)
  {
    hide ValidPng, Describes;
    RemovingImage(s.disk, k, fault, id, bytes);
  }

  lemma LoadPairLoses(s: State, e: Event, id: Id, bytes: Bytes)
    requires s.load.Pairs? && Agree(s.disk) && Holds(s.disk, id, bytes) && e.LoadNext?
    ensures Holds(LoadPair(s, e.id, e.fault, e.readFault).disk, id, bytes) <==> !Loses(s, e, id)
  {
    hide ValidPng, Describes;
    if !s.load.drop.NoDrop? {
      RemovingImage(s.disk, s.load.drop.id, e.fault, id, bytes);
      RemovingMeta(s.disk, s.load.drop.id, e.fault, id, bytes);
    }
  }

  lemma LoadHelperLoses(s: State, e: Event, id: Id, bytes: Bytes)
    requires s.load.Helpers? && s.load.save.NoSave? && LoadInv(s.disk, s.load, s.released) && Agree(s.disk)
    requires Holds(s.disk, id, bytes) && e.LoadNext?
    ensures Holds(LoadHelper(s, e.id, e.now, e.fault, e.readFault).disk, id, bytes) <==> !Loses(s, e, id)
  {
    hide ValidPng, Describes, PairHolds, Agree, Sort, Newest;
    RemovingHelper(s.disk, e.id, e.fault, id, bytes);
    if PairHolds(s.disk, id, bytes) {
      PairIsGood(s.disk, id, bytes);
    }
    if GoodPair(s.disk, id) && HelperHolds(s.disk, id, bytes) {
      AgreeAt(s.disk, id, bytes, s.disk.image[id]);
    }
    if HasId(s.load.records, e.id) && e.id == id {
      var b := HasRecord(s.disk, s.load.records, e.id);
      if HelperHolds(s.disk, id, bytes) {
        AgreeAt(s.disk, id, bytes, b);
      }
    }
  }

  lemma LoadSaveLosesNothing(s: State, fault: bool, id: Id, bytes: Bytes)
    requires s.load.Helpers? && !s.load.save.NoSave? && LoadInv(s.disk, s.load, s.released) && Agree(s.disk)
    requires Holds(s.disk, id, bytes)
    ensures Holds(LoadSave(s, fault).disk, id, bytes)
  {
    hide ValidPng, Describes, PairHolds, HelperHolds, Agree, RecordsHold;
    match s.load.save
    case SaveImage(r) =>
      WritingImage(s.disk, r, id, bytes);
      SafeByHelper(s.disk, r.id, r.bytes, id, bytes);
    case SaveMeta(r) =>
      WritingMeta(s.disk, r, id, bytes);
      SafeByHelper(s.disk, r.id, r.bytes, id, bytes);
    case UndoImage(r) =>
      RemovingImage(s.disk, r.id, fault, id, bytes);
      SafeByHelper(s.disk, r.id, r.bytes, id, bytes);
    case UnlinkHelper(k) =>
      RemovingHelper(s.disk, k, fault, id, bytes);
      if k == id && HelperHolds(s.disk, id, bytes) {
        var b := HasRecord(s.disk, s.load.records, k);
        AgreeAt(s.disk, id, bytes, b);
      }
  }

  // While the helper's file is there, its capture does not depend on the pair.
  lemma SafeByHelper(d: Disk, k: Id, kept: Bytes, id: Id, bytes: Bytes)
    requires Agree(d) && HelperHolds(d, k, kept) && Holds(d, id, bytes)
    ensures id == k ==> HelperHolds(d, id, bytes) && bytes == kept
    ensures id != k ==> Holds(d, id, bytes)
  {
  }

  lemma LoadOverflowLosesNothing(s: State, fault: bool, id: Id, bytes: Bytes)
    requires s.load.Overflow? && LoadInv(s.disk, s.load, s.released) && Holds(s.disk, id, bytes)
    ensures var t := LoadOverflow(s, fault); id in t.released || Holds(t.disk, id, bytes)
  {
    hide ValidPng, Describes, PairHolds, HelperHolds;
    if s.load.excess != [] {
      RemovingImage(s.disk, s.load.excess[0].id, false, id, bytes);
      RemovingMeta(s.disk, s.load.excess[0].id, fault, id, bytes);
    }
  }

  lemma ConsumeLosesNothing(s: State, fault: bool, id: Id, bytes: Bytes)
    requires ConsumerInv(s.disk, s.consumer, s.released) && Agree(s.disk) && Holds(s.disk, id, bytes)
    ensures var t := ConsumeStep(s, fault); id in t.released || Holds(t.disk, id, bytes)
  {
    hide ValidPng, Describes, PairHolds, HelperHolds, Agree, Appended, Discarded;
    match s.consumer
    case SavingImage(r) =>
      WritingImage(s.disk, r, id, bytes);
      SafeByHelper(s.disk, r.id, r.bytes, id, bytes);
    case SavingMeta(r) =>
      WritingMeta(s.disk, r, id, bytes);
      SafeByHelper(s.disk, r.id, r.bytes, id, bytes);
    case Undoing(r) =>
      RemovingImage(s.disk, r.id, fault, id, bytes);
      SafeByHelper(s.disk, r.id, r.bytes, id, bytes);
    case Unlinking(r) =>
      RemovingHelper(s.disk, r.id, fault, id, bytes);
      if r.id == id && HelperHolds(s.disk, id, bytes) && PairHolds(s.disk, r.id, r.bytes) {
        AgreeAt(s.disk, id, bytes, r.bytes);
      }
    case DiscardingImage(r) => RemovingImage(s.disk, r.id, false, id, bytes);
    case DiscardingMeta(r) => RemovingMeta(s.disk, r.id, fault, id, bytes);
    case _ =>
  }

  lemma AckLosesNothing(s: State, token: nat, fault: bool, id: Id, bytes: Bytes)
    requires token in s.acks && AckInv(s.acks, s.released) && Holds(s.disk, id, bytes)
    ensures var t := AckStep(s, token, fault); id in t.released || Holds(t.disk, id, bytes)
  {
  }

  // Every step, failing or not, keeps every capture that is safe on disk safe, with the
  // same contents, unless it was acknowledged or evicted: except for one unlink.
  lemma StepLosesExactly(s: State, e: Event, id: Id, bytes: Bytes)
    requires Inv(s) && Holds(s.disk, id, bytes)
    ensures var t := Step(s, e); id !in t.released ==> (Holds(t.disk, id, bytes) <==> !Loses(s, e, id))
  {
    hide ValidPng, Describes, PairHolds, LoadOrphan, LoadPair, LoadHelper, LoadSave, LoadOverflow, ConsumeStep, AckStep,
      Begin, LoadInv, ConsumerInv, AckInv, Agree, Exclusive, GoodPair, GoodHelper, HasId;
    match e
    case Shot(k, b) =>
      assert HelperHolds(s.disk, id, bytes) ==> id in s.used;
      ShotKeepsPair(s.disk, k, b, id, bytes);
    case LoadNext(k, now, fault, readFault) =>
      match s.load {
        case Orphans(_, _) => LoadOrphanLosesNothing(s, k, fault, id, bytes);
        case Pairs(_, _, _, _) => LoadPairLoses(s, e, id, bytes);
        case Helpers(_, save, _, _, _) =>
          if save.NoSave? {
            LoadHelperLoses(s, e, id, bytes);
          } else {
            LoadSaveLosesNothing(s, fault, id, bytes);
          }
        case Overflow(_, _, _) => LoadOverflowLosesNothing(s, fault, id, bytes);
        case NotLoaded =>
        case Loaded =>
      }
    case ConsumeNext(fault) => ConsumeLosesNothing(s, fault, id, bytes);
    case AckNext(token, fault) =>
      if token in s.acks {
        AckLosesNothing(s, token, fault, id, bytes);
      }
    case BeginLoad => BeginKeepsDisk(s);
    case _ =>
  }

  lemma BeginKeepsDisk(s: State)
    ensures Begin(s).disk == s.disk && Begin(s).released == s.released
  {
  }

  lemma ShotKeepsPair(d: Disk, k: Id, b: Bytes, id: Id, bytes: Bytes)
    ensures PairHolds(d.(helper := d.helper[k := b]), id, bytes) <==> PairHolds(d, id, bytes)
  {
  }

  // ---- The invariants are kept ----

  // What does not depend on what the manager is doing.
  ghost predicate DiskInv(d: Disk, used: set<Id>) {
    Owned(d, used) && Agree(d)
  }

  lemma BootEstablishes(disk: Disk)
    requires Agree(disk)
    ensures Inv(Boot(disk)) && DropsBad(disk, NotLoaded)
  {
  }

  lemma DiskRemoving(d: Disk, used: set<Id>, k: Id, fault: bool)
    requires DiskInv(d, used)
    ensures DiskInv(RemoveHelper(d, k, fault), used)
    ensures DiskInv(RemoveImage(d, k, fault), used)
    ensures DiskInv(RemoveMeta(d, k, fault), used)
  {
    hide ValidPng, Describes;
  }

  lemma DiskWriting(d: Disk, used: set<Id>, r: Record)
    requires DiskInv(d, used) && HelperHolds(d, r.id, r.bytes)
    ensures DiskInv(WriteImage(d, r), used)
    ensures (r.id in d.image ==> d.image[r.id] == r.bytes) ==> DiskInv(WriteMeta(d, r), used)
  {
    hide ValidPng, Describes;
  }

  lemma DiskShot(d: Disk, used: set<Id>, k: Id, bytes: Bytes)
    requires DiskInv(d, used) && k !in used
    ensures DiskInv(d.(helper := d.helper[k := bytes]), used + {k})
  {
  }

  lemma RecordsHoldRemovingHelper(d: Disk, records: seq<Record>, k: Id, fault: bool)
    requires RecordsHold(d, records)
    ensures RecordsHold(RemoveHelper(d, k, fault), records)
  {
  }

  lemma RecordsHoldRemoving(d: Disk, records: seq<Record>, k: Id, fault: bool)
    requires RecordsHold(d, records) && !HasId(records, k)
    ensures RecordsHold(RemoveImage(d, k, fault), records) && RecordsHold(RemoveMeta(d, k, fault), records)
  {
  }

  lemma RecordsHoldWriting(d: Disk, records: seq<Record>, r: Record)
    requires RecordsHold(d, records) && !HasId(records, r.id)
    ensures RecordsHold(WriteImage(d, r), records) && RecordsHold(WriteMeta(d, r), records)
  {
  }

  lemma RecordsHoldMore(d: Disk, records: seq<Record>, r: Record)
    requires RecordsHold(d, records) && !HasId(records, r.id) && RecordHolds(d, r)
    ensures RecordsHold(d, records + [r]) && HasId(records + [r], r.id)
    ensures forall id :: HasId(records + [r], id) <==> HasId(records, id) || id == r.id
  {
    hide PairHolds;
    var all := records + [r];
    assert all[|records|] == r;
    forall id | HasId(records, id)
      ensures HasId(all, id)
    {
      var i :| 0 <= i < |records| && records[i].id == id;
      assert all[i].id == id;
    }
  }

  lemma LoadOrphanKeeps(s: State, k: Id, fault: bool)
    requires Inv(s) && s.load.Orphans?
    ensures Inv(LoadOrphan(s, k, fault)) && DropsBad(LoadOrphan(s, k, fault).disk, LoadOrphan(s, k, fault).load)
  {
    DiskRemoving(s.disk, s.used, k, fault);
    hide Owned, Agree, PairHolds;
  }

  lemma GoodPairIsDescribed(d: Disk, id: Id)
    requires GoodPair(d, id)
    ensures id in d.image && id in d.meta && d.meta[id].Stored?
  {
  }

  lemma LoadPairKeeps(s: State, k: Id, fault: bool, readFault: bool)
    requires Inv(s) && s.load.Pairs?
    ensures Inv(LoadPair(s, k, fault, readFault))
  {
    hide Owned, Agree, PairHolds, RecordsHold, HasId;
    var l := s.load;
    if !l.drop.NoDrop? {
      DiskRemoving(s.disk, s.used, l.drop.id, fault);
      RecordsHoldRemoving(s.disk, l.records, l.drop.id, fault);
    } else if k in l.todo {
      NotInTodo(l.records, l.todo, k);
      if GoodPair(s.disk, k) {
        GoodPairIsDescribed(s.disk, k);
        var record := Record(k, s.disk.meta[k].capturedAt, s.disk.image[k]);
        RecordsHoldMore(s.disk, l.records, record);
      }
    }
  }

  lemma NotInTodo(records: seq<Record>, todo: set<Id>, k: Id)
    requires k in todo && forall i :: 0 <= i < |records| ==> records[i].id !in todo
    ensures !HasId(records, k)
  {
  }

  lemma LoadPairDropsBad(s: State, k: Id, fault: bool)
    requires s.load.Pairs? && DropsBad(s.disk, s.load)
    ensures DropsBad(LoadPair(s, k, fault, false).disk, LoadPair(s, k, fault, false).load)
  {
  }

  lemma LoadHelperKeeps(s: State, k: Id, now: int, fault: bool, readFault: bool)
    requires Inv(s) && s.load.Helpers? && s.load.save.NoSave?
    ensures Inv(LoadHelper(s, k, now, fault, readFault))
  {
    hide Owned, Agree, PairHolds, RecordsHold, HasId, Sort, Newest;
    DiskRemoving(s.disk, s.used, k, fault);
    RecordsHoldRemovingHelper(s.disk, s.load.records, k, fault);
  }

  lemma LoadSaveKeeps(s: State, fault: bool)
    requires Inv(s) && s.load.Helpers? && !s.load.save.NoSave?
    ensures Inv(LoadSave(s, fault))
  {
    hide Owned, Agree, PairHolds, RecordsHold, HasId, ValidPng;
    var l := s.load;
    match l.save
    case SaveImage(r) =>
      DiskWriting(s.disk, s.used, r);
      RecordsHoldWriting(s.disk, l.records, r);
    case SaveMeta(r) =>
      DiskWriting(s.disk, s.used, r);
      RecordsHoldWriting(s.disk, l.records, r);
      WritingMeta(s.disk, r, r.id, r.bytes);
      RecordsHoldMoreAfter(s.disk, l.records, r);
    case UndoImage(r) =>
      DiskRemoving(s.disk, s.used, r.id, fault);
      RecordsHoldRemoving(s.disk, l.records, r.id, fault);
    case UnlinkHelper(k) =>
      DiskRemoving(s.disk, s.used, k, fault);
      RecordsHoldRemovingHelper(s.disk, l.records, k, fault);
  }

  lemma RecordsHoldMoreAfter(d: Disk, records: seq<Record>, r: Record)
    requires RecordsHold(d, records) && !HasId(records, r.id)
    requires HelperHolds(d, r.id, r.bytes) && r.id in d.image && d.image[r.id] == r.bytes
    ensures RecordsHold(WriteMeta(d, r), records + [r]) && HasId(records + [r], r.id)
  {
    hide RecordsHold, HasId, PairHolds;
    RecordsHoldWriting(d, records, r);
    WritingMeta(d, r, r.id, r.bytes);
    RecordsHoldMore(WriteMeta(d, r), records, r);
  }

  lemma LoadOverflowKeeps(s: State, fault: bool)
    requires Inv(s) && s.load.Overflow?
    ensures Inv(LoadOverflow(s, fault))
  {
    hide Owned, Agree, PairHolds;
    if s.load.excess != [] {
      DiskRemoving(s.disk, s.used, s.load.excess[0].id, fault);
      DiskRemoving(s.disk, s.used, s.load.excess[0].id, false);
    }
  }

  lemma LoadedInv(d: Disk, released: set<Id>)
    ensures LoadInv(d, Loaded, released)
  {
  }

  lemma ReleasingAcks(acks: map<nat, Ack>, released: set<Id>, k: Id)
    requires AckInv(acks, released)
    ensures AckInv(acks, released + {k})
  {
  }

  lemma ConsumeKeeps(s: State, fault: bool)
    requires Inv(s)
    ensures Inv(ConsumeStep(s, fault))
  {
    hide Owned, Agree, PairHolds, Appended, Discarded, LoadInv, AckInv, ValidPng, HasId;
    if s.load.Loaded? {
      LoadedInv(ConsumeStep(s, fault).disk, ConsumeStep(s, fault).released);
      match s.consumer
      case SavingImage(r) => DiskWriting(s.disk, s.used, r);
      case SavingMeta(r) =>
        DiskWriting(s.disk, s.used, r);
        WritingMeta(s.disk, r, r.id, r.bytes);
      case Undoing(r) => DiskRemoving(s.disk, s.used, r.id, fault);
      case Unlinking(r) => DiskRemoving(s.disk, s.used, r.id, fault);
      case DiscardingImage(r) =>
        DiskRemoving(s.disk, s.used, r.id, false);
        ReleasingAcks(s.acks, s.released, r.id);
      case DiscardingMeta(r) => DiskRemoving(s.disk, s.used, r.id, fault);
      case _ =>
    }
  }

  // Deleting the files of an acknowledged capture leaves the consumer what it relies on.
  lemma ConsumerAcknowledging(d: Disk, consumer: Consumer, released: set<Id>, k: Id)
    requires ConsumerInv(d, consumer, released)
    ensures ConsumerInv(RemoveImage(d, k, false), consumer, released + {k})
    ensures k in released ==> ConsumerInv(RemoveMeta(d, k, false), consumer, released)
  {
  }

  lemma AckKeeps(s: State, token: nat, fault: bool)
    requires Inv(s) && token in s.acks
    ensures Inv(AckStep(s, token, fault))
  {
    hide Owned, Agree, LoadInv, ConsumerInv, RemoveImage, RemoveMeta;
    var k := s.acks[token].id;
    assert s.load.Loaded?;
    LoadedInv(AckStep(s, token, fault).disk, AckStep(s, token, fault).released);
    DiskRemoving(s.disk, s.used, k, false);
    ConsumerAcknowledging(s.disk, s.consumer, s.released, k);
  }

  lemma BeginKeeps(s: State)
    requires Inv(s) && s.load.NotLoaded?
    ensures Inv(Begin(s))
  {
    hide Owned, Agree, ConsumerInv, AckInv;
  }

  lemma ShotLoadInv(d: Disk, load: Load, released: set<Id>, k: Id, bytes: Bytes)
    requires LoadInv(d, load, released) && k !in d.helper
    ensures LoadInv(d.(helper := d.helper[k := bytes]), load, released)
  {
    hide ValidPng, Describes, HasId, DistinctIds;
  }

  lemma ShotConsumerInv(d: Disk, consumer: Consumer, released: set<Id>, k: Id, bytes: Bytes)
    requires ConsumerInv(d, consumer, released) && k !in d.helper
    ensures ConsumerInv(d.(helper := d.helper[k := bytes]), consumer, released)
  {
  }

  lemma ShotKeeps(s: State, k: Id, bytes: Bytes)
    requires Inv(s)
    ensures Inv(Step(s, Shot(k, bytes)))
  {
    if k !in s.used {
      assert k !in s.disk.helper;
      hide Agree, Owned, LoadInv, ConsumerInv, AckInv;
      DiskShot(s.disk, s.used, k, bytes);
      ShotLoadInv(s.disk, s.load, s.released, k, bytes);
      ShotConsumerInv(s.disk, s.consumer, s.released, k, bytes);
    }
  }

  lemma CrashKeeps(s: State)
    requires Inv(s)
    ensures Inv(Step(s, Crash))
  {
    hide Agree, Owned;
  }

  lemma AcknowledgeKeeps(s: State, token: nat, id: Id)
    requires Inv(s)
    ensures Inv(Step(s, Event.Acknowledge(token, id)))
  {
    hide Agree, Owned, LoadInv, ConsumerInv, HasId;
  }

  lemma ConsumeMessageKeeps(s: State, id: Id, capturedAt: int)
    requires Inv(s)
    ensures Inv(Step(s, Consume(id, capturedAt)))
  {
    hide Agree, Owned, LoadInv, AckInv;
  }

  lemma DisposeKeeps(s: State)
    requires Inv(s)
    ensures Inv(Step(s, DisposeManager))
  {
    hide Agree, Owned, LoadInv, ConsumerInv, AckInv;
  }

  lemma StepKeeps(s: State, e: Event)
    requires Inv(s)
    ensures Inv(Step(s, e))
  {
    hide Inv, LoadOrphan, LoadPair, LoadHelper, LoadSave, LoadOverflow, ConsumeStep, AckStep, Begin;
    match e
    case Shot(id, bytes) => ShotKeeps(s, id, bytes);
    case Crash => CrashKeeps(s);
    case BeginLoad => if s.load.NotLoaded? { BeginKeeps(s); }
    case LoadNext(id, now, fault, readFault) =>
      match s.load {
        case Orphans(_, _) => LoadOrphanKeeps(s, id, fault);
        case Pairs(_, _, _, _) => LoadPairKeeps(s, id, fault, readFault);
        case Helpers(_, save, _, _, _) =>
          if save.NoSave? {
            LoadHelperKeeps(s, id, now, fault, readFault);
          } else {
            LoadSaveKeeps(s, fault);
          }
        case Overflow(_, _, _) => LoadOverflowKeeps(s, fault);
        case NotLoaded =>
        case Loaded =>
      }
    case Consume(id, capturedAt) => ConsumeMessageKeeps(s, id, capturedAt);
    case ConsumeNext(fault) => ConsumeKeeps(s, fault);
    case Acknowledge(token, id) => AcknowledgeKeeps(s, token, id);
    case AckNext(token, fault) => if token in s.acks { AckKeeps(s, token, fault); }
    case DisposeManager => DisposeKeeps(s);
  }

  lemma StepDropsBad(s: State, e: Event)
    requires Inv(s) && DropsBad(s.disk, s.load) && (e.LoadNext? ==> !e.readFault)
    ensures DropsBad(Step(s, e).disk, Step(s, e).load)
  {
    hide ValidPng, Describes, PairHolds, RecordsHold, ConsumerInv, AckInv, Agree, ConsumeStep, AckStep, LoadPair, LoadSave,
      LoadHelper, LoadOverflow, LoadOrphan;
    match e
    case Shot(id, bytes) =>
      if s.load.Pairs? && !s.load.drop.NoDrop? && s.load.drop.id in s.disk.image {
        ShotKeepsPair(s.disk, id, bytes, s.load.drop.id, s.disk.image[s.load.drop.id]);
      }
    case LoadNext(id, now, fault, readFault) =>
      match s.load {
        case Orphans(_, _) => LoadOrphanKeeps(s, id, fault);
        case Pairs(_, _, _, _) => LoadPairDropsBad(s, id, fault);
        case Helpers(_, save, _, _, _) => HelpersDropNothing(s, id, now, fault, readFault);
        case Overflow(_, _, _) => HelpersDropNothing(s, id, now, fault, readFault);
        case _ =>
      }
    case ConsumeNext(fault) => ConsumeOnlyLoaded(s, fault);
    case AckNext(token, fault) => if token in s.acks { AckKeepsLoad(s, token, fault); }
    case _ =>
  }

  lemma HelpersDropNothing(s: State, id: Id, now: int, fault: bool, readFault: bool)
    requires s.load.Helpers? || s.load.Overflow?
    ensures !LoadStep(s, id, now, fault, readFault).load.Pairs?
  {
    hide GoodHelper, HasId;
  }

  lemma ConsumeOnlyLoaded(s: State, fault: bool)
    requires Exclusive(s.load, s.consumer, s.acks, s.pending)
    ensures ConsumeStep(s, fault).load == s.load
    ensures !s.load.Loaded? ==> ConsumeStep(s, fault).disk == s.disk
  {
    hide GoodHelper;
  }

  lemma AckKeepsLoad(s: State, token: nat, fault: bool)
    requires token in s.acks && Exclusive(s.load, s.consumer, s.acks, s.pending)
    ensures AckStep(s, token, fault).load == s.load && s.load.Loaded?
  {
  }

  lemma {:induction false} RunKeeps(s: State, events: seq<Event>)
    requires Inv(s)
    ensures Inv(Run(s, events))
    decreases |events|
  {
    hide Inv, Step;
    if events != [] {
      var rest, last := events[..|events| - 1], events[|events| - 1];
      RunKeeps(s, rest);
      StepKeeps(Run(s, rest), last);
    }
  }

  lemma {:induction false} RunDropsBad(s: State, events: seq<Event>)
    requires Inv(s) && DropsBad(s.disk, s.load) && GoodReads(s, events)
    ensures DropsBad(Run(s, events).disk, Run(s, events).load)
    decreases |events|
  {
    hide Inv, Step, DropsBad, FailsAGoodRead;
    if events != [] {
      var rest, last := events[..|events| - 1], events[|events| - 1];
      GoodReadsBefore(s, events);
      RunDropsBad(s, rest);
      RunKeeps(s, rest);
      OtherReadsMayFail(Run(s, rest), last);
      StepDropsBad(Run(s, rest), Heard(last));
    }
  }

  lemma GoodReadsBefore(s: State, events: seq<Event>)
    requires GoodReads(s, events) && events != []
    ensures GoodReads(s, events[..|events| - 1])
    ensures !FailsAGoodRead(Run(s, events[..|events| - 1]), events[|events| - 1])
  {
    hide FailsAGoodRead;
    var rest := events[..|events| - 1];
    forall i | 0 <= i < |rest|
      ensures !FailsAGoodRead(Run(s, rest[..i]), rest[i])
    {
      assert rest[..i] == events[..i] && rest[i] == events[i];
    }
  }

  lemma StepReleases(s: State, e: Event)
    ensures s.released <= Step(s, e).released && s.used <= Step(s, e).used
    ensures forall id :: id in Step(s, e).released && id !in s.released ==>
              || (e.AckNext? && e.token in s.acks && s.acks[e.token] == AckImage(id))
              || (e.ConsumeNext? && s.consumer.DiscardingImage? && s.consumer.record.id == id)
              || (e.LoadNext? && s.load.Overflow? && s.load.excess != [] && s.load.excess[0].id == id)
  {
    hide GoodHelper, GoodPair, HasId, Appended, Discarded, Sort, Newest;
  }

  // ---- Lost for good ----

  lemma LoadNotDurable(s: State, k: Id, now: int, fault: bool, readFault: bool, id: Id)
    requires LoadInv(s.disk, s.load, s.released) && !Durable(s.disk, id)
    ensures !Durable(LoadStep(s, k, now, fault, readFault).disk, id)
  {
    hide GoodPair, GoodHelper, HasId, RemoveHelper, RemoveImage, RemoveMeta, WriteImage, WriteMeta, Sort, Newest,
      RecordsHold;
    GoodAfterRemoving(s.disk, k, fault, id);
    match s.load
    case Pairs(_, drop, _, _) => if !drop.NoDrop? { GoodAfterRemoving(s.disk, drop.id, fault, id); }
    case Helpers(_, save, _, records, _) => SaveNotDurable(s.disk, save, records, fault, id);
    case Overflow(excess, _, _) =>
      if excess != [] {
        GoodAfterRemoving(s.disk, excess[0].id, fault, id);
        GoodAfterRemoving(s.disk, excess[0].id, false, id);
      }
    case _ =>
  }

  lemma SaveNotDurable(d: Disk, save: Save, records: seq<Record>, fault: bool, id: Id)
    requires SaveInv(d, save, records) && !Durable(d, id)
    ensures save.SaveImage? ==> !Durable(WriteImage(d, save.record), id)
    ensures save.SaveMeta? ==> !Durable(WriteMeta(d, save.record), id)
    ensures save.UndoImage? ==> !Durable(RemoveImage(d, save.record.id, fault), id)
    ensures save.UnlinkHelper? ==> !Durable(RemoveHelper(d, save.id, fault), id)
  {
    hide GoodPair, RemoveHelper, RemoveImage, WriteImage, WriteMeta, HasId;
    match save
    case NoSave =>
    case UnlinkHelper(k) => GoodAfterRemoving(d, k, fault, id);
    case _ =>
      assert save.record.id != id;
      GoodAfterRemoving(d, save.record.id, fault, id);
      GoodAfterWriting(d, save.record, id);
  }

  lemma ConsumeNotDurable(s: State, fault: bool, id: Id)
    requires ConsumerInv(s.disk, s.consumer, s.released) && !Durable(s.disk, id)
    ensures !Durable(ConsumeStep(s, fault).disk, id)
  {
    hide GoodPair, RemoveHelper, RemoveImage, RemoveMeta, WriteImage, WriteMeta, Appended, Discarded, PairHolds;
    match s.consumer
    case Quiet =>
    case Reading(_, _) =>
    case _ =>
      var r := s.consumer.record;
      GoodAfterRemoving(s.disk, r.id, fault, id);
      GoodAfterRemoving(s.disk, r.id, false, id);
      if r.id != id {
        GoodAfterWriting(s.disk, r, id);
      }
  }

  lemma StepNotDurable(s: State, e: Event, id: Id)
    requires Inv(s) && id in s.used && !Durable(s.disk, id)
    ensures !Durable(Step(s, e).disk, id)
  {
    hide LoadInv, ConsumerInv, AckInv, Agree, Owned, Exclusive, HasId, LoadStep, ConsumeStep, PairHolds;
    match e
    case Shot(k, b) => ShotKeepsPairs(s.disk, k, b, id);
    case LoadNext(k, now, fault, readFault) => LoadNotDurable(s, k, now, fault, readFault, id);
    case ConsumeNext(fault) => ConsumeNotDurable(s, fault, id);
    case AckNext(token, fault) =>
      if token in s.acks {
        GoodAfterRemoving(s.disk, s.acks[token].id, false, id);
      }
    case BeginLoad => BeginKeepsDisk(s);
    case _ =>
  }

  lemma ShotKeepsPairs(d: Disk, k: Id, b: Bytes, id: Id)
    ensures GoodPair(d.(helper := d.helper[k := b]), id) <==> GoodPair(d, id)
  {
  }

  // A capture the helper took is durable again in no run once it is not: files come only
  // from a helper's file, and no two captures have one id.
  lemma {:induction false} NeverDurableAgain(s: State, events: seq<Event>, id: Id)
    requires Inv(s) && id in s.used && !Durable(s.disk, id)
    ensures !Durable(Run(s, events).disk, id) && id in Run(s, events).used
    decreases |events|
  {
    hide Inv, Step, Durable;
    if events != [] {
      var rest, last := events[..|events| - 1], events[|events| - 1];
      NeverDurableAgain(s, rest, id);
      RunKeeps(s, rest);
      StepNotDurable(Run(s, rest), last, id);
      StepReleases(Run(s, rest), last);
    }
  }

  lemma LostIsNotDurable(s: State, e: Event, id: Id)
    requires Loses(s, e, id)
    ensures !Durable(Step(s, e).disk, id)
  {
    hide ValidPng, Describes;
  }

  // Over any run, with crashes anywhere and any file step failing: what was safe on disk,
  // and was not acknowledged or evicted, is safe at the end with the same contents,
  // exactly if no step was the unlink that loses it. Otherwise it is gone for good.
  lemma {:induction false} LostExactly(s: State, events: seq<Event>, id: Id, bytes: Bytes)
    requires Inv(s) && Holds(s.disk, id, bytes) && id !in Run(s, events).released
    ensures Holds(Run(s, events).disk, id, bytes)
       <==> forall i :: 0 <= i < |events| ==> !Loses(Run(s, events[..i]), events[i], id)
    ensures Holds(Run(s, events).disk, id, bytes) || !Durable(Run(s, events).disk, id)
    ensures id in Run(s, events).used
    decreases |events|
  {
    hide Step, Durable, Loses, Inv, Holds;
    if events == [] {
      HeldIsUsed(s, id, bytes);
    } else {
      var rest, last := events[..|events| - 1], events[|events| - 1];
      assert forall i :: 0 <= i < |rest| ==> rest[i] == events[i] && rest[..i] == events[..i];
      StepReleases(Run(s, rest), last);
      LostExactly(s, rest, id, bytes);
      RunKeeps(s, rest);
      if Holds(Run(s, rest).disk, id, bytes) {
        StepLosesExactly(Run(s, rest), last, id, bytes);
        if Loses(Run(s, rest), last, id) {
          LostIsNotDurable(Run(s, rest), last, id);
        }
      } else {
        StepNotDurable(Run(s, rest), last, id);
        DurableIfHeld(Run(s, events).disk, id, bytes);
      }
    }
  }

  lemma HeldIsUsed(s: State, id: Id, bytes: Bytes)
    requires Inv(s) && Holds(s.disk, id, bytes)
    ensures id in s.used
  {
  }

  lemma DurableIfHeld(d: Disk, id: Id, bytes: Bytes)
    ensures Holds(d, id, bytes) ==> Durable(d, id)
  {
  }

  // The drop of a good pair with no helper file goes back to a failing read of it.
  lemma StepDropIsSafe(s: State, e: Event, id: Id)
    requires Inv(s) && DropIsSafe(s.disk, s.load, id) && !MisreadsPair(s, e, id)
    ensures DropIsSafe(Step(s, e).disk, Step(s, e).load, id)
  {
    hide ValidPng, Describes, PairHolds, RecordsHold, ConsumerInv, AckInv, Agree, ConsumeStep, AckStep, LoadPair, LoadSave,
      LoadHelper, LoadOverflow, LoadOrphan;
    match e
    case Shot(k, bytes) => ShotKeepsPairs(s.disk, k, bytes, id);
    case LoadNext(k, now, fault, readFault) =>
      match s.load {
        case Orphans(_, _) => LoadOrphanKeeps(s, k, fault);
        case Pairs(_, _, _, _) => LoadPairDropIsSafe(s, e, id);
        case Helpers(_, save, _, _, _) => HelpersDropNothing(s, k, now, fault, readFault);
        case Overflow(_, _, _) => HelpersDropNothing(s, k, now, fault, readFault);
        case _ =>
      }
    case ConsumeNext(fault) => ConsumeOnlyLoaded(s, fault);
    case AckNext(token, fault) => if token in s.acks { AckKeepsLoad(s, token, fault); }
    case _ =>
  }

  lemma LoadPairDropIsSafe(s: State, e: Event, id: Id)
    requires s.load.Pairs? && DropIsSafe(s.disk, s.load, id) && e.LoadNext? && !MisreadsPair(s, e, id)
    ensures var t := LoadPair(s, e.id, e.fault, e.readFault); DropIsSafe(t.disk, t.load, id)
  {
    hide GoodPair, GoodHelper, RemoveImage, RemoveMeta;
    if !s.load.drop.NoDrop? {
      GoodAfterRemoving(s.disk, s.load.drop.id, e.fault, id);
    }
  }

  // Every loss is a failing read of a good file, the last one of its capture.
  lemma {:induction false} LossIsAMisread(s: State, events: seq<Event>, id: Id)
    requires Inv(s) && DropIsSafe(s.disk, s.load, id) && !Misread(s, events, id)
    ensures DropIsSafe(Run(s, events).disk, Run(s, events).load, id)
    ensures forall i :: 0 <= i < |events| ==> !Loses(Run(s, events[..i]), events[i], id)
    decreases |events|
  {
    hide Inv, Step, MisreadsPair, MisreadsHelper, DropIsSafe, Loses;
    if events != [] {
      var rest, last := events[..|events| - 1], events[|events| - 1];
      assert forall i :: 0 <= i < |rest| ==> rest[i] == events[i] && rest[..i] == events[..i];
      LossIsAMisread(s, rest, id);
      RunKeeps(s, rest);
      StepDropIsSafe(Run(s, rest), last, id);
      SafeDropLosesNothing(Run(s, rest), last, id);
    }
  }

  lemma SafeDropLosesNothing(s: State, e: Event, id: Id)
    requires DropIsSafe(s.disk, s.load, id) && !MisreadsHelper(s, e, id)
    ensures !Loses(s, e, id)
  {
    hide GoodPair, GoodHelper, MisreadsHelper;
  }

  // So nothing is lost over a run that does not misread the last good file of a capture.
  lemma NothingIsLost(s: State, events: seq<Event>, id: Id, bytes: Bytes)
    requires Inv(s) && DropIsSafe(s.disk, s.load, id) && Holds(s.disk, id, bytes) && !Misread(s, events, id)
    ensures id in Run(s, events).released || Holds(Run(s, events).disk, id, bytes)
  {
    hide Inv, Run, Misread, DropIsSafe, Holds, Loses;
    LossIsAMisread(s, events, id);
    if id !in Run(s, events).released {
      LostExactly(s, events, id, bytes);
    }
  }

  // And after such a misread the capture is lost: the helper's file is deleted with it,
  // and a pair by the next step of the load, or the one after, that does not fail.
  lemma MisreadLoses(s: State, e: Event, id: Id, next: Event, afterNext: Event)
    requires next.LoadNext? && afterNext.LoadNext?
    ensures var t := Step(s, e);
            && (MisreadsHelper(s, e, id) ==> !Durable(t.disk, id))
            && (MisreadsPair(s, e, id) ==>
                  && (!next.fault ==> !Durable(Step(t, next).disk, id))
                  && (!afterNext.fault ==> !Durable(Step(Step(t, next), afterNext).disk, id)))
  {
    hide ValidPng, Describes;
  }

  lemma MisreadLosesForGood(s: State, e: Event, next: Event, more: seq<Event>, id: Id)
    requires Inv(s)
    requires MisreadsHelper(s, e, id) || (MisreadsPair(s, e, id) && next.LoadNext? && !next.fault)
    ensures !Durable(Run(Step(Step(s, e), next), more).disk, id)
  {
    hide Step, Run, Durable, Inv;
    var bytes := if s.load.Pairs? then s.disk.image[id] else s.disk.helper[id];
    HeldIsUsed(s, id, bytes);
    hide GoodPair, GoodHelper, Holds;
    var read, unlinked := Step(s, e), Step(Step(s, e), next);
    StepReleases(s, e);
    StepReleases(read, next);
    StepKeeps(s, e);
    StepKeeps(read, next);
    if MisreadsPair(s, e, id) {
      MisreadLoses(s, e, id, next, next);
    } else {
      LostIsNotDurable(s, e, id);
      StepNotDurable(read, next, id);
    }
    NeverDurableAgain(unlinked, more, id);
  }

  // ---- An acknowledged capture stays away ----

  // Deleted, and with no helper file to recover it from.
  predicate Gone(d: Disk, used: set<Id>, id: Id) {
    id in used && id !in d.helper && id !in d.image
  }

  lemma SaveGone(s: State, fault: bool, id: Id)
    requires s.load.Helpers? && !s.load.save.NoSave? && SaveInv(s.disk, s.load.save, s.load.records)
    requires Gone(s.disk, s.used, id)
    ensures var t := LoadSave(s, fault); Gone(t.disk, t.used, id)
  {
    hide ValidPng, Describes, HasId, PairHolds;
  }

  lemma LoadGone(s: State, k: Id, now: int, fault: bool, readFault: bool, id: Id)
    requires LoadInv(s.disk, s.load, s.released) && Gone(s.disk, s.used, id)
    ensures var t := LoadStep(s, k, now, fault, readFault); Gone(t.disk, t.used, id)
  {
    hide LoadSave, SaveInv, GoodPair, GoodHelper, RecordsHold, HasId, Sort, Newest;
    if s.load.Helpers? && !s.load.save.NoSave? {
      SaveGone(s, fault, id);
    }
  }

  lemma ConsumeGone(s: State, fault: bool, id: Id)
    requires ConsumerInv(s.disk, s.consumer, s.released) && Gone(s.disk, s.used, id)
    ensures var t := ConsumeStep(s, fault); Gone(t.disk, t.used, id)
  {
    hide ValidPng, Describes, Appended, Discarded, PairHolds;
  }

  lemma GoneStep(s: State, e: Event, id: Id)
    requires Inv(s) && Gone(s.disk, s.used, id)
    ensures Gone(Step(s, e).disk, Step(s, e).used, id)
  {
    hide LoadInv, ConsumerInv, AckInv, Agree, Owned, Exclusive, HasId, LoadStep, ConsumeStep;
    match e
    case LoadNext(k, now, fault, readFault) => LoadGone(s, k, now, fault, readFault, id);
    case ConsumeNext(fault) => ConsumeGone(s, fault, id);
    case _ =>
  }

  lemma {:induction false} GoneForGood(s: State, events: seq<Event>, id: Id)
    requires Inv(s) && Gone(s.disk, s.used, id)
    ensures Gone(Run(s, events).disk, Run(s, events).used, id)
    ensures !Durable(Run(s, events).disk, id)
    decreases |events|
  {
    hide Inv, Step;
    if events != [] {
      var rest, last := events[..|events| - 1], events[|events| - 1];
      GoneForGood(s, rest, id);
      RunKeeps(s, rest);
      GoneStep(Run(s, rest), last, id);
    }
  }

  // ---- What a load finds ----

  predicate Saving(save: Save, id: Id) {
    match save
    case SaveImage(r) => r.id == id
    case SaveMeta(r) => r.id == id
    case UndoImage(r) => r.id == id
    case _ => false
  }

  // Every capture on disk at the start of the load is still to be visited, or has its
  // record, or could not be copied.
  ghost predicate LoadComplete(d: Disk, load: Load, known: set<Id>) {
    match load
    case Orphans(_, e) => forall id :: GoodHelper(d, id) && id in known ==> id in e.helpers
    case Pairs(todo, _, e, records) =>
      && (forall id :: GoodPair(d, id) ==> id in todo || HasId(records, id))
      && (forall id :: GoodHelper(d, id) && id in known ==> id in e.helpers)
    case Helpers(todo, save, e, records, failed) =>
      && (forall id :: GoodPair(d, id) ==> HasId(records, id) || id in failed || Saving(save, id))
      && (forall id :: GoodHelper(d, id) && id in known ==>
                         id in todo || HasId(records, id) || id in failed || Saving(save, id))
    case _ => true
  }

  // The good files after removing one, or writing one, are those before.
  lemma GoodAfterRemoving(d: Disk, k: Id, fault: bool, id: Id)
    ensures GoodHelper(RemoveHelper(d, k, fault), id) ==> GoodHelper(d, id) && (id != k || fault)
    ensures GoodPair(RemoveHelper(d, k, fault), id) <==> GoodPair(d, id)
    ensures GoodHelper(RemoveImage(d, k, fault), id) <==> GoodHelper(d, id)
    ensures GoodPair(RemoveImage(d, k, fault), id) ==> GoodPair(d, id)
    ensures GoodHelper(RemoveMeta(d, k, fault), id) <==> GoodHelper(d, id)
    ensures GoodPair(RemoveMeta(d, k, fault), id) ==> GoodPair(d, id)
  {
  }

  lemma GoodAfterWriting(d: Disk, r: Record, id: Id)
    requires id != r.id
    ensures GoodHelper(WriteImage(d, r), id) <==> GoodHelper(d, id)
    ensures GoodPair(WriteImage(d, r), id) <==> GoodPair(d, id)
    ensures GoodHelper(WriteMeta(d, r), id) <==> GoodHelper(d, id)
    ensures GoodPair(WriteMeta(d, r), id) <==> GoodPair(d, id)
  {
  }

  lemma OrphanComplete(s: State, k: Id, fault: bool)
    requires s.load.Orphans? && LoadInv(s.disk, s.load, s.released) && LoadComplete(s.disk, s.load, s.known)
    ensures var t := LoadOrphan(s, k, fault); LoadComplete(t.disk, t.load, t.known)
  {
    hide PairHolds, HelperHolds;
    forall id
      ensures GoodHelper(RemoveImage(s.disk, k, fault), id) <==> GoodHelper(s.disk, id)
      ensures GoodPair(s.disk, id) ==> id in s.disk.meta
    {
      GoodAfterRemoving(s.disk, k, fault, id);
      if GoodPair(s.disk, id) {
        GoodPairIsDescribed(s.disk, id);
      }
    }
  }

  lemma HasIdMore(records: seq<Record>, r: Record, id: Id)
    ensures HasId(records + [r], id) <==> HasId(records, id) || id == r.id
  {
    var all := records + [r];
    assert all[|records|] == r;
    if HasId(records, id) {
      var i :| 0 <= i < |records| && records[i].id == id;
      assert all[i].id == id;
    }
  }

  lemma PairComplete(s: State, k: Id, fault: bool)
    requires s.load.Pairs? && DropsBad(s.disk, s.load) && LoadComplete(s.disk, s.load, s.known)
    ensures var t := LoadPair(s, k, fault, false); LoadComplete(t.disk, t.load, t.known)
  {
    hide GoodPair, GoodHelper, HasId, RemoveImage, RemoveMeta;
    var l := s.load;
    if l.drop.NoDrop? {
      if k in l.todo && GoodPair(s.disk, k) {
        GoodPairIsDescribed(s.disk, k);
        var record := Record(k, s.disk.meta[k].capturedAt, s.disk.image[k]);
        forall id
          ensures HasId(l.records + [record], id) <==> HasId(l.records, id) || id == k
        {
          HasIdMore(l.records, record, id);
        }
      }
    } else {
      forall id
        ensures GoodPair(RemoveImage(s.disk, l.drop.id, fault), id) ==> GoodPair(s.disk, id)
        ensures GoodPair(RemoveMeta(s.disk, l.drop.id, fault), id) ==> GoodPair(s.disk, id)
        ensures GoodHelper(RemoveImage(s.disk, l.drop.id, fault), id) <==> GoodHelper(s.disk, id)
        ensures GoodHelper(RemoveMeta(s.disk, l.drop.id, fault), id) <==> GoodHelper(s.disk, id)
      {
        GoodAfterRemoving(s.disk, l.drop.id, fault, id);
      }
    }
  }

  lemma HelperComplete(s: State, k: Id, now: int, fault: bool)
    requires s.load.Helpers? && s.load.save.NoSave? && LoadComplete(s.disk, s.load, s.known)
    ensures var t := LoadHelper(s, k, now, fault, false); LoadComplete(t.disk, t.load, t.known)
  {
    hide GoodPair, GoodHelper, HasId, RemoveHelper, Sort, Newest;
    forall id
      ensures GoodPair(RemoveHelper(s.disk, k, fault), id) <==> GoodPair(s.disk, id)
      ensures GoodHelper(RemoveHelper(s.disk, k, fault), id) ==> GoodHelper(s.disk, id)
    {
      GoodAfterRemoving(s.disk, k, fault, id);
    }
  }

  lemma SaveComplete(s: State, fault: bool)
    requires s.load.Helpers? && !s.load.save.NoSave? && LoadComplete(s.disk, s.load, s.known)
    ensures var t := LoadSave(s, fault); LoadComplete(t.disk, t.load, t.known)
  {
    hide GoodPair, GoodHelper, HasId, RemoveHelper, RemoveImage, WriteImage, WriteMeta;
    var l := s.load;
    match l.save
    case UnlinkHelper(k) =>
      forall id
        ensures GoodPair(RemoveHelper(s.disk, k, fault), id) <==> GoodPair(s.disk, id)
        ensures GoodHelper(RemoveHelper(s.disk, k, fault), id) ==> GoodHelper(s.disk, id)
      {
        GoodAfterRemoving(s.disk, k, fault, id);
      }
    case UndoImage(r) =>
      forall id
        ensures GoodPair(RemoveImage(s.disk, r.id, fault), id) ==> GoodPair(s.disk, id)
        ensures GoodHelper(RemoveImage(s.disk, r.id, fault), id) <==> GoodHelper(s.disk, id)
      {
        GoodAfterRemoving(s.disk, r.id, fault, id);
      }
    case SaveImage(r) =>
      forall id | id != r.id
        ensures GoodPair(WriteImage(s.disk, r), id) <==> GoodPair(s.disk, id)
        ensures GoodHelper(WriteImage(s.disk, r), id) <==> GoodHelper(s.disk, id)
      {
        GoodAfterWriting(s.disk, r, id);
      }
    case SaveMeta(r) =>
      forall id
        ensures HasId(l.records + [r], id) <==> HasId(l.records, id) || id == r.id
        ensures id != r.id ==> (GoodPair(WriteMeta(s.disk, r), id) <==> GoodPair(s.disk, id))
        ensures id != r.id ==> (GoodHelper(WriteMeta(s.disk, r), id) <==> GoodHelper(s.disk, id))
      {
        HasIdMore(l.records, r, id);
        if id != r.id {
          GoodAfterWriting(s.disk, r, id);
        }
      }
    case NoSave =>
  }

  lemma ShotComplete(d: Disk, load: Load, known: set<Id>, k: Id, bytes: Bytes)
    requires LoadComplete(d, load, known) && k !in known
    ensures LoadComplete(d.(helper := d.helper[k := bytes]), load, known)
  {
    hide ValidPng, Describes, HasId, Saving;
  }

  lemma StepComplete(s: State, e: Event)
    requires Inv(s) && DropsBad(s.disk, s.load) && LoadComplete(s.disk, s.load, s.known)
    requires e.LoadNext? ==> !e.readFault
    ensures var t := Step(s, e); LoadComplete(t.disk, t.load, t.known)
  {
    hide LoadInv, ConsumerInv, AckInv, Agree, DropsBad, Owned, GoodPair, GoodHelper, HasId, ConsumeStep, AckStep,
      LoadPair, LoadHelper, LoadSave, LoadOrphan;
    match e
    case Shot(k, bytes) => if k !in s.used { ShotComplete(s.disk, s.load, s.known, k, bytes); }
    case LoadNext(k, now, fault, readFault) =>
      match s.load {
        case Orphans(_, _) => OrphanComplete(s, k, fault);
        case Pairs(_, _, _, _) => PairComplete(s, k, fault);
        case Helpers(_, save, _, _, _) =>
          if save.NoSave? {
            HelperComplete(s, k, now, fault);
          } else {
            SaveComplete(s, fault);
          }
        case _ =>
      }
    case ConsumeNext(fault) =>
      ConsumeOnlyLoaded(s, fault);
      ConsumeKeepsKnown(s, fault);
    case AckNext(token, fault) =>
      if token in s.acks {
        AckKeepsLoad(s, token, fault);
      }
    case BeginLoad => if s.load.NotLoaded? { BeginComplete(s); }
    case _ =>
  }

  lemma ConsumeKeepsKnown(s: State, fault: bool)
    ensures ConsumeStep(s, fault).known == s.known
  {
    hide GoodHelper;
  }

  lemma BeginComplete(s: State)
    requires s.load.NotLoaded?
    ensures LoadComplete(Begin(s).disk, Begin(s).load, Begin(s).known)
  {
  }

  lemma {:induction false} RunComplete(s: State, events: seq<Event>)
    requires Inv(s) && DropsBad(s.disk, s.load) && LoadComplete(s.disk, s.load, s.known) && GoodReads(s, events)
    ensures var t := Run(s, events); LoadComplete(t.disk, t.load, t.known)
    decreases |events|
  {
    hide Inv, Step, DropsBad, LoadComplete, FailsAGoodRead;
    if events != [] {
      var rest, last := events[..|events| - 1], events[|events| - 1];
      GoodReadsBefore(s, events);
      RunComplete(s, rest);
      RunKeeps(s, rest);
      RunDropsBad(s, rest);
      OtherReadsMayFail(Run(s, rest), last);
      StepComplete(Run(s, rest), Heard(last));
    }
  }

  // When a load, in any run, has visited every entry and no copy failed: one record for
  // each capture on disk when it began, with its contents, in order of time; the newest of
  // them, up to the limit, become the list, and the others are to be evicted.
  lemma LoadFindsEverything(s: State, k: Id, now: int)
    requires Inv(s) && LoadComplete(s.disk, s.load, s.known)
    requires s.load.Helpers? && s.load.save.NoSave? && s.load.todo == {} && s.load.failed == {}
    ensures var t := LoadHelper(s, k, now, false, false);
            && t.load.Overflow? && t.disk == s.disk
            && var all := t.load.excess + t.load.kept;
               && DistinctIds(all) && Ordered(all) && RecordsHold(s.disk, all)
               && |t.load.kept| <= MAX_PENDING && (t.load.excess != [] ==> |t.load.kept| == MAX_PENDING)
               && (forall id :: id in s.known ==> (Durable(s.disk, id) <==> HasId(all, id)))
  {
    hide Owned, Agree, ConsumerInv, AckInv, GoodHelper, PairHolds, DistinctIds, Ordered, HasId;
    var records := s.load.records;
    var t := LoadHelper(s, k, now, false, false);
    SortMeans(records);
    assert t.load.excess + t.load.kept == Sort(records);
    forall id
      ensures HasId(Sort(records), id) <==> HasId(records, id)
      ensures HasId(records, id) ==> GoodPair(s.disk, id)
    {
      SameIds(records, Sort(records), id);
      if HasId(records, id) {
        var bytes := HasRecord(s.disk, records, id);
        assert GoodPair(s.disk, id) by { PairIsGood(s.disk, id, bytes); }
      }
    }
    forall i | 0 <= i < |Sort(records)|
      ensures RecordHolds(s.disk, Sort(records)[i])
    {
      assert Sort(records)[i] in records;
    }
  }

  lemma PairIsGood(d: Disk, id: Id, bytes: Bytes)
    requires PairHolds(d, id, bytes)
    ensures GoodPair(d, id)
  {
  }

  lemma SameIds(a: seq<Record>, b: seq<Record>, id: Id)
    requires forall r :: r in a <==> r in b
    ensures HasId(a, id) <==> HasId(b, id)
  {
    if HasId(a, id) {
      var i :| 0 <= i < |a| && a[i].id == id;
      assert a[i] in b;
    }
    if HasId(b, id) {
      var i :| 0 <= i < |b| && b[i].id == id;
      assert b[i] in a;
    }
  }

  // ---- A failing read ----

  // Such misreads do lose captures, from the first start on: of a pair,
  lemma MisreadLosesACapture(id: Id, bytes: Bytes, capturedAt: int) returns (s: State, events: seq<Event>)
    requires ValidPng(bytes)
    ensures Inv(s) && DropsBad(s.disk, s.load) && Holds(s.disk, id, bytes)
    ensures var t := Run(s, events); id !in t.released && !Durable(t.disk, id)
  {
    var disk := Disk(map[], map[id := bytes], map[id := Stored(id, capturedAt, |bytes|)]);
    BootEstablishes(disk);
    s := Boot(disk);
    var visit, next := LoadNext(id, 0, false, true), LoadNext(id, 0, false, false);
    events := [BeginLoad] + [next] + [visit] + [next];
    hide ValidPng, Run;
    RunNothing(s);
    RunOne(s, [], BeginLoad);
    assert [] + [BeginLoad] == [BeginLoad];
    RunOne(s, [BeginLoad], next);
    RunOne(s, [BeginLoad] + [next], visit);
    RunOne(s, [BeginLoad] + [next] + [visit], next);
    var entries := Entries({id}, {});
    assert Begin(s).load == Orphans({}, entries);
    var visited := s.(load := Pairs({}, DropImage(id), entries, []), known := {id});
    assert Run(s, [BeginLoad] + [next] + [visit]) == visited;
  }

  // ... and of a helper's file.
  lemma MisreadLosesAHelperFile(id: Id, bytes: Bytes) returns (s: State, events: seq<Event>)
    requires ValidPng(bytes)
    ensures Inv(s) && DropsBad(s.disk, s.load) && Holds(s.disk, id, bytes)
    ensures var t := Run(s, events); id !in t.released && !Durable(t.disk, id)
  {
    var disk := Disk(map[id := bytes], map[], map[]);
    BootEstablishes(disk);
    s := Boot(disk);
    var visit, next := LoadNext(id, 0, false, true), LoadNext(id, 0, false, false);
    events := [BeginLoad] + [next] + [next] + [visit];
    hide ValidPng, Run;
    RunNothing(s);
    RunOne(s, [], BeginLoad);
    assert [] + [BeginLoad] == [BeginLoad];
    RunOne(s, [BeginLoad], next);
    RunOne(s, [BeginLoad] + [next], next);
    RunOne(s, [BeginLoad] + [next] + [next], visit);
    var entries := Entries({}, {id});
    assert Begin(s).load == Orphans({}, entries);
    var found := s.(load := Helpers({id}, NoSave, entries, [], {}), known := {id});
    assert Run(s, [BeginLoad] + [next] + [next]) == found;
  }

  lemma RunNothing(s: State)
    ensures Run(s, []) == s
  {
  }

  lemma RunOne(s: State, events: seq<Event>, e: Event)
    ensures Run(s, events + [e]) == Step(Run(s, events), e)
  {
    hide Step;
    assert (events + [e])[..|events|] == events;
  }

  // ---- What the list promises ----

  predicate Safe(d: Disk, released: set<Id>, r: Record) {
    r.id in released || Holds(d, r.id, r.bytes)
  }

  ghost predicate AllSafe(d: Disk, released: set<Id>, records: seq<Record>) {
    && |records| <= MAX_PENDING && DistinctIds(records)
    && forall i :: 0 <= i < |records| ==> Safe(d, released, records[i])
  }

  // A capture in the list, or about to be, is on disk until acknowledged or evicted.
  ghost predicate ListSafe(s: State) {
    && AllSafe(s.disk, s.released, s.pending)
    && (s.load.Overflow? ==> AllSafe(s.disk, s.released, s.load.kept))
    && (s.consumer.Appending? ==> Safe(s.disk, s.released, s.consumer.record))
  }

  // Only while the list is empty can a load lose anything.
  predicate PastHelpers(load: Load) {
    !load.Pairs? && !load.Helpers?
  }

  lemma StepKeepsSafe(s: State, e: Event, r: Record)
    requires Inv(s) && PastHelpers(s.load)
    requires Safe(s.disk, s.released, r)
    ensures Safe(Step(s, e).disk, Step(s, e).released, r)
  {
    hide Inv, Holds, Step;
    StepReleases(s, e);
    if r.id !in s.released {
      StepLosesExactly(s, e, r.id, r.bytes);
    }
  }

  lemma StepKeepsAllSafe(s: State, e: Event, records: seq<Record>)
    requires Inv(s) && PastHelpers(s.load)
    requires AllSafe(s.disk, s.released, records)
    ensures AllSafe(Step(s, e).disk, Step(s, e).released, records)
  {
    hide Inv, Safe, Step;
    forall i | 0 <= i < |records|
      ensures Safe(Step(s, e).disk, Step(s, e).released, records[i])
    {
      StepKeepsSafe(s, e, records[i]);
    }
  }

  lemma AppendedSafe(d: Disk, released: set<Id>, pending: seq<Record>, r: Record)
    requires AllSafe(d, released, pending) && Safe(d, released, r)
    ensures AllSafe(d, released, Appended(pending, r))
  {
    hide Safe;
    WithoutMeans(pending, r.id);
    WithoutDistinct(pending, r.id);
    var kept := Without(pending, r.id);
    forall i | 0 <= i < |kept|
      ensures Safe(d, released, kept[i]) && kept[i].id != r.id
    {
      assert kept[i] in pending;
    }
  }

  lemma WithoutSafe(d: Disk, released: set<Id>, pending: seq<Record>, id: Id)
    requires AllSafe(d, released, pending)
    ensures AllSafe(d, released, Without(pending, id))
  {
    hide Safe;
    WithoutMeans(pending, id);
    WithoutDistinct(pending, id);
    var kept := Without(pending, id);
    forall i | 0 <= i < |kept|
      ensures Safe(d, released, kept[i])
    {
      assert kept[i] in pending;
    }
  }

  lemma NewestSafe(d: Disk, released: set<Id>, records: seq<Record>)
    requires RecordsHold(d, records)
    ensures AllSafe(d, released, Newest(Sort(records)))
  {
    hide PairHolds, HelperHolds;
    SortMeans(records);
    var sorted := Sort(records);
    forall i | 0 <= i < |sorted|
      ensures Safe(d, released, sorted[i])
    {
      assert sorted[i] in records;
    }
  }

  lemma StepListSafe(s: State, e: Event)
    requires Inv(s) && ListSafe(s)
    ensures ListSafe(Step(s, e))
  {
    if PastHelpers(s.load) {
      StepKeepsAllSafe(s, e, s.pending);
    } else {
      NoneSafe(Step(s, e).disk, Step(s, e).released);
    }
    hide Inv, Safe, AllSafe, Holds, GoodPair, GoodHelper, HasId, Appended, Discarded, Sort, Newest;
    if s.load.Overflow? {
      StepKeepsAllSafe(s, e, s.load.kept);
    }
    match e
    case LoadNext(id, now, fault, readFault) => NewKeptSafe(s, id, now, fault, readFault);
    case ConsumeNext(fault) =>
      if s.consumer.Unlinking? {
        UnlinkedIsSafe(s, fault);
      }
      if s.consumer.Appending? {
        AppendedSafe(s.disk, s.released, s.pending, s.consumer.record);
      }
    case AckNext(token, fault) =>
      if token in s.acks && s.acks[token].AckList? {
        WithoutSafe(s.disk, s.released, s.pending, s.acks[token].id);
      }
      if s.consumer.Appending? { StepKeepsSafe(s, e, s.consumer.record); }
    case Shot(_, _) => if s.consumer.Appending? { StepKeepsSafe(s, e, s.consumer.record); }
    case Crash => NoneSafe(s.disk, s.released);
    case DisposeManager => NoneSafe(s.disk, s.released);
    case _ =>
  }

  lemma NoneSafe(d: Disk, released: set<Id>)
    ensures AllSafe(d, released, [])
  {
  }

  lemma UnlinkedIsSafe(s: State, fault: bool)
    requires Inv(s) && s.consumer.Unlinking?
    ensures Safe(ConsumeStep(s, fault).disk, s.released, s.consumer.record)
  {
    hide PairHolds, HelperHolds, Agree, Owned;
    var r := s.consumer.record;
    RemovingHelper(s.disk, r.id, fault, r.id, r.bytes);
  }

  lemma NewKeptSafe(s: State, id: Id, now: int, fault: bool, readFault: bool)
    requires Inv(s)
    ensures s.load.Helpers? && LoadStep(s, id, now, fault, readFault).load.Overflow? ==>
              var t := LoadStep(s, id, now, fault, readFault);
              AllSafe(t.disk, t.released, t.load.kept)
    ensures LoadStep(s, id, now, fault, readFault).load.Overflow? ==> s.load.Helpers? || s.load.Overflow?
    ensures var t := LoadStep(s, id, now, fault, readFault);
            s.load.Overflow? ==> (t.load.Overflow? ==> t.load.kept == s.load.kept)
                                 && (!t.load.Overflow? ==> t.pending == s.load.kept)
    ensures !s.load.Overflow? ==> LoadStep(s, id, now, fault, readFault).pending == s.pending
    ensures LoadStep(s, id, now, fault, readFault).consumer == s.consumer
    ensures !s.load.Loaded? ==> !s.consumer.Appending?
    ensures s.load.Loaded? ==> LoadStep(s, id, now, fault, readFault) == s
  {
    hide Owned, Agree, ConsumerInv, AckInv, GoodPair, GoodHelper, HasId, Sort, Newest, RecordsHold, AllSafe;
    if s.load.Helpers? {
      NewestSafe(s.disk, s.released, s.load.records);
    }
  }

  lemma {:induction false} RunListSafe(s: State, events: seq<Event>)
    requires Inv(s) && ListSafe(s)
    ensures ListSafe(Run(s, events))
    decreases |events|
  {
    hide Inv, Step, ListSafe;
    if events != [] {
      var rest, last := events[..|events| - 1], events[|events| - 1];
      RunListSafe(s, rest);
      RunKeeps(s, rest);
      StepListSafe(Run(s, rest), last);
    }
  }

  // ---- The manager, step by step ----

  // Each public method is one event of Step, done in place. So whatever order they are called
  // in, View() is a Run from Boot, and LostExactly, RunComplete, RunListSafe and GoneForGood
  // hold of the object.
  class CaptureStore {
    var helper: map<Id, Bytes>
    var image: map<Id, Bytes>
    var meta: map<Id, Meta>
    var load: Load
    var pending: seq<Record>
    var consumer: Consumer
    var acks: map<nat, Ack>
    ghost var released: set<Id>
    ghost var used: set<Id>
    ghost var known: set<Id>

    ghost function View(): State
      reads this
    {
      State(Disk(helper, image, meta), load, pending, consumer, acks, released, used, known)
    }

    ghost predicate Valid()
      reads this
    {
      Inv(View())
    }

    constructor (helper: map<Id, Bytes>, image: map<Id, Bytes>, meta: map<Id, Meta>)
      requires Agree(Disk(helper, image, meta))
      ensures Valid() && View() == Boot(Disk(helper, image, meta))
    {
      this.helper, this.image, this.meta := helper, image, meta;
      load, pending, consumer, acks := NotLoaded, [], Quiet, map[];
      released, used, known := {}, helper.Keys + image.Keys + meta.Keys, {};
      new;
      BootEstablishes(Disk(helper, image, meta));
    }

    method UnlinkHelperFile(id: Id, fault: bool)
      modifies this`helper
      ensures Disk(helper, image, meta) == RemoveHelper(old(Disk(helper, image, meta)), id, fault)
    {
      if !fault {
        helper := helper - {id};
      }
    }

    method UnlinkImage(id: Id, fault: bool)
      modifies this`image
      ensures Disk(helper, image, meta) == RemoveImage(old(Disk(helper, image, meta)), id, fault)
    {
      if !fault {
        image := image - {id};
      }
    }

    method UnlinkMeta(id: Id, fault: bool)
      modifies this`meta
      ensures Disk(helper, image, meta) == RemoveMeta(old(Disk(helper, image, meta)), id, fault)
    {
      if !fault {
        meta := meta - {id};
      }
    }

    // The process dies and starts again: only the directory is left.
    method Restart()
      requires Valid()
      modifies this
      ensures Valid() && View() == Step(old(View()), Crash)
    {
      hide Inv;
      StepKeeps(View(), Crash);
      load, pending, consumer, acks := NotLoaded, [], Quiet, map[];
    }

    // #loadPendingCaptures up to its first file step.
    method BeginLoading()
      requires Valid()
      modifies this
      ensures Valid() && View() == Step(old(View()), BeginLoad)
    {
      hide Inv;
      StepKeeps(View(), BeginLoad);
      if load.NotLoaded? {
        load := Orphans(image.Keys - meta.Keys, Entries(meta.Keys, helper.Keys));
        known := used;
      }
    }

    // The helper writes the file of a new capture.
    method HelperWrites(id: Id, bytes: Bytes)
      requires Valid() && id !in used
      modifies this
      ensures Valid() && View() == Step(old(View()), Shot(id, bytes))
    {
      hide Inv;
      StepKeeps(View(), Shot(id, bytes));
      helper := helper[id := bytes];
      used := used + {id};
    }

    // The next step of #loadPendingCaptures, at the given entry.
    method LoadNextStep(id: Id, now: int, fault: bool, readFault: bool)
      requires Valid()
      modifies this
      ensures Valid() && View() == Step(old(View()), LoadNext(id, now, fault, readFault))
    {
      hide Inv, GoodPair, GoodHelper, HasId;
      StepKeeps(View(), LoadNext(id, now, fault, readFault));
      match load
      case Orphans(todo, entries) =>
        if todo == {} {
          load := Pairs(entries.metas, NoDrop, entries, []);
        } else if id in todo {
          UnlinkImage(id, fault);
          load := Orphans(todo - {id}, entries);
        }
      case Pairs(_, _, _, _) => LoadNextPair(id, fault, readFault);
      case Helpers(_, save, _, _, _) =>
        if save.NoSave? {
          LoadNextHelper(id, now, fault, readFault);
        } else {
          RecoverNextStep(fault);
        }
      case Overflow(excess, imageGone, kept) =>
        if excess == [] {
          load, pending := Loaded, kept;
        } else {
          var record := excess[0];
          if imageGone {
            UnlinkMeta(record.id, fault);
            load := Overflow(excess[1..], false, kept);
          } else if fault {
            load := Overflow(excess[1..], false, kept);
          } else {
            UnlinkImage(record.id, false);
            released := released + {record.id};
            load := Overflow(excess, true, kept);
          }
        }
      case NotLoaded =>
      case Loaded =>
    }

    method LoadNextPair(id: Id, fault: bool, readFault: bool)
      requires load.Pairs?
      modifies this
      ensures View() == LoadPair(old(View()), id, fault, readFault)
    {
      var todo, drop, entries, records := load.todo, load.drop, load.entries, load.records;
      match drop
      case DropImage(k) =>
        UnlinkImage(k, fault);
        load := Pairs(todo, DropMeta(k), entries, records);
      case DropMeta(k) =>
        UnlinkMeta(k, fault);
        load := Pairs(todo, NoDrop, entries, records);
      case NoDrop =>
        if todo == {} {
          load := Helpers(entries.helpers, NoSave, entries, records, {});
        } else if id in todo {
          if id in meta && meta[id].Stored? && meta[id].id == id && id in image && meta[id].sizeBytes == |image[id]|
             && ValidPng(image[id]) && !readFault {
            var record := Record(id, meta[id].capturedAt, image[id]);
            load := Pairs(todo - {id}, NoDrop, entries, records + [record]);
          } else {
            load := Pairs(todo - {id}, DropImage(id), entries, records);
          }
        }
    }

    method LoadNextHelper(id: Id, now: int, fault: bool, readFault: bool)
      requires load.Helpers? && load.save.NoSave?
      modifies this
      ensures View() == LoadHelper(old(View()), id, now, fault, readFault)
    {
      hide HasId, Sort, Newest;
      var todo, entries, records, failed := load.todo, load.entries, load.records, load.failed;
      if todo == {} {
        var sorted := Sort(records);
        var excess := if |sorted| > MAX_PENDING then |sorted| - MAX_PENDING else 0;
        load := Overflow(sorted[..excess], false, Newest(sorted));
      } else if id in todo {
        if HasId(records, id) || id !in helper || !ValidPng(helper[id]) || readFault {
          UnlinkHelperFile(id, fault);
          load := Helpers(todo - {id}, NoSave, entries, records, failed);
        } else {
          load := Helpers(todo - {id}, SaveImage(Record(id, now, helper[id])), entries, records, failed);
        }
      }
    }

    // #persistPendingCapture for a recovered helper file.
    method RecoverNextStep(fault: bool)
      requires load.Helpers? && !load.save.NoSave?
      modifies this
      ensures View() == LoadSave(old(View()), fault)
    {
      var todo, entries, records, failed := load.todo, load.entries, load.records, load.failed;
      match load.save
      case SaveImage(r) =>
        if fault {
          load := Helpers(todo, NoSave, entries, records, failed + {r.id});
        } else {
          image := image[r.id := r.bytes];
          load := Helpers(todo, SaveMeta(r), entries, records, failed);
        }
      case SaveMeta(r) =>
        if fault {
          load := Helpers(todo, UndoImage(r), entries, records, failed);
        } else {
          meta := meta[r.id := Stored(r.id, r.capturedAt, |r.bytes|)];
          load := Helpers(todo, UnlinkHelper(r.id), entries, records + [r], failed);
        }
      case UndoImage(r) =>
        UnlinkImage(r.id, fault);
        load := Helpers(todo, NoSave, entries, records, failed + {r.id});
      case UnlinkHelper(k) =>
        UnlinkHelperFile(k, fault);
        load := Helpers(todo, NoSave, entries, records, failed);
    }

    // dispose(), as far as the store goes: what is under way goes on.
    method DisposeStore()
      requires Valid()
      modifies this`pending
      ensures Valid() && View() == Step(old(View()), DisposeManager)
    {
      hide Inv;
      StepKeeps(View(), DisposeManager);
      pending := [];
    }

    // A captured message reaches the head of the queue.
    method BeginConsume(id: Id, capturedAt: int)
      requires Valid()
      modifies this
      ensures Valid() && View() == Step(old(View()), Consume(id, capturedAt))
    {
      hide Inv;
      StepKeeps(View(), Consume(id, capturedAt));
      if consumer.Quiet? {
        consumer := Reading(id, capturedAt);
      }
    }

    // The next step of #consumeCapture.
    method ConsumeNextStep(fault: bool)
      requires Valid()
      modifies this
      ensures Valid() && View() == Step(old(View()), ConsumeNext(fault))
    {
      hide Inv, Appended, Discarded;
      StepKeeps(View(), ConsumeNext(fault));
      match consumer
      case Quiet =>
      case Reading(id, capturedAt) =>
        if load.Loaded? {
          if id in helper && ValidPng(helper[id]) && !fault {
            consumer := SavingImage(Record(id, capturedAt, helper[id]));
          } else {
            consumer := Quiet;
          }
        }
      case SavingImage(r) =>
        if fault {
          consumer := Quiet;
        } else {
          image := image[r.id := r.bytes];
          consumer := SavingMeta(r);
        }
      case SavingMeta(r) =>
        if fault {
          consumer := Undoing(r);
        } else {
          meta := meta[r.id := Stored(r.id, r.capturedAt, |r.bytes|)];
          consumer := Unlinking(r);
        }
      case Undoing(r) =>
        UnlinkImage(r.id, fault);
        consumer := Quiet;
      case Unlinking(r) =>
        UnlinkHelperFile(r.id, fault);
        consumer := Appending(r);
      case Appending(r) =>
        var discarded := Discarded(pending, r);
        pending := Appended(pending, r);
        consumer := if discarded.Some? then DiscardingImage(discarded.value) else Quiet;
      case DiscardingImage(r) =>
        if fault {
          consumer := Quiet;
        } else {
          UnlinkImage(r.id, false);
          released := released + {r.id};
          consumer := DiscardingMeta(r);
        }
      case DiscardingMeta(r) =>
        UnlinkMeta(r.id, fault);
        consumer := Quiet;
    }

    // acknowledgeCapture up to its first file step.
    method BeginAcknowledge(token: nat, id: Id)
      requires Valid() && load.Loaded? && token !in acks
      modifies this
      ensures Valid() && View() == Step(old(View()), Event.Acknowledge(token, id))
    {
      hide Inv, HasId;
      StepKeeps(View(), Event.Acknowledge(token, id));
      acks := acks[token := if HasId(pending, id) then AckImage(id) else AckList(id)];
    }

    // The next step of an acknowledgement.
    method AcknowledgeNextStep(token: nat, fault: bool)
      requires Valid() && token in acks
      modifies this
      ensures Valid() && View() == Step(old(View()), AckNext(token, fault))
    {
      hide Inv, Without;
      StepKeeps(View(), AckNext(token, fault));
      match acks[token]
      case AckImage(id) =>
        if fault {
          acks := acks - {token};
        } else {
          UnlinkImage(id, false);
          released := released + {id};
          acks := acks[token := AckMeta(id)];
        }
      case AckMeta(id) =>
        if fault {
          acks := acks - {token};
        } else {
          UnlinkMeta(id, false);
          acks := acks[token := AckList(id)];
        }
      case AckList(id) =>
        pending := Without(pending, id);
        acks := acks - {token};
    }
  }
}

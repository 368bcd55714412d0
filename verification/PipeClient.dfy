// One connection of the browser host pipe server
// (apps/desktop/src/browserUsePipeServer.ts, PipeClient, handleData to write).
//
// A request handler is an async function: it runs until its first await inside
// handleData, resumes once with the result of the tool, and only then gives its
// in-flight slot back. Each of these segments runs without interruption, so each
// is one step here and a run is any order of steps. The steps are functions on
// the connection's state; class Client performs them in place.
module PipeClient {
  import opened Wrappers
  import opened PipeFrames

  // asString: absent, not a string and blank strings all read as None.
  datatype ToolParams = ToolParams(
    sessionId: Option<string>, provider: Option<string>, threadId: Option<string>, name: Option<string>,
    workspaceRootAllowed: bool)

  datatype RpcCall =
    | Ping
    | GetInfo(sessionId: Option<string>, capability: Option<string>)
    | ExecuteTool(params: ToolParams)
    | UnknownMethod

  // A parsed message that is a JSON object. Ids are compared as Map keys are.
  datatype RpcRequest<+Id> = RpcRequest(id: Option<Id>, call: Option<RpcCall>)

  datatype Config<!Id> = Config(
    order: Endianness,
    parse: seq<byte> -> Option<RpcRequest<Id>>,
    capability: string,
    maxInFlightRequests: nat,
    replyTooLarge: nat -> bool)     // whether the reply to the n-th message exceeds MAX_MESSAGE_BYTES

  datatype Handler<+Id> =
    | Awaiting(id: Id)   // suspended on its result, its abort controller registered
    | Finishing          // returned; the in-flight slot is not given back yet

  datatype WriteResult = Written | Overflow | Closed

  // What a reply says: an error of the server itself, or the end of the handler.
  datatype Answer = TooManyRequests | DuplicateId | Threw | Finished

  // One call of write(): the message it answers, with what, and what became of it.
  datatype Reply = Reply(serial: nat, answer: Answer, result: WriteResult)

  datatype ToolExecution = ToolExecution(serial: nat, sessionId: string, threadId: string)

  datatype Conn<Id> = Conn(
    socketOpen: bool,
    pending: seq<byte>,
    inFlightRequests: nat,
    sessionId: Option<string>,
    threadId: Option<string>,
    abortControllers: map<Id, nat>,       // the controller of the n-th message
    handlers: map<nat, Handler<Id>>,      // the suspended handlers, by message number
    // the history of the connection
    stream: seq<byte>,                    // every byte the socket delivered
    messages: seq<seq<byte>>,             // every message taken from it
    released: bool,
    rejected: set<nat>,                   // refused because of the in-flight limit
    finished: set<nat>,                   // accepted and completely done
    replies: seq<Reply>,                  // every call of write(), in order
    executions: seq<ToolExecution>)

  function NewConn<Id>(): Conn<Id> {
    Conn(true, [], 0, None, None, map[], map[], [], [], false, {}, {}, [], [])
  }

  // ---- The steps ----

  function Write<Id>(cfg: Config<Id>, c: Conn<Id>, n: nat, answer: Answer): Conn<Id> {
    if !c.socketOpen then c.(replies := c.replies + [Reply(n, answer, Closed)])
    else if cfg.replyTooLarge(n) then c.(replies := c.replies + [Reply(n, answer, Overflow)], socketOpen := false)
    else c.(replies := c.replies + [Reply(n, answer, Written)])
  }

  // getInfo: succeeds or throws. A missing capability never equals the
  // configured one, which has at least 32 bytes.
  predicate InfoGranted<Id>(cfg: Config<Id>, c: Conn<Id>, session: Option<string>, supplied: Option<string>) {
    && session.Some? && supplied == Some(cfg.capability)
    && (c.sessionId == None || c.sessionId == session)
  }

  // executeTool: reaches the automation host or throws.
  predicate ToolGranted<Id>(c: Conn<Id>, p: ToolParams) {
    && p.workspaceRootAllowed
    && p.sessionId.Some? && p.sessionId == c.sessionId
    && p.provider.Some? && p.threadId.Some? && p.name.Some?
    && (c.threadId == None || c.threadId == p.threadId)
  }

  // handleRequest: the new state and whether a result is awaited.
  function HandleRequest<Id>(cfg: Config<Id>, c: Conn<Id>, n: nat, call: RpcCall): (Conn<Id>, bool) {
    match call
    case Ping => (c, true)
    case GetInfo(session, supplied) =>
      if InfoGranted(cfg, c, session, supplied) then (c.(sessionId := session), true) else (c, false)
    case ExecuteTool(p) =>
      if ToolGranted(c, p)
      then (c.(threadId := p.threadId,
               executions := c.executions + [ToolExecution(n, p.sessionId.value, p.threadId.value)]), true)
      else (c, false)
    case UnknownMethod => (c, false)
  }

  // The id of a message that is an object with an id.
  function IdOf<Id>(cfg: Config<Id>, raw: seq<byte>): Option<Id> {
    var request := cfg.parse(raw);
    if request.Some? then request.value.id else None
  }

  // The id of a well-formed request: an object with an id and a string method.
  function RequestId<Id>(cfg: Config<Id>, raw: seq<byte>): Option<Id> {
    if cfg.parse(raw).Some? && cfg.parse(raw).value.call.Some? then IdOf(cfg, raw) else None
  }

  // A new message over the in-flight limit, or one that takes a slot.
  function Refuse<Id>(c: Conn<Id>, raw: seq<byte>): Conn<Id> {
    c.(messages := c.messages + [raw], rejected := c.rejected + {|c.messages|})
  }

  function TakeSlot<Id>(c: Conn<Id>, raw: seq<byte>): Conn<Id> {
    c.(messages := c.messages + [raw], inFlightRequests := c.inFlightRequests + 1,
       handlers := c.handlers[|c.messages| := Finishing])
  }

  // Awaiting the result with the abort controller registered, and the end of that wait.
  function Suspend<Id>(c: Conn<Id>, n: nat, id: Id): Conn<Id> {
    c.(abortControllers := c.abortControllers[id := n], handlers := c.handlers[n := Awaiting(id)])
  }

  function Resume<Id>(c: Conn<Id>, n: nat): Conn<Id>
    requires n in c.handlers && c.handlers[n].Awaiting?
  {
    c.(abortControllers := c.abortControllers - {c.handlers[n].id}, handlers := c.handlers[n := Finishing])
  }

  // The part of handleMessage before its first await, for the n-th message, whose slot is taken.
  function HandleMessage<Id(==)>(cfg: Config<Id>, c: Conn<Id>, n: nat, raw: seq<byte>): Conn<Id> {
    if RequestId(cfg, raw) == None then c
    else
      var id := RequestId(cfg, raw).value;
      if id in c.abortControllers then Write(cfg, c, n, DuplicateId)
      else
        var (d, awaited) := HandleRequest(cfg, c, n, cfg.parse(raw).value.call.value);
        if awaited then Suspend(d, n, id) else Write(cfg, d, n, Threw)
  }

  // One message of handleData's loop.
  function AcceptMessage<Id(==)>(cfg: Config<Id>, c: Conn<Id>, raw: seq<byte>): Conn<Id> {
    if c.inFlightRequests >= cfg.maxInFlightRequests then
      if IdOf(cfg, raw).Some? then Write(cfg, Refuse(c, raw), |c.messages|, TooManyRequests) else Refuse(c, raw)
    else
      HandleMessage(cfg, TakeSlot(c, raw), |c.messages|, raw)
  }

  function AcceptAll<Id(==)>(cfg: Config<Id>, c: Conn<Id>, raws: seq<seq<byte>>): Conn<Id>
    decreases |raws|
  {
    if raws == [] then c
    else AcceptMessage(cfg, AcceptAll(cfg, c, raws[..|raws| - 1]), raws[|raws| - 1])
  }

  function HandleData<Id(==)>(cfg: Config<Id>, c: Conn<Id>, chunk: seq<byte>): Conn<Id> {
    var scan := ScanStream(cfg.order, c.pending + chunk);
    var d := c.(stream := c.stream + chunk);
    if scan.oversize then d.(socketOpen := false)
    else AcceptAll(cfg, d.(pending := scan.rest), scan.frames)
  }

  // The rest of handleMessage, once its result arrived or its tool threw.
  function Settle<Id>(cfg: Config<Id>, c: Conn<Id>, n: nat): Conn<Id>
    requires n in c.handlers && c.handlers[n].Awaiting?
  {
    Resume(Write(cfg, c, n, Finished), n)
  }

  // The finally callback of handleData.
  function Finish<Id>(c: Conn<Id>, n: nat): Conn<Id>
    requires n in c.handlers && c.inFlightRequests > 0
  {
    c.(inFlightRequests := c.inFlightRequests - 1, handlers := c.handlers - {n}, finished := c.finished + {n})
  }

  // The close or error event of the socket, or dispose().
  function Release<Id>(c: Conn<Id>): Conn<Id> {
    c.(abortControllers := map[], released := true, socketOpen := false)
  }

  datatype Event = Data(chunk: seq<byte>) | Settled(serial: nat) | SlotFreed(serial: nat) | SocketReleased

  // What the runtime can raise: no data from a dead socket, one result per suspended handler.
  predicate Enabled<Id>(c: Conn<Id>, event: Event) {
    match event
    case Data(_) => c.socketOpen
    case Settled(n) => n in c.handlers && c.handlers[n].Awaiting?
    case SlotFreed(n) => n in c.handlers && c.handlers[n].Finishing? && c.inFlightRequests > 0
    case SocketReleased => true
  }

  function Step<Id(==)>(cfg: Config<Id>, c: Conn<Id>, event: Event): Conn<Id> {
    if !Enabled(c, event) then c
    else match event
      case Data(chunk) => HandleData(cfg, c, chunk)
      case Settled(n) => Settle(cfg, c, n)
      case SlotFreed(n) => Finish(c, n)
      case SocketReleased => Release(c)
  }

  // A run of a connection: chunks cut anywhere, results and finalisers in any
  // order, the socket closing at any point.
  function Run<Id(==)>(cfg: Config<Id>, events: seq<Event>): Conn<Id>
    decreases |events|
  {
    if events == [] then NewConn()
    else Step(cfg, Run(cfg, events[..|events| - 1]), events[|events| - 1])
  }

  // ---- What every run keeps ----

  // The messages taken from the stream: all complete frames so far or, once an
  // oversize header killed the socket, a prefix of those before it.
  ghost predicate StreamInv<Id(!new)>(cfg: Config<Id>, c: Conn<Id>) {
    var scan := ScanStream(cfg.order, c.stream);
    && |c.pending| < FRAME_HEADER_BYTES + MAX_MESSAGE_BYTES
    && c.messages <= scan.frames
    && (scan.oversize ==> !c.socketOpen)
    && (!scan.oversize ==> c.messages == scan.frames && c.pending == scan.rest)
  }

  // In-flight accounting: every message is rejected, finished or holds one slot.
  ghost predicate SlotsInv<Id(!new)>(limit: nat, inFlight: nat, count: nat,
                                     rejected: set<nat>, finished: set<nat>, handlers: map<nat, Handler<Id>>)
  {
    && inFlight == |handlers| <= limit
    && (forall n: nat :: n in rejected ==> n !in finished && n !in handlers)
    && (forall n: nat :: n in finished ==> n !in handlers)
    && (forall n: nat :: n in rejected || n in finished || n in handlers <==> n < count)
  }

  // Abort controllers: exactly the suspended requests, under distinct ids, until released.
  ghost predicate ControllersInv<Id(!new)>(
    cfg: Config<Id>, messages: seq<seq<byte>>, controllers: map<Id, nat>, handlers: map<nat, Handler<Id>>,
    released: bool)
  {
    && (forall n: nat :: n in handlers ==> n < |messages|)
    && (forall n: nat :: n in handlers && handlers[n].Awaiting? ==>
          RequestId(cfg, messages[n]) == Some(handlers[n].id))
    && (forall id :: id in controllers ==>
          controllers[id] in handlers && handlers[controllers[id]] == Awaiting(id))
    && (if released then controllers == map[]
        else forall n: nat :: n in handlers && handlers[n].Awaiting? ==>
               handlers[n].id in controllers && controllers[handlers[n].id] == n)
  }

  // Whether the n-th message asks for a reply: a request, or a refused message with an id.
  ghost predicate Answerable<Id(!new)>(cfg: Config<Id>, messages: seq<seq<byte>>, rejected: set<nat>, n: nat)
    requires n < |messages|
  {
    RequestId(cfg, messages[n]).Some? || (n in rejected && IdOf(cfg, messages[n]).Some?)
  }

  ghost predicate Suspended<Id(!new)>(handlers: map<nat, Handler<Id>>, n: nat) {
    n in handlers && handlers[n].Awaiting?
  }

  // How often each message was answered.
  function Answers(replies: seq<Reply>): multiset<nat> {
    if replies == [] then multiset{}
    else Answers(replies[..|replies| - 1]) + multiset{replies[|replies| - 1].serial}
  }

  lemma AnswersNext(replies: seq<Reply>, reply: Reply)
    ensures Answers(replies + [reply]) == Answers(replies) + multiset{reply.serial}
  {
    assert (replies + [reply])[..|replies|] == replies;
  }

  // Replies: exactly one for every answerable message that is not suspended, none for
  // any other. Inside a step one message may still be owed its reply.
  ghost predicate RepliesInv<Id(!new)>(
    cfg: Config<Id>, messages: seq<seq<byte>>, handlers: map<nat, Handler<Id>>, rejected: set<nat>,
    replied: multiset<nat>, owed: Option<nat>)
  {
    && (forall n: nat :: n in replied ==> replied[n] == 1 && n < |messages| && !Suspended(handlers, n))
    && (owed.Some? ==> owed.value < |messages| && owed.value !in replied && !Suspended(handlers, owed.value)
                       && Answerable(cfg, messages, rejected, owed.value))
    && (forall n: nat :: n < |messages| && owed != Some(n) && !Suspended(handlers, n) ==>
          (n in replied <==> Answerable(cfg, messages, rejected, n)))
  }

  // A reply only misses its reader when its frame overflows or the socket is gone.
  ghost predicate WritesInv<Id(!new)>(cfg: Config<Id>, replies: seq<Reply>, socketOpen: bool) {
    forall reply :: reply in replies ==>
      match reply.result
      case Written => !cfg.replyTooLarge(reply.serial)
      case Overflow => cfg.replyTooLarge(reply.serial) && !socketOpen
      case Closed => !socketOpen
  }

  // Every tool ran under the session and thread the connection is bound to.
  ghost predicate BoundInv(executions: seq<ToolExecution>, sessionId: Option<string>, threadId: Option<string>) {
    forall i :: 0 <= i < |executions| ==>
      sessionId == Some(executions[i].sessionId) && threadId == Some(executions[i].threadId)
  }

  ghost predicate LoopInv<Id(!new)>(cfg: Config<Id>, c: Conn<Id>, owed: Option<nat>) {
    && SlotsInv(cfg.maxInFlightRequests, c.inFlightRequests, |c.messages|, c.rejected, c.finished, c.handlers)
    && ControllersInv(cfg, c.messages, c.abortControllers, c.handlers, c.released)
    && RepliesInv(cfg, c.messages, c.handlers, c.rejected, Answers(c.replies), owed)
    && WritesInv(cfg, c.replies, c.socketOpen)
    && BoundInv(c.executions, c.sessionId, c.threadId)
    && (c.released ==> !c.socketOpen)
  }

  ghost predicate Inv<Id(!new)>(cfg: Config<Id>, c: Conn<Id>) {
    StreamInv(cfg, c) && LoopInv(cfg, c, None)
  }

  // What no step undoes: bindings, messages and replies.
  ghost predicate Extends<Id(!new)>(a: Conn<Id>, b: Conn<Id>) {
    && (a.sessionId.Some? ==> b.sessionId == a.sessionId)
    && (a.threadId.Some? ==> b.threadId == a.threadId)
    && a.messages <= b.messages
    && a.replies <= b.replies
  }

  // ... and what the steps inside handleData leave alone besides.
  ghost predicate InLoop<Id(!new)>(a: Conn<Id>, b: Conn<Id>) {
    && Extends(a, b)
    && b.pending == a.pending && b.stream == a.stream && b.released == a.released
    && (!a.socketOpen ==> !b.socketOpen)
  }

  lemma WriteKeeps<Id(!new)>(cfg: Config<Id>, c: Conn<Id>, n: nat, answer: Answer)
    requires LoopInv(cfg, c, Some(n))
    ensures LoopInv(cfg, Write(cfg, c, n, answer), None) && InLoop(c, Write(cfg, c, n, answer))
    ensures Write(cfg, c, n, answer).messages == c.messages
  {
    hide SlotsInv, ControllersInv, BoundInv, Answerable, Suspended, Answers;
    AnswersNext(c.replies, Write(cfg, c, n, answer).replies[|c.replies|]);
  }

  lemma BindKeeps<Id(!new)>(cfg: Config<Id>, c: Conn<Id>, n: nat, call: RpcCall, owed: Option<nat>)
    requires LoopInv(cfg, c, owed)
    ensures var d := HandleRequest(cfg, c, n, call).0;
            && LoopInv(cfg, d, owed) && InLoop(c, d)
            && d.messages == c.messages && d.handlers == c.handlers && d.abortControllers == c.abortControllers
  {
    hide SlotsInv, ControllersInv, RepliesInv, WritesInv, BoundInv, Answers;
    if call.ExecuteTool? && ToolGranted(c, call.params) {
      var p := call.params;
      BoundMore(c.executions, c.sessionId, c.threadId, ToolExecution(n, p.sessionId.value, p.threadId.value));
    }
    if call.GetInfo? && InfoGranted(cfg, c, call.sessionId, call.capability) {
      BoundLater(c.executions, c.sessionId, c.threadId, call.sessionId);
    }
  }

  lemma BoundMore(executions: seq<ToolExecution>, sessionId: Option<string>, threadId: Option<string>, e: ToolExecution)
    requires BoundInv(executions, sessionId, threadId) && sessionId == Some(e.sessionId)
    requires threadId == None || threadId == Some(e.threadId)
    ensures BoundInv(executions + [e], sessionId, Some(e.threadId))
  {
  }

  lemma BoundLater(executions: seq<ToolExecution>, sessionId: Option<string>, threadId: Option<string>,
                   session: Option<string>)
    requires BoundInv(executions, sessionId, threadId) && (sessionId == None || sessionId == session)
    ensures BoundInv(executions, session, threadId)
  {
  }

  lemma ArrivalKeepsReplies<Id(!new)>(
    cfg: Config<Id>, messages: seq<seq<byte>>, raw: seq<byte>,
    before: map<nat, Handler<Id>>, after: map<nat, Handler<Id>>,
    rejectedBefore: set<nat>, rejected: set<nat>, replied: multiset<nat>)
    requires RepliesInv(cfg, messages, before, rejectedBefore, replied, None)
    requires forall n: nat :: n < |messages| ==> Suspended(after, n) == Suspended(before, n)
    requires forall n: nat :: n < |messages| ==> (n in rejected <==> n in rejectedBefore)
    requires !Suspended(after, |messages|)
    ensures RepliesInv(cfg, messages + [raw], after, rejected, replied,
                       if Answerable(cfg, messages + [raw], rejected, |messages|) then Some(|messages|) else None)
  {
  }

  lemma RefusalKeepsReplies<Id(!new)>(cfg: Config<Id>, c: Conn<Id>, raw: seq<byte>)
    requires RepliesInv(cfg, c.messages, c.handlers, c.rejected, Answers(c.replies), None)
    requires |c.messages| !in c.handlers
    ensures var d := Refuse(c, raw);
            RepliesInv(cfg, d.messages, d.handlers, d.rejected, Answers(d.replies),
                       if IdOf(cfg, raw).Some? then Some(|c.messages|) else None)
  {
    hide RepliesInv;
    ArrivalKeepsReplies(cfg, c.messages, raw, c.handlers, c.handlers, c.rejected, Refuse(c, raw).rejected, Answers(c.replies));
  }

  lemma RefuseKeeps<Id(!new)>(cfg: Config<Id>, c: Conn<Id>, raw: seq<byte>)
    requires LoopInv(cfg, c, None)
    ensures LoopInv(cfg, Refuse(c, raw), if IdOf(cfg, raw).Some? then Some(|c.messages|) else None)
    ensures InLoop(c, Refuse(c, raw))
  {
    hide WritesInv, BoundInv, RepliesInv, IdOf, RequestId;
    RefusalKeepsReplies(cfg, c, raw);
  }

  lemma TakeSlotKeepsSlots<Id(!new)>(limit: nat, inFlight: nat, count: nat,
                                     rejected: set<nat>, finished: set<nat>, handlers: map<nat, Handler<Id>>)
    requires SlotsInv(limit, inFlight, count, rejected, finished, handlers) && inFlight < limit
    ensures SlotsInv(limit, inFlight + 1, count + 1, rejected, finished, handlers[count := Finishing])
    ensures count !in rejected && count !in handlers
  {
  }

  lemma RehandleKeepsSlots<Id(!new)>(limit: nat, inFlight: nat, count: nat, rejected: set<nat>, finished: set<nat>,
                                     handlers: map<nat, Handler<Id>>, n: nat, h: Handler<Id>)
    requires SlotsInv(limit, inFlight, count, rejected, finished, handlers) && n in handlers
    ensures SlotsInv(limit, inFlight, count, rejected, finished, handlers[n := h])
  {
  }

  lemma TakeSlotKeepsControllers<Id(!new)>(
    cfg: Config<Id>, messages: seq<seq<byte>>, raw: seq<byte>,
    controllers: map<Id, nat>, handlers: map<nat, Handler<Id>>, released: bool)
    requires ControllersInv(cfg, messages, controllers, handlers, released)
    ensures ControllersInv(cfg, messages + [raw], controllers, handlers[|messages| := Finishing], released)
  {
  }

  lemma TakeSlotKeepsReplies<Id(!new)>(cfg: Config<Id>, c: Conn<Id>, raw: seq<byte>)
    requires RepliesInv(cfg, c.messages, c.handlers, c.rejected, Answers(c.replies), None)
    requires |c.messages| !in c.rejected
    ensures var d := TakeSlot(c, raw);
            RepliesInv(cfg, d.messages, d.handlers, d.rejected, Answers(d.replies),
                       if RequestId(cfg, raw).Some? then Some(|c.messages|) else None)
  {
    hide RepliesInv, RequestId;
    ArrivalKeepsReplies(cfg, c.messages, raw, c.handlers, TakeSlot(c, raw).handlers, c.rejected, c.rejected, Answers(c.replies));
  }

  lemma TakeSlotKeeps<Id(!new)>(cfg: Config<Id>, c: Conn<Id>, raw: seq<byte>)
    requires LoopInv(cfg, c, None) && c.inFlightRequests < cfg.maxInFlightRequests
    ensures LoopInv(cfg, TakeSlot(c, raw), if RequestId(cfg, raw).Some? then Some(|c.messages|) else None)
    ensures InLoop(c, TakeSlot(c, raw))
  {
    hide SlotsInv, WritesInv, BoundInv, RepliesInv, ControllersInv, RequestId;
    TakeSlotKeepsControllers(cfg, c.messages, raw, c.abortControllers, c.handlers, c.released);
    TakeSlotKeepsSlots(cfg.maxInFlightRequests, c.inFlightRequests, |c.messages|, c.rejected, c.finished, c.handlers);
    TakeSlotKeepsReplies(cfg, c, raw);
  }

  lemma SuspendKeeps<Id(!new)>(cfg: Config<Id>, c: Conn<Id>, n: nat, id: Id)
    requires LoopInv(cfg, c, Some(n)) && !c.released
    requires n in c.handlers && id !in c.abortControllers && RequestId(cfg, c.messages[n]) == Some(id)
    ensures LoopInv(cfg, Suspend(c, n, id), None) && InLoop(c, Suspend(c, n, id))
  {
    hide SlotsInv, WritesInv, BoundInv, RequestId, Answerable;
    RehandleKeepsSlots(cfg.maxInFlightRequests, c.inFlightRequests, |c.messages|, c.rejected, c.finished, c.handlers,
                       n, Awaiting(id));
  }

  lemma ResumeKeeps<Id(!new)>(cfg: Config<Id>, c: Conn<Id>, n: nat)
    requires LoopInv(cfg, c, None) && n in c.handlers && c.handlers[n].Awaiting?
    ensures LoopInv(cfg, Resume(c, n), Some(n)) && InLoop(c, Resume(c, n))
    ensures n !in Answers(c.replies)
  {
    hide SlotsInv, WritesInv, BoundInv, RequestId;
    RehandleKeepsSlots(cfg.maxInFlightRequests, c.inFlightRequests, |c.messages|, c.rejected, c.finished, c.handlers,
                       n, Finishing);
  }

  lemma AcceptKeeps<Id(!new)>(cfg: Config<Id>, c: Conn<Id>, raw: seq<byte>)
    requires LoopInv(cfg, c, None) && !c.released
    ensures var d := AcceptMessage(cfg, c, raw);
            LoopInv(cfg, d, None) && InLoop(c, d) && d.messages == c.messages + [raw]
  {
    hide LoopInv, IdOf, RequestId, Write, HandleRequest;
    var n := |c.messages|;
    if c.inFlightRequests >= cfg.maxInFlightRequests {
      RefuseKeeps(cfg, c, raw);
      if IdOf(cfg, raw).Some? {
        WriteKeeps(cfg, Refuse(c, raw), n, TooManyRequests);
      }
    } else {
      TakeSlotKeeps(cfg, c, raw);
      var taken := TakeSlot(c, raw);
      if RequestId(cfg, raw).Some? {
        CallOf(cfg, raw);
        var id, call := RequestId(cfg, raw).value, cfg.parse(raw).value.call.value;
        if id in c.abortControllers {
          WriteKeeps(cfg, taken, n, DuplicateId);
        } else {
          BindKeeps(cfg, taken, n, call, Some(n));
          var (bound, awaited) := HandleRequest(cfg, taken, n, call);
          if awaited {
            SuspendKeeps(cfg, bound, n, id);
          } else {
            WriteKeeps(cfg, bound, n, Threw);
          }
        }
      }
    }
  }

  lemma CallOf<Id(!new)>(cfg: Config<Id>, raw: seq<byte>)
    ensures RequestId(cfg, raw).Some? ==> cfg.parse(raw).Some? && cfg.parse(raw).value.call.Some?
  {
  }

  lemma {:induction false} AcceptAllKeeps<Id(!new)>(cfg: Config<Id>, c: Conn<Id>, raws: seq<seq<byte>>)
    requires LoopInv(cfg, c, None) && !c.released
    ensures var d := AcceptAll(cfg, c, raws);
            LoopInv(cfg, d, None) && InLoop(c, d) && d.messages == c.messages + raws
    decreases |raws|
  {
    hide AcceptMessage, LoopInv;
    if raws != [] {
      AcceptAllKeeps(cfg, c, raws[..|raws| - 1]);
      AcceptKeeps(cfg, AcceptAll(cfg, c, raws[..|raws| - 1]), raws[|raws| - 1]);
    }
  }

  // Reading bytes and losing the socket touch nothing else.
  lemma SocketKeeps<Id(!new)>(cfg: Config<Id>, c: Conn<Id>, d: Conn<Id>)
    requires LoopInv(cfg, c, None)
    requires d == c.(stream := d.stream, pending := d.pending)
             || d == c.(stream := d.stream, pending := d.pending, socketOpen := false)
    ensures LoopInv(cfg, d, None) && Extends(c, d) && (c.socketOpen ==> !d.released)
  {
    hide SlotsInv, ControllersInv, RepliesInv, BoundInv;
  }

  // A data event takes exactly the frames it completes, wherever the chunk was cut.
  lemma FeedKeeps(order: Endianness, stream: seq<byte>, pending: seq<byte>, chunk: seq<byte>)
    requires !ScanStream(order, stream).oversize && pending == ScanStream(order, stream).rest
    ensures var part, whole := ScanStream(order, pending + chunk), ScanStream(order, stream + chunk);
            && whole == Scan(ScanStream(order, stream).frames + part.frames, part.rest, part.oversize)
            && (!part.oversize ==> |part.rest| < FRAME_HEADER_BYTES + MAX_MESSAGE_BYTES)
  {
    ScanResumes(order, stream, chunk);
    var _ := ScanPartitions(order, pending + chunk);
  }

  lemma DataKeeps<Id(!new)>(cfg: Config<Id>, c: Conn<Id>, chunk: seq<byte>)
    requires Inv(cfg, c) && c.socketOpen
    ensures Inv(cfg, HandleData(cfg, c, chunk)) && Extends(c, HandleData(cfg, c, chunk))
  {
    hide LoopInv, ScanStream, AcceptAll;
    FeedKeeps(cfg.order, c.stream, c.pending, chunk);
    var scan := ScanStream(cfg.order, c.pending + chunk);
    if scan.oversize {
      SocketKeeps(cfg, c, HandleData(cfg, c, chunk));
    } else {
      var d := c.(stream := c.stream + chunk, pending := scan.rest);
      SocketKeeps(cfg, c, d);
      AcceptAllKeeps(cfg, d, scan.frames);
    }
  }

  lemma SettleKeeps<Id(!new)>(cfg: Config<Id>, c: Conn<Id>, n: nat)
    requires Inv(cfg, c) && n in c.handlers && c.handlers[n].Awaiting?
    ensures Inv(cfg, Settle(cfg, c, n)) && Extends(c, Settle(cfg, c, n))
    ensures n !in Answers(c.replies) && Answers(Settle(cfg, c, n).replies)[n] == 1
  {
    hide ScanStream, LoopInv, Answers;
    ResumeKeeps(cfg, c, n);
    AnswersNext(c.replies, Write(cfg, c, n, Finished).replies[|c.replies|]);
    WriteKeeps(cfg, Resume(c, n), n, Finished);
    assert Settle(cfg, c, n) == Write(cfg, Resume(c, n), n, Finished);
  }

  lemma FinishKeepsSlots<Id(!new)>(limit: nat, inFlight: nat, count: nat, rejected: set<nat>, finished: set<nat>,
                                   handlers: map<nat, Handler<Id>>, n: nat)
    requires SlotsInv(limit, inFlight, count, rejected, finished, handlers) && n in handlers
    ensures inFlight > 0 && SlotsInv(limit, inFlight - 1, count, rejected, finished + {n}, handlers - {n})
  {
  }

  lemma FinishKeepsReplies<Id(!new)>(
    cfg: Config<Id>, messages: seq<seq<byte>>, handlers: map<nat, Handler<Id>>, rejected: set<nat>,
    replied: multiset<nat>, n: nat)
    requires RepliesInv(cfg, messages, handlers, rejected, replied, None) && !Suspended(handlers, n)
    ensures RepliesInv(cfg, messages, handlers - {n}, rejected, replied, None)
  {
  }

  lemma FinishKeepsControllers<Id(!new)>(
    cfg: Config<Id>, messages: seq<seq<byte>>, controllers: map<Id, nat>, handlers: map<nat, Handler<Id>>,
    released: bool, n: nat)
    requires ControllersInv(cfg, messages, controllers, handlers, released) && !Suspended(handlers, n)
    ensures ControllersInv(cfg, messages, controllers, handlers - {n}, released)
  {
  }

  lemma FinishKeeps<Id(!new)>(cfg: Config<Id>, c: Conn<Id>, n: nat)
    requires Inv(cfg, c) && n in c.handlers && c.handlers[n].Finishing? && c.inFlightRequests > 0
    ensures Inv(cfg, Finish(c, n)) && Extends(c, Finish(c, n))
  {
    hide ScanStream, SlotsInv, WritesInv, BoundInv, ControllersInv, RepliesInv;
    FinishKeepsControllers(cfg, c.messages, c.abortControllers, c.handlers, c.released, n);
    FinishKeepsSlots(cfg.maxInFlightRequests, c.inFlightRequests, |c.messages|, c.rejected, c.finished, c.handlers, n);
    FinishKeepsReplies(cfg, c.messages, c.handlers, c.rejected, Answers(c.replies), n);
  }

  lemma ReleaseKeeps<Id(!new)>(cfg: Config<Id>, c: Conn<Id>)
    requires Inv(cfg, c)
    ensures Inv(cfg, Release(c)) && Extends(c, Release(c))
  {
    hide ScanStream, SlotsInv, RepliesInv, BoundInv;
  }

  lemma StepKeeps<Id(!new)>(cfg: Config<Id>, c: Conn<Id>, event: Event)
    requires Inv(cfg, c)
    ensures Inv(cfg, Step(cfg, c, event)) && Extends(c, Step(cfg, c, event))
  {
    hide Inv, HandleData, Settle, Finish, Release;
    if Enabled(c, event) {
      match event
      case Data(chunk) => DataKeeps(cfg, c, chunk);
      case Settled(n) => SettleKeeps(cfg, c, n);
      case SlotFreed(n) => FinishKeeps(cfg, c, n);
      case SocketReleased => ReleaseKeeps(cfg, c);
    }
  }

  lemma {:induction false} RunKeeps<Id(!new)>(cfg: Config<Id>, events: seq<Event>)
    ensures Inv(cfg, Run(cfg, events))
    decreases |events|
  {
    hide Step;
    if events != [] {
      RunKeeps(cfg, events[..|events| - 1]);
      StepKeeps(cfg, Run(cfg, events[..|events| - 1]), events[|events| - 1]);
    }
  }

  // A binding or a reply made at any moment of a run still stands at its end.
  lemma {:induction false} RunExtends<Id(!new)>(cfg: Config<Id>, events: seq<Event>, earlier: nat)
    requires earlier <= |events|
    ensures Extends(Run(cfg, events[..earlier]), Run(cfg, events))
    decreases |events|
  {
    hide Step, Inv;
    if earlier == |events| {
      assert events[..earlier] == events;
    } else {
      var init := events[..|events| - 1];
      RunExtends(cfg, init, earlier);
      assert init[..earlier] == events[..earlier];
      RunKeeps(cfg, init);
      StepKeeps(cfg, Run(cfg, init), events[|events| - 1]);
    }
  }

  // ---- What this means for the two ends of the pipe ----

  // In-flight requests are those accepted and not finished, within the limit, and
  // never fewer than the open abort controllers.
  lemma InFlightAccounting<Id(!new)>(cfg: Config<Id>, events: seq<Event>)
    ensures var c := Run(cfg, events);
            && c.inFlightRequests == |c.messages| - |c.rejected| - |c.finished|
            && |c.abortControllers| <= c.inFlightRequests <= cfg.maxInFlightRequests
  {
    hide Step;
    var c := Run(cfg, events);
    RunKeeps(cfg, events);
    InjectionBounds(c.abortControllers, c.handlers);
    SlotCount(|c.messages|, c.rejected, c.finished, c.handlers.Keys);
    assert |c.handlers.Keys| == |c.handlers|;
  }

  // Distinct controllers belong to distinct suspended requests.
  lemma {:induction false} InjectionBounds<Id(!new)>(controllers: map<Id, nat>, handlers: map<nat, Handler<Id>>)
    requires forall id :: id in controllers ==>
               controllers[id] in handlers && handlers[controllers[id]] == Awaiting(id)
    ensures |controllers| <= |handlers|
    decreases |controllers|
  {
    if controllers != map[] {
      var id :| id in controllers;
      var n := controllers[id];
      assert |controllers - {id}| == |controllers| - 1;
      assert |handlers - {n}| == |handlers| - 1;
      InjectionBounds(controllers - {id}, handlers - {n});
    }
  }

  // Three disjoint classes that cover the message numbers.
  lemma {:induction false} SlotCount(count: nat, rejected: set<nat>, finished: set<nat>, running: set<nat>)
    requires rejected !! finished && rejected !! running && finished !! running
    requires forall n: nat :: n in rejected || n in finished || n in running <==> n < count
    ensures |rejected| + |finished| + |running| == count
    decreases count
  {
    if count == 0 {
      assert rejected == {} && finished == {} && running == {};
    } else {
      var last := count - 1;
      SlotCount(last, rejected - {last}, finished - {last}, running - {last});
    }
  }

  // Section 5 of the JSON-RPC 2.0 Specification: each well-formed request is answered
  // exactly once, except that it has no answer while it awaits its result. A message
  // that is not a request is answered once when it was refused and carried an id, and
  // never otherwise. An answer reaches the socket unless its frame overflowed or the
  // socket was closed.
  lemma EachRequestAnsweredOnce<Id(!new)>(cfg: Config<Id>, events: seq<Event>, n: nat)
    requires n < |Run(cfg, events).messages|
    ensures var c := Run(cfg, events);
            var request := RequestId(cfg, c.messages[n]);
            && Answers(c.replies)[n] == (
                 if request.Some? then if Suspended(c.handlers, n) then 0 else 1
                 else if n in c.rejected && IdOf(cfg, c.messages[n]).Some? then 1
                 else 0)
            && (forall reply :: reply in c.replies && reply.serial == n && reply.result != Written ==>
                  !c.socketOpen && (reply.result == Overflow ==> cfg.replyTooLarge(n)))
  {
    hide Step;
    RunKeeps(cfg, events);
  }

  // All tools of a connection ran under one session and one thread, those it is bound to.
  lemma ToolsRunUnderTheBinding<Id(!new)>(cfg: Config<Id>, events: seq<Event>)
    ensures var c := Run(cfg, events);
            forall e :: e in c.executions ==> c.sessionId == Some(e.sessionId) && c.threadId == Some(e.threadId)
  {
    hide Step;
    RunKeeps(cfg, events);
  }

  // How the stream was cut into chunks, and what happened between them, does not
  // change the messages taken from it or the bytes kept for the next chunk.
  lemma ChunkingDoesNotMatter<Id(!new)>(cfg: Config<Id>, one: seq<Event>, other: seq<Event>)
    requires Run(cfg, one).stream == Run(cfg, other).stream
    requires !ScanStream(cfg.order, Run(cfg, one).stream).oversize
    ensures Run(cfg, one).messages == Run(cfg, other).messages
    ensures Run(cfg, one).pending == Run(cfg, other).pending
  {
    hide Step, LoopInv;
    RunKeeps(cfg, one);
    RunKeeps(cfg, other);
  }

  // An oversize header closes the socket under every cutting, after a prefix of the frames before it.
  lemma OversizeAlwaysDetected<Id(!new)>(cfg: Config<Id>, events: seq<Event>)
    requires ScanStream(cfg.order, Run(cfg, events).stream).oversize
    ensures !Run(cfg, events).socketOpen
    ensures Run(cfg, events).messages <= ScanStream(cfg.order, Run(cfg, events).stream).frames
  {
    hide Step, LoopInv;
    RunKeeps(cfg, events);
  }

  // ---- The connection object ----

  // Its methods are the steps above, done in place: ReceiveData, ResumeHandler,
  // FinishHandler and ReleaseSocket are the four events of Step. So whatever order they are
  // called in, View() is a Run, and RunKeeps and its corollaries hold of the object.
  class Client<Id(==, !new)> {
    const cfg: Config<Id>

    var socketOpen: bool
    var pending: seq<byte>
    var inFlightRequests: nat
    var sessionId: Option<string>
    var threadId: Option<string>
    var abortControllers: map<Id, nat>
    var handlers: map<nat, Handler<Id>>
    var received: nat                     // numbers the messages and their controllers

    ghost var stream: seq<byte>
    ghost var messages: seq<seq<byte>>
    ghost var released: bool
    ghost var rejected: set<nat>
    ghost var finished: set<nat>
    ghost var replies: seq<Reply>
    ghost var executions: seq<ToolExecution>

    ghost function View(): Conn<Id>
      reads this
    {
      Conn(socketOpen, pending, inFlightRequests, sessionId, threadId, abortControllers, handlers,
           stream, messages, released, rejected, finished, replies, executions)
    }

    ghost predicate Valid()
      reads this
    {
      received == |messages|
    }

    constructor (cfg: Config<Id>)
      ensures Valid() && View() == NewConn() && this.cfg == cfg
    {
      this.cfg := cfg;
      socketOpen, pending, inFlightRequests := true, [], 0;
      sessionId, threadId, abortControllers, handlers, received := None, None, map[], map[], 0;
      stream, messages, released, rejected, finished, replies, executions := [], [], false, {}, {}, [], [];
    }

    method WriteReply(n: nat, answer: Answer)
      modifies this`socketOpen, this`replies
      ensures View() == Write(cfg, old(View()), n, answer)
    {
      if !socketOpen {
        replies := replies + [Reply(n, answer, Closed)];
        return;
      }
      if cfg.replyTooLarge(n) {
        socketOpen := false;
        replies := replies + [Reply(n, answer, Overflow)];
        return;
      }
      replies := replies + [Reply(n, answer, Written)];
    }

    method GetInfo(session: Option<string>, supplied: Option<string>) returns (ok: bool)
      modifies this`sessionId
      ensures ok == InfoGranted(cfg, old(View()), session, supplied)
      ensures View() == if ok then old(View()).(sessionId := session) else old(View())
    {
      if session == None || supplied != Some(cfg.capability) {
        return false;
      }
      if sessionId.Some? && sessionId != session {
        return false;
      }
      sessionId := session;
      return true;
    }

    method ExecuteTool(n: nat, p: ToolParams) returns (ok: bool)
      modifies this`threadId, this`executions
      ensures (View(), ok) == HandleRequest(cfg, old(View()), n, RpcCall.ExecuteTool(p))
    {
      if !p.workspaceRootAllowed {
        return false;
      }
      if p.sessionId == None || p.sessionId != sessionId || p.provider == None || p.threadId == None || p.name == None {
        return false;
      }
      if threadId.Some? && threadId != p.threadId {
        return false;
      }
      threadId := p.threadId;
      executions := executions + [ToolExecution(n, p.sessionId.value, p.threadId.value)];
      return true;
    }

    method CallMethod(n: nat, call: RpcCall) returns (awaited: bool)
      modifies this`sessionId, this`threadId, this`executions
      ensures (View(), awaited) == HandleRequest(cfg, old(View()), n, call)
    {
      match call
      case Ping => awaited := true;
      case GetInfo(session, supplied) => awaited := GetInfo(session, supplied);
      case ExecuteTool(p) => awaited := ExecuteTool(n, p);
      case UnknownMethod => awaited := false;
    }

    method StartHandler(n: nat, raw: seq<byte>)
      modifies this`socketOpen, this`sessionId, this`threadId, this`abortControllers, this`handlers,
               this`replies, this`executions
      ensures View() == HandleMessage(cfg, old(View()), n, raw)
    {
      hide Write, HandleRequest;
      var request := cfg.parse(raw);
      if request == None || request.value.id == None || request.value.call == None {
        return;
      }
      var id := request.value.id.value;
      if id in abortControllers {
        WriteReply(n, DuplicateId);
        return;
      }
      var awaited := CallMethod(n, request.value.call.value);
      if awaited {
        abortControllers := abortControllers[id := n];
        handlers := handlers[n := Awaiting(id)];
      } else {
        WriteReply(n, Threw);
      }
    }

    method Number(raw: seq<byte>, accepted: bool) returns (n: nat)
      requires Valid()
      modifies this`received, this`messages, this`rejected, this`inFlightRequests, this`handlers
      ensures Valid() && n == |old(messages)|
      ensures View() == if accepted then TakeSlot(old(View()), raw) else Refuse(old(View()), raw)
    {
      n := received;
      received := received + 1;
      messages := messages + [raw];
      if accepted {
        inFlightRequests := inFlightRequests + 1;
        handlers := handlers[n := Finishing];
      } else {
        rejected := rejected + {n};
      }
    }

    // One turn of handleData's loop.
    method Accept(raw: seq<byte>)
      requires Valid()
      modifies this`received, this`messages, this`rejected, this`inFlightRequests, this`socketOpen, this`sessionId,
               this`threadId, this`abortControllers, this`handlers, this`replies, this`executions
      ensures Valid() && View() == AcceptMessage(cfg, old(View()), raw)
    {
      hide HandleMessage, Write, TakeSlot, Refuse;
      if inFlightRequests >= cfg.maxInFlightRequests {
        var n := Number(raw, false);
        var request := cfg.parse(raw);
        if request.Some? && request.value.id.Some? {
          WriteReply(n, TooManyRequests);
        }
      } else {
        var n := Number(raw, true);
        StartHandler(n, raw);
      }
    }

    method ReceiveData(chunk: seq<byte>)
      requires Valid()
      modifies this
      ensures Valid() && View() == HandleData(cfg, old(View()), chunk)
    {
      hide ScanStream, AcceptMessage;
      var decoded := DecodeFrames(cfg.order, pending + chunk);
      stream := stream + chunk;
      if decoded == None {
        socketOpen := false;
        return;
      }
      pending := decoded.value.remaining;
      var raws := decoded.value.messages;
      var i := 0;
      ghost var start := View();
      while i < |raws|
        invariant 0 <= i <= |raws|
        invariant Valid() && View() == AcceptAll(cfg, start, raws[..i])
      {
        assert raws[..i + 1][..i] == raws[..i];
        Accept(raws[i]);
        i := i + 1;
      }
      assert raws[..i] == raws;
    }

    method ResumeHandler(n: nat)
      requires n in handlers && handlers[n].Awaiting?
      modifies this`socketOpen, this`abortControllers, this`handlers, this`replies
      ensures View() == Settle(cfg, old(View()), n)
    {
      var id := handlers[n].id;
      WriteReply(n, Finished);
      abortControllers := abortControllers - {id};
      handlers := handlers[n := Finishing];
    }

    method FinishHandler(n: nat)
      requires n in handlers && inFlightRequests > 0
      modifies this`inFlightRequests, this`handlers, this`finished
      ensures View() == Finish(old(View()), n)
    {
      inFlightRequests := inFlightRequests - 1;
      handlers := handlers - {n};
      finished := finished + {n};
    }

    method ReleaseSocket()
      modifies this`socketOpen, this`abortControllers, this`released
      ensures View() == Release(old(View()))
    {
      abortControllers := map[];
      released, socketOpen := true, false;
    }
  }
}

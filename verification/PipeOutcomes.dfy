// What the requests of a connection come to, in terms of the messages alone: which ones
// bind it, which ones reach the automation host, and what each of them is answered
// (apps/desktop/src/browserUsePipeServer.ts, handleMessage, getInfo, executeTool).
module PipeOutcomes {
  import opened Wrappers
  import opened PipeFrames
  import opened PipeClient

  // What a well-formed request asks for.
  function Asked<Id>(cfg: Config<Id>, raw: seq<byte>): Option<RpcCall> {
    match cfg.parse(raw)
    case Some(RpcRequest(Some(_), call)) => call
    case _ => None
  }

  // An executeTool with everything it needs.
  predicate Complete(p: ToolParams) {
    && p.workspaceRootAllowed
    && p.sessionId.Some? && p.provider.Some? && p.threadId.Some? && p.name.Some?
  }

  // The requests that can do other than throw, whatever the connection is bound to.
  predicate MaySucceed<Id>(cfg: Config<Id>, call: RpcCall) {
    match call
    case Ping => true
    case GetInfo(session, capability) => session.Some? && capability == Some(cfg.capability)
    case ExecuteTool(p) => Complete(p)
    case UnknownMethod => false
  }

  ghost predicate Accepted(messages: seq<seq<byte>>, rejected: set<nat>, n: nat) {
    n < |messages| && n !in rejected
  }

  // The session is that of an accepted getInfo with the capability of the server.
  ghost predicate SessionMeant<Id(!new)>(cfg: Config<Id>, messages: seq<seq<byte>>, rejected: set<nat>,
                                         sessionId: Option<string>)
  {
    sessionId.Some? ==>
      exists n: nat :: Accepted(messages, rejected, n)
                       && Asked(cfg, messages[n]) == Some(RpcCall.GetInfo(sessionId, Some(cfg.capability)))
  }

  // The n-th message is an accepted and complete executeTool of this session and thread.
  ghost predicate Executes<Id(!new)>(cfg: Config<Id>, messages: seq<seq<byte>>, rejected: set<nat>, e: ToolExecution) {
    && Accepted(messages, rejected, e.serial)
    && match Asked(cfg, messages[e.serial])
       case Some(ExecuteTool(p)) => Complete(p) && p.sessionId == Some(e.sessionId) && p.threadId == Some(e.threadId)
       case _ => false
  }

  // Each execution is of a message of its own, in their order.
  ghost predicate ExecutionsMeant<Id(!new)>(cfg: Config<Id>, messages: seq<seq<byte>>, rejected: set<nat>,
                                            executions: seq<ToolExecution>)
  {
    && (forall e :: e in executions ==> Executes(cfg, messages, rejected, e))
    && (forall i, j :: 0 <= i < j < |executions| ==> executions[i].serial < executions[j].serial)
  }

  ghost predicate WasExecuted(executions: seq<ToolExecution>, n: nat) {
    exists e :: e in executions && e.serial == n
  }

  // The thread is that of an execution.
  ghost predicate ThreadMeant(threadId: Option<string>, executions: seq<ToolExecution>) {
    threadId.Some? ==> exists e :: e in executions && e.threadId == threadId.value
  }

  // A message that waits for its result, or got it, may succeed; if it is an executeTool, it
  // was executed.
  ghost predicate Succeeds<Id(!new)>(cfg: Config<Id>, messages: seq<seq<byte>>, executions: seq<ToolExecution>, n: nat) {
    && n < |messages| && Asked(cfg, messages[n]).Some?
    && var call := Asked(cfg, messages[n]).value;
       MaySucceed(cfg, call) && (call.ExecuteTool? ==> WasExecuted(executions, n))
  }

  ghost predicate WaitingMeant<Id(!new)>(cfg: Config<Id>, messages: seq<seq<byte>>, executions: seq<ToolExecution>,
                                         handlers: map<nat, Handler<Id>>)
  {
    forall n: nat :: Suspended(handlers, n) ==> Succeeds(cfg, messages, executions, n)
  }

  // What a reply says fits its message.
  ghost predicate ReplyMeant<Id(!new)>(cfg: Config<Id>, messages: seq<seq<byte>>, rejected: set<nat>,
                                       executions: seq<ToolExecution>, reply: Reply)
  {
    var n := reply.serial;
    && n < |messages|
    && (reply.answer == TooManyRequests <==> n in rejected)
    && (n !in rejected ==> Asked(cfg, messages[n]).Some?)
    && (reply.answer == Finished ==> Succeeds(cfg, messages, executions, n))
    && (reply.answer == Threw ==> Asked(cfg, messages[n]) != Some(Ping))
    && (WasExecuted(executions, n) ==> reply.answer == Finished)
  }

  ghost predicate RepliesMeant<Id(!new)>(cfg: Config<Id>, messages: seq<seq<byte>>, rejected: set<nat>,
                                         executions: seq<ToolExecution>, replies: seq<Reply>)
  {
    forall reply :: reply in replies ==> ReplyMeant(cfg, messages, rejected, executions, reply)
  }

  // An executed message waits or was answered.
  ghost predicate Meant<Id(!new)>(cfg: Config<Id>, c: Conn<Id>) {
    && SessionMeant(cfg, c.messages, c.rejected, c.sessionId)
    && ExecutionsMeant(cfg, c.messages, c.rejected, c.executions)
    && ThreadMeant(c.threadId, c.executions)
    && WaitingMeant(cfg, c.messages, c.executions, c.handlers)
    && RepliesMeant(cfg, c.messages, c.rejected, c.executions, c.replies)
  }

  lemma NewConnMeant<Id(!new)>(cfg: Config<Id>)
    ensures Meant(cfg, NewConn())
  {
  }

  // ---- One more message ----

  // A message number of its own, refused or not, changes no meaning of the others.
  lemma Grows<Id(!new)>(cfg: Config<Id>, c: Conn<Id>, d: Conn<Id>, raw: seq<byte>)
    requires Meant(cfg, c) && |c.messages| !in c.rejected
    requires d.messages == c.messages + [raw] && d.rejected - {|c.messages|} == c.rejected
    requires d.sessionId == c.sessionId && d.threadId == c.threadId && d.executions == c.executions
    requires d.replies == c.replies && forall n :: Suspended(d.handlers, n) <==> Suspended(c.handlers, n)
    ensures Meant(cfg, d) && !WasExecuted(d.executions, |c.messages|)
  {
    hide Asked, MaySucceed, Complete;
    assert forall n: nat :: n < |c.messages| ==> d.messages[n] == c.messages[n];
    assert forall n: nat :: Accepted(c.messages, c.rejected, n) ==> Accepted(d.messages, d.rejected, n);
    assert forall n: nat :: n < |c.messages| ==> (n in d.rejected <==> n in c.rejected);
    assert forall e :: e in c.executions ==> Executes(cfg, c.messages, c.rejected, e);
    GrownReplies(cfg, c, d, raw);
  }

  lemma GrownReplies<Id(!new)>(cfg: Config<Id>, c: Conn<Id>, d: Conn<Id>, raw: seq<byte>)
    requires RepliesMeant(cfg, c.messages, c.rejected, c.executions, c.replies) && |c.messages| !in c.rejected
    requires d.messages == c.messages + [raw] && d.rejected - {|c.messages|} == c.rejected
    requires d.executions == c.executions && d.replies == c.replies
    ensures RepliesMeant(cfg, d.messages, d.rejected, d.executions, d.replies)
  {
    hide Asked, MaySucceed, Complete, WasExecuted;
    forall reply | reply in d.replies
      ensures ReplyMeant(cfg, d.messages, d.rejected, d.executions, reply)
    {
      assert ReplyMeant(cfg, c.messages, c.rejected, c.executions, reply);
      assert reply.serial in d.rejected <==> reply.serial in c.rejected;
    }
  }

  lemma WriteMeant<Id(!new)>(cfg: Config<Id>, c: Conn<Id>, n: nat, answer: Answer)
    requires Meant(cfg, c) && ReplyMeant(cfg, c.messages, c.rejected, c.executions, Reply(n, answer, Closed))
    ensures Meant(cfg, Write(cfg, c, n, answer))
  {
    hide SessionMeant, ExecutionsMeant, ThreadMeant, WaitingMeant, Succeeds, WasExecuted, Asked;
  }

  lemma SuspendMeant<Id(!new)>(cfg: Config<Id>, c: Conn<Id>, n: nat, id: Id)
    requires Meant(cfg, c) && Succeeds(cfg, c.messages, c.executions, n)
    ensures Meant(cfg, Suspend(c, n, id))
  {
    hide SessionMeant, ExecutionsMeant, ThreadMeant, RepliesMeant, Succeeds;
  }

  // The n-th message, just accepted, is handled.
  lemma HandleMeant<Id(!new)>(cfg: Config<Id>, c: Conn<Id>, n: nat, call: RpcCall)
    requires Meant(cfg, c) && Accepted(c.messages, c.rejected, n) && Asked(cfg, c.messages[n]) == Some(call)
    requires forall e :: e in c.executions ==> e.serial < n
    requires forall reply :: reply in c.replies ==> reply.serial < n
    ensures var (d, awaited) := HandleRequest(cfg, c, n, call);
            && Meant(cfg, d)
            && (if awaited then Succeeds(cfg, d.messages, d.executions, n) else d == c && call != Ping)
  {
    hide Asked, RepliesMeant, WaitingMeant;
    match call
    case ExecuteTool(p) =>
      if ToolGranted(c, p) {
        var e := ToolExecution(n, p.sessionId.value, p.threadId.value);
        assert c.threadId == None || c.threadId == p.threadId;
        ExecutionMeant(cfg, c, e, p);
      }
    case _ =>
  }

  lemma ExecutionMeant<Id(!new)>(cfg: Config<Id>, c: Conn<Id>, e: ToolExecution, p: ToolParams)
    requires Meant(cfg, c) && Accepted(c.messages, c.rejected, e.serial)
    requires Asked(cfg, c.messages[e.serial]) == Some(RpcCall.ExecuteTool(p)) && Complete(p)
    requires p.sessionId == Some(e.sessionId) && p.threadId == Some(e.threadId)
    requires forall f :: f in c.executions ==> f.serial < e.serial
    requires forall reply :: reply in c.replies ==> reply.serial < e.serial
    ensures Meant(cfg, c.(threadId := p.threadId, executions := c.executions + [e]))
    ensures WasExecuted(c.executions + [e], e.serial)
  {
    hide Asked, Complete, SessionMeant, MaySucceed;
    var all := c.executions + [e];
    assert all[|c.executions|] == e;
    assert e in all;
    forall n: nat
      ensures WasExecuted(all, n) <==> WasExecuted(c.executions, n) || n == e.serial
    {
      if WasExecuted(c.executions, n) {
        var f :| f in c.executions && f.serial == n;
        assert f in all;
      }
    }
    assert forall f :: f in all ==> f in c.executions || f == e;
    hide WasExecuted;
  }

  lemma AcceptMeant<Id(!new)>(cfg: Config<Id>, c: Conn<Id>, raw: seq<byte>)
    requires Meant(cfg, c) && LoopInv(cfg, c, None) && !c.released
    ensures Meant(cfg, AcceptMessage(cfg, c, raw))
  {
    hide Meant, ControllersInv, RepliesInv, WritesInv, BoundInv, HandleRequest, Write, Suspend, Asked, ReplyMeant, Succeeds;
    var n := |c.messages|;
    NumbersAreOld(cfg, c);
    if c.inFlightRequests >= cfg.maxInFlightRequests {
      var d := Refuse(c, raw);
      Grows(cfg, c, d, raw);
      if IdOf(cfg, raw).Some? {
        BusyMeant(cfg, d, n);
        WriteMeant(cfg, d, n, TooManyRequests);
      }
    } else {
      var d := TakeSlot(c, raw);
      Grows(cfg, c, d, raw);
      if RequestId(cfg, raw).Some? {
        var id, call := RequestId(cfg, raw).value, cfg.parse(raw).value.call.value;
        AskedOf(cfg, raw);
        if id in c.abortControllers {
          ErrorMeant(cfg, d, n, DuplicateId);
          WriteMeant(cfg, d, n, DuplicateId);
        } else {
          HandleMeant(cfg, d, n, call);
          var (bound, awaited) := HandleRequest(cfg, d, n, call);
          if awaited {
            HandleKeepsMessages(cfg, d, n, call);
            SuspendMeant(cfg, bound, n, id);
          } else {
            ErrorMeant(cfg, d, n, Threw);
            WriteMeant(cfg, d, n, Threw);
          }
        }
      }
    }
  }

  lemma AskedOf<Id>(cfg: Config<Id>, raw: seq<byte>)
    ensures RequestId(cfg, raw).Some? <==> Asked(cfg, raw).Some?
    ensures RequestId(cfg, raw).Some? ==> cfg.parse(raw).Some? && Asked(cfg, raw) == cfg.parse(raw).value.call
  {
  }

  lemma HandleKeepsMessages<Id>(cfg: Config<Id>, c: Conn<Id>, n: nat, call: RpcCall)
    ensures HandleRequest(cfg, c, n, call).0.messages == c.messages
  {
  }

  lemma NumbersAreOld<Id(!new)>(cfg: Config<Id>, c: Conn<Id>)
    requires Meant(cfg, c)
    ensures forall e :: e in c.executions ==> e.serial < |c.messages|
    ensures forall reply :: reply in c.replies ==> reply.serial < |c.messages|
  {
    hide Asked, Complete, SessionMeant, MaySucceed, Succeeds;
    forall reply | reply in c.replies
      ensures reply.serial < |c.messages|
    {
      assert ReplyMeant(cfg, c.messages, c.rejected, c.executions, reply);
    }
  }

  lemma BusyMeant<Id(!new)>(cfg: Config<Id>, c: Conn<Id>, n: nat)
    requires n < |c.messages| && n in c.rejected && !WasExecuted(c.executions, n)
    ensures ReplyMeant(cfg, c.messages, c.rejected, c.executions, Reply(n, TooManyRequests, Closed))
  {
    hide WasExecuted;
  }

  lemma ErrorMeant<Id(!new)>(cfg: Config<Id>, c: Conn<Id>, n: nat, answer: Answer)
    requires n < |c.messages| && n !in c.rejected && !WasExecuted(c.executions, n) && Asked(cfg, c.messages[n]).Some?
    requires answer == DuplicateId || (answer == Threw && Asked(cfg, c.messages[n]) != Some(Ping))
    ensures ReplyMeant(cfg, c.messages, c.rejected, c.executions, Reply(n, answer, Closed))
  {
    hide WasExecuted;
  }

  lemma {:induction false} AcceptAllMeant<Id(!new)>(cfg: Config<Id>, c: Conn<Id>, raws: seq<seq<byte>>)
    requires Meant(cfg, c) && LoopInv(cfg, c, None) && !c.released
    ensures Meant(cfg, AcceptAll(cfg, c, raws))
    decreases |raws|
  {
    hide AcceptMessage, LoopInv, Meant;
    if raws != [] {
      AcceptAllMeant(cfg, c, raws[..|raws| - 1]);
      AcceptAllKeeps(cfg, c, raws[..|raws| - 1]);
      AcceptMeant(cfg, AcceptAll(cfg, c, raws[..|raws| - 1]), raws[|raws| - 1]);
    }
  }

  // What does not change the messages, the bindings or the handlers changes no meaning.
  lemma SameMeaning<Id(!new)>(cfg: Config<Id>, c: Conn<Id>, d: Conn<Id>)
    requires Meant(cfg, c) && d.messages == c.messages && d.rejected == c.rejected && d.replies == c.replies
    requires d.sessionId == c.sessionId && d.threadId == c.threadId && d.executions == c.executions
    requires forall n :: Suspended(d.handlers, n) ==> Suspended(c.handlers, n)
    ensures Meant(cfg, d)
  {
    hide SessionMeant, ExecutionsMeant, ThreadMeant, RepliesMeant, Succeeds;
  }

  lemma DataMeant<Id(!new)>(cfg: Config<Id>, c: Conn<Id>, chunk: seq<byte>)
    requires Meant(cfg, c) && Inv(cfg, c) && c.socketOpen
    ensures Meant(cfg, HandleData(cfg, c, chunk))
  {
    hide LoopInv, ScanStream, AcceptAll, Meant, Suspended, StreamInv;
    var scan := ScanStream(cfg.order, c.pending + chunk);
    if scan.oversize {
      SameMeaning(cfg, c, HandleData(cfg, c, chunk));
    } else {
      var d := c.(stream := c.stream + chunk, pending := scan.rest);
      SocketKeeps(cfg, c, d);
      SameMeaning(cfg, c, d);
      AcceptAllMeant(cfg, d, scan.frames);
    }
  }

  lemma SettleMeant<Id(!new)>(cfg: Config<Id>, c: Conn<Id>, n: nat)
    requires Meant(cfg, c) && LoopInv(cfg, c, None) && n in c.handlers && c.handlers[n].Awaiting?
    ensures Meant(cfg, Settle(cfg, c, n))
  {
    FinishedMeant(cfg, c, n);
    hide Meant, ReplyMeant, LoopInv;
    WriteMeant(cfg, c, n, Finished);
    SameMeaning(cfg, Write(cfg, c, n, Finished), Settle(cfg, c, n));
  }

  lemma FinishedMeant<Id(!new)>(cfg: Config<Id>, c: Conn<Id>, n: nat)
    requires Meant(cfg, c) && LoopInv(cfg, c, None) && n in c.handlers && c.handlers[n].Awaiting?
    ensures ReplyMeant(cfg, c.messages, c.rejected, c.executions, Reply(n, Finished, Closed))
  {
    hide ControllersInv, RepliesInv, WritesInv, BoundInv, SessionMeant, ExecutionsMeant, RepliesMeant, ThreadMeant,
      MaySucceed, WasExecuted;
    assert Suspended(c.handlers, n);
  }

  lemma StepMeant<Id(!new)>(cfg: Config<Id>, c: Conn<Id>, event: Event)
    requires Meant(cfg, c) && Inv(cfg, c)
    ensures Meant(cfg, Step(cfg, c, event))
  {
    hide Meant, LoopInv, StreamInv, HandleData, Settle;
    if Enabled(c, event) {
      match event
      case Data(chunk) => DataMeant(cfg, c, chunk);
      case Settled(n) => SettleMeant(cfg, c, n);
      case SlotFreed(n) => SameMeaning(cfg, c, Finish(c, n));
      case SocketReleased => SameMeaning(cfg, c, Release(c));
    }
  }

  lemma {:induction false} RunMeant<Id(!new)>(cfg: Config<Id>, events: seq<Event>)
    ensures Meant(cfg, Run(cfg, events))
    decreases |events|
  {
    hide Step, Meant, Inv;
    if events == [] {
      NewConnMeant(cfg);
    } else {
      RunMeant(cfg, events[..|events| - 1]);
      RunKeeps(cfg, events[..|events| - 1]);
      StepMeant(cfg, Run(cfg, events[..|events| - 1]), events[|events| - 1]);
    }
  }

  // ---- What the two ends may rely on ----

  // Over every run: a connection is bound only by an accepted getInfo with the capability of
  // the server, and by no other.
  lemma BoundByTheCapability<Id(!new)>(cfg: Config<Id>, events: seq<Event>)
    ensures var c := Run(cfg, events);
            c.sessionId.Some? ==>
              exists n: nat :: n < |c.messages| && n !in c.rejected
                               && Asked(cfg, c.messages[n]) == Some(RpcCall.GetInfo(c.sessionId, Some(cfg.capability)))
  {
    hide Step, Run, Asked;
    RunMeant(cfg, events);
  }

  // What reaches the automation host is an accepted, complete executeTool with its own session
  // and thread, each message at most once and in order; and the thread is bound by one of them.
  lemma OnlyCompleteToolsRun<Id(!new)>(cfg: Config<Id>, events: seq<Event>)
    ensures var c := Run(cfg, events);
            && (forall e :: e in c.executions ==>
                  && e.serial < |c.messages| && e.serial !in c.rejected
                  && Asked(cfg, c.messages[e.serial]).Some?
                  && var call := Asked(cfg, c.messages[e.serial]).value;
                     && call.ExecuteTool? && Complete(call.params)
                     && call.params.sessionId == Some(e.sessionId) && call.params.threadId == Some(e.threadId))
            && (forall i, j :: 0 <= i < j < |c.executions| ==> c.executions[i].serial < c.executions[j].serial)
            && (c.threadId.Some? ==> exists e :: e in c.executions && e.threadId == c.threadId.value)
  {
    hide Step, Run, Asked;
    RunMeant(cfg, events);
    assert forall e :: e in Run(cfg, events).executions ==>
             Executes(cfg, Run(cfg, events).messages, Run(cfg, events).rejected, e);
  }

  // What each reply says: too many requests exactly to those refused; that the handler
  // finished only to a ping, a getInfo with the capability, or an executeTool that was
  // executed; and no error of the server to an executed one.
  lemma RepliesFitTheirRequests<Id(!new)>(cfg: Config<Id>, events: seq<Event>, reply: Reply)
    requires reply in Run(cfg, events).replies
    ensures var c, n := Run(cfg, events), reply.serial;
            && n < |c.messages|
            && (reply.answer == TooManyRequests <==> n in c.rejected)
            && (n !in c.rejected ==> Asked(cfg, c.messages[n]).Some?)
            && (reply.answer == Finished ==>
                  var call := Asked(cfg, c.messages[n]).value;
                  MaySucceed(cfg, call) && (call.ExecuteTool? ==> WasExecuted(c.executions, n)))
            && (reply.answer == Threw ==> Asked(cfg, c.messages[n]) != Some(Ping))
            && (WasExecuted(c.executions, n) ==> reply.answer == Finished)
  {
    hide Step, Run, Asked, MaySucceed;
    RunMeant(cfg, events);
    assert ReplyMeant(cfg, Run(cfg, events).messages, Run(cfg, events).rejected, Run(cfg, events).executions, reply);
  }

  // ---- What happens to one message ----

  ghost predicate HasSuspended<Id(!new)>(c: Conn<Id>, id: Id) {
    exists m :: Suspended(c.handlers, m) && c.handlers[m].id == id
  }

  // One reply to the n-th message, delivered if the socket is open and the frame fits.
  ghost predicate Replied<Id(!new)>(cfg: Config<Id>, c: Conn<Id>, d: Conn<Id>, n: nat, answer: Answer) {
    && |d.replies| == |c.replies| + 1 && d.replies[..|c.replies|] == c.replies
    && var reply := d.replies[|c.replies|];
       && reply.serial == n && reply.answer == answer
       && (reply.result == Written <==> c.socketOpen && !cfg.replyTooLarge(n))
       && (d.socketOpen <==> c.socketOpen && !cfg.replyTooLarge(n))
  }

  ghost predicate SameBindings<Id(!new)>(c: Conn<Id>, d: Conn<Id>) {
    d.sessionId == c.sessionId && d.threadId == c.threadId && d.executions == c.executions
  }

  // A message over the limit is refused, with a reply if it has an id.
  lemma RefusedMessage<Id(!new)>(cfg: Config<Id>, c: Conn<Id>, raw: seq<byte>)
    requires c.inFlightRequests >= cfg.maxInFlightRequests
    ensures var d, n := AcceptMessage(cfg, c, raw), |c.messages|;
            && d.messages == c.messages + [raw] && d.rejected == c.rejected + {n}
            && d.inFlightRequests == c.inFlightRequests && d.handlers == c.handlers && SameBindings(c, d)
            && (match cfg.parse(raw)
                case Some(RpcRequest(Some(_), _)) => Replied(cfg, c, d, n, TooManyRequests)
                case _ => d.replies == c.replies && d.socketOpen == c.socketOpen)
  {
  }

  // Any other takes a slot. What is no request ends there; a request whose id another one
  // under way has is refused.
  lemma AcceptedMessage<Id(!new)>(cfg: Config<Id>, c: Conn<Id>, raw: seq<byte>)
    requires c.inFlightRequests < cfg.maxInFlightRequests && LoopInv(cfg, c, None) && !c.released
    ensures var d, n := AcceptMessage(cfg, c, raw), |c.messages|;
            && d.messages == c.messages + [raw] && d.rejected == c.rejected
            && d.inFlightRequests == c.inFlightRequests + 1 && n in d.handlers
            && (Asked(cfg, raw) == None ==>
                  d.replies == c.replies && d.socketOpen == c.socketOpen && SameBindings(c, d)
                  && d.handlers[n] == Finishing)
            && (Asked(cfg, raw).Some? && HasSuspended(c, cfg.parse(raw).value.id.value) ==>
                  Replied(cfg, c, d, n, DuplicateId) && SameBindings(c, d) && d.handlers[n] == Finishing)
  {
    hide SlotsInv, RepliesInv, WritesInv, BoundInv, HandleRequest;
    AskedOf(cfg, raw);
    if Asked(cfg, raw).Some? {
      SuspendedIds(cfg, c, RequestId(cfg, raw).value);
      hide ControllersInv, HasSuspended;
      HandleKeepsTheRest(cfg, TakeSlot(c, raw), |c.messages|, cfg.parse(raw).value.call.value);
    }
  }

  lemma HandleKeepsTheRest<Id>(cfg: Config<Id>, c: Conn<Id>, n: nat, call: RpcCall)
    ensures var d := HandleRequest(cfg, c, n, call).0;
            && d.messages == c.messages && d.rejected == c.rejected && d.inFlightRequests == c.inFlightRequests
            && d.handlers == c.handlers && d.replies == c.replies && d.socketOpen == c.socketOpen
  {
  }

  lemma SuspendedIds<Id(!new)>(cfg: Config<Id>, c: Conn<Id>, id: Id)
    requires ControllersInv(cfg, c.messages, c.abortControllers, c.handlers, c.released) && !c.released
    ensures HasSuspended(c, id) <==> id in c.abortControllers
  {
    if id in c.abortControllers {
      assert Suspended(c.handlers, c.abortControllers[id]);
    }
  }

  // A request of its own id: a ping waits for its result; a getInfo with the capability, for a
  // session that is new or the bound one, binds it; a complete executeTool of the bound session,
  // for a thread that is new or the bound one, binds it and reaches the host; everything else
  // throws and binds nothing.
  lemma HandledRequest<Id(!new)>(cfg: Config<Id>, c: Conn<Id>, raw: seq<byte>)
    requires c.inFlightRequests < cfg.maxInFlightRequests && LoopInv(cfg, c, None) && !c.released
    requires Asked(cfg, raw).Some? && !HasSuspended(c, cfg.parse(raw).value.id.value)
    ensures var d, n := AcceptMessage(cfg, c, raw), |c.messages|;
            var call := Asked(cfg, raw).value;
            var binds := call.GetInfo? && MaySucceed(cfg, call)
                         && (c.sessionId == None || c.sessionId == call.sessionId);
            var runs := call.ExecuteTool? && Complete(call.params) && call.params.sessionId == c.sessionId
                        && (c.threadId == None || c.threadId == call.params.threadId);
            && d.sessionId == (if binds then call.sessionId else c.sessionId)
            && d.threadId == (if runs then call.params.threadId else c.threadId)
            && d.executions
               == c.executions + (if runs then [ToolExecution(n, c.sessionId.value, call.params.threadId.value)] else [])
            && if call == Ping || binds || runs
               then d.replies == c.replies && d.socketOpen == c.socketOpen && n in d.handlers
                    && d.handlers[n] == Awaiting(cfg.parse(raw).value.id.value)
               else Replied(cfg, c, d, n, Threw) && n in d.handlers && d.handlers[n] == Finishing
  {
    hide SlotsInv, RepliesInv, WritesInv, BoundInv;
    AskedOf(cfg, raw);
    SuspendedIds(cfg, c, RequestId(cfg, raw).value);
    hide ControllersInv, HasSuspended;
  }
}

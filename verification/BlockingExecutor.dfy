/**
 The bounded executor for synchronous tools (brain/platform/async_io.py).

 A call is a coroutine on the event loop (`phase`), a work item in the thread pool
 (`item`), and optionally the coroutine of the caller that shields it (`caller`).
 The machine interleaves event-loop resumptions, thread steps and cancellation
 requests one atomic action at a time; `Run` folds an arbitrary list of actions.
 */
module BlockingExecutor {
  import opened Options

  type CallId = nat
  type ProbeId = nat

  /** How the synchronous function itself ends. `RaisedCancellation` is any exception
      that asyncio turns into CancelledError; `RaisedExit` any other non-Exception. */
  datatype Ending = Returned | RaisedError | RaisedCancellation | RaisedExit

  /** The work item: its concurrent future together with the thread's position in `run_call`.
      Picked, Flagged, Inside and Left all have a future that is already RUNNING. */
  datatype Item =
    | Unsubmitted
    | Queued
    | Revoked
    | Picked
    | Flagged
    | Inside
    | Left(ending: Ending)
    | Finished(outcome: Ending)

  /** How `_run_tool_blocking` ends. */
  datatype Settlement =
    | Value
    | Propagated(error: Ending)
    | Overloaded
    | SubmitRefused
    | PlainCancel
    | BlockingCancel(settled: Ending)

  /** Where the `_run_tool_blocking` coroutine is suspended. */
  datatype Phase =
    | Created
    | Admitting
    | Waiting
    | Deciding
    | Draining
    | Done(settlement: Settlement)

  /** How `invoke_maybe_async` ends when it delegates to `_run_tool_blocking`. */
  datatype CallerEnd =
    | Passed(settlement: Settlement)
    | CallerPlainCancel
    | CallerBlockingCancel(settled: Ending)

  datatype Caller =
    | Direct
    | Shielding
    | Abandoning
    | Collecting(doneAtEntry: bool)
    | CallerDone(end: CallerEnd)

  datatype Call = Call(
    probe: Option<ProbeId>,
    phase: Phase,
    item: Item,
    started: bool,
    delivered: bool,
    cancelRequested: bool,
    caller: Caller,
    callerCancelRequested: bool,
    entries: nat,
    exits: nat)

  datatype State = State(
    workers: nat,
    queue: nat,
    available: int,
    active: set<(ProbeId, CallId)>,
    calls: map<CallId, Call>)

  datatype Action =
    // the event loop and its clients
    | Submit(id: CallId, probe: Option<ProbeId>, viaInvoke: bool)
    | RequestCancel(id: CallId)
    | RequestCallerCancel(id: CallId)
    // the coroutine of _run_tool_blocking
    | Begin(id: CallId)
    | TryAdmit(id: CallId, submitAccepted: bool)
    | DeadlinePassed(id: CallId)
    | Resume(id: CallId)
    | CallCancel(id: CallId)
    // the pool thread
    | Pick(id: CallId)
    | SetStarted(id: CallId)
    | Enter(id: CallId)
    | Exit(id: CallId, ending: Ending)
    | Publish(id: CallId)
    | Deliver(id: CallId)
    // the coroutine of invoke_maybe_async
    | ResumeCaller(id: CallId)

  /** The call owns one admission permit: `admitted` is true and the `finally` is still ahead. */
  predicate Holds(k: Call) {
    k.phase.Waiting? || k.phase.Deciding? || k.phase.Draining?
  }

  /** The call has entered its probe and not left it. */
  predicate Entered(k: Call) {
    k.phase.Admitting? || Holds(k)
  }

  /** The call occupies a pool thread. */
  predicate OnThread(k: Call) {
    k.item.Picked? || k.item.Flagged? || k.item.Inside? || k.item.Left?
  }

  function Holders(calls: map<CallId, Call>): set<CallId> {
    set c | c in calls && Holds(calls[c])
  }

  function Busy(calls: map<CallId, Call>): set<CallId> {
    set c | c in calls && OnThread(calls[c])
  }

  function Capacity(s: State): nat {
    s.workers + s.queue
  }

  function Init(workers: nat, queue: nat): State {
    State(workers, queue, workers + queue, {}, map[])
  }

  function Put(s: State, c: CallId, k: Call): State {
    s.(calls := s.calls[c := k])
  }

  /** The `finally` block: release the permit if admitted, then leave the probe. */
  function Settle(s: State, c: CallId, settlement: Settlement): State
    requires c in s.calls
  {
    var k := s.calls[c];
    s.(available := if Holds(k) then s.available + 1 else s.available,
       active := if k.probe.Some? then s.active - {(k.probe.value, c)} else s.active,
       calls := s.calls[c := k.(phase := Done(settlement), cancelRequested := false)])
  }

  /** What the caller of `worker.result()` sees once the drain loop returns. */
  function DrainedSettlement(e: Ending): Settlement {
    match e
    case Returned => BlockingCancel(Returned)
    case RaisedError => BlockingCancel(RaisedError)
    case RaisedCancellation => PlainCancel
    case RaisedExit => Propagated(RaisedExit)
  }

  function DoBegin(s: State, c: CallId): State
    requires c in s.calls
  {
    var k := s.calls[c];
    if !k.phase.Created? then s
    else if k.cancelRequested then
      // a task cancelled before its first step never executes its body
      Put(s, c, k.(phase := Done(PlainCancel), cancelRequested := false))
    else
      Put(s, c, k.(phase := Admitting)).(
        active := if k.probe.Some? then s.active + {(k.probe.value, c)} else s.active)
  }

  function DoTryAdmit(s: State, c: CallId, submitAccepted: bool): State
    requires c in s.calls
  {
    var k := s.calls[c];
    if !k.phase.Admitting? then s
    else if k.cancelRequested then Settle(s, c, PlainCancel)
    else if s.available <= 0 then s
    else
      var admitted := s.(available := s.available - 1);
      if submitAccepted then Put(admitted, c, k.(phase := Waiting, item := Queued))
      else Settle(Put(admitted, c, k.(phase := Waiting)), c, SubmitRefused)
  }

  function DoDeadline(s: State, c: CallId): State
    requires c in s.calls
  {
    var k := s.calls[c];
    if k.phase.Admitting? && !k.cancelRequested && s.available <= 0 then Settle(s, c, Overloaded) else s
  }

  /** The first half of the `except CancelledError` handler: read `started`. */
  function Interrupted(k: Call): Call {
    k.(phase := if k.started then Draining else Deciding, cancelRequested := false)
  }

  /** The loop resumes a coroutine suspended at one of its two shielded awaits. */
  function DoResume(s: State, c: CallId): State
    requires c in s.calls
  {
    var k := s.calls[c];
    match k.phase
    case Waiting =>
      if k.cancelRequested then Put(s, c, Interrupted(k))
      else if k.delivered && k.item.Finished? then
        match k.item.outcome {
          case Returned => Settle(s, c, Value)
          case RaisedCancellation => Put(s, c, Interrupted(k))
          case e => Settle(s, c, Propagated(e))
        }
      else s
    case Draining =>
      if k.delivered && k.item.Finished? then Settle(s, c, DrainedSettlement(k.item.outcome))
      else Put(s, c, k.(cancelRequested := false))
    case _ => s
  }

  /** The second half of the handler: `concurrent_worker.cancel()`. */
  function DoCallCancel(s: State, c: CallId): State
    requires c in s.calls
  {
    var k := s.calls[c];
    if !k.phase.Deciding? then s
    else if k.item.Queued? then Settle(Put(s, c, k.(item := Revoked)), c, PlainCancel)
    else Put(s, c, k.(phase := Draining))
  }

  function DoPick(s: State, c: CallId): State
    requires c in s.calls
  {
    if s.calls[c].item.Queued? && |Busy(s.calls)| < s.workers then
      Put(s, c, s.calls[c].(item := Picked))
    else s
  }

  /** The remaining thread steps touch one call and nothing shared. */
  function ThreadStep(k: Call, a: Action): Call {
    match a
    case SetStarted(_) => if k.item.Picked? then k.(item := Flagged, started := true) else k
    case Enter(_) => if k.item.Flagged? then k.(item := Inside, entries := k.entries + 1) else k
    case Exit(_, e) => if k.item.Inside? then k.(item := Left(e), exits := k.exits + 1) else k
    case Publish(_) => if k.item.Left? then k.(item := Finished(k.item.ending)) else k
    case Deliver(_) => if k.item.Finished? then k.(delivered := true) else k
    case _ => k
  }

  predicate OfThread(a: Action) {
    a.SetStarted? || a.Enter? || a.Exit? || a.Publish? || a.Deliver?
  }

  /** `invoke_maybe_async` is resumed: by a cancellation, or because its task is done. */
  function CallerStep(k: Call): Call {
    match k.caller
    case Shielding =>
      if k.callerCancelRequested || (k.phase.Done? && (k.phase.settlement.PlainCancel? || k.phase.settlement.BlockingCancel?)) then
        if k.started then k.(caller := Collecting(k.phase.Done?), callerCancelRequested := false)
        else k.(caller := Abandoning, callerCancelRequested := false,
                cancelRequested := k.cancelRequested || !k.phase.Done?)
      else if k.phase.Done? then k.(caller := CallerDone(Passed(k.phase.settlement)))
      else k
    case Abandoning =>
      if k.phase.Done? then k.(caller := CallerDone(CallerPlainCancel), callerCancelRequested := false)
      else k.(callerCancelRequested := false)
    case Collecting(doneAtEntry) =>
      if k.phase.Done? then k.(caller := CallerDone(Collected(k.phase.settlement, doneAtEntry)), callerCancelRequested := false)
      else k.(callerCancelRequested := false)
    case _ => k
  }

  /** What the caller raises once it has the task's result. The first request for the result of a cancelled task
      raises the task's own exception, every later one a plain cancellation; a task that was done
      before the caller waited has been asked once already. */
  function Collected(settlement: Settlement, doneAtEntry: bool): CallerEnd {
    match settlement
    case Value => CallerBlockingCancel(Returned)
    case Propagated(RaisedError) => CallerBlockingCancel(RaisedError)
    case Propagated(e) => Passed(Propagated(e))
    case Overloaded => CallerBlockingCancel(RaisedError)
    case SubmitRefused => CallerBlockingCancel(RaisedError)
    case PlainCancel => CallerPlainCancel
    case BlockingCancel(e) => if doneAtEntry then CallerPlainCancel else CallerBlockingCancel(e)
  }

  function NewCall(probe: Option<ProbeId>, viaInvoke: bool): Call {
    Call(probe, Created, Unsubmitted, false, false, false,
         if viaInvoke then Shielding else Direct, false, 0, 0)
  }

  function Next(s: State, a: Action): State {
    if a.Submit? then
      if a.id in s.calls then s else Put(s, a.id, NewCall(a.probe, a.viaInvoke))
    else if a.id !in s.calls then s
    else
      var c := a.id;
      var k := s.calls[c];
      match a
      case RequestCancel(_) => if k.phase.Done? then s else Put(s, c, k.(cancelRequested := true))
      case RequestCallerCancel(_) =>
        if k.caller.Direct? || k.caller.CallerDone? then s
        else Put(s, c, k.(callerCancelRequested := true))
      case Begin(_) => DoBegin(s, c)
      case TryAdmit(_, accepted) => DoTryAdmit(s, c, accepted)
      case DeadlinePassed(_) => DoDeadline(s, c)
      case Resume(_) => DoResume(s, c)
      case CallCancel(_) => DoCallCancel(s, c)
      case Pick(_) => DoPick(s, c)
      case ResumeCaller(_) => Put(s, c, CallerStep(k))
      case _ => Put(s, c, ThreadStep(k, a))
  }

  function Run(s: State, actions: seq<Action>): State
    decreases |actions|
  {
    if actions == [] then s else Run(Next(s, actions[0]), actions[1..])
  }

  // ---------------------------------------------------------------- invariants

  /** The thread's position determines the flag, the delivery and both counters. */
  ghost predicate ThreadOk(k: Call) {
    && k.started == (k.item.Flagged? || k.item.Inside? || k.item.Left? || k.item.Finished?)
    && k.entries == (if k.item.Inside? || k.item.Left? || k.item.Finished? then 1 else 0)
    && k.exits == (if k.item.Left? || k.item.Finished? then 1 else 0)
    && (k.delivered ==> k.item.Finished?)
  }

  ghost predicate SettlementOk(s: Settlement, item: Item) {
    match s
    case Value => item == Finished(Returned)
    case Propagated(e) => item == Finished(e) && (e.RaisedError? || e.RaisedExit?)
    case BlockingCancel(e) => item == Finished(e) && (e.Returned? || e.RaisedError?)
    case PlainCancel => item.Unsubmitted? || item.Revoked? || item == Finished(RaisedCancellation)
    case Overloaded => item.Unsubmitted?
    case SubmitRefused => item.Unsubmitted?
  }

  ghost predicate PhaseOk(k: Call) {
    match k.phase
    case Created => k.item.Unsubmitted?
    case Admitting => k.item.Unsubmitted?
    case Done(s) => SettlementOk(s, k.item) && !k.cancelRequested
    case _ => !k.item.Unsubmitted? && !k.item.Revoked?
  }

  ghost predicate CallerOk(k: Call) {
    match k.caller
    case CallerDone(end) =>
      && k.phase.Done?
      && (end.Passed? ==> end.settlement == k.phase.settlement)
      && (end.CallerBlockingCancel? ==> k.item == Finished(end.settled))
    case Collecting(_) => k.started
    case _ => true
  }

  ghost predicate CallOk(k: Call) {
    ThreadOk(k) && PhaseOk(k) && CallerOk(k)
  }

  ghost predicate ProbesOk(s: State) {
    forall p: ProbeId, c: CallId ::
      (p, c) in s.active <==> c in s.calls && s.calls[c].probe == Some(p) && Entered(s.calls[c])
  }

  ghost predicate Inv(s: State) {
    && (forall c :: c in s.calls ==> CallOk(s.calls[c]))
    && ProbesOk(s)
    && s.available + |Holders(s.calls)| == Capacity(s)
    && s.available >= 0
    && |Busy(s.calls)| <= s.workers
  }

  lemma HoldersPut(calls: map<CallId, Call>, c: CallId, k: Call)
    ensures |Holders(calls[c := k])|
         == |Holders(calls)| - (if c in calls && Holds(calls[c]) then 1 else 0) + (if Holds(k) then 1 else 0)
  {
    var rest := Holders(calls) - {c};
    assert Holders(calls[c := k]) == if Holds(k) then rest + {c} else rest;
    assert Holders(calls) == if c in calls && Holds(calls[c]) then rest + {c} else rest;
  }

  lemma BusyPut(calls: map<CallId, Call>, c: CallId, k: Call)
    ensures |Busy(calls[c := k])|
         == |Busy(calls)| - (if c in calls && OnThread(calls[c]) then 1 else 0) + (if OnThread(k) then 1 else 0)
  {
    var rest := Busy(calls) - {c};
    assert Busy(calls[c := k]) == if OnThread(k) then rest + {c} else rest;
    assert Busy(calls) == if c in calls && OnThread(calls[c]) then rest + {c} else rest;
  }

  /** Replacing a call by one with the same standing in every shared structure keeps the books. */
  lemma PutKeepsInv(s: State, c: CallId, k: Call)
    requires Inv(s) && CallOk(k)
    requires Holds(k) == (c in s.calls && Holds(s.calls[c]))
    requires Entered(k) == (c in s.calls && Entered(s.calls[c]))
    requires c in s.calls ==> k.probe == s.calls[c].probe
    requires OnThread(k) ==> (c in s.calls && OnThread(s.calls[c])) || |Busy(s.calls)| < s.workers
    ensures Inv(Put(s, c, k))
  {
    HoldersPut(s.calls, c, k);
    BusyPut(s.calls, c, k);
  }

  lemma SettleKeepsInv(s: State, c: CallId, settlement: Settlement)
    requires Inv(s) && c in s.calls && Entered(s.calls[c]) && SettlementOk(settlement, s.calls[c].item)
    ensures Inv(Settle(s, c, settlement))
  {
    var k := s.calls[c].(phase := Done(settlement), cancelRequested := false);
    HoldersPut(s.calls, c, k);
    BusyPut(s.calls, c, k);
  }

  lemma BeginKeepsInv(s: State, c: CallId)
    requires Inv(s) && c in s.calls
    ensures Inv(DoBegin(s, c))
  {
    var k := s.calls[c];
    if k.phase.Created? && !k.cancelRequested {
      HoldersPut(s.calls, c, k.(phase := Admitting));
      BusyPut(s.calls, c, k.(phase := Admitting));
    } else if k.phase.Created? {
      PutKeepsInv(s, c, k.(phase := Done(PlainCancel), cancelRequested := false));
    }
  }

  lemma TryAdmitKeepsInv(s: State, c: CallId, submitAccepted: bool)
    requires Inv(s) && c in s.calls
    ensures Inv(DoTryAdmit(s, c, submitAccepted))
  {
    var k := s.calls[c];
    if k.phase.Admitting? && k.cancelRequested {
      SettleKeepsInv(s, c, PlainCancel);
    } else if k.phase.Admitting? && s.available > 0 && submitAccepted {
      HoldersPut(s.calls, c, k.(phase := Waiting, item := Queued));
      BusyPut(s.calls, c, k.(phase := Waiting, item := Queued));
    } else if k.phase.Admitting? && s.available > 0 {
      RefusedSubmitKeepsInv(s, c);
    }
  }

  lemma RefusedSubmitKeepsInv(s: State, c: CallId)
    requires Inv(s) && c in s.calls && s.calls[c].phase.Admitting? && !s.calls[c].cancelRequested && s.available > 0
    ensures Inv(DoTryAdmit(s, c, false))
  {
    var w := s.calls[c].(phase := Waiting);
    var d := w.(phase := Done(SubmitRefused));
    assert s.calls[c := w][c := d] == s.calls[c := d];
    SettleKeepsInv(s, c, SubmitRefused);
    assert DoTryAdmit(s, c, false) == Settle(s, c, SubmitRefused);
  }

  lemma ResumeKeepsInv(s: State, c: CallId)
    requires Inv(s) && c in s.calls
    ensures Inv(DoResume(s, c))
  {
    var k := s.calls[c];
    match k.phase {
      case Waiting =>
        if k.cancelRequested {
          PutKeepsInv(s, c, Interrupted(k));
        } else if k.delivered && k.item.Finished? {
          match k.item.outcome {
            case Returned => SettleKeepsInv(s, c, Value);
            case RaisedCancellation => PutKeepsInv(s, c, Interrupted(k));
            case e => SettleKeepsInv(s, c, Propagated(e));
          }
        }
      case Draining =>
        if k.delivered && k.item.Finished? {
          SettleKeepsInv(s, c, DrainedSettlement(k.item.outcome));
        } else {
          PutKeepsInv(s, c, k.(cancelRequested := false));
        }
      case _ =>
    }
  }

  lemma CallCancelKeepsInv(s: State, c: CallId)
    requires Inv(s) && c in s.calls
    ensures Inv(DoCallCancel(s, c))
  {
    var k := s.calls[c];
    if k.phase.Deciding? && k.item.Queued? {
      RevokeKeepsInv(s, c);
    } else if k.phase.Deciding? {
      PutKeepsInv(s, c, k.(phase := Draining));
    }
  }

  lemma RevokeKeepsInv(s: State, c: CallId)
    requires Inv(s) && c in s.calls && s.calls[c].phase.Deciding? && s.calls[c].item.Queued?
    ensures Inv(DoCallCancel(s, c))
  {
    var r := s.calls[c].(item := Revoked);
    var d := r.(phase := Done(PlainCancel), cancelRequested := false);
    HoldersPut(s.calls, c, d);
    BusyPut(s.calls, c, d);
    assert s.calls[c := r][c := d] == s.calls[c := d];
    assert CallOk(d);
  }

  /** What a step that touches nothing shared keeps. */
  ghost predicate SameStanding(k: Call, j: Call) {
    CallOk(j) && j.probe == k.probe && Holds(j) == Holds(k) && Entered(j) == Entered(k) && (OnThread(j) ==> OnThread(k))
  }

  lemma CallerStepKeepsCall(k: Call)
    requires CallOk(k)
    ensures SameStanding(k, CallerStep(k))
  {
  }

  lemma ThreadStepKeepsCall(k: Call, a: Action)
    requires CallOk(k)
    ensures SameStanding(k, ThreadStep(k, a))
  {
  }

  lemma SameStandingKeepsInv(s: State, c: CallId, j: Call)
    requires Inv(s) && c in s.calls && SameStanding(s.calls[c], j)
    ensures Inv(Put(s, c, j))
  {
    PutKeepsInv(s, c, j);
  }

  lemma SubmitKeepsInv(s: State, c: CallId, probe: Option<ProbeId>, viaInvoke: bool)
    requires Inv(s) && c !in s.calls
    ensures Inv(Put(s, c, NewCall(probe, viaInvoke)))
  {
    PutKeepsInv(s, c, NewCall(probe, viaInvoke));
  }

  lemma RequestKeepsInv(s: State, c: CallId)
    requires Inv(s) && c in s.calls
    ensures !s.calls[c].phase.Done? ==> Inv(Put(s, c, s.calls[c].(cancelRequested := true)))
    ensures Inv(Put(s, c, s.calls[c].(callerCancelRequested := true)))
  {
    if !s.calls[c].phase.Done? { SameStandingKeepsInv(s, c, s.calls[c].(cancelRequested := true)); }
    SameStandingKeepsInv(s, c, s.calls[c].(callerCancelRequested := true));
  }

  lemma DeadlineKeepsInv(s: State, c: CallId)
    requires Inv(s) && c in s.calls
    ensures Inv(DoDeadline(s, c))
  {
    if DoDeadline(s, c) != s { SettleKeepsInv(s, c, Overloaded); }
  }

  lemma PickKeepsInv(s: State, c: CallId)
    requires Inv(s) && c in s.calls
    ensures Inv(DoPick(s, c))
  {
    if DoPick(s, c) != s { PutKeepsInv(s, c, s.calls[c].(item := Picked)); }
  }

  lemma ThreadActionKeepsInv(s: State, c: CallId, a: Action)
    requires Inv(s) && c in s.calls
    ensures Inv(Put(s, c, ThreadStep(s.calls[c], a)))
  {
    ThreadStepKeepsCall(s.calls[c], a);
    SameStandingKeepsInv(s, c, ThreadStep(s.calls[c], a));
  }

  lemma CallerActionKeepsInv(s: State, c: CallId)
    requires Inv(s) && c in s.calls
    ensures Inv(Put(s, c, CallerStep(s.calls[c])))
  {
    CallerStepKeepsCall(s.calls[c]);
    SameStandingKeepsInv(s, c, CallerStep(s.calls[c]));
  }

  predicate OfClient(a: Action) {
    a.Submit? || a.RequestCancel? || a.RequestCallerCancel? || a.ResumeCaller?
  }

  lemma ClientActionKeepsInv(s: State, a: Action)
    requires Inv(s) && OfClient(a)
    ensures Inv(Next(s, a))
  {
    if a.Submit? {
      if a.id !in s.calls { SubmitKeepsInv(s, a.id, a.probe, a.viaInvoke); }
    } else if a.id in s.calls {
      if a.ResumeCaller? { CallerActionKeepsInv(s, a.id); } else { RequestKeepsInv(s, a.id); }
    }
  }

  lemma LoopActionKeepsInv(s: State, a: Action)
    requires Inv(s) && !OfClient(a) && !OfThread(a) && a.id in s.calls
    ensures Inv(Next(s, a))
  {
    match a {
      case Begin(c) => BeginKeepsInv(s, c);
      case TryAdmit(c, accepted) => TryAdmitKeepsInv(s, c, accepted);
      case DeadlinePassed(c) => DeadlineKeepsInv(s, c);
      case Resume(c) => ResumeKeepsInv(s, c);
      case CallCancel(c) => CallCancelKeepsInv(s, c);
      case Pick(c) => PickKeepsInv(s, c);
    }
  }

  lemma NextKeepsInv(s: State, a: Action)
    requires Inv(s)
    ensures Inv(Next(s, a))
  {
    if OfClient(a) {
      ClientActionKeepsInv(s, a);
    } else if a.id in s.calls {
      if OfThread(a) { ThreadActionKeepsInv(s, a.id, a); } else { LoopActionKeepsInv(s, a); }
    }
  }

  lemma {:induction false} RunKeepsInv(s: State, actions: seq<Action>)
    requires Inv(s)
    ensures Inv(Run(s, actions))
    decreases |actions|
  {
    if actions != [] {
      NextKeepsInv(s, actions[0]);
      RunKeepsInv(Next(s, actions[0]), actions[1..]);
    }
  }

  lemma InitInv(workers: nat, queue: nat)
    ensures Inv(Init(workers, queue))
  {
  }

  /** Every state that any interleaving can reach. */
  ghost predicate Reachable(s: State) {
    exists workers, queue, actions :: s == Run(Init(workers, queue), actions)
  }

  lemma ReachableInv(s: State)
    requires Reachable(s)
    ensures Inv(s)
  {
    var workers, queue, actions :| s == Run(Init(workers, queue), actions);
    InitInv(workers, queue);
    RunKeepsInv(Init(workers, queue), actions);
  }

  // ---------------------------------------------------------------- main results

  /** Permits are conserved, and they bound the live work inside the pool. */
  lemma PermitsMatchUnsettledAdmissions(workers: nat, queue: nat, actions: seq<Action>)
    ensures var s := Run(Init(workers, queue), actions);
            && s.workers == workers && s.queue == queue
            && 0 <= s.available <= workers + queue
            && |Holders(s.calls)| == workers + queue - s.available
            && |Busy(s.calls)| <= workers
            && (forall c :: c in s.calls && (s.calls[c].item.Queued? || OnThread(s.calls[c])) ==> c in Holders(s.calls))
  {
    InitInv(workers, queue);
    RunKeepsInv(Init(workers, queue), actions);
    CapacityIsFixed(Init(workers, queue), actions);
  }

  lemma {:induction false} CapacityIsFixed(s: State, actions: seq<Action>)
    ensures var t := Run(s, actions); t.workers == s.workers && t.queue == s.queue
    decreases |actions|
  {
    if actions != [] { CapacityIsFixed(Next(s, actions[0]), actions[1..]); }
  }

  /** Whatever ends `_run_tool_blocking` or `invoke_maybe_async`, nothing is left behind:
      no thread runs the function, the permit is back and the probe entry is gone. */
  lemma FinishedCallsLeaveNothingBehind(s: State, c: CallId)
    requires Reachable(s) && c in s.calls
    requires s.calls[c].phase.Done? || s.calls[c].caller.CallerDone?
    ensures !OnThread(s.calls[c]) && !s.calls[c].item.Queued?
    ensures c !in Holders(s.calls)
    ensures forall p :: (p, c) !in s.active
  {
    ReachableInv(s);
  }

  lemma SettledStaysSettled(s: State, c: CallId, a: Action)
    requires Inv(s) && c in s.calls && s.calls[c].phase.Done?
    ensures c in Next(s, a).calls
    ensures var k := Next(s, a).calls[c];
            k.phase == s.calls[c].phase && k.item == s.calls[c].item
            && k.entries == s.calls[c].entries && k.exits == s.calls[c].exits
  {
    assert CallOk(s.calls[c]);
    if a.id == c {
      match a {
        case TryAdmit(_, _) =>
        case Resume(_) =>
        case Pick(_) =>
        case _ =>
      }
    } else {
      OthersUntouched(s, a, c);
    }
  }

  lemma OthersUntouched(s: State, a: Action, c: CallId)
    requires a.id != c && c in s.calls
    ensures c in Next(s, a).calls && Next(s, a).calls[c] == s.calls[c]
  {
  }

  /** A settled call is frozen: no later action runs its function or changes its outcome. */
  lemma {:induction false} SettledForGood(s: State, c: CallId, later: seq<Action>)
    requires Inv(s) && c in s.calls && s.calls[c].phase.Done?
    ensures c in Run(s, later).calls
    ensures var k := Run(s, later).calls[c];
            k.phase == s.calls[c].phase && k.item == s.calls[c].item
            && k.entries == s.calls[c].entries && k.exits == s.calls[c].exits
    decreases |later|
  {
    if later != [] {
      NextKeepsInv(s, later[0]);
      SettledStaysSettled(s, c, later[0]);
      SettledForGood(Next(s, later[0]), c, later[1..]);
    }
  }

  /** The settlement tells exactly how often the function ran, now and for ever:
      never for refusals and plain cancellations, once to completion otherwise.
      The one exception is a function that raises a cancellation itself. */
  lemma SettlementTellsWhetherItRan(s: State, c: CallId, later: seq<Action>)
    requires Reachable(s) && c in s.calls && s.calls[c].phase.Done?
    ensures var k := s.calls[c];
            && c in Run(s, later).calls
            && Run(s, later).calls[c].entries == Run(s, later).calls[c].exits == k.entries <= 1
            && (k.entries == 1 <==> k.item.Finished?)
            && (k.item.Finished? ==>
                  (k.phase.settlement == PlainCancel <==> k.item.outcome == RaisedCancellation))
            && (!k.item.Finished? <==>
                  || k.phase.settlement == Overloaded || k.phase.settlement == SubmitRefused
                  || (k.phase.settlement == PlainCancel && k.item != Finished(RaisedCancellation)))
            && (k.phase.settlement == Value ==> k.item == Finished(Returned))
            && (k.phase.settlement.BlockingCancel? ==> k.item == Finished(k.phase.settlement.settled))
            && (k.phase.settlement.Propagated? ==> k.item == Finished(k.phase.settlement.error))
  {
    ReachableInv(s);
    SettledForGood(s, c, later);
  }

  /** The exception needs the function's own cancellation: without one in the history,
      a plain cancellation means the function never ran and never will. */
  lemma PlainCancelMeansNeverRun(workers: nat, queue: nat, actions: seq<Action>, later: seq<Action>, c: CallId)
    requires Exit(c, RaisedCancellation) !in actions
    requires c in Run(Init(workers, queue), actions).calls
    requires Run(Init(workers, queue), actions).calls[c].phase == Done(PlainCancel)
    ensures c in Run(Init(workers, queue), actions + later).calls
    ensures Run(Init(workers, queue), actions + later).calls[c].entries == 0
  {
    var s := Run(Init(workers, queue), actions);
    InitInv(workers, queue);
    RunKeepsInv(Init(workers, queue), actions);
    EndingNeedsExit(Init(workers, queue), actions, c, RaisedCancellation);
    SettledForGood(s, c, later);
    RunAppend(Init(workers, queue), actions, later);
  }

  /** The function has ended like this. */
  predicate EndsWith(s: State, c: CallId, e: Ending) {
    c in s.calls && (s.calls[c].item == Left(e) || s.calls[c].item == Finished(e))
  }

  /** The loop's own actions leave a work item alone, queue it or revoke it. */
  lemma LoopActionsKeepItem(s: State, a: Action)
    requires a.id in s.calls
    requires !OfThread(a)
    ensures a.id in Next(s, a).calls
    ensures var i := Next(s, a).calls[a.id].item;
            i == s.calls[a.id].item || i.Queued? || i.Revoked? || i.Picked?
  {
  }

  lemma OtherActionsEndNothing(s: State, a: Action, c: CallId, e: Ending)
    requires !EndsWith(s, c, e) && a != Exit(c, e)
    ensures !EndsWith(Next(s, a), c, e)
  {
    if a.id == c && c in s.calls {
      if OfThread(a) {
        assert Next(s, a) == Put(s, c, ThreadStep(s.calls[c], a));
      } else {
        LoopActionsKeepItem(s, a);
      }
    } else if c in s.calls {
      OthersUntouched(s, a, c);
    }
  }

  lemma {:induction false} EndingNeedsExit(s: State, actions: seq<Action>, c: CallId, e: Ending)
    requires !EndsWith(s, c, e) && Exit(c, e) !in actions
    ensures !EndsWith(Run(s, actions), c, e)
    decreases |actions|
  {
    if actions != [] {
      assert actions[0] != Exit(c, e);
      OtherActionsEndNothing(s, actions[0], c, e);
      EndingNeedsExit(Next(s, actions[0]), actions[1..], c, e);
    }
  }

  /** Over every run, a finished item carries the ending its function really had. */
  lemma OutcomeIsTheFunctionsEnding(workers: nat, queue: nat, actions: seq<Action>, c: CallId, e: Ending)
    requires EndsWith(Run(Init(workers, queue), actions), c, e)
    ensures Exit(c, e) in actions
  {
    if Exit(c, e) !in actions { EndingNeedsExit(Init(workers, queue), actions, c, e); }
  }

  lemma {:induction false} RunAppend(s: State, a: seq<Action>, b: seq<Action>)
    ensures Run(s, a + b) == Run(Run(s, a), b)
    decreases |a|
  {
    if a == [] {
      assert a + b == b;
    } else {
      assert (a + b)[0] == a[0] && (a + b)[1..] == a[1..] + b;
      RunAppend(Next(s, a[0]), a[1..], b);
    }
  }

  /** A settled cancellation reported to either coroutine is reported only after the function
      finished, and it carries the function's own outcome. */
  lemma BlockingCancelMeansSettled(s: State, c: CallId, e: Ending)
    requires Reachable(s) && c in s.calls
    requires s.calls[c].phase == Done(BlockingCancel(e)) || s.calls[c].caller == CallerDone(CallerBlockingCancel(e))
    ensures s.calls[c].item == Finished(e) && s.calls[c].entries == s.calls[c].exits == 1
  {
    ReachableInv(s);
  }

  /** `InvocationProbe.blocking_snapshot`. */
  function BlockingSnapshot(s: State, p: ProbeId): (bool, bool) {
    var mine := set e | e in s.active && e.0 == p;
    (mine != {}, exists e :: e in mine && e.1 in s.calls && s.calls[e.1].started)
  }

  /** The probe reports exactly the begun, unsettled calls bound to it. */
  lemma SnapshotIsExact(s: State, p: ProbeId)
    requires Reachable(s)
    ensures BlockingSnapshot(s, p).0 <==>
              exists c :: c in s.calls && s.calls[c].probe == Some(p) && Entered(s.calls[c])
    ensures BlockingSnapshot(s, p).1 <==>
              exists c :: c in s.calls && s.calls[c].probe == Some(p) && Holds(s.calls[c]) && s.calls[c].started
  {
    ReachableInv(s);
    var mine := set e | e in s.active && e.0 == p;
    if c :| c in s.calls && s.calls[c].probe == Some(p) && Entered(s.calls[c]) {
      assert (p, c) in mine;
    }
    if mine != {} {
      var e :| e in mine;
      assert (p, e.1) in s.active;
    }
    forall c | c in s.calls && s.calls[c].probe == Some(p) && Holds(s.calls[c]) && s.calls[c].started
      ensures (p, c) in mine
    {
    }
    forall e | e in mine && e.1 in s.calls && s.calls[e.1].started
      ensures s.calls[e.1].probe == Some(p) && Holds(s.calls[e.1])
    {
      assert (p, e.1) in s.active;
    }
  }

  class BlockingCallState {
    var started: bool

    constructor ()
      ensures !started
    {
      started := false;
    }
  }

  /** The probe itself: the set of the calls it watches. */
  class InvocationProbe {
    var activeBlockingStates: set<BlockingCallState>

    constructor ()
      ensures activeBlockingStates == {}
    {
      activeBlockingStates := {};
    }

    method EnterBlockingCall(state: BlockingCallState)
      modifies this
      ensures activeBlockingStates == old(activeBlockingStates) + {state}
    {
      activeBlockingStates := activeBlockingStates + {state};
    }

    method LeaveBlockingCall(state: BlockingCallState)
      modifies this
      ensures activeBlockingStates == old(activeBlockingStates) - {state}
    {
      activeBlockingStates := activeBlockingStates - {state};
    }

    /** The objects stand for the calls of probe `p` in the machine state `s`. */
    ghost predicate Mirrors(s: State, p: ProbeId, objects: map<CallId, BlockingCallState>)
      reads this, activeBlockingStates
    {
      && (forall c :: c in objects <==> (p, c) in s.active)
      && (forall c :: c in objects ==> objects[c] in activeBlockingStates)
      && (forall o :: o in activeBlockingStates ==> exists c :: c in objects && objects[c] == o)
      && (forall c :: c in objects ==> c in s.calls && objects[c].started == s.calls[c].started)
    }

    /** Whether a call is active and whether one of them has started. */
    method Snapshot(ghost s: State, ghost p: ProbeId, ghost objects: map<CallId, BlockingCallState>)
      returns (active: bool, started: bool)
      ensures active <==> activeBlockingStates != {}
      ensures started <==> exists o :: o in activeBlockingStates && o.started
      ensures Mirrors(s, p, objects) ==> (active, started) == BlockingSnapshot(s, p)
    {
      var states := activeBlockingStates;
      active, started := states != {}, false;
      ghost var asked: set<BlockingCallState> := {};
      while states != {}
        invariant asked + states == activeBlockingStates
        invariant started <==> exists o :: o in asked && o.started
        decreases states
      {
        var o :| o in states;
        started := started || o.started;
        states, asked := states - {o}, asked + {o};
      }
      assert asked == activeBlockingStates;
      if Mirrors(s, p, objects) { MirrorsAgree(s, p, objects); }
    }

    lemma MirrorsAgree(s: State, p: ProbeId, objects: map<CallId, BlockingCallState>)
      requires Mirrors(s, p, objects)
      ensures BlockingSnapshot(s, p).0 <==> activeBlockingStates != {}
      ensures BlockingSnapshot(s, p).1 <==> exists o :: o in activeBlockingStates && o.started
    {
      var mine := set e | e in s.active && e.0 == p;
      forall o | o in activeBlockingStates ensures exists c :: (p, c) in mine && c in objects && objects[c] == o {
        var c :| c in objects && objects[c] == o;
        assert (p, c) in mine;
      }
      forall e | e in mine ensures e.1 in objects && objects[e.1] in activeBlockingStates {
        assert e == (p, e.1);
      }
    }
  }

  // ---------------------------------------------------------------- nothing gets stuck

  /** How far a call is from settling. */
  function Distance(k: Call): nat {
    var work := match k.item
      case Queued => 7
      case Picked => 6
      case Flagged => 5
      case Inside => 4
      case Left(_) => 3
      case _ => if k.delivered then 1 else 2;
    match k.phase
    case Done(_) => 0
    case Draining => 10 + work
    case Deciding => 20 + work
    case Waiting => 30 + work
    case Admitting => 40
    case Created => 50
  }

  /** One more action brings an unsettled call closer, unless it waits for a thread. */
  function Advance(s: State, c: CallId): Action
    requires c in s.calls
  {
    var k := s.calls[c];
    match k.phase
    case Created => Begin(c)
    case Admitting => if k.cancelRequested || s.available > 0 then TryAdmit(c, true) else DeadlinePassed(c)
    case Deciding => CallCancel(c)
    case _ =>
      match k.item
      case Queued => Pick(c)
      case Picked => SetStarted(c)
      case Flagged => Enter(c)
      case Inside => Exit(c, Returned)
      case Left(_) => Publish(c)
      case _ => if k.delivered then Resume(c) else Deliver(c)
  }

  lemma AdvanceGetsCloser(s: State, c: CallId)
    requires Inv(s) && c in s.calls && !s.calls[c].phase.Done?
    requires s.calls[c].item.Queued? ==> |Busy(s.calls)| < s.workers
    ensures c in Next(s, Advance(s, c)).calls
    ensures Distance(Next(s, Advance(s, c)).calls[c]) < Distance(s.calls[c])
  {
    var k := s.calls[c];
    assert CallOk(k);
    if k.phase.Waiting? || k.phase.Draining? {
      if k.item.Finished? && k.delivered {
        ResumeGetsCloser(s, c);
      } else {
        ItemGetsCloser(s, c);
      }
    } else {
      LoopGetsCloser(s, c);
    }
  }

  lemma LoopGetsCloser(s: State, c: CallId)
    requires c in s.calls && (s.calls[c].phase.Created? || s.calls[c].phase.Admitting? || s.calls[c].phase.Deciding?)
    ensures c in Next(s, Advance(s, c)).calls
    ensures Distance(Next(s, Advance(s, c)).calls[c]) < Distance(s.calls[c])
  {
    match s.calls[c].phase {
      case Created => assert Next(s, Begin(c)) == DoBegin(s, c);
      case Deciding => assert Next(s, CallCancel(c)) == DoCallCancel(s, c);
      case Admitting =>
        assert Next(s, TryAdmit(c, true)) == DoTryAdmit(s, c, true);
        assert Next(s, DeadlinePassed(c)) == DoDeadline(s, c);
    }
  }

  lemma ResumeGetsCloser(s: State, c: CallId)
    requires c in s.calls && (s.calls[c].phase.Waiting? || s.calls[c].phase.Draining?)
    requires s.calls[c].item.Finished? && s.calls[c].delivered
    ensures c in Next(s, Resume(c)).calls
    ensures Distance(Next(s, Resume(c)).calls[c]) < Distance(s.calls[c])
  {
    assert Next(s, Resume(c)) == DoResume(s, c);
  }

  lemma ItemGetsCloser(s: State, c: CallId)
    requires c in s.calls && (s.calls[c].phase.Waiting? || s.calls[c].phase.Draining?)
    requires ThreadOk(s.calls[c]) && !s.calls[c].item.Unsubmitted? && !s.calls[c].item.Revoked?
    requires !(s.calls[c].item.Finished? && s.calls[c].delivered)
    requires s.calls[c].item.Queued? ==> |Busy(s.calls)| < s.workers
    ensures c in Next(s, Advance(s, c)).calls
    ensures Distance(Next(s, Advance(s, c)).calls[c]) < Distance(s.calls[c])
  {
    if s.calls[c].item.Queued? {
      assert Next(s, Pick(c)) == DoPick(s, c);
    } else {
      NextIsThreadStep(s, c, s.calls[c], Advance(s, c));
      assert Put(s, c, s.calls[c]) == s;
    }
  }

  lemma NextIsThreadStep(s: State, c: CallId, k: Call, a: Action)
    requires OfThread(a) && a.id == c
    ensures Next(Put(s, c, k), a) == Put(s, c, ThreadStep(k, a))
  {
    var j := ThreadStep(k, a);
    assert s.calls[c := k][c := j] == s.calls[c := j];
  }

  function FinishThread(b: CallId): seq<Action> {
    [SetStarted(b), Enter(b), Exit(b, Returned), Publish(b)]
  }

  /** The thread steps of `FinishThread`, composed. */
  function Ended(k: Call, b: CallId): Call {
    ThreadStep(ThreadStep(ThreadStep(ThreadStep(k, SetStarted(b)), Enter(b)), Exit(b, Returned)), Publish(b))
  }

  lemma FinishThreadRuns(s: State, b: CallId)
    requires b in s.calls
    ensures Run(s, FinishThread(b)) == Put(s, b, Ended(s.calls[b], b))
  {
    var k1 := ThreadStep(s.calls[b], SetStarted(b));
    var k2 := ThreadStep(k1, Enter(b));
    var k3 := ThreadStep(k2, Exit(b, Returned));
    assert Put(s, b, s.calls[b]) == s;
    ThreadRuns(s, b, k3, Publish(b), []);
    ThreadRuns(s, b, k2, Exit(b, Returned), [Publish(b)]);
    ThreadRuns(s, b, k1, Enter(b), [Exit(b, Returned), Publish(b)]);
    ThreadRuns(s, b, s.calls[b], SetStarted(b), [Enter(b), Exit(b, Returned), Publish(b)]);
    assert [SetStarted(b)] + [Enter(b), Exit(b, Returned), Publish(b)] == FinishThread(b);
    assert [Enter(b)] + [Exit(b, Returned), Publish(b)] == [Enter(b), Exit(b, Returned), Publish(b)];
    assert [Exit(b, Returned)] + [Publish(b)] == [Exit(b, Returned), Publish(b)];
    assert [Publish(b)] + [] == [Publish(b)];
  }

  lemma ThreadRuns(s: State, b: CallId, k: Call, a: Action, rest: seq<Action>)
    requires OfThread(a) && a.id == b
    ensures Run(Put(s, b, k), [a] + rest) == Run(Put(s, b, ThreadStep(k, a)), rest)
  {
    NextIsThreadStep(s, b, k, a);
    Then(Put(s, b, k), a, Put(s, b, ThreadStep(k, a)), rest);
  }

  /** A busy thread becomes free once its function returns. */
  lemma ThreadBecomesFree(s: State, b: CallId)
    requires Inv(s) && b in Busy(s.calls)
    ensures var t := Run(s, FinishThread(b));
            && Inv(t) && |Busy(t.calls)| < |Busy(s.calls)| && t.workers == s.workers
            && (forall c :: c in s.calls && c != b ==> c in t.calls && t.calls[c] == s.calls[c])
  {
    FinishThreadRuns(s, b);
    RunKeepsInv(s, FinishThread(b));
    BusyPut(s.calls, b, Ended(s.calls[b], b));
  }

  /** The next stretch of a schedule for one call: free a thread if need be, then one action. */
  lemma StepTowardsSettling(s: State, c: CallId) returns (stretch: seq<Action>)
    requires Inv(s) && s.workers >= 1 && c in s.calls && !s.calls[c].phase.Done?
    ensures var t := Run(s, stretch);
            Inv(t) && t.workers == s.workers && c in t.calls && Distance(t.calls[c]) < Distance(s.calls[c])
  {
    var before := [];
    if s.calls[c].item.Queued? && |Busy(s.calls)| == s.workers {
      var b :| b in Busy(s.calls);
      ThreadBecomesFree(s, b);
      before := FinishThread(b);
    }
    var t := Run(s, before);
    AdvanceGetsCloser(t, c);
    NextKeepsInv(t, Advance(t, c));
    Then(t, Advance(t, c), Next(t, Advance(t, c)), []);
    RunAppend(s, before, [Advance(t, c)] + []);
    stretch := before + ([Advance(t, c)] + []);
    CapacityIsFixed(s, stretch);
  }

  /** No shield, uninterruptible wait or full pool can hang a call: from every reachable
      state some finite schedule settles it, provided functions return. */
  lemma {:induction false} EveryCallCanSettle(s: State, c: CallId) returns (schedule: seq<Action>)
    requires Inv(s) && s.workers >= 1 && c in s.calls
    ensures c in Run(s, schedule).calls && Run(s, schedule).calls[c].phase.Done?
    decreases Distance(s.calls[c])
  {
    schedule := [];
    if !s.calls[c].phase.Done? {
      var stretch := StepTowardsSettling(s, c);
      var rest := EveryCallCanSettle(Run(s, stretch), c);
      RunAppend(s, stretch, rest);
      schedule := stretch + rest;
    }
  }

  // ---------------------------------------------------------------- what a cancellation decides

  /** A thread has taken the item. */
  predicate Taken(item: Item) {
    !item.Unsubmitted? && !item.Queued? && !item.Revoked?
  }

  lemma TakenStaysTaken(s: State, a: Action, c: CallId)
    requires Inv(s) && c in s.calls && Taken(s.calls[c].item)
    ensures c in Next(s, a).calls && Taken(Next(s, a).calls[c].item)
  {
    assert CallOk(s.calls[c]);
    if a.id != c {
      OthersUntouched(s, a, c);
    } else if OfThread(a) {
      assert Next(s, a) == Put(s, c, ThreadStep(s.calls[c], a));
    } else if a.TryAdmit? {
      assert Next(s, a) == DoTryAdmit(s, c, a.submitAccepted);
    } else {
      LoopActionKeepsTaken(s, a);
    }
  }

  lemma LoopActionKeepsTaken(s: State, a: Action)
    requires a.id in s.calls && Taken(s.calls[a.id].item) && !OfThread(a) && !a.TryAdmit?
    ensures a.id in Next(s, a).calls && Taken(Next(s, a).calls[a.id].item)
  {
  }

  lemma {:induction false} TakenForGood(s: State, c: CallId, later: seq<Action>)
    requires Inv(s) && c in s.calls && Taken(s.calls[c].item)
    ensures c in Run(s, later).calls && Taken(Run(s, later).calls[c].item)
    decreases |later|
  {
    if later != [] {
      NextKeepsInv(s, later[0]);
      TakenStaysTaken(s, later[0], c);
      TakenForGood(Next(s, later[0]), c, later[1..]);
    }
  }

  /** The cancel of the concurrent future decides once and for all: the function runs, exactly once, if and only if
      a thread had taken the item. */
  lemma CancelDecides(s: State, c: CallId, later: seq<Action>)
    requires Inv(s) && c in s.calls && s.calls[c].phase.Deciding?
    ensures var t := Run(Next(s, CallCancel(c)), later);
            && c in t.calls
            && (t.calls[c].phase.Done? ==> (t.calls[c].entries == 1 <==> !s.calls[c].item.Queued?))
  {
    var t := Next(s, CallCancel(c));
    assert CallOk(s.calls[c]) && t == DoCallCancel(s, c);
    NextKeepsInv(s, CallCancel(c));
    if s.calls[c].item.Queued? {
      SettledForGood(t, c, later);
    } else {
      TakenForGood(t, c, later);
      RunKeepsInv(t, later);
    }
  }

  /** The action lets the coroutine of `_run_tool_blocking` handle a cancellation: before its first step, while it
      waits for admission, at the cancel of the concurrent future, or because `started` is set already. */
  predicate Handles(s: State, a: Action, c: CallId) {
    && c in s.calls && a.id == c
    && var k := s.calls[c];
       || (a.Begin? && k.phase.Created? && k.cancelRequested)
       || (a.TryAdmit? && k.phase.Admitting? && k.cancelRequested)
       || (a.CallCancel? && k.phase.Deciding?)
       || (a.Resume? && k.phase.Waiting? && k.started
           && (k.cancelRequested || (k.delivered && k.item == Finished(RaisedCancellation))))
  }

  /** In this run the coroutine handled a cancellation when a thread had already taken the item. */
  predicate TakenWhenHandled(s: State, actions: seq<Action>, c: CallId)
    decreases |actions|
  {
    actions != []
    && ((Handles(s, actions[0], c) && Taken(s.calls[c].item)) || TakenWhenHandled(Next(s, actions[0]), actions[1..], c))
  }

  /** What a call whose function ended like this must report, with and without a cancellation. */
  function Verdict(e: Ending, cancelled: bool): Settlement {
    match e
    case Returned => if cancelled then BlockingCancel(Returned) else Value
    case RaisedError => if cancelled then BlockingCancel(RaisedError) else Propagated(RaisedError)
    case RaisedExit => Propagated(RaisedExit)
    case RaisedCancellation => PlainCancel
  }

  /** How the history of a call shows in its state. */
  ghost predicate Remembers(k: Call, handled: bool) {
    && (handled ==> Taken(k.item) && (k.phase.Draining? || k.phase.Done?))
    && (k.phase.Draining? ==> handled)
    && (k.phase.Done? && k.item.Finished? ==>
          k.phase.settlement == Verdict(k.item.outcome, handled) && (k.phase.settlement.PlainCancel? ==> handled))
    && (k.caller.Abandoning? ==>
          if k.phase.Done? then k.item.Finished? ==> handled
          else k.cancelRequested || k.phase.Deciding? || k.phase.Draining?)
    && (k.caller == CallerDone(CallerPlainCancel) && k.item.Finished? ==> handled)
  }

  lemma CallerStepRemembers(k: Call, handled: bool)
    requires CallOk(k) && Remembers(k, handled)
    ensures Remembers(CallerStep(k), handled)
  {
  }

  lemma ThreadStepRemembers(k: Call, a: Action, handled: bool)
    requires CallOk(k) && Remembers(k, handled)
    ensures Remembers(ThreadStep(k, a), handled)
  {
  }

  lemma ResumeRemembers(s: State, c: CallId, handled: bool)
    requires c in s.calls && CallOk(s.calls[c]) && Remembers(s.calls[c], handled)
    ensures Remembers(DoResume(s, c).calls[c], handled || Handles(s, Resume(c), c))
  {
  }

  lemma CallCancelRemembers(s: State, c: CallId, handled: bool)
    requires c in s.calls && CallOk(s.calls[c]) && Remembers(s.calls[c], handled)
    ensures Remembers(DoCallCancel(s, c).calls[c], handled || (Handles(s, CallCancel(c), c) && Taken(s.calls[c].item)))
  {
  }

  lemma AdmissionRemembers(s: State, c: CallId, accepted: bool, handled: bool)
    requires c in s.calls && CallOk(s.calls[c]) && Remembers(s.calls[c], handled)
    ensures Remembers(DoBegin(s, c).calls[c], handled) && Remembers(DoTryAdmit(s, c, accepted).calls[c], handled)
    ensures Remembers(DoDeadline(s, c).calls[c], handled) && Remembers(DoPick(s, c).calls[c], handled)
    ensures s.calls[c].phase.Created? || s.calls[c].phase.Admitting? ==> !Taken(s.calls[c].item)
  {
  }

  /** A call enters the state by its submission alone. */
  lemma SubmittedAfresh(s: State, a: Action, c: CallId)
    requires c !in s.calls && c in Next(s, a).calls
    ensures a.Submit? && a.id == c && Next(s, a).calls[c] == NewCall(a.probe, a.viaInvoke)
  {
  }

  lemma NextRemembers(s: State, a: Action, c: CallId, handled: bool)
    requires Inv(s) && c in s.calls && Remembers(s.calls[c], handled)
    ensures c in Next(s, a).calls
    ensures Remembers(Next(s, a).calls[c], handled || (Handles(s, a, c) && Taken(s.calls[c].item)))
  {
    var k := s.calls[c];
    assert CallOk(k);
    if a.id != c {
      OthersUntouched(s, a, c);
    } else if a.ResumeCaller? {
      CallerStepRemembers(k, handled);
    } else if OfThread(a) {
      ThreadStepRemembers(k, a, handled);
    } else if !OfClient(a) {
      LoopActionRemembers(s, a, handled);
    }
  }

  lemma LoopActionRemembers(s: State, a: Action, handled: bool)
    requires Inv(s) && a.id in s.calls && Remembers(s.calls[a.id], handled) && !OfClient(a) && !OfThread(a) && !a.ResumeCaller?
    ensures a.id in Next(s, a).calls
    ensures Remembers(Next(s, a).calls[a.id], handled || (Handles(s, a, a.id) && Taken(s.calls[a.id].item)))
  {
    assert CallOk(s.calls[a.id]);
    if a.Resume? {
      ResumeRemembers(s, a.id, handled);
    } else if a.CallCancel? {
      CallCancelRemembers(s, a.id, handled);
    } else {
      AdmissionRemembers(s, a.id, a.TryAdmit? && a.submitAccepted, handled);
    }
  }

  lemma {:induction false} RunRemembers(s: State, actions: seq<Action>, c: CallId, handled: bool)
    requires Inv(s) && (if c in s.calls then Remembers(s.calls[c], handled) else !handled)
    ensures c in Run(s, actions).calls ==>
              Remembers(Run(s, actions).calls[c], handled || TakenWhenHandled(s, actions, c))
    decreases |actions|
  {
    if actions != [] {
      var a, t := actions[0], Next(s, actions[0]);
      NextKeepsInv(s, a);
      if c in s.calls { NextRemembers(s, a, c, handled); } else if c in t.calls { SubmittedAfresh(s, a, c); }
      RunRemembers(t, actions[1..], c, handled || (Handles(s, a, c) && Taken(s.calls[c].item)));
    }
  }

  lemma RunFromStartRemembers(workers: nat, queue: nat, actions: seq<Action>, c: CallId)
    requires c in Run(Init(workers, queue), actions).calls
    ensures var k := Run(Init(workers, queue), actions).calls[c];
            CallOk(k) && Remembers(k, TakenWhenHandled(Init(workers, queue), actions, c))
  {
    InitInv(workers, queue);
    RunKeepsInv(Init(workers, queue), actions);
    RunRemembers(Init(workers, queue), actions, c, false);
  }

  /** Over every run: what a call reports is determined by the ending of its function and by whether a cancellation was
      handled while a thread had the item; no value passes for a cancellation, and no cancellation for a value. */
  lemma SettlementIsTheVerdict(workers: nat, queue: nat, actions: seq<Action>, c: CallId)
    requires c in Run(Init(workers, queue), actions).calls
    requires Run(Init(workers, queue), actions).calls[c].phase.Done?
    ensures var k := Run(Init(workers, queue), actions).calls[c];
            k.item.Finished? ==>
              && Exit(c, k.item.outcome) in actions
              && k.phase.settlement == Verdict(k.item.outcome, TakenWhenHandled(Init(workers, queue), actions, c))
  {
    var k := Run(Init(workers, queue), actions).calls[c];
    RunFromStartRemembers(workers, queue, actions, c);
    if k.item.Finished? { OutcomeIsTheFunctionsEnding(workers, queue, actions, c, k.item.outcome); }
  }

  /** What the caller's plain cancellation hides, over every run: the function ran, once and to its end, if and
      only if a thread had taken the item when the inner coroutine handled the cancellation. If it was handled
      before admission, or revoked the item in the queue, the function never ran. */
  lemma CallerPlainCancelHidesExactly(workers: nat, queue: nat, actions: seq<Action>, c: CallId)
    requires c in Run(Init(workers, queue), actions).calls
    requires Run(Init(workers, queue), actions).calls[c].caller == CallerDone(CallerPlainCancel)
    ensures var k := Run(Init(workers, queue), actions).calls[c];
            && k.entries == k.exits <= 1
            && (k.entries == 1 <==> TakenWhenHandled(Init(workers, queue), actions, c))
  {
    RunFromStartRemembers(workers, queue, actions, c);
  }

  // ---------------------------------------------------------------- no cancellation is lost, none is invented

  /** A cancellation has been asked for and has not been answered with anything but a cancellation. */
  predicate Cancelling(k: Call) {
    match k.phase
    case Done(settlement) => settlement == if k.item.Finished? then Verdict(k.item.outcome, true) else PlainCancel
    case Deciding => true
    case Draining => true
    case _ => k.cancelRequested
  }

  /** And it came before the call had a permit. */
  predicate CancelledEarly(k: Call) {
    Cancelling(k) && k.item.Unsubmitted? && k.entries == 0
  }

  lemma CancellingPhases(k: Call)
    requires CallOk(k) && CancelledEarly(k)
    ensures k.phase.Created? || k.phase.Admitting? || k.phase == Done(PlainCancel)
  {
  }

  lemma ThreadStepKeepsCancelling(k: Call, a: Action)
    requires CallOk(k) && Cancelling(k)
    ensures Cancelling(ThreadStep(k, a)) && (CancelledEarly(k) ==> CancelledEarly(ThreadStep(k, a)))
  {
  }

  lemma LoopKeepsCancelling(s: State, c: CallId, accepted: bool)
    requires c in s.calls && CallOk(s.calls[c]) && Cancelling(s.calls[c])
    ensures forall t :: t in [DoBegin(s, c), DoTryAdmit(s, c, accepted), DoDeadline(s, c), DoPick(s, c)] ==>
              c in t.calls && Cancelling(t.calls[c]) && (CancelledEarly(s.calls[c]) ==> CancelledEarly(t.calls[c]))
  {
    assert CancelledEarly(s.calls[c]) ==> !s.calls[c].item.Queued?;
  }

  lemma HandlingKeepsCancelling(s: State, c: CallId)
    requires c in s.calls && CallOk(s.calls[c]) && Cancelling(s.calls[c])
    ensures forall t :: t in [DoResume(s, c), DoCallCancel(s, c)] ==>
              c in t.calls && Cancelling(t.calls[c]) && (CancelledEarly(s.calls[c]) ==> CancelledEarly(t.calls[c]))
  {
    if CancelledEarly(s.calls[c]) { CancellingPhases(s.calls[c]); }
  }

  lemma CancellingStays(s: State, a: Action, c: CallId)
    requires Inv(s) && c in s.calls && Cancelling(s.calls[c])
    ensures c in Next(s, a).calls && Cancelling(Next(s, a).calls[c])
    ensures CancelledEarly(s.calls[c]) ==> CancelledEarly(Next(s, a).calls[c])
  {
    assert CallOk(s.calls[c]);
    if a.id != c {
      OthersUntouched(s, a, c);
    } else if OfThread(a) {
      ThreadStepKeepsCancelling(s.calls[c], a);
    } else if !OfClient(a) {
      LoopKeepsCancelling(s, c, a.TryAdmit? && a.submitAccepted);
      HandlingKeepsCancelling(s, c);
      assert Next(s, a) in [DoBegin(s, c), DoTryAdmit(s, c, a.TryAdmit? && a.submitAccepted), DoDeadline(s, c), DoPick(s, c)]
          || Next(s, a) in [DoResume(s, c), DoCallCancel(s, c)];
    }
  }

  lemma {:induction false} CancellingForGood(s: State, c: CallId, later: seq<Action>)
    requires Inv(s) && c in s.calls && Cancelling(s.calls[c])
    ensures c in Run(s, later).calls && Cancelling(Run(s, later).calls[c])
    ensures CancelledEarly(s.calls[c]) ==> CancelledEarly(Run(s, later).calls[c])
    decreases |later|
  {
    if later != [] {
      NextKeepsInv(s, later[0]);
      CancellingStays(s, later[0], c);
      CancellingForGood(Next(s, later[0]), c, later[1..]);
    }
  }

  /** A call that is cancelled before it has a permit is never submitted, whatever becomes of the permits: at every later
      point its function has not been entered, and it can only end in a plain cancellation. */
  lemma CancelledBeforeAdmissionNeverRuns(workers: nat, queue: nat, actions: seq<Action>, later: seq<Action>, c: CallId)
    requires c in Run(Init(workers, queue), actions).calls
    requires var k := Run(Init(workers, queue), actions).calls[c];
             (k.phase.Created? || k.phase.Admitting?) && k.cancelRequested
    ensures c in Run(Init(workers, queue), actions + later).calls
    ensures var k := Run(Init(workers, queue), actions + later).calls[c];
            && k.item.Unsubmitted? && k.entries == 0
            && (k.phase.Created? || k.phase.Admitting? || k.phase == Done(PlainCancel))
  {
    var s := Run(Init(workers, queue), actions);
    InitInv(workers, queue);
    RunKeepsInv(Init(workers, queue), actions);
    assert CallOk(s.calls[c]);
    CancellingForGood(s, c, later);
    RunAppend(Init(workers, queue), actions, later);
    RunKeepsInv(s, later);
    CancellingPhases(Run(s, later).calls[c]);
  }

  /** A cancellation asked for before a call is settled or has begun to handle one is never lost: the call ends in a
      plain cancellation if its function did not run, and otherwise as cancelled calls must. */
  lemma CancellationIsNeverLost(workers: nat, queue: nat, actions: seq<Action>, later: seq<Action>, c: CallId)
    requires c in Run(Init(workers, queue), actions).calls
    requires var k := Run(Init(workers, queue), actions).calls[c]; k.cancelRequested && !k.phase.Done?
    ensures c in Run(Init(workers, queue), actions + later).calls
    ensures var k := Run(Init(workers, queue), actions + later).calls[c];
            k.phase.Done? ==> k.phase.settlement == if k.item.Finished? then Verdict(k.item.outcome, true) else PlainCancel
  {
    var s := Run(Init(workers, queue), actions);
    InitInv(workers, queue);
    RunKeepsInv(Init(workers, queue), actions);
    CancellingForGood(s, c, later);
    RunAppend(Init(workers, queue), actions, later);
  }

  /** Its coroutine has not begun and never will. */
  predicate CancelledUnbegun(k: Call) {
    (k.phase.Created? && k.cancelRequested) || k.phase == Done(PlainCancel)
  }

  lemma UnbegunStays(s: State, a: Action, c: CallId)
    requires Inv(s) && c in s.calls && CancelledUnbegun(s.calls[c])
    ensures c in Next(s, a).calls && CancelledUnbegun(Next(s, a).calls[c])
  {
    assert CallOk(s.calls[c]);
    if a.id != c {
      OthersUntouched(s, a, c);
    } else if s.calls[c].phase.Done? {
      SettledStaysSettled(s, c, a);
    }
  }

  lemma {:induction false} UnbegunForGood(s: State, c: CallId, later: seq<Action>)
    requires Inv(s) && c in s.calls && CancelledUnbegun(s.calls[c])
    ensures c in Run(s, later).calls && CancelledUnbegun(Run(s, later).calls[c])
    decreases |later|
  {
    if later != [] {
      NextKeepsInv(s, later[0]);
      UnbegunStays(s, later[0], c);
      UnbegunForGood(Next(s, later[0]), c, later[1..]);
    }
  }

  /** A task that is cancelled before its first step never runs its body: it never stands in the probe. */
  lemma CancelledBeforeTheFirstStep(workers: nat, queue: nat, actions: seq<Action>, later: seq<Action>, c: CallId)
    requires var s := Run(Init(workers, queue), actions); c in s.calls && s.calls[c].phase.Created?
    ensures c in Run(Init(workers, queue), actions + [RequestCancel(c)] + later).calls
    ensures var s := Run(Init(workers, queue), actions + [RequestCancel(c)] + later);
            && (s.calls[c].phase.Created? || s.calls[c].phase == Done(PlainCancel))
            && forall p :: (p, c) !in s.active
  {
    var start, asked := Init(workers, queue), actions + [RequestCancel(c)];
    InitInv(workers, queue);
    RunOneMore(start, actions, RequestCancel(c));
    RunKeepsInv(start, asked);
    RunAppend(start, asked, later);
    RunKeepsInv(start, asked + later);
    UnbegunForGood(Run(start, asked), c, later);
  }

  /** In terms of the requests alone: whoever asks for the cancellation of an unsettled call is heard, and if the call
      has no permit yet, it never runs. */
  lemma RequestIsHeard(workers: nat, queue: nat, actions: seq<Action>, later: seq<Action>, c: CallId)
    requires var s := Run(Init(workers, queue), actions); c in s.calls && !s.calls[c].phase.Done?
    ensures c in Run(Init(workers, queue), actions + [RequestCancel(c)] + later).calls
    ensures var before := Run(Init(workers, queue), actions).calls[c];
            var k := Run(Init(workers, queue), actions + [RequestCancel(c)] + later).calls[c];
            && (k.phase.Done? ==> k.phase.settlement == if k.item.Finished? then Verdict(k.item.outcome, true) else PlainCancel)
            && (before.phase.Created? || before.phase.Admitting? ==>
                  k.item.Unsubmitted? && k.entries == 0 && (k.phase.Created? || k.phase.Admitting? || k.phase == Done(PlainCancel)))
  {
    var s, asked := Run(Init(workers, queue), actions), actions + [RequestCancel(c)];
    RunOneMore(Init(workers, queue), actions, RequestCancel(c));
    CancellationIsNeverLost(workers, queue, asked, later, c);
    if s.calls[c].phase.Created? || s.calls[c].phase.Admitting? {
      CancelledBeforeAdmissionNeverRuns(workers, queue, asked, later, c);
    }
  }

  lemma RunOneMore(s: State, actions: seq<Action>, a: Action)
    ensures Run(s, actions + [a]) == Next(Run(s, actions), a)
  {
    var t := Run(s, actions);
    RunAppend(s, actions, [a]);
    assert Run(t, [a]) == Run(Next(t, a), []);
  }

  /** Whoever could cancel the call: its clients, its caller, its function. */
  predicate CouldCancel(a: Action, c: CallId) {
    a == RequestCancel(c) || a == RequestCallerCancel(c) || a == Exit(c, RaisedCancellation)
  }

  /** Nobody has. */
  predicate Undisturbed(k: Call) {
    && !k.cancelRequested && !k.callerCancelRequested
    && k.item != Left(RaisedCancellation) && k.item != Finished(RaisedCancellation)
    && !k.phase.Deciding? && !k.phase.Draining?
    && (k.phase.Done? ==> !k.phase.settlement.PlainCancel? && !k.phase.settlement.BlockingCancel?)
    && (k.caller.Direct? || k.caller.Shielding? || (k.caller.CallerDone? && k.caller.end.Passed?))
  }

  lemma LoopKeepsUndisturbed(s: State, c: CallId, accepted: bool)
    requires c in s.calls && CallOk(s.calls[c]) && Undisturbed(s.calls[c])
    ensures forall t :: t in [DoBegin(s, c), DoTryAdmit(s, c, accepted), DoDeadline(s, c), DoPick(s, c)] ==>
              c in t.calls && Undisturbed(t.calls[c])
    ensures forall t :: t in [DoResume(s, c), DoCallCancel(s, c)] ==> c in t.calls && Undisturbed(t.calls[c])
  {
  }

  lemma UndisturbedStays(s: State, a: Action, c: CallId)
    requires Inv(s) && c in s.calls && Undisturbed(s.calls[c]) && !CouldCancel(a, c)
    ensures c in Next(s, a).calls && Undisturbed(Next(s, a).calls[c])
  {
    assert CallOk(s.calls[c]);
    if a.id != c {
      OthersUntouched(s, a, c);
    } else if !OfClient(a) && !OfThread(a) {
      LoopKeepsUndisturbed(s, c, a.TryAdmit? && a.submitAccepted);
      assert Next(s, a) in [DoBegin(s, c), DoTryAdmit(s, c, a.TryAdmit? && a.submitAccepted), DoDeadline(s, c), DoPick(s, c)]
          || Next(s, a) in [DoResume(s, c), DoCallCancel(s, c)];
    }
  }

  lemma {:induction false} UndisturbedForGood(s: State, actions: seq<Action>, c: CallId)
    requires Inv(s) && (c in s.calls ==> Undisturbed(s.calls[c])) && forall a :: a in actions ==> !CouldCancel(a, c)
    ensures c in Run(s, actions).calls ==> Undisturbed(Run(s, actions).calls[c])
    decreases |actions|
  {
    if actions != [] {
      var t := Next(s, actions[0]);
      NextKeepsInv(s, actions[0]);
      if c in s.calls { UndisturbedStays(s, actions[0], c); } else if c in t.calls { SubmittedAfresh(s, actions[0], c); }
      UndisturbedForGood(t, actions[1..], c);
    }
  }

  /** None is invented: as long as nobody asks for one, neither the call nor its caller ends in a cancellation. */
  lemma NoCancellationIsInvented(workers: nat, queue: nat, actions: seq<Action>, c: CallId)
    requires c in Run(Init(workers, queue), actions).calls
    requires forall a :: a in actions ==> !CouldCancel(a, c)
    ensures var k := Run(Init(workers, queue), actions).calls[c];
            && (k.phase.Done? ==> !k.phase.settlement.PlainCancel? && !k.phase.settlement.BlockingCancel?)
            && (k.caller.CallerDone? ==> k.phase.Done? && k.caller.end == Passed(k.phase.settlement))
  {
    InitInv(workers, queue);
    UndisturbedForGood(Init(workers, queue), actions, c);
    RunKeepsInv(Init(workers, queue), actions);
    assert CallOk(Run(Init(workers, queue), actions).calls[c]);
  }

  // ---------------------------------------------------------------- what the caller is told

  /** Whether and when the shielded await of the caller was interrupted: before `started` was set, or after it, with
      the task still running or done. */
  datatype Interruption = NotInterrupted | BeforeStart | AfterStart(taskDone: bool)

  predicate Interrupts(s: State, a: Action, c: CallId) {
    && c in s.calls && a == ResumeCaller(c) && s.calls[c].caller.Shielding?
    && var k := s.calls[c];
       k.callerCancelRequested || (k.phase.Done? && (k.phase.settlement.PlainCancel? || k.phase.settlement.BlockingCancel?))
  }

  function InterruptionIn(s: State, actions: seq<Action>, c: CallId): Interruption
    decreases |actions|
  {
    if actions == [] then NotInterrupted
    else if Interrupts(s, actions[0], c) then
      if s.calls[c].started then AfterStart(s.calls[c].phase.Done?) else BeforeStart
    else InterruptionIn(Next(s, actions[0]), actions[1..], c)
  }

  /** The caller's end as the history and the settled call demand it. */
  ghost predicate ToldRightly(end: CallerEnd, how: Interruption, settlement: Settlement, item: Item) {
    match how
    case NotInterrupted => end == Passed(settlement) && !settlement.PlainCancel? && !settlement.BlockingCancel?
    case BeforeStart => end == CallerPlainCancel
    case AfterStart(taskDone) =>
      && item.Finished?
      && match item.outcome
         case RaisedCancellation => end == CallerPlainCancel
         case RaisedExit => end == Passed(Propagated(RaisedExit))
         case e => end == if taskDone && settlement == BlockingCancel(e) then CallerPlainCancel else CallerBlockingCancel(e)
  }

  ghost predicate CallerRemembers(k: Call, how: Interruption) {
    match k.caller
    case Direct => how.NotInterrupted?
    case Shielding => how.NotInterrupted?
    case Abandoning => how.BeforeStart?
    case Collecting(taskDone) => how == AfterStart(taskDone)
    case CallerDone(end) => k.phase.Done? && ToldRightly(end, how, k.phase.settlement, k.item)
  }

  function HowAfter(s: State, a: Action, c: CallId, how: Interruption): Interruption {
    if !Interrupts(s, a, c) then how
    else if s.calls[c].started then AfterStart(s.calls[c].phase.Done?)
    else BeforeStart
  }

  lemma ResumedCallerRemembers(s: State, c: CallId, how: Interruption)
    requires c in s.calls && CallOk(s.calls[c]) && CallerRemembers(s.calls[c], how)
    ensures CallerRemembers(CallerStep(s.calls[c]), HowAfter(s, ResumeCaller(c), c, how))
  {
  }

  /** Only the caller's own resumptions move it. */
  lemma OthersLeaveCaller(s: State, a: Action, c: CallId)
    requires Inv(s) && c in s.calls && a != ResumeCaller(c)
    ensures c in Next(s, a).calls && Next(s, a).calls[c].caller == s.calls[c].caller
    ensures s.calls[c].callerCancelRequested ==> Next(s, a).calls[c].callerCancelRequested
  {
    if a.id != c {
      OthersUntouched(s, a, c);
    } else if !OfClient(a) && !OfThread(a) {
      LoopLeavesCaller(s, a);
    }
  }

  lemma LoopLeavesCaller(s: State, a: Action)
    requires a.id in s.calls && !OfClient(a) && !OfThread(a)
    ensures a.id in Next(s, a).calls && Next(s, a).calls[a.id].caller == s.calls[a.id].caller
    ensures Next(s, a).calls[a.id].callerCancelRequested == s.calls[a.id].callerCancelRequested
  {
  }

  lemma NextCallerRemembers(s: State, a: Action, c: CallId, how: Interruption)
    requires Inv(s) && c in s.calls && CallerRemembers(s.calls[c], how)
    ensures c in Next(s, a).calls && CallerRemembers(Next(s, a).calls[c], HowAfter(s, a, c, how))
  {
    assert CallOk(s.calls[c]);
    if a == ResumeCaller(c) {
      ResumedCallerRemembers(s, c, how);
    } else {
      OthersLeaveCaller(s, a, c);
      if s.calls[c].phase.Done? { SettledStaysSettled(s, c, a); }
    }
  }

  lemma {:induction false} RunCallerRemembers(s: State, actions: seq<Action>, c: CallId, how: Interruption)
    requires Inv(s) && (if c in s.calls then CallerRemembers(s.calls[c], how) else how.NotInterrupted?)
    ensures c in Run(s, actions).calls ==>
              CallerRemembers(Run(s, actions).calls[c], if how.NotInterrupted? then InterruptionIn(s, actions, c) else how)
    decreases |actions|
  {
    if actions != [] {
      var a, t := actions[0], Next(s, actions[0]);
      NextKeepsInv(s, a);
      if c in s.calls { NextCallerRemembers(s, a, c, how); } else if c in t.calls { SubmittedAfresh(s, a, c); }
      RunCallerRemembers(t, actions[1..], c, HowAfter(s, a, c, how));
    }
  }

  /** Over every run: how `invoke_maybe_async` ends is determined by when its await was interrupted and by how the call
      settled. Uninterrupted, it passes the settlement on, which is then no cancellation. Interrupted before the start it
      ends in a plain cancellation; interrupted later, in one that carries the function's own outcome. */
  lemma CallerIsToldRightly(workers: nat, queue: nat, actions: seq<Action>, c: CallId)
    requires c in Run(Init(workers, queue), actions).calls
    requires Run(Init(workers, queue), actions).calls[c].caller.CallerDone?
    ensures var k := Run(Init(workers, queue), actions).calls[c];
            k.phase.Done? && ToldRightly(k.caller.end, InterruptionIn(Init(workers, queue), actions, c), k.phase.settlement, k.item)
  {
    InitInv(workers, queue);
    RunCallerRemembers(Init(workers, queue), actions, c, NotInterrupted);
  }

  /** The caller has been asked to stop and has not been answered with a value. */
  predicate CallerCancelling(k: Call) {
    match k.caller
    case Direct => false
    case Shielding => k.callerCancelRequested
    case CallerDone(end) => !end.Passed? || end == Passed(Propagated(RaisedExit))
    case _ => true
  }

  lemma CallerStepKeepsCancelling(k: Call)
    requires CallOk(k) && CallerCancelling(k)
    ensures CallerCancelling(CallerStep(k))
  {
  }

  lemma {:induction false} CallerCancellingForGood(s: State, later: seq<Action>, c: CallId)
    requires Inv(s) && c in s.calls && CallerCancelling(s.calls[c])
    ensures c in Run(s, later).calls && CallerCancelling(Run(s, later).calls[c])
    decreases |later|
  {
    if later != [] {
      NextKeepsInv(s, later[0]);
      assert CallOk(s.calls[c]);
      if later[0] == ResumeCaller(c) { CallerStepKeepsCancelling(s.calls[c]); } else { OthersLeaveCaller(s, later[0], c); }
      CallerCancellingForGood(Next(s, later[0]), later[1..], c);
    }
  }

  /** A cancellation of the waiting caller is never swallowed: it ends in a cancellation, or in an exit that its
      function raised. */
  lemma CallerCancellationIsNeverLost(workers: nat, queue: nat, actions: seq<Action>, later: seq<Action>, c: CallId)
    requires c in Run(Init(workers, queue), actions).calls
    requires var k := Run(Init(workers, queue), actions).calls[c]; k.caller.Shielding? && k.callerCancelRequested
    ensures c in Run(Init(workers, queue), actions + later).calls
    ensures var k := Run(Init(workers, queue), actions + later).calls[c];
            k.caller.CallerDone? ==> !k.caller.end.Passed? || k.caller.end == Passed(Propagated(RaisedExit))
  {
    InitInv(workers, queue);
    RunKeepsInv(Init(workers, queue), actions);
    CallerCancellingForGood(Run(Init(workers, queue), actions), later, c);
    RunAppend(Init(workers, queue), actions, later);
  }

  /** In terms of the requests alone. */
  lemma CallerRequestIsHeard(workers: nat, queue: nat, actions: seq<Action>, later: seq<Action>, c: CallId)
    requires var s := Run(Init(workers, queue), actions); c in s.calls && s.calls[c].caller.Shielding?
    ensures c in Run(Init(workers, queue), actions + [RequestCallerCancel(c)] + later).calls
    ensures var k := Run(Init(workers, queue), actions + [RequestCallerCancel(c)] + later).calls[c];
            k.caller.CallerDone? ==> !k.caller.end.Passed? || k.caller.end == Passed(Propagated(RaisedExit))
  {
    RunOneMore(Init(workers, queue), actions, RequestCallerCancel(c));
    CallerCancellationIsNeverLost(workers, queue, actions + [RequestCallerCancel(c)], later, c);
  }

  lemma NextKeepsSubmission(s: State, a: Action, c: CallId)
    requires Inv(s) && c in s.calls
    ensures c in Next(s, a).calls && Next(s, a).calls[c].probe == s.calls[c].probe
    ensures Next(s, a).calls[c].caller.Direct? <==> s.calls[c].caller.Direct?
  {
    if a == ResumeCaller(c) {
    } else {
      OthersLeaveCaller(s, a, c);
      if a.id != c { OthersUntouched(s, a, c); } else if !OfClient(a) && !OfThread(a) { LoopKeepsProbe(s, a); }
    }
  }

  lemma LoopKeepsProbe(s: State, a: Action)
    requires a.id in s.calls && !OfClient(a) && !OfThread(a)
    ensures a.id in Next(s, a).calls && Next(s, a).calls[a.id].probe == s.calls[a.id].probe
  {
  }

  lemma {:induction false} RunKeepsSubmission(s: State, actions: seq<Action>, c: CallId)
    requires Inv(s) && c in s.calls
    ensures c in Run(s, actions).calls && Run(s, actions).calls[c].probe == s.calls[c].probe
    ensures Run(s, actions).calls[c].caller.Direct? <==> s.calls[c].caller.Direct?
    decreases |actions|
  {
    if actions != [] {
      NextKeepsInv(s, actions[0]);
      NextKeepsSubmission(s, actions[0], c);
      RunKeepsSubmission(Next(s, actions[0]), actions[1..], c);
    }
  }

  /** A call keeps, for good, the probe of its submission, and a shielding caller exactly if it came by `invoke_maybe_async`. */
  lemma SubmissionIsKept(workers: nat, queue: nat, actions: seq<Action>, later: seq<Action>, submit: Action)
    requires submit.Submit? && submit.id !in Run(Init(workers, queue), actions).calls
    ensures submit.id in Run(Init(workers, queue), actions + [submit] + later).calls
    ensures var k := Run(Init(workers, queue), actions + [submit] + later).calls[submit.id];
            k.probe == submit.probe && (k.caller.Direct? <==> !submit.viaInvoke)
  {
    var s := Run(Init(workers, queue), actions);
    InitInv(workers, queue);
    RunKeepsInv(Init(workers, queue), actions);
    NextKeepsInv(s, submit);
    RunOneMore(Init(workers, queue), actions, submit);
    RunAppend(Init(workers, queue), actions + [submit], later);
    RunKeepsSubmission(Next(s, submit), later, submit.id);
  }

  lemma TwoStepsFinish(k: Call)
    requires k.phase.Done? && !k.caller.Direct?
    ensures CallerStep(CallerStep(k)).caller.CallerDone?
  {
  }

  /** Nor does the caller hang: once the call has settled, two resumptions end it. */
  lemma CallerFinishes(s: State, c: CallId)
    requires Reachable(s) && c in s.calls && s.calls[c].phase.Done? && !s.calls[c].caller.Direct?
    ensures c in Run(s, [ResumeCaller(c), ResumeCaller(c)]).calls
    ensures Run(s, [ResumeCaller(c), ResumeCaller(c)]).calls[c].caller.CallerDone?
  {
    var k1 := CallerStep(s.calls[c]);
    var k2 := CallerStep(k1);
    TwoStepsFinish(s.calls[c]);
    Then(s, ResumeCaller(c), Put(s, c, k1), [ResumeCaller(c)]);
    Then(Put(s, c, k1), ResumeCaller(c), Put(Put(s, c, k1), c, k2), []);
    assert [ResumeCaller(c)] + [ResumeCaller(c)] == [ResumeCaller(c), ResumeCaller(c)];
    assert [ResumeCaller(c)] + [] == [ResumeCaller(c)];
  }

  // ---------------------------------------------------------------- admission

  /** All permits are taken by admitted calls that have not settled. */
  predicate Full(s: State) {
    |Holders(s.calls)| == s.workers + s.queue
  }

  /** A call that waits for a permit and has not been cancelled gets one exactly when not all are taken, and is then
      queued unless the executor refuses it. */
  lemma AdmittedExactlyUnlessFull(s: State, c: CallId, accepted: bool)
    requires Reachable(s) && c in s.calls && s.calls[c].phase.Admitting? && !s.calls[c].cancelRequested
    ensures c in Next(s, TryAdmit(c, accepted)).calls
    ensures var k := Next(s, TryAdmit(c, accepted)).calls[c];
            if Full(s) then k == s.calls[c]
            else if accepted then k.item.Queued? && k.phase.Waiting?
            else k.phase == Done(SubmitRefused) && k.item.Unsubmitted?
  {
    ReachableInv(s);
  }

  /** And it is turned away as overloaded exactly when its deadline passes while they all are. */
  lemma OverloadedExactlyWhenFull(s: State, a: Action, c: CallId)
    requires Reachable(s) && c in s.calls && !s.calls[c].phase.Done?
    ensures c in Next(s, a).calls
    ensures Next(s, a).calls[c].phase == Done(Overloaded) <==>
              a == DeadlinePassed(c) && s.calls[c].phase.Admitting? && !s.calls[c].cancelRequested && Full(s)
  {
    ReachableInv(s);
    assert CallOk(s.calls[c]);
    if a.id != c {
      OthersUntouched(s, a, c);
    } else if OfThread(a) {
      assert Next(s, a) == Put(s, c, ThreadStep(s.calls[c], a));
    } else {
      OthersDoNotOverload(s, a);
    }
  }

  lemma OthersDoNotOverload(s: State, a: Action)
    requires a.id in s.calls && !s.calls[a.id].phase.Done? && !OfThread(a)
    ensures a.id in Next(s, a).calls
    ensures Next(s, a).calls[a.id].phase == Done(Overloaded) <==>
              a.DeadlinePassed? && s.calls[a.id].phase.Admitting? && !s.calls[a.id].cancelRequested && s.available <= 0
  {
  }

  // ---------------------------------------------------------------- two races

  /** Some interleaving leads from `s` to `t`. */
  ghost predicate Leads(s: State, t: State) {
    exists actions :: Run(s, actions) == t
  }

  lemma LeadsNext(s: State, t: State, a: Action, u: State)
    requires Leads(s, t) && Next(t, a) == u
    ensures Leads(s, u)
  {
    var actions :| Run(s, actions) == t;
    Then(t, a, u, []);
    RunAppend(s, actions, [a] + []);
  }

  lemma LeadsThroughThread(s: State, t: State, c: CallId)
    requires Leads(s, t) && c in t.calls
    ensures Leads(s, Put(t, c, Ended(t.calls[c], c)))
  {
    var actions :| Run(s, actions) == t;
    FinishThreadRuns(t, c);
    RunAppend(s, actions, FinishThread(c));
  }

  function Solo(workers: nat, queue: nat, available: int, k: Call): State {
    State(workers, queue, available, {}, map[0 := k])
  }

  function AdmittedCall(viaInvoke: bool): Call {
    NewCall(None, viaInvoke).(phase := Waiting, item := Queued)
  }

  function AbandonedCall(): Call {
    AdmittedCall(true).(caller := Abandoning, cancelRequested := true)
  }

  function RunHidden(): Call {
    AbandonedCall().(item := Finished(Returned), started := true, entries := 1, exits := 1,
                     delivered := true, phase := Done(BlockingCancel(Returned)), cancelRequested := false,
                     caller := CallerDone(CallerPlainCancel))
  }

  function SelfCancelled(): Call {
    AdmittedCall(false).(phase := Done(PlainCancel), item := Finished(RaisedCancellation), started := true,
                         delivered := true, entries := 1, exits := 1)
  }

  lemma ThreadLeads(s: State, workers: nat, queue: nat, free: int, k: Call, a: Action)
    requires Leads(s, Solo(workers, queue, free, k)) && a.id == 0
    requires OfThread(a)
    ensures Leads(s, Solo(workers, queue, free, ThreadStep(k, a)))
  {
    assert map[0 := k][0 := ThreadStep(k, a)] == map[0 := ThreadStep(k, a)];
    LeadsNext(s, Solo(workers, queue, free, k), a, Solo(workers, queue, free, ThreadStep(k, a)));
  }

  lemma PickLeads(s: State, workers: nat, queue: nat, free: int, k: Call)
    requires workers >= 1 && k.item.Queued? && Leads(s, Solo(workers, queue, free, k))
    ensures Leads(s, Solo(workers, queue, free, k.(item := Picked)))
  {
    var j := k.(item := Picked);
    assert Busy(map[0 := k]) == {};
    assert map[0 := k][0 := j] == map[0 := j];
    LeadsNext(s, Solo(workers, queue, free, k), Pick(0), Solo(workers, queue, free, j));
  }

  lemma CallerLeads(s: State, workers: nat, queue: nat, free: int, k: Call)
    requires Leads(s, Solo(workers, queue, free, k))
    ensures Leads(s, Solo(workers, queue, free, CallerStep(k)))
  {
    assert map[0 := k][0 := CallerStep(k)] == map[0 := CallerStep(k)];
    LeadsNext(s, Solo(workers, queue, free, k), ResumeCaller(0), Solo(workers, queue, free, CallerStep(k)));
  }

  lemma ResumeLeads(s: State, workers: nat, queue: nat, free: int, k: Call)
    requires Leads(s, Solo(workers, queue, free, k))
    requires k.delivered && k.item.Finished? && k.probe.None?
    ensures k.phase.Waiting? && (k.cancelRequested || k.item.outcome.RaisedCancellation?) ==>
              Leads(s, Solo(workers, queue, free, Interrupted(k)))
    ensures k.phase.Draining? ==>
              Leads(s, Solo(workers, queue, free + 1,
                            k.(phase := Done(DrainedSettlement(k.item.outcome)), cancelRequested := false)))
  {
    var t := Solo(workers, queue, free, k);
    LeadsNext(s, t, Resume(0), DoResume(t, 0));
    if k.phase.Draining? {
      assert DoResume(t, 0) == Solo(workers, queue, free + 1,
        k.(phase := Done(DrainedSettlement(k.item.outcome)), cancelRequested := false));
    }
  }

  lemma AdmittedIsReachable(workers: nat, queue: nat, viaInvoke: bool)
    requires workers >= 1
    ensures Leads(Init(workers, queue), Solo(workers, queue, workers + queue - 1, AdmittedCall(viaInvoke)))
  {
    var s := Init(workers, queue);
    var k := NewCall(None, viaInvoke);
    assert Run(s, []) == s;
    assert map[][0 := k] == map[0 := k];
    LeadsNext(s, s, Submit(0, None, viaInvoke), Solo(workers, queue, workers + queue, k));
    LeadsNext(s, Solo(workers, queue, workers + queue, k), Begin(0),
              Solo(workers, queue, workers + queue, k.(phase := Admitting)));
    LeadsNext(s, Solo(workers, queue, workers + queue, k.(phase := Admitting)), TryAdmit(0, true),
              Solo(workers, queue, workers + queue - 1, AdmittedCall(viaInvoke)));
  }

  lemma AbandonedIsReachable(workers: nat, queue: nat)
    requires workers >= 1
    ensures Leads(Init(workers, queue), Solo(workers, queue, workers + queue - 1, AbandonedCall().(item := Picked)))
  {
    var s, n := Init(workers, queue), workers + queue - 1;
    var k := AdmittedCall(true);
    AdmittedIsReachable(workers, queue, true);
    LeadsNext(s, Solo(workers, queue, n, k), RequestCallerCancel(0),
              Solo(workers, queue, n, k.(callerCancelRequested := true)));
    CallerLeads(s, workers, queue, n, k.(callerCancelRequested := true));
    assert CallerStep(k.(callerCancelRequested := true)) == AbandonedCall();
    PickLeads(s, workers, queue, n, AbandonedCall());
  }

  lemma AbandonedRuns(workers: nat, queue: nat)
    requires workers >= 1
    ensures Leads(Init(workers, queue),
                  Solo(workers, queue, workers + queue - 1,
                       AbandonedCall().(item := Finished(Returned), started := true, entries := 1, exits := 1)))
  {
    var s, t := Init(workers, queue), Solo(workers, queue, workers + queue - 1, AbandonedCall().(item := Picked));
    AbandonedIsReachable(workers, queue);
    LeadsThroughThread(s, t, 0);
    var k := AbandonedCall().(item := Finished(Returned), started := true, entries := 1, exits := 1);
    assert Ended(t.calls[0], 0) == k;
    assert t.calls[0 := k] == map[0 := k];
  }

  /** A cancelled caller that saw `started` still clear reports a plain cancellation even when
      the thread then started: the function ran to completion and its result is dropped. */
  lemma CallerPlainCancelCanHideARun(workers: nat, queue: nat)
    requires workers >= 1
    ensures Leads(Init(workers, queue), Solo(workers, queue, workers + queue, RunHidden()))
    ensures RunHidden().caller == CallerDone(CallerPlainCancel)
    ensures RunHidden().item == Finished(Returned) && RunHidden().entries == RunHidden().exits == 1
  {
    var s, n := Init(workers, queue), workers + queue;
    AbandonedRuns(workers, queue);
    var k := AbandonedCall().(item := Finished(Returned), started := true, entries := 1, exits := 1);
    var k1 := k.(delivered := true);
    var k2 := k1.(phase := Draining, cancelRequested := false);
    var k3 := k2.(phase := Done(BlockingCancel(Returned)));
    ThreadLeads(s, workers, queue, n - 1, k, Deliver(0));
    ResumeLeads(s, workers, queue, n - 1, k1);
    ResumeLeads(s, workers, queue, n - 1, k2);
    CallerLeads(s, workers, queue, n, k3);
    assert CallerStep(k3) == RunHidden();
  }

  /** A function that raises a cancellation itself ends its call in a plain cancellation although
      it ran: the exception in `SettlementTellsWhetherItRan` is reachable without any cancel request. */
  lemma OwnCancellationLooksPlain(workers: nat, queue: nat)
    requires workers >= 1
    ensures Leads(Init(workers, queue), Solo(workers, queue, workers + queue, SelfCancelled()))
    ensures SelfCancelled().phase == Done(PlainCancel) && SelfCancelled().entries == 1
  {
    var s, n := Init(workers, queue), workers + queue;
    AdmittedIsReachable(workers, queue, false);
    var k := AdmittedCall(false);
    var k1 := k.(item := Left(RaisedCancellation), started := true, entries := 1, exits := 1);
    SelfCancellingRun(s, workers, queue, n - 1);
    var k2 := k1.(item := Finished(RaisedCancellation), delivered := true);
    ThreadLeads(s, workers, queue, n - 1, k1, Publish(0));
    ThreadLeads(s, workers, queue, n - 1, k1.(item := Finished(RaisedCancellation)), Deliver(0));
    ResumeLeads(s, workers, queue, n - 1, k2);
    ResumeLeads(s, workers, queue, n - 1, k2.(phase := Draining));
  }

  lemma SelfCancellingRun(s: State, workers: nat, queue: nat, free: int)
    requires workers >= 1 && Leads(s, Solo(workers, queue, free, AdmittedCall(false)))
    ensures Leads(s, Solo(workers, queue, free, AdmittedCall(false).(item := Left(RaisedCancellation), started := true,
                                                                     entries := 1, exits := 1)))
  {
    var k := AdmittedCall(false);
    var k1 := k.(item := Flagged, started := true);
    var k2 := k1.(item := Inside, entries := 1);
    PickLeads(s, workers, queue, free, k);
    ThreadLeads(s, workers, queue, free, k.(item := Picked), SetStarted(0));
    ThreadLeads(s, workers, queue, free, k1, Enter(0));
    ThreadLeads(s, workers, queue, free, k2, Exit(0, RaisedCancellation));
  }

  lemma Then(s: State, a: Action, t: State, rest: seq<Action>)
    requires Next(s, a) == t
    ensures Run(s, [a] + rest) == Run(t, rest)
  {
  }
}

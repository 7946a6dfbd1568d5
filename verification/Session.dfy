/**
 The lifecycle of meeting sessions (meetbot/session.py, meetbot/models.py).

 `Step` specifies what one event does to one session: a callback of the browser engine, the
 end of the engine task, a cancellation, or the resumption of a suspended `_finish`.
 `ManagerStep` adds the single active slot. `ManagedSession` and `SessionManager` are the
 mutable objects; the engine is an arbitrary source of events.
 */
module Session {
  import opened Options
  import Captions
  import SessionHealth

  datatype Status = Starting | Lobby | Admitted | CaptionsFlowing | Ended | Failed

  predicate Terminal(s: Status) {
    s.Ended? || s.Failed?
  }

  function AllowedTransitions(s: Status): set<Status> {
    match s
    case Starting => {Lobby, Ended, Failed}
    case Lobby => {Admitted, Ended, Failed}
    case Admitted => {CaptionsFlowing, Ended, Failed}
    case CaptionsFlowing => {Ended, Failed}
    case Ended => {}
    case Failed => {}
  }

  datatype Outcome = Requested | WasAdmitted | Refused | NotAdmitted | LeftMeeting

  /** `from_engine_end_reason` on a stripped, lower-case reason; None is its ValueError. */
  function FromEndReason(reason: string, wasAdmitted: bool): Option<Outcome> {
    if reason == "refused" then (if wasAdmitted then None else Some(Refused))
    else if reason == "not_admitted" then (if wasAdmitted then None else Some(NotAdmitted))
    else if reason in {"call_ended", "error", "hard_cap", "leave_requested", "service_shutdown"}
            || (wasAdmitted && reason in {"alone_for_five_minutes", "call_ui_gone"}) then
      Some(if wasAdmitted then LeftMeeting else NotAdmitted)
    else None
  }

  datatype Record = Record(
    status: Status,
    history: seq<Status>,
    joined: bool,
    outcome: Outcome,
    endReason: string,
    captionLines: nat,
    participants: bool)

  /** Where the session task is: in the engine, suspended in `_finish` before its flush, suspended
      in the webhook delivery, or done. `inHandler` is true inside an `except` block. */
  datatype Phase =
    | Running
    | Finishing(target: Status, inHandler: bool)
    | Delivering(inHandler: bool)
    | Closed

  /** `seen` is the history of what the buffer was given; only specifications use it. */
  datatype Managed = Managed(
    record: Record,
    buffer: Option<Captions.Buffer>,
    lines: seq<Captions.Line>,
    monitor: SessionHealth.Monitor,
    phase: Phase,
    seen: seq<Captions.Op>)

  datatype Config = Config(rules: Captions.Rules, policy: SessionHealth.Policy)

  /** The transcript writer during `_finish`: all writes succeed, appending line `index` fails, or a
      write after the terminal transition fails. */
  datatype Writes = WritesOk | AppendFails(index: nat) | LaterWriteFails

  /** The transcript writer during a caption callback: all writes succeed or only the last one, of the record, fails;
      the record cannot be written after the first caption moved the status; a committed line cannot be appended. */
  datatype CaptionWrites = Written | StatusWriteFails | LineWriteFails

  datatype Event =
    | StatusReported(status: Status, now: real)
    | CaptionSeen(observation: Captions.Observation, captionWrites: CaptionWrites)
    | ParticipantsSeen
    | HealthPolled(now: real)
    | EngineReturned(reason: string, failed: bool)
    | EngineRaised
    | HardCap
    | Cancelled
    | HealthStopped(writes: Writes)
    | TranscriptSent

  function NewSession(c: Config): Managed {
    Managed(Record(Starting, [Starting], false, Requested, "", 0, false),
            Some(Captions.Empty), [], SessionHealth.Start(c.policy), Running, [])
  }

  // ---------------------------------------------------------------- one session

  predicate CanTransition(r: Record, s: Status) {
    s in AllowedTransitions(r.status)
  }

  /** The record part of `_transition`, for an allowed new status. */
  function Transition(r: Record, s: Status): Record {
    var moved := r.(status := s, history := r.history + [s]);
    if s.Admitted? && !r.joined then moved.(joined := true, outcome := WasAdmitted) else moved
  }

  function OnStatus(c: Config, m: Managed, s: Status, now: real): Managed {
    if s.CaptionsFlowing? || !CanTransition(m.record, s) then m
    else
      var admits := s.Admitted? && !m.record.joined && m.buffer.Some?;
      m.(record := Transition(m.record, s),
         monitor := if admits then SessionHealth.OnAdmitted(c.policy, m.monitor, now) else m.monitor)
  }

  /** The caption callback gets as far as the buffer: captions flow, the task still runs, and a first caption could
      write its new status. */
  predicate Heard(m: Managed, writes: CaptionWrites) {
    m.buffer.Some? && (m.record.status.CaptionsFlowing? || (m.record.status.Admitted? && !writes.StatusWriteFails?))
  }

  function OnFirstCaption(r: Record): Record {
    if r.status.Admitted? then Transition(r, CaptionsFlowing) else r
  }

  /** The bookkeeping of a caption after the buffer made `step` of it. A line that cannot be appended is committed
      all the same, but the exception leaves the record's count and the monitor as they were. */
  ghost function Booked(c: Config, m: Managed, o: Captions.Observation, writes: CaptionWrites,
                        step: (Captions.Buffer, seq<Captions.Pending>)): Managed {
    var r := OnFirstCaption(m.record);
    var lines := m.lines + Captions.Lines(step.1);
    var told := !(writes.LineWriteFails? && step.1 != []);
    m.(record := r.(captionLines := if told then |lines| else r.captionLines,
                    participants := r.participants || c.rules.clean(o.speaker) != ""),
       buffer := Some(step.0),
       lines := lines,
       monitor := if told then SessionHealth.OnCaption(m.monitor, |lines| + |step.0.pending|) else m.monitor,
       seen := m.seen + [Captions.Snapshot(o)])
  }

  /** A caption that reaches the buffer. */
  ghost function OnHeard(c: Config, m: Managed, o: Captions.Observation, writes: CaptionWrites): Managed
    requires m.buffer.Some?
  {
    Booked(c, m, o, writes, Captions.Observe(c.rules, m.buffer.value, o))
  }

  ghost function OnCaption(c: Config, m: Managed, o: Captions.Observation, writes: CaptionWrites): Managed {
    if Heard(m, writes) then OnHeard(c, m, o, writes) else m.(record := OnFirstCaption(m.record))
  }

  /** The `finally` block. */
  function Close(m: Managed): Managed {
    m.(phase := Closed, buffer := None, lines := [])
  }

  /** Entering `_finish`: a record that is already terminal returns at once. */
  function BeginFinish(m: Managed, target: Status, inHandler: bool): Managed {
    if Terminal(m.record.status) then Close(m) else m.(phase := Finishing(target, inHandler))
  }

  /** An `except` block that settles the outcome itself. */
  function Handle(m: Managed, reason: string, target: Status): Managed
    requires reason in {"error", "hard_cap", "service_shutdown"}
  {
    BeginFinish(m.(record := m.record.(endReason := reason, outcome := FromEndReason(reason, m.record.joined).value)),
                target, true)
  }

  function OnEngineReturned(m: Managed, reason: string, failed: bool): Managed {
    match FromEndReason(reason, m.record.joined)
    case None => Handle(m, "error", Failed)
    case Some(outcome) =>
      BeginFinish(m.(record := m.record.(endReason := reason, outcome := outcome)),
                  if failed then Failed else Ended, false)
  }

  function OnCancelled(m: Managed): Managed {
    match m.phase
    case Running => if Terminal(m.record.status) then Close(m) else Handle(m, "service_shutdown", Failed)
    case Finishing(_, false) => if Terminal(m.record.status) then Close(m) else Handle(m, "service_shutdown", Failed)
    case _ => Close(m)
  }

  /** An exception out of `_finish`: the `except Exception` block runs once, never twice. */
  function FinishRaised(m: Managed, inHandler: bool): Managed {
    if inHandler then Close(m) else Handle(m, "error", Failed)
  }

  /** The flush, with the first `kept` of its lines appended to the transcript. */
  ghost function FlushInto(m: Managed, kept: nat): Managed
    requires m.buffer.Some? && kept <= |Captions.Flush(m.buffer.value).1|
  {
    var flush := Captions.Flush(m.buffer.value);
    m.(buffer := Some(flush.0), lines := m.lines + Captions.Lines(flush.1)[..kept], seen := m.seen + [Captions.FlushAll])
  }

  /** The rest of `_finish` once every final line is stored. */
  function EndFinish(m: Managed, target: Status, inHandler: bool, laterWriteFails: bool): Managed {
    var stored := m.(record := m.record.(captionLines := |m.lines|));
    if target != m.record.status && !CanTransition(m.record, target) then FinishRaised(stored, inHandler)
    else
      var ended := if target == m.record.status then stored else stored.(record := Transition(stored.record, target));
      if laterWriteFails then FinishRaised(ended, inHandler) else ended.(phase := Delivering(inHandler))
  }

  /** `_finish` after the monitor stopped: flush, commit, transition, write, deliver. */
  ghost function OnHealthStopped(m: Managed, writes: Writes): Managed {
    if !m.phase.Finishing? || m.buffer.None? then m
    else
      var final := |Captions.Flush(m.buffer.value).1|;
      if writes.AppendFails? && writes.index < final then
        FinishRaised(FlushInto(m, writes.index + 1), m.phase.inHandler)
      else
        EndFinish(FlushInto(m, final), m.phase.target, m.phase.inHandler, writes.LaterWriteFails?)
  }

  ghost function Step(c: Config, m: Managed, e: Event): Managed {
    match e
    case StatusReported(s, now) => OnStatus(c, m, s, now)
    case CaptionSeen(o, writes) => OnCaption(c, m, o, writes)
    case ParticipantsSeen => m.(record := m.record.(participants := true))
    case HealthPolled(now) =>
      if m.phase.Closed? then m
      else m.(monitor := SessionHealth.DueEvents(c.policy, m.monitor, m.record.status.Admitted?, m.record.participants, now).0)
    case EngineReturned(reason, failed) => if m.phase.Running? then OnEngineReturned(m, reason, failed) else m
    case EngineRaised => if m.phase.Running? then Handle(m, "error", Failed) else m
    case HardCap => if m.phase.Running? then Handle(m, "hard_cap", Ended) else m
    case Cancelled => if m.phase.Closed? then m else OnCancelled(m)
    case HealthStopped(writes) => OnHealthStopped(m, writes)
    case TranscriptSent => if m.phase.Delivering? then Close(m) else m
  }

  ghost function Run(c: Config, events: seq<Event>): Managed {
    if events == [] then NewSession(c)
    else Step(c, Run(c, events[..|events| - 1]), events[|events| - 1])
  }

  // ---------------------------------------------------------------- the record

  /** The history is a path of the transition table from `starting` to the current status, and
      `joined_at` is set exactly when the path goes through `admitted`. */
  ghost predicate RecordOk(r: Record) {
    && r.history != [] && r.history[0] == Starting && r.history[|r.history| - 1] == r.status
    && (forall i :: 0 <= i < |r.history| - 1 ==> r.history[i + 1] in AllowedTransitions(r.history[i]))
    && (r.joined <==> Admitted in r.history)
  }

  /** What a session keeps beside its record. */
  ghost predicate RuntimeOk(m: Managed) {
    && (m.phase.Closed? <==> m.buffer.None?)
    && (m.phase.Finishing? ==> Terminal(m.phase.target))
    && (m.phase.Delivering? ==> Terminal(m.record.status))
    && (m.phase.Running? && !m.record.joined ==> m.record.outcome.Requested?)
    && (m.phase.Running? && m.record.joined ==> m.record.outcome.WasAdmitted?)
    && (m.record.outcome.LeftMeeting? ==> m.record.joined)
  }

  lemma TransitionKeepsRecord(r: Record, s: Status)
    requires RecordOk(r) && CanTransition(r, s)
    ensures RecordOk(Transition(r, s))
  {
    var h := r.history + [s];
    assert forall i :: 0 <= i < |r.history| ==> h[i] == r.history[i];
    assert Admitted in h <==> Admitted in r.history || s.Admitted?;
  }

  ghost predicate Inv(m: Managed) {
    RecordOk(m.record) && RuntimeOk(m)
  }

  lemma EndReasonTells(reason: string, joined: bool)
    ensures FromEndReason(reason, joined).Some? ==> (FromEndReason(reason, joined).value.LeftMeeting? <==> joined)
  {
  }

  /** The part of a record that the history invariant is about. */
  function Core(r: Record): (Status, seq<Status>, bool) {
    (r.status, r.history, r.joined)
  }

  lemma HandleKeepsRuntime(m: Managed, reason: string, target: Status)
    requires m.buffer.Some? && Terminal(target) && reason in {"error", "hard_cap", "service_shutdown"}
    ensures RuntimeOk(Handle(m, reason, target)) && Core(Handle(m, reason, target).record) == Core(m.record)
    ensures Handle(m, reason, target).record.outcome.LeftMeeting? <==> m.record.joined
    ensures !Abandoned(Handle(m, reason, target))
  {
  }

  lemma RaisedKeepsRuntime(m: Managed, inHandler: bool)
    requires RuntimeOk(m.(phase := Finishing(Failed, inHandler))) && m.buffer.Some?
    ensures var t := FinishRaised(m, inHandler);
            && RuntimeOk(t) && Core(t.record) == Core(m.record)
            && (OutcomeOk(m.(phase := Finishing(Failed, inHandler))) ==> OutcomeOk(t))
            && (Abandoned(t) ==> inHandler && !Terminal(m.record.status))
  {
    HandleKeepsRuntime(m, "error", Failed);
  }

  lemma RefusedFinishKeepsRuntime(m: Managed, target: Status, inHandler: bool, laterWriteFails: bool)
    requires RuntimeOk(m) && m.phase.Finishing? && m.buffer.Some? && Terminal(target)
    requires target != m.record.status && !CanTransition(m.record, target)
    ensures var t := EndFinish(m, target, inHandler, laterWriteFails);
            RuntimeOk(t) && Core(t.record) == Core(m.record) && (OutcomeOk(m) ==> OutcomeOk(t)) && !Abandoned(t)
  {
    assert Terminal(m.record.status);
    RaisedKeepsRuntime(m.(record := m.record.(captionLines := |m.lines|)), inHandler);
  }

  /** The record when `_finish` writes it for the last time. */
  function EndedRecord(m: Managed, target: Status): Record {
    var stored := m.record.(captionLines := |m.lines|);
    if target == m.record.status then stored else Transition(stored, target)
  }

  lemma EndFinishKeepsRuntime(m: Managed, target: Status, inHandler: bool, laterWriteFails: bool)
    requires RuntimeOk(m) && m.phase.Finishing? && m.buffer.Some? && Terminal(target)
    ensures var t := EndFinish(m, target, inHandler, laterWriteFails);
            && RuntimeOk(t)
            && (Core(t.record) == Core(m.record)
                || (CanTransition(m.record, target) && Core(t.record) == Core(Transition(m.record, target))))
            && (OutcomeOk(m) ==> OutcomeOk(t)) && !Abandoned(t)
  {
    if target != m.record.status && !CanTransition(m.record, target) {
      RefusedFinishKeepsRuntime(m, target, inHandler, laterWriteFails);
    } else {
      var ended := m.(record := EndedRecord(m, target));
      assert Core(ended.record) == Core(m.record) || Core(ended.record) == Core(Transition(m.record, target));
      assert ended.record.status == target;
      if laterWriteFails { RaisedKeepsRuntime(ended, inHandler); }
    }
  }

  lemma StoppedKeepsRuntime(m: Managed, writes: Writes)
    requires RuntimeOk(m) && m.phase.Finishing?
    ensures var t := OnHealthStopped(m, writes);
            && RuntimeOk(t)
            && (Core(t.record) == Core(m.record)
                || (CanTransition(m.record, m.phase.target) && Core(t.record) == Core(Transition(m.record, m.phase.target))))
            && (OutcomeOk(m) ==> OutcomeOk(t))
  {
    var final := |Captions.Flush(m.buffer.value).1|;
    if writes.AppendFails? && writes.index < final {
      HandleKeepsRuntime(FlushInto(m, writes.index + 1), "error", Failed);
    } else {
      EndFinishKeepsRuntime(FlushInto(m, final), m.phase.target, m.phase.inHandler, writes.LaterWriteFails?);
    }
  }

  lemma CaptionKeepsRuntime(c: Config, m: Managed, o: Captions.Observation, writes: CaptionWrites)
    requires RuntimeOk(m)
    ensures RuntimeOk(OnCaption(c, m, o, writes))
    ensures Core(OnCaption(c, m, o, writes).record) == Core(OnFirstCaption(m.record))
  {
  }

  lemma EndKeepsRuntime(m: Managed, reason: string, failed: bool)
    requires RuntimeOk(m) && m.phase.Running?
    ensures RuntimeOk(OnEngineReturned(m, reason, failed))
    ensures Core(OnEngineReturned(m, reason, failed).record) == Core(m.record)
  {
    HandleKeepsRuntime(m, "error", Failed);
  }

  lemma StatusKeepsRuntime(c: Config, m: Managed, s: Status, now: real)
    requires RuntimeOk(m)
    ensures RuntimeOk(OnStatus(c, m, s, now))
    ensures var t := OnStatus(c, m, s, now);
            Core(t.record) == Core(m.record) || (CanTransition(m.record, s) && Core(t.record) == Core(Transition(m.record, s)))
  {
  }

  /** Every event keeps the runtime facts and moves the record by at most one allowed transition. */
  lemma StepKeepsRuntime(c: Config, m: Managed, e: Event)
    requires RuntimeOk(m)
    ensures RuntimeOk(Step(c, m, e))
    ensures Core(Step(c, m, e).record) == Core(m.record)
            || exists s :: CanTransition(m.record, s) && Core(Step(c, m, e).record) == Core(Transition(m.record, s))
  {
    match e {
      case StatusReported(s, now) => StatusKeepsRuntime(c, m, s, now);
      case CaptionSeen(o, writes) => CaptionKeepsRuntime(c, m, o, writes);
      case HealthStopped(writes) => if m.phase.Finishing? { StoppedKeepsRuntime(m, writes); }
      case EngineReturned(reason, failed) => if m.phase.Running? { EndKeepsRuntime(m, reason, failed); }
      case EngineRaised => if m.phase.Running? { HandleKeepsRuntime(m, "error", Failed); }
      case HardCap => if m.phase.Running? { HandleKeepsRuntime(m, "hard_cap", Ended); }
      case Cancelled => CancelKeepsRuntime(m);
      case _ =>
    }
  }

  lemma CancelKeepsRuntime(m: Managed)
    requires RuntimeOk(m)
    ensures !m.phase.Closed? ==> RuntimeOk(OnCancelled(m)) && Core(OnCancelled(m).record) == Core(m.record)
  {
    if m.buffer.Some? { HandleKeepsRuntime(m, "service_shutdown", Failed); }
  }

  lemma CoreKeepsRecord(before: Record, r: Record)
    requires RecordOk(before)
    requires Core(r) == Core(before) || exists s :: CanTransition(before, s) && Core(r) == Core(Transition(before, s))
    ensures RecordOk(r)
  {
    if Core(r) != Core(before) {
      var s :| CanTransition(before, s) && Core(r) == Core(Transition(before, s));
      TransitionKeepsRecord(before, s);
    }
  }

  lemma StepKeepsInv(c: Config, m: Managed, e: Event)
    requires Inv(m)
    ensures Inv(Step(c, m, e))
  {
    StepKeepsRuntime(c, m, e);
    CoreKeepsRecord(m.record, Step(c, m, e).record);
  }

  lemma {:induction false} RunKeepsInv(c: Config, events: seq<Event>)
    ensures Inv(Run(c, events))
  {
    if events != [] {
      RunKeepsInv(c, events[..|events| - 1]);
      StepKeepsInv(c, Run(c, events[..|events| - 1]), events[|events| - 1]);
    }
  }

  /** Over every run the status history is a path of the transition table ending in the current
      status, and the session joined exactly if that path goes through `admitted`. */
  lemma HistoryIsAPath(c: Config, events: seq<Event>)
    ensures RecordOk(Run(c, events).record)
  {
    RunKeepsInv(c, events);
  }

  lemma TerminalStep(c: Config, m: Managed, e: Event)
    requires RuntimeOk(m) && Terminal(m.record.status)
    ensures Core(Step(c, m, e).record) == Core(m.record)
  {
    StepKeepsRuntime(c, m, e);
  }

  /** Terminal states absorb: status, history and admission never change again. */
  lemma {:induction false} TerminalAbsorbs(c: Config, events: seq<Event>, more: seq<Event>)
    requires Terminal(Run(c, events).record.status)
    ensures var before, after := Run(c, events).record, Run(c, events + more).record;
            after.status == before.status && after.history == before.history && after.joined == before.joined
    decreases |more|
  {
    if more == [] {
      assert events + more == events;
    } else {
      var all := events + more;
      assert all[..|all| - 1] == events + more[..|more| - 1];
      TerminalAbsorbs(c, events, more[..|more| - 1]);
      RunKeepsInv(c, all[..|all| - 1]);
      TerminalStep(c, Run(c, all[..|all| - 1]), all[|all| - 1]);
    }
  }

  /** The order of a session's life; it may end after any of these. */
  const LADDER := [Starting, Lobby, Admitted, CaptionsFlowing]

  /** The first rungs of the ladder, all of it or not, and perhaps one terminal status. */
  predicate Climbs(h: seq<Status>) {
    exists n :: 1 <= n <= 4 && (h == LADDER[..n] || (|h| == n + 1 && h[..n] == LADDER[..n] && (h[n].Ended? || h[n].Failed?)))
  }

  lemma {:induction false} PathClimbs(h: seq<Status>)
    requires h != [] && h[0] == Starting && forall i :: 0 <= i < |h| - 1 ==> h[i + 1] in AllowedTransitions(h[i])
    ensures Climbs(h)
  {
    var n := |h| - 1;
    if n == 0 {
      assert h == LADDER[..1];
    } else {
      PathClimbs(h[..n]);
      var k :| 1 <= k <= 4 && (h[..n] == LADDER[..k] || (n == k + 1 && h[..n][..k] == LADDER[..k] && (h[..n][k].Ended? || h[..n][k].Failed?)));
      assert h[n] in AllowedTransitions(h[n - 1]) && h[n - 1] == h[..n][n - 1];
      assert n == k && h[..n] == LADDER[..k];
      if !h[n].Ended? && !h[n].Failed? {
        assert h[k - 1] == LADDER[k - 1] && k < 4 && h[n] == LADDER[k];
        assert h == LADDER[..k + 1];
      }
    }
  }

  /** Over every run a session goes through lobby, admission and captions in this order, skipping none, and may end after
      any of them, once. */
  lemma HistoryClimbs(c: Config, events: seq<Event>)
    ensures Climbs(Run(c, events).record.history)
  {
    RunKeepsInv(c, events);
    PathClimbs(Run(c, events).record.history);
  }

  /** Which reports the record takes: the lobby after the start, admission after the lobby, an end at any time before one,
      and captions never by report. The first admission is noted in the record and starts the caption deadline. */
  lemma ReportExactly(c: Config, m: Managed, s: Status, now: real)
    ensures var t, from := OnStatus(c, m, s, now), m.record.status;
            var taken := || (from.Starting? && s.Lobby?) || (from.Lobby? && s.Admitted?)
                         || ((s.Ended? || s.Failed?) && !from.Ended? && !from.Failed?);
            && (!taken ==> t == m)
            && (taken ==> t.record.status == s && t.record.history == m.record.history + [s])
            && (taken ==> t.record.joined == (m.record.joined || s.Admitted?))
            && (taken && s.Admitted? && !m.record.joined ==> t.record.outcome.WasAdmitted?)
            && (taken && s.Admitted? && !m.record.joined && m.buffer.Some? && m.monitor.captionDeadline.None? ==>
                  t.monitor.captionDeadline == Some(now + c.policy.captionSeconds))
            && t.lines == m.lines && t.buffer == m.buffer && t.phase == m.phase
  {
  }

  /** What a caption does: it moves an admitted session on, and reaches the buffer exactly if captions flow by then, the
      task still runs and the move could be written; only then is its speaker a participant and the count renewed. */
  lemma CaptionExactly(c: Config, m: Managed, o: Captions.Observation, writes: CaptionWrites)
    ensures var t := OnCaption(c, m, o, writes);
            var heard := m.buffer.Some? && (m.record.status.CaptionsFlowing? || (m.record.status.Admitted? && writes != StatusWriteFails));
            && t.record.status == (if m.record.status.Admitted? then CaptionsFlowing else m.record.status)
            && t.seen == (if heard then m.seen + [Captions.Snapshot(o)] else m.seen)
            && t.record.participants == (m.record.participants || (heard && c.rules.clean(o.speaker) != ""))
            && (t.lines != m.lines ==> heard)
            && t.record.captionLines == (if heard && (writes != LineWriteFails || t.lines == m.lines) then |t.lines|
                                         else m.record.captionLines)
            && t.phase == m.phase && t.record.joined == m.record.joined
  {
    if m.buffer.Some? { assert m.lines + Captions.Lines([]) == m.lines; }
  }

  // ---------------------------------------------------------------- how a session ends

  /** The end reasons that make sense, for a session that joined and for one that did not. */
  predicate Accepted(reason: string, joined: bool) {
    || reason in ["call_ended", "error", "hard_cap", "leave_requested", "service_shutdown"]
    || (if joined then reason in ["alone_for_five_minutes", "call_ui_gone"] else reason in ["refused", "not_admitted"])
  }

  /** Which outcome an end reason gives: none unless it is accepted, the refusal itself, and otherwise whether it joined. */
  lemma EndReasonExactly(reason: string, joined: bool)
    ensures FromEndReason(reason, joined).None? <==> !Accepted(reason, joined)
    ensures Accepted(reason, joined) ==>
              FromEndReason(reason, joined).value
              == if joined then LeftMeeting else if reason == "refused" then Refused else NotAdmitted
  {
  }

  /** The end reason and the terminal status that an event asks for which ends the engine. */
  function EndAskedBy(e: Event, joined: bool): Option<(string, Status)> {
    match e
    case EngineReturned(reason, failed) =>
      if Accepted(reason, joined) then Some((reason, if failed then Failed else Ended)) else Some(("error", Failed))
    case EngineRaised => Some(("error", Failed))
    case HardCap => Some(("hard_cap", Ended))
    case Cancelled => Some(("service_shutdown", Failed))
    case _ => None
  }

  predicate EndsEngine(m: Managed, e: Event) {
    m.phase.Running? && !Terminal(m.record.status) && EndAskedBy(e, m.record.joined).Some?
  }

  /** Nothing that cuts a finish short. */
  predicate Undisturbed(events: seq<Event>) {
    forall i :: 0 <= i < |events| ==> !events[i].Cancelled? && !events[i].HealthStopped? && !events[i].TranscriptSent?
  }

  /** On the way to this status, for this reason. */
  predicate EndingAs(m: Managed, reason: string, target: Status) {
    m.phase.Finishing? && m.phase.target == target && m.record.endReason == reason && m.buffer.Some?
  }

  lemma AsksForEnd(c: Config, m: Managed, e: Event)
    requires RuntimeOk(m) && EndsEngine(m, e)
    ensures var (reason, target) := EndAskedBy(e, m.record.joined).value; EndingAs(Step(c, m, e), reason, target)
  {
    if e.EngineReturned? { EndReasonExactly(e.reason, m.record.joined); }
  }

  lemma StaysEnding(c: Config, m: Managed, e: Event, reason: string, target: Status)
    requires EndingAs(m, reason, target) && !e.Cancelled? && !e.HealthStopped? && !e.TranscriptSent?
    ensures EndingAs(Step(c, m, e), reason, target)
  {
  }

  lemma {:induction false} EndingGoesOn(c: Config, before: seq<Event>, e: Event, middle: seq<Event>)
    requires EndsEngine(Run(c, before), e)
    requires Undisturbed(middle)
    ensures var (reason, target) := EndAskedBy(e, Run(c, before).record.joined).value;
            EndingAs(Run(c, before + [e] + middle), reason, target)
  {
    var (reason, target) := EndAskedBy(e, Run(c, before).record.joined).value;
    var all := before + [e] + middle;
    if middle == [] {
      assert all[..|all| - 1] == before && all[|all| - 1] == e;
      RunKeepsInv(c, before);
      AsksForEnd(c, Run(c, before), e);
    } else {
      var n := |middle| - 1;
      assert all[..|all| - 1] == before + [e] + middle[..n] && all[|all| - 1] == middle[n];
      EndingGoesOn(c, before, e, middle[..n]);
      StaysEnding(c, Run(c, before + [e] + middle[..n]), middle[n], reason, target);
    }
  }

  lemma FinishesAs(m: Managed, reason: string, target: Status)
    requires EndingAs(m, reason, target) && !Terminal(m.record.status) && Terminal(target)
    ensures var t := OnHealthStopped(m, WritesOk);
            && t.phase.Delivering? && t.record.status == target && t.record.endReason == reason
            && t.record.history == m.record.history + [target]
  {
    assert target in AllowedTransitions(m.record.status);
  }

  /** How a session ends, over every run: whatever ends the engine while the session is active asks for a reason and a
      status, and if nothing cuts the finish short and its writes succeed these are what the record ends with. */
  lemma SessionEndsAsAsked(c: Config, before: seq<Event>, e: Event, middle: seq<Event>)
    requires EndsEngine(Run(c, before), e)
    requires Undisturbed(middle) && !Terminal(Run(c, before + [e] + middle).record.status)
    ensures var (reason, target) := EndAskedBy(e, Run(c, before).record.joined).value;
            var m := Run(c, before + [e] + middle + [HealthStopped(WritesOk)]);
            && m.phase.Delivering? && m.record.endReason == reason && m.record.status == target
            && m.record.history == Run(c, before + [e] + middle).record.history + [target]
  {
    var (reason, target) := EndAskedBy(e, Run(c, before).record.joined).value;
    var all := before + [e] + middle;
    EndingGoesOn(c, before, e, middle);
    assert (all + [HealthStopped(WritesOk)])[..|all|] == all;
    FinishesAs(Run(c, all), reason, target);
  }

  /** An exception in the finish, once, turns the end into a failure; inside a handler nobody handles it. */
  lemma FailedFinishExactly(m: Managed, target: Status, inHandler: bool, writes: Writes)
    requires m.phase == Finishing(target, inHandler) && m.buffer.Some? && Terminal(target) && !Terminal(m.record.status)
    requires writes.AppendFails? && writes.index < |Captions.Flush(m.buffer.value).1|
    ensures var t := OnHealthStopped(m, writes);
            && t.record.status == m.record.status
            && (inHandler ==> t.phase.Closed? && t.record.endReason == m.record.endReason)
            && (!inHandler ==> t.phase == Finishing(Failed, true) && t.record.endReason == "error")
  {
  }

  // ---------------------------------------------------------------- the outcome

  /** Once the engine is done, the outcome is LEFT exactly for sessions that joined. */
  predicate OutcomeOk(m: Managed) {
    m.phase.Running? || (m.record.outcome.LeftMeeting? <==> m.record.joined)
  }

  /** An admission reported after the engine ended, or a cancellation of a joined session that a
      status callback had already made terminal. */
  predicate BreaksOutcome(m: Managed, e: Event) {
    || (e.StatusReported? && e.status.Admitted? && m.record.status.Lobby? && !m.phase.Running?)
    || (e.Cancelled? && m.phase.Running? && Terminal(m.record.status) && m.record.joined)
  }

  lemma OutcomeBreaksExactlyThere(c: Config, m: Managed, e: Event)
    requires Inv(m) && OutcomeOk(m)
    ensures OutcomeOk(Step(c, m, e)) <==> !BreaksOutcome(m, e)
  {
    match e {
      case HealthStopped(writes) => if m.phase.Finishing? { StoppedKeepsRuntime(m, writes); }
      case EngineReturned(reason, _) => EndReasonTells(reason, m.record.joined);
      case StatusReported(s, _) => if m.record.status.Lobby? { LobbyNotJoined(m.record); }
      case _ =>
    }
  }

  /** The bot waits in the lobby only before it joins. */
  lemma LobbyNotJoined(r: Record)
    requires RecordOk(r) && (r.status.Lobby? || r.status.Starting?)
    ensures !r.joined
  {
    if Admitted in r.history {
      var i :| 0 <= i < |r.history| && r.history[i] == Admitted;
      StaysPastAdmission(r.history, i, |r.history| - 1);
    }
  }

  lemma {:induction false} StaysPastAdmission(h: seq<Status>, i: nat, j: nat)
    requires i <= j < |h| && h[i] == Admitted
    requires forall k :: 0 <= k < |h| - 1 ==> h[k + 1] in AllowedTransitions(h[k])
    ensures h[j] == Admitted || h[j] == CaptionsFlowing || Terminal(h[j])
  {
    if i < j { StaysPastAdmission(h, i, j - 1); }
  }

  predicate Orderly(events: seq<Event>) {
    forall i :: 0 <= i < |events| && events[i].StatusReported? ==> !Terminal(events[i].status)
  }

  ghost predicate AdmitsInTime(c: Config, events: seq<Event>) {
    forall i :: 0 <= i < |events| && events[i].StatusReported? && events[i].status.Admitted? ==>
      Run(c, events[..i]).phase.Running?
  }

  /** With an engine that reports admission only while it runs and leaves terminal states to its
      result, every finished session is LEFT exactly if it joined: even when the engine's end reason
      is rejected, when writes fail and when the task is cancelled. */
  lemma {:induction false} FinishedIsLeftIffJoined(c: Config, events: seq<Event>)
    requires Orderly(events) && AdmitsInTime(c, events)
    ensures OutcomeOk(Run(c, events))
    ensures Run(c, events).phase.Running? ==> !Terminal(Run(c, events).record.status)
  {
    if events != [] {
      var n := |events| - 1;
      assert forall i :: 0 <= i < n ==> events[..n][..i] == events[..i];
      FinishedIsLeftIffJoined(c, events[..n]);
      RunKeepsInv(c, events[..n]);
      OutcomeBreaksExactlyThere(c, Run(c, events[..n]), events[n]);
      RunsWhileActive(c, Run(c, events[..n]), events[n]);
    }
  }

  lemma RunsWhileActive(c: Config, m: Managed, e: Event)
    requires m.phase.Running? ==> !Terminal(m.record.status)
    requires e.StatusReported? ==> !Terminal(e.status)
    ensures Step(c, m, e).phase.Running? ==> !Terminal(Step(c, m, e).record.status)
  {
  }

  // ---------------------------------------------------------------- abandoned sessions

  /** The task is gone but the record still looks active. */
  predicate Abandoned(m: Managed) {
    m.phase.Closed? && !Terminal(m.record.status)
  }

  /** `_finish` is interrupted while it already runs inside an `except` block. */
  predicate InterruptsHandler(m: Managed, e: Event) {
    && m.phase.Finishing? && m.phase.inHandler && !Terminal(m.record.status) && m.buffer.Some?
    && (e.Cancelled? || (e.HealthStopped? && e.writes.AppendFails? && e.writes.index < |m.buffer.value.pending|))
  }

  lemma StoppedAbandonsExactly(m: Managed, writes: Writes)
    requires RuntimeOk(m) && m.phase.Finishing? && Captions.Valid(m.buffer.value)
    ensures Abandoned(OnHealthStopped(m, writes)) <==> InterruptsHandler(m, HealthStopped(writes))
  {
    Captions.FlushCount(m.buffer.value);
    var final := |Captions.Flush(m.buffer.value).1|;
    if writes.AppendFails? && writes.index < final {
      HandleKeepsRuntime(FlushInto(m, writes.index + 1), "error", Failed);
    } else {
      EndFinishKeepsRuntime(FlushInto(m, final), m.phase.target, m.phase.inHandler, writes.LaterWriteFails?);
    }
  }

  lemma OthersAbandonNothing(c: Config, m: Managed, e: Event)
    requires RuntimeOk(m) && !Abandoned(m) && !e.HealthStopped? && !e.Cancelled?
    ensures !Abandoned(Step(c, m, e))
  {
    if m.phase.Closed? { TerminalStep(c, m, e); }
  }

  /** A session is abandoned exactly by an interrupted handler. */
  lemma AbandonedExactlyThere(c: Config, m: Managed, e: Event)
    requires Inv(m) && !Abandoned(m) && (m.buffer.Some? ==> Captions.Valid(m.buffer.value))
    ensures Abandoned(Step(c, m, e)) <==> InterruptsHandler(m, e)
  {
    match e {
      case HealthStopped(writes) => if m.phase.Finishing? { StoppedAbandonsExactly(m, writes); }
      case Cancelled =>
      case _ => OthersAbandonNothing(c, m, e);
    }
  }

  // ---------------------------------------------------------------- the transcript

  ghost function LogLines(log: seq<Captions.Commit>): seq<Captions.Line> {
    seq(|log|, i requires 0 <= i < |log| => log[i].entry.line)
  }

  /** The buffer is what its history says. */
  ghost predicate BufferOk(c: Config, m: Managed) {
    m.buffer.Some? ==> m.buffer.value == Captions.After(c.rules, m.seen).buffer
  }

  /** The stored lines are exactly the committed ones. */
  ghost predicate TranscriptOk(c: Config, m: Managed) {
    m.buffer.Some? ==>
      && m.lines == LogLines(Captions.After(c.rules, m.seen).log)
      && (m.phase.Delivering? ==> m.buffer.value.pending == map[] && m.record.captionLines == |m.lines|)
  }

  /** The only way to lose an opened line: the transcript file rejects an append and further final
      lines were still waiting behind it. */
  predicate LosesLines(m: Managed, e: Event) {
    && e.HealthStopped? && m.phase.Finishing? && m.buffer.Some?
    && e.writes.AppendFails? && e.writes.index + 1 < |m.buffer.value.pending|
  }

  lemma LogLinesAppend(log: seq<Captions.Commit>, out: seq<Captions.Pending>, at: nat)
    ensures LogLines(log + Captions.Stamped(out, at)) == LogLines(log) + Captions.Lines(out)
  {
  }

  lemma CaptionKeepsBuffer(c: Config, m: Managed, o: Captions.Observation, writes: CaptionWrites)
    requires BufferOk(c, m)
    ensures BufferOk(c, OnCaption(c, m, o, writes))
  {
    if m.buffer.Some? { Captions.AfterOneMore(c.rules, m.seen, Captions.Snapshot(o)); }
  }

  lemma StoppedKeepsBuffer(c: Config, m: Managed, writes: Writes)
    requires BufferOk(c, m)
    ensures BufferOk(c, OnHealthStopped(m, writes))
  {
    Captions.AfterOneMore(c.rules, m.seen, Captions.FlushAll);
  }

  /** Everything but captions and the final flush leaves lines, buffer and counts alone. */
  lemma OthersKeepLines(c: Config, m: Managed, e: Event)
    requires !e.CaptionSeen? && !e.HealthStopped?
    ensures var t := Step(c, m, e);
            t.buffer.Some? ==>
              && t.buffer == m.buffer && t.lines == m.lines && t.seen == m.seen
              && t.record.captionLines == m.record.captionLines && (t.phase.Delivering? ==> m.phase.Delivering?)
  {
  }

  lemma BufferIsKept(c: Config, m: Managed, e: Event)
    requires BufferOk(c, m)
    ensures BufferOk(c, Step(c, m, e))
  {
    match e {
      case CaptionSeen(o, w) => CaptionKeepsBuffer(c, m, o, w);
      case HealthStopped(writes) => StoppedKeepsBuffer(c, m, writes);
      case _ => OthersKeepLines(c, m, e);
    }
  }

  lemma CaptionKeepsTranscript(c: Config, m: Managed, o: Captions.Observation, writes: CaptionWrites)
    requires BufferOk(c, m) && TranscriptOk(c, m)
    requires m.phase.Delivering? ==> Terminal(m.record.status)
    ensures TranscriptOk(c, OnCaption(c, m, o, writes))
  {
    if m.buffer.Some? {
      var before := Captions.After(c.rules, m.seen);
      Captions.AfterOneMore(c.rules, m.seen, Captions.Snapshot(o));
      LogLinesAppend(before.log, Captions.Observe(c.rules, before.buffer, o).1, |m.seen|);
    }
  }

  lemma FlushReturnsAllPending(c: Config, m: Managed)
    requires m.buffer.Some? && BufferOk(c, m)
    ensures |Captions.Flush(m.buffer.value).1| == |m.buffer.value.pending|
  {
    Captions.EveryHistoryKeepsTheLog(c.rules, m.seen);
    Captions.FlushCount(m.buffer.value);
  }

  /** A flush moves every pending line to the stored ones. */
  lemma FlushStoresEverything(c: Config, m: Managed, kept: nat)
    requires m.buffer.Some? && BufferOk(c, m) && TranscriptOk(c, m) && kept <= |Captions.Flush(m.buffer.value).1|
    ensures var t := FlushInto(m, kept);
            && t.lines + Captions.Lines(Captions.Flush(m.buffer.value).1)[kept..] == LogLines(Captions.After(c.rules, t.seen).log)
            && t.buffer.value.pending == map[]
  {
    var before := Captions.After(c.rules, m.seen);
    Captions.AfterOneMore(c.rules, m.seen, Captions.FlushAll);
    var out := Captions.Flush(m.buffer.value).1;
    LogLinesAppend(before.log, out, |m.seen|);
    assert Captions.Lines(out)[..kept] + Captions.Lines(out)[kept..] == Captions.Lines(out);
  }

  lemma EndFinishKeepsTranscript(c: Config, m: Managed, target: Status, inHandler: bool, laterWriteFails: bool)
    requires m.buffer.Some? && m.buffer.value.pending == map[]
    requires m.lines == LogLines(Captions.After(c.rules, m.seen).log)
    ensures TranscriptOk(c, EndFinish(m, target, inHandler, laterWriteFails))
  {
    var t := EndFinish(m, target, inHandler, laterWriteFails);
    RaisedKeepsLines(m.(record := m.record.(captionLines := |m.lines|)), inHandler);
    RaisedKeepsLines(m.(record := EndedRecord(m, target)), inHandler);
    assert t.buffer.Some? ==> t.buffer == m.buffer && t.lines == m.lines && t.seen == m.seen;
  }

  lemma RaisedKeepsLines(m: Managed, inHandler: bool)
    ensures var t := FinishRaised(m, inHandler);
            !t.phase.Delivering?
            && (t.buffer.Some? ==> t.buffer == m.buffer && t.lines == m.lines && t.seen == m.seen)
  {
  }

  lemma PartialAppendBreaksTranscript(c: Config, m: Managed, inHandler: bool, missing: seq<Captions.Line>)
    requires m.buffer.Some? && m.lines + missing == LogLines(Captions.After(c.rules, m.seen).log)
    requires m.buffer.value.pending == map[]
    ensures var t := FinishRaised(m, inHandler);
            if missing != [] then t.buffer.Some? ==> !TranscriptOk(c, t)
            else !t.phase.Delivering? && TranscriptOk(c, t)
  {
  }

  lemma StoppedKeepsTranscript(c: Config, m: Managed, writes: Writes)
    requires RuntimeOk(m) && m.phase.Finishing? && BufferOk(c, m) && TranscriptOk(c, m)
    ensures var t := OnHealthStopped(m, writes);
            if LosesLines(m, HealthStopped(writes)) then t.buffer.Some? ==> !TranscriptOk(c, t) else TranscriptOk(c, t)
  {
    var final := |Captions.Flush(m.buffer.value).1|;
    var all := Captions.Lines(Captions.Flush(m.buffer.value).1);
    FlushReturnsAllPending(c, m);
    if writes.AppendFails? && writes.index < final {
      var kept := writes.index + 1;
      FlushStoresEverything(c, m, kept);
      PartialAppendBreaksTranscript(c, FlushInto(m, kept), m.phase.inHandler, all[kept..]);
    } else {
      FlushStoresEverything(c, m, final);
      assert all[final..] == [];
      EndFinishKeepsTranscript(c, FlushInto(m, final), m.phase.target, m.phase.inHandler, writes.LaterWriteFails?);
    }
  }

  /** An event keeps the transcript complete unless it is exactly such a failed append. */
  lemma TranscriptKeptUnlessAppendFails(c: Config, m: Managed, e: Event)
    requires RuntimeOk(m) && BufferOk(c, m) && TranscriptOk(c, m)
    ensures if LosesLines(m, e) then Step(c, m, e).buffer.Some? ==> !TranscriptOk(c, Step(c, m, e))
            else TranscriptOk(c, Step(c, m, e))
  {
    match e {
      case CaptionSeen(o, w) => CaptionKeepsTranscript(c, m, o, w);
      case HealthStopped(writes) => if m.phase.Finishing? { StoppedKeepsTranscript(c, m, writes); }
      case _ => OthersKeepLines(c, m, e);
    }
  }

  predicate AppendsSucceed(events: seq<Event>) {
    forall i :: 0 <= i < |events| && events[i].HealthStopped? ==> !events[i].writes.AppendFails?
  }

  lemma {:induction false} RunKeepsTranscript(c: Config, events: seq<Event>)
    requires AppendsSucceed(events)
    ensures BufferOk(c, Run(c, events)) && TranscriptOk(c, Run(c, events))
  {
    if events != [] {
      var shorter, last := events[..|events| - 1], events[|events| - 1];
      RunKeepsTranscript(c, shorter);
      RunKeepsInv(c, shorter);
      BufferIsKept(c, Run(c, shorter), last);
      TranscriptKeptUnlessAppendFails(c, Run(c, shorter), last);
    }
  }

  /** The health monitor has been told of every line ever opened. */
  predicate MonitorInStep(m: Managed) {
    m.buffer.Some? ==> m.monitor.observedCount == m.buffer.value.nextOrder
  }

  /** It is never ahead of the buffer. */
  predicate NotAhead(m: Managed) {
    m.buffer.Some? ==> m.monitor.observedCount <= m.buffer.value.nextOrder
  }

  predicate HearsCaption(m: Managed, e: Event) {
    e.CaptionSeen? && Heard(m, e.captionWrites)
  }

  /** A caption commits a line that cannot be appended. */
  predicate LeavesCountBehind(c: Config, m: Managed, e: Event) {
    && HearsCaption(m, e) && e.captionWrites.LineWriteFails?
    && Captions.Observe(c.rules, m.buffer.value, e.observation).1 != []
  }

  /** What one caption does to the monitor's count. */
  lemma CaptionCounts(c: Config, m: Managed, o: Captions.Observation, writes: CaptionWrites)
    requires BufferOk(c, m) && TranscriptOk(c, m) && Heard(m, writes)
    ensures var t, e := OnHeard(c, m, o, writes), CaptionSeen(o, writes);
            && t.buffer.value.nextOrder >= m.buffer.value.nextOrder
            && (if LeavesCountBehind(c, m, e)
                then t.monitor == m.monitor && t.buffer.value.nextOrder == m.buffer.value.nextOrder + 1
                else t.monitor.observedCount == t.buffer.value.nextOrder)
  {
    var ops := m.seen + [Captions.Snapshot(o)];
    var before, after := Captions.After(c.rules, m.seen), Captions.After(c.rules, ops);
    Captions.AfterOneMore(c.rules, m.seen, Captions.Snapshot(o));
    LogLinesAppend(before.log, Captions.Observe(c.rules, before.buffer, o).1, |m.seen|);
    Captions.EveryHistoryKeepsTheLog(c.rules, ops);
    assert |LogLines(after.log)| == |after.log|;
  }

  /** Everything else leaves the count and the numbering of lines alone. */
  lemma OthersKeepCount(c: Config, m: Managed, e: Event)
    requires !HearsCaption(m, e)
    ensures var t := Step(c, m, e);
            t.monitor.observedCount == m.monitor.observedCount
            && (t.buffer.Some? ==> m.buffer.Some? && t.buffer.value.nextOrder == m.buffer.value.nextOrder)
  {
    match e {
      case HealthStopped(writes) => StoppedKeepsCount(m, writes);
      case _ =>
    }
  }

  lemma StoppedKeepsCount(m: Managed, writes: Writes)
    ensures var t := OnHealthStopped(m, writes);
            t.monitor == m.monitor
            && (t.buffer.Some? ==> m.buffer.Some? && t.buffer.value.nextOrder == m.buffer.value.nextOrder)
  {
  }

  /** An event leaves the monitor in step exactly unless it is such a failed append. */
  lemma InStepUnlessLineIsNotWritten(c: Config, m: Managed, e: Event)
    requires BufferOk(c, m) && TranscriptOk(c, m) && MonitorInStep(m)
    ensures MonitorInStep(Step(c, m, e)) <==> !LeavesCountBehind(c, m, e)
  {
    if HearsCaption(m, e) {
      CaptionCounts(c, m, e.observation, e.captionWrites);
    } else {
      OthersKeepCount(c, m, e);
    }
  }

  /** The last caption that reached the buffer committed a line that could not be appended. */
  ghost predicate CountIsBehind(c: Config, events: seq<Event>) {
    if events == [] then false
    else
      var before, last := Run(c, events[..|events| - 1]), events[|events| - 1];
      if HearsCaption(before, last) then LeavesCountBehind(c, before, last)
      else CountIsBehind(c, events[..|events| - 1])
  }

  /** Over any run: the monitor is behind exactly from such a caption to the next one that reaches the buffer. */
  lemma {:induction false} MonitorBehindExactly(c: Config, events: seq<Event>)
    requires AppendsSucceed(events)
    ensures NotAhead(Run(c, events))
    ensures Run(c, events).buffer.Some? ==> (MonitorInStep(Run(c, events)) <==> !CountIsBehind(c, events))
  {
    if events != [] {
      var shorter, e := events[..|events| - 1], events[|events| - 1];
      var m := Run(c, shorter);
      MonitorBehindExactly(c, shorter);
      RunKeepsTranscript(c, shorter);
      if HearsCaption(m, e) {
        CaptionCounts(c, m, e.observation, e.captionWrites);
      } else {
        OthersKeepCount(c, m, e);
      }
    }
  }

  /** Caption conservation across the three modules: when a session hands over its transcript, the stored lines are
      all the lines ever opened, each exactly once, and the caption counts of the record and of the buffer agree; that
      of the health monitor does exactly if the last caption could be stored. */
  lemma DeliveredTranscriptIsComplete(c: Config, events: seq<Event>)
    requires AppendsSucceed(events) && Run(c, events).phase.Delivering?
    ensures var m := Run(c, events);
            && m.buffer.Some? && m.buffer.value.pending == map[]
            && m.lines == LogLines(Captions.After(c.rules, m.seen).log)
            && m.record.captionLines == |m.lines| == m.buffer.value.nextOrder
            && (m.monitor.observedCount == |m.lines| <==> !CountIsBehind(c, events))
  {
    RunKeepsTranscript(c, events);
    RunKeepsInv(c, events);
    MonitorBehindExactly(c, events);
    Captions.EveryHistoryKeepsTheLog(c.rules, Run(c, events).seen);
  }

  /** The count the health monitor is told never decreases. */
  lemma ObservedCountNeverDecreases(c: Config, events: seq<Event>, e: Event)
    requires AppendsSucceed(events)
    ensures Run(c, events + [e]).monitor.observedCount >= Run(c, events).monitor.observedCount
  {
    var m := Run(c, events);
    assert (events + [e])[..|events|] == events;
    RunKeepsTranscript(c, events);
    MonitorBehindExactly(c, events);
    if HearsCaption(m, e) {
      CaptionCounts(c, m, e.observation, e.captionWrites);
    } else {
      OthersKeepCount(c, m, e);
    }
  }

  // ---------------------------------------------------------------- the monitor of a session

  /** What the health monitor of a session is told by an event that leads from `m` to `after`: the first admission,
      the number of lines opened so far after a caption that could be booked, and every poll while the task lives. */
  ghost function Told(m: Managed, e: Event, after: Managed): seq<SessionHealth.Op> {
    match e
    case StatusReported(_, now) =>
      if m.buffer.Some? && !m.record.joined && after.record.joined then [SessionHealth.Admitted(now)] else []
    case CaptionSeen(_, writes) =>
      if |after.seen| > |m.seen| && after.buffer.Some? && !(writes.LineWriteFails? && |after.lines| > |m.lines|)
      then [SessionHealth.Caption(|after.lines| + |after.buffer.value.pending|)] else []
    case HealthPolled(now) =>
      if m.phase.Closed? then [] else [SessionHealth.Poll(m.record.status.Admitted?, m.record.participants, now)]
    case _ => []
  }

  ghost function ToldIn(c: Config, events: seq<Event>): seq<SessionHealth.Op> {
    if events == [] then []
    else
      var shorter := events[..|events| - 1];
      ToldIn(c, shorter) + Told(Run(c, shorter), events[|events| - 1], Run(c, events))
  }

  /** What one operation does to the monitor. */
  function Hears(p: SessionHealth.Policy, m: SessionHealth.Monitor, op: SessionHealth.Op): SessionHealth.Monitor {
    match op
    case Admitted(now) => SessionHealth.OnAdmitted(p, m, now)
    case Caption(count) => SessionHealth.OnCaption(m, count)
    case Poll(admitted, participants, now) => SessionHealth.DueEvents(p, m, admitted, participants, now).0
  }

  lemma HealthOneMore(p: SessionHealth.Policy, ops: seq<SessionHealth.Op>, op: SessionHealth.Op)
    ensures SessionHealth.Run(p, ops + [op]).monitor == Hears(p, SessionHealth.Run(p, ops).monitor, op)
  {
    assert (ops + [op])[..|ops|] == ops;
  }

  lemma ToldIsHeard(c: Config, m: Managed, e: Event)
    requires Told(m, e, Step(c, m, e)) != []
    ensures |Told(m, e, Step(c, m, e))| == 1
    ensures Step(c, m, e).monitor == Hears(c.policy, m.monitor, Told(m, e, Step(c, m, e))[0])
  {
  }

  lemma MonitorStep(c: Config, m: Managed, e: Event, ops: seq<SessionHealth.Op>)
    requires SessionHealth.Run(c.policy, ops).monitor == m.monitor
    ensures SessionHealth.Run(c.policy, ops + Told(m, e, Step(c, m, e))).monitor == Step(c, m, e).monitor
  {
    var told := Told(m, e, Step(c, m, e));
    if told == [] {
      assert ops + told == ops;
      UntoldIsUnchanged(c, m, e);
    } else {
      ToldIsHeard(c, m, e);
      assert told == [told[0]];
      HealthOneMore(c.policy, ops, told[0]);
    }
  }

  lemma UntoldIsUnchanged(c: Config, m: Managed, e: Event)
    requires Told(m, e, Step(c, m, e)) == []
    ensures Step(c, m, e).monitor == m.monitor
  {
    match e {
      case HealthStopped(writes) => StoppedKeepsCount(m, writes);
      case _ =>
    }
  }

  /** Over every run the monitor of a session is where the health module takes it with what it was told, so that all
      that is proved there of deadlines, warnings and heartbeats holds for sessions. */
  lemma {:induction false} MonitorIsARun(c: Config, events: seq<Event>)
    ensures Run(c, events).monitor == SessionHealth.Run(c.policy, ToldIn(c, events)).monitor
  {
    if events != [] {
      var shorter := events[..|events| - 1];
      MonitorIsARun(c, shorter);
      MonitorStep(c, Run(c, shorter), events[|events| - 1], ToldIn(c, shorter));
    }
  }

  // ---------------------------------------------------------------- who took part

  /** This event of the run names a participant. */
  ghost predicate Names(c: Config, events: seq<Event>, i: nat)
    requires i < |events|
  {
    || events[i].ParticipantsSeen?
    || (events[i].CaptionSeen? && |Run(c, events[..i + 1]).seen| > |Run(c, events[..i]).seen|
        && c.rules.clean(events[i].observation.speaker) != "")
  }

  lemma StepNames(c: Config, m: Managed, e: Event)
    ensures var t := Step(c, m, e);
            t.record.participants <==>
              || m.record.participants || e.ParticipantsSeen?
              || (e.CaptionSeen? && |t.seen| > |m.seen| && c.rules.clean(e.observation.speaker) != "")
  {
    match e {
      case CaptionSeen(o, writes) => CaptionNames(c, m, o, writes);
      case HealthStopped(writes) => StoppedNamesNobody(m, writes);
      case ParticipantsSeen =>
      case _ => OthersNameNobody(c, m, e);
    }
  }

  lemma CaptionNames(c: Config, m: Managed, o: Captions.Observation, writes: CaptionWrites)
    ensures var t := OnCaption(c, m, o, writes);
            t.record.participants <==> m.record.participants || (|t.seen| > |m.seen| && c.rules.clean(o.speaker) != "")
  {
    CaptionExactly(c, m, o, writes);
  }

  lemma StoppedNamesNobody(m: Managed, writes: Writes)
    ensures OnHealthStopped(m, writes).record.participants == m.record.participants
  {
  }

  lemma OthersNameNobody(c: Config, m: Managed, e: Event)
    requires !e.CaptionSeen? && !e.HealthStopped? && !e.ParticipantsSeen?
    ensures Step(c, m, e).record.participants == m.record.participants
  {
  }

  /** Participants are known exactly if a roster or a caption that reached the buffer has named one. */
  lemma {:induction false} ParticipantsExactly(c: Config, events: seq<Event>)
    ensures Run(c, events).record.participants <==> exists i :: 0 <= i < |events| && Names(c, events, i)
  {
    if events != [] {
      var n := |events| - 1;
      ParticipantsExactly(c, events[..n]);
      StepNames(c, Run(c, events[..n]), events[n]);
      assert events[..n + 1] == events;
      forall i | 0 <= i < n ensures Names(c, events[..n], i) == Names(c, events, i) {
        assert events[..n][..i] == events[..i] && events[..n][..i + 1] == events[..i + 1];
      }
      assert Run(c, events).record.participants <==> Run(c, events[..n]).record.participants || Names(c, events, n);
      if Run(c, events[..n]).record.participants {
        var i :| 0 <= i < n && Names(c, events[..n], i);
        assert Names(c, events, i);
      }
      if i :| 0 <= i < |events| && Names(c, events, i) {
        assert i < n ==> Names(c, events[..n], i);
      }
    }
  }

  // ---------------------------------------------------------------- when the task is done

  /** This event ends the task: the delivery is over, the finish is cut short where nobody handles it, or there is
      nothing to finish. */
  ghost predicate EndsTask(m: Managed, e: Event) {
    var done := m.record.status.Ended? || m.record.status.Failed?;
    match e
    case TranscriptSent => m.phase.Delivering?
    case Cancelled => done || m.phase.Delivering? || (m.phase.Finishing? && m.phase.inHandler)
    case EngineReturned(_, _) => m.phase.Running? && done
    case EngineRaised => m.phase.Running? && done
    case HardCap => m.phase.Running? && done
    case HealthStopped(writes) =>
      && m.phase.Finishing? && m.buffer.Some?
      && (if writes.AppendFails? && writes.index < |m.buffer.value.pending| then m.phase.inHandler || done
          else writes.LaterWriteFails? || (done && m.phase.target != m.record.status))
    case _ => false
  }

  lemma {:induction false} RunKeepsBuffer(c: Config, events: seq<Event>)
    ensures BufferOk(c, Run(c, events))
  {
    if events != [] {
      var shorter := events[..|events| - 1];
      RunKeepsBuffer(c, shorter);
      BufferIsKept(c, Run(c, shorter), events[|events| - 1]);
    }
  }

  lemma StoppedEndsTask(m: Managed, writes: Writes)
    requires RuntimeOk(m) && m.phase.Finishing? && |Captions.Flush(m.buffer.value).1| == |m.buffer.value.pending|
    ensures OnHealthStopped(m, writes).phase.Closed? <==> EndsTask(m, HealthStopped(writes))
  {
    assert !Terminal(m.record.status) ==> m.phase.target in AllowedTransitions(m.record.status);
  }

  /** Over every run: which events end the task of a session, and that nothing of its runtime state is left then. */
  lemma TaskEndsExactly(c: Config, events: seq<Event>, e: Event)
    ensures var m, after := Run(c, events), Run(c, events + [e]);
            && (!m.phase.Closed? ==> (after.phase.Closed? <==> EndsTask(m, e)))
            && (after.phase.Closed? ==> after.buffer.None? && after.lines == [])
  {
    var m := Run(c, events);
    assert (events + [e])[..|events|] == events;
    RunKeepsInv(c, events);
    RunKeepsInv(c, events + [e]);
    ClosedIsEmpty(c, events + [e]);
    if e.HealthStopped? && m.phase.Finishing? {
      RunKeepsBuffer(c, events);
      Captions.EveryHistoryKeepsTheLog(c.rules, m.seen);
      Captions.FlushCount(m.buffer.value);
      StoppedEndsTask(m, e.writes);
    }
  }

  lemma {:induction false} ClosedIsEmpty(c: Config, events: seq<Event>)
    ensures Run(c, events).phase.Closed? ==> Run(c, events).lines == []
  {
    if events != [] {
      var shorter, e := events[..|events| - 1], events[|events| - 1];
      ClosedIsEmpty(c, shorter);
      RunKeepsInv(c, shorter);
      if Run(c, shorter).phase.Closed? { ClosedStays(c, Run(c, shorter), e); } else { ClosingEmpties(c, Run(c, shorter), e); }
    }
  }

  lemma ClosedStays(c: Config, m: Managed, e: Event)
    requires RuntimeOk(m) && m.phase.Closed?
    ensures Step(c, m, e).lines == m.lines
  {
  }

  lemma ClosingEmpties(c: Config, m: Managed, e: Event)
    requires !m.phase.Closed?
    ensures Step(c, m, e).phase.Closed? ==> Step(c, m, e).lines == []
  {
  }

  /** A cancellation is booked as a shutdown exactly if the session is still active and no handler is at work; a record
      that has ended is left alone. */
  lemma CancelledExactly(m: Managed)
    requires !m.phase.Closed?
    ensures var t := OnCancelled(m);
            var active := !m.record.status.Ended? && !m.record.status.Failed?;
            if active && (m.phase.Running? || (m.phase.Finishing? && !m.phase.inHandler)) then
              && t.phase == Finishing(Failed, true) && t.buffer == m.buffer && t.lines == m.lines
              && t.record == m.record.(endReason := "service_shutdown", outcome := if m.record.joined then LeftMeeting else NotAdmitted)
            else t.phase.Closed? && t.record == m.record
  {
  }

  // ---------------------------------------------------------------- the single active slot

  type SessionId = string

  datatype Manager = Manager(sessions: map<SessionId, Managed>, activeId: Option<SessionId>)

  datatype Command = Join(id: SessionId) | On(id: SessionId, event: Event)

  const NoSessions := Manager(map[], None)

  /** Join is refused while the session in the slot has an active status. Session ids are fresh: a
      join under a known id is not part of this model and does nothing here. */
  predicate JoinRefused(s: Manager) {
    s.activeId.Some? && s.activeId.value in s.sessions && !Terminal(s.sessions[s.activeId.value].record.status)
  }

  ghost function ManagerStep(c: Config, s: Manager, command: Command): Manager {
    match command
    case Join(id) =>
      if id in s.sessions || JoinRefused(s) then s
      else Manager(s.sessions[id := NewSession(c)], Some(id))
    case On(id, e) =>
      if id !in s.sessions then s
      else
        var m := Step(c, s.sessions[id], e);
        Manager(s.sessions[id := m],
                if m.phase.Closed? && !s.sessions[id].phase.Closed? && s.activeId == Some(id) then None else s.activeId)
  }

  ghost function ManagerRun(c: Config, commands: seq<Command>): Manager {
    if commands == [] then NoSessions
    else ManagerStep(c, ManagerRun(c, commands[..|commands| - 1]), commands[|commands| - 1])
  }

  ghost predicate ManagerInv(s: Manager) {
    && (forall id :: id in s.sessions ==> RuntimeOk(s.sessions[id]))
    && (forall id :: id in s.sessions && !Terminal(s.sessions[id].record.status) && !s.sessions[id].phase.Closed? ==>
          s.activeId == Some(id))
  }

  lemma ManagerStepKeepsInv(c: Config, s: Manager, command: Command)
    requires ManagerInv(s)
    ensures ManagerInv(ManagerStep(c, s, command))
  {
    if command.On? && command.id in s.sessions {
      var m := s.sessions[command.id];
      StepKeepsRuntime(c, m, command.event);
      if Terminal(m.record.status) { TerminalStep(c, m, command.event); }
      if m.phase.Closed? { ClosedStaysClosed(c, m, command.event); }
    }
  }

  lemma ClosedStaysClosed(c: Config, m: Managed, e: Event)
    requires RuntimeOk(m) && m.phase.Closed?
    ensures Step(c, m, e).phase.Closed?
  {
  }

  lemma {:induction false} ManagerRunKeepsInv(c: Config, commands: seq<Command>)
    ensures ManagerInv(ManagerRun(c, commands))
  {
    if commands != [] {
      ManagerRunKeepsInv(c, commands[..|commands| - 1]);
      ManagerStepKeepsInv(c, ManagerRun(c, commands[..|commands| - 1]), commands[|commands| - 1]);
    }
  }

  /** The slot is never held by a session whose task is done. */
  lemma {:induction false} SlotIsLive(c: Config, commands: seq<Command>)
    ensures var s := ManagerRun(c, commands);
            s.activeId.Some? ==> s.activeId.value in s.sessions && !s.sessions[s.activeId.value].phase.Closed?
  {
    if commands != [] { SlotIsLive(c, commands[..|commands| - 1]); }
  }

  /** A join under a fresh id succeeds exactly unless the slot holds a session that is active and whose task still runs;
      it then takes the slot with a new session and leaves the others alone. */
  lemma JoinExactly(c: Config, commands: seq<Command>, id: SessionId)
    requires id !in ManagerRun(c, commands).sessions
    ensures var s, after := ManagerRun(c, commands), ManagerRun(c, commands + [Join(id)]);
            var busy := exists a :: s.activeId == Some(a) && a in s.sessions && !s.sessions[a].phase.Closed?
                                    && !s.sessions[a].record.status.Ended? && !s.sessions[a].record.status.Failed?;
            && (busy ==> after == s)
            && (!busy ==> id in after.sessions && after.activeId == Some(id) && after.sessions == s.sessions[id := after.sessions[id]]
                          && after.sessions[id].record == Record(Starting, [Starting], false, Requested, "", 0, false)
                          && after.sessions[id].phase.Running? && after.sessions[id].lines == [])
  {
    assert (commands + [Join(id)])[..|commands|] == commands;
    SlotIsLive(c, commands);
  }

  /** At most one session is in an active status, and it holds the slot, unless a session was
      abandoned by an interrupted handler (`AbandonedExactlyThere`). */
  lemma AtMostOneActive(c: Config, commands: seq<Command>, a: SessionId, b: SessionId)
    requires var s := ManagerRun(c, commands);
             && a in s.sessions && b in s.sessions
             && !Terminal(s.sessions[a].record.status) && !Terminal(s.sessions[b].record.status)
             && !Abandoned(s.sessions[a]) && !Abandoned(s.sessions[b])
    ensures a == b && ManagerRun(c, commands).activeId == Some(a)
  {
    ManagerRunKeepsInv(c, commands);
  }

  /** The exception is real: a cancellation during the hard-cap clean-up leaves a session that still
      looks active, and the next join makes two. */
  lemma InterruptedHandlerLeavesTwoActive(c: Config)
    ensures var s := ManagerRun(c, [Join("a"), On("a", HardCap), On("a", Cancelled), Join("b")]);
            && "a" in s.sessions && "b" in s.sessions && s.activeId == Some("b")
            && Abandoned(s.sessions["a"]) && s.sessions["a"].record.status == Starting
            && s.sessions["b"].record.status == Starting
  {
    var run := [Join("a"), On("a", HardCap), On("a", Cancelled), Join("b")];
    var m := NewSession(c);
    var s1 := ManagerStep(c, NoSessions, run[0]);
    var s2 := ManagerStep(c, s1, run[1]);
    var s3 := ManagerStep(c, s2, run[2]);
    assert run[..3][..2][..1] == [Join("a")] && run[..3][..2][..1][..0] == [];
    assert ManagerRun(c, run[..3][..2][..1]) == s1;
    assert ManagerRun(c, run[..3][..2]) == s2;
    assert ManagerRun(c, run[..3]) == s3;
  }

  /** An admission that arrives after the engine returned leaves a joined session without LEFT. */
  lemma LateAdmissionIsNotLeft(c: Config, now: real)
    ensures var m := Run(c, [StatusReported(Lobby, now), EngineReturned("call_ended", false), StatusReported(Admitted, now)]);
            m.record.joined && m.record.outcome == WasAdmitted && !m.phase.Running?
  {
    var run := [StatusReported(Lobby, now), EngineReturned("call_ended", false), StatusReported(Admitted, now)];
    var m1 := Step(c, NewSession(c), run[0]);
    assert m1.record.status == Lobby && !m1.record.joined && m1.phase.Running?;
    assert FromEndReason("call_ended", false) == Some(NotAdmitted);
    var m2 := Step(c, m1, run[1]);
    assert m2.phase == Finishing(Ended, false) && !m2.record.joined;
    assert run[..2][..1] == [run[0]] && run[..2][..1][..0] == [];
    assert Run(c, run[..2][..1]) == m1;
    assert Run(c, run[..2]) == m2;
  }

  // ---------------------------------------------------------------- the object

  /** The runtime state of one session, updated in place by the engine callbacks and the task. */
  class ManagedSession {
    const config: Config
    const monitor: SessionHealth.SessionHealthMonitor
    var record: Record
    var buffer: Captions.RollingCaptionBuffer?
    var lines: seq<Captions.Line>
    var phase: Phase
    ghost var seen: seq<Captions.Op>

    ghost predicate Valid()
      reads this, buffer
    {
      && monitor.policy == config.policy
      && (buffer != null ==> buffer.rules == config.rules && Captions.Valid(buffer.View()))
    }

    ghost function View(): Managed
      reads this, buffer, monitor
    {
      Managed(record, if buffer == null then None else Some(buffer.View()), lines, monitor.View(), phase, seen)
    }

    constructor (config: Config)
      ensures Valid() && View() == NewSession(config) && this.config == config
      ensures fresh(monitor) && buffer != null && fresh(buffer)
    {
      this.config := config;
      monitor := new SessionHealth.SessionHealthMonitor(config.policy);
      record := Record(Starting, [Starting], false, Requested, "", 0, false);
      buffer := new Captions.RollingCaptionBuffer(config.rules);
      lines := [];
      phase := Running;
      seen := [];
    }

    method ReportStatus(status: Status, now: real) returns (accepted: bool)
      requires Valid()
      modifies this, monitor
      ensures Valid() && buffer == old(buffer) && View() == OnStatus(config, old(View()), status, now)
      ensures accepted <==> !status.CaptionsFlowing? && (status == old(record.status) || CanTransition(old(record), status))
    {
      if status.CaptionsFlowing? { return false; }
      if status == record.status { return true; }
      if status !in AllowedTransitions(record.status) { return false; }
      record := record.(status := status, history := record.history + [status]);
      if status.Admitted? && !record.joined {
        record := record.(joined := true, outcome := WasAdmitted);
        if buffer != null { monitor.NoteAdmitted(now); }
      }
      return true;
    }

    method ReceiveCaption(o: Captions.Observation, writes: CaptionWrites)
      requires Valid()
      modifies this, monitor, buffer
      ensures Valid() && buffer == old(buffer) && View() == OnCaption(config, old(View()), o, writes)
    {
      if record.status.Admitted? {
        record := record.(status := CaptionsFlowing, history := record.history + [CaptionsFlowing]);
        if writes.StatusWriteFails? { return; }
      }
      if record.status.CaptionsFlowing? && buffer != null {
        BufferCaption(o, writes);
      }
    }

    /** One accepted caption. */
    method BufferCaption(o: Captions.Observation, writes: CaptionWrites)
      requires Valid() && record.status.CaptionsFlowing? && buffer != null
      modifies this, monitor, buffer
      ensures Valid() && buffer == old(buffer) && View() == OnHeard(config, old(View()), o, writes)
    {
      ghost var step := Captions.Observe(config.rules, buffer.View(), o);
      var committed := buffer.ObserveSnapshot(o);
      BookCaption(o, writes, committed, step);
    }

    /** Speaker, lines, counts and monitor. */
    method BookCaption(o: Captions.Observation, writes: CaptionWrites, committed: seq<Captions.Line>,
                       ghost step: (Captions.Buffer, seq<Captions.Pending>))
      requires Valid() && record.status.CaptionsFlowing? && buffer != null
      requires buffer.View() == step.0 && committed == Captions.Lines(step.1)
      modifies this, monitor
      ensures Valid() && buffer == old(buffer) && View() == Booked(config, old(View()), o, writes, step)
    {
      record := record.(participants := record.participants || config.rules.clean(o.speaker) != "");
      seen := seen + [Captions.Snapshot(o)];
      var stored := CommitLines(committed, writes.LineWriteFails?);
      if stored { monitor.NoteCaption(|lines| + buffer.PendingCount()); }
    }

    /** Append the lines of one caption, at most one; false when it cannot be stored. */
    method CommitLines(committed: seq<Captions.Line>, fails: bool) returns (stored: bool)
      modifies this`lines, this`record
      ensures stored <==> !(fails && committed != [])
      ensures lines == old(lines) + committed
      ensures record == if stored then old(record).(captionLines := |lines|) else old(record)
    {
      lines := lines + committed;
      if fails && committed != [] { return false; }
      record := record.(captionLines := |lines|);
      return true;
    }

    method CloseSession()
      modifies this
      ensures View() == Close(old(View())) && buffer == null
    {
      phase := Closed;
      buffer := null;
      lines := [];
    }

    method EnterFinish(target: Status, inHandler: bool)
      requires Valid()
      modifies this
      ensures Valid() && View() == BeginFinish(old(View()), target, inHandler)
      ensures buffer == old(buffer) || buffer == null
    {
      if Terminal(record.status) { CloseSession(); } else { phase := Finishing(target, inHandler); }
    }

    method EnterHandler(reason: string, target: Status)
      requires Valid() && reason in {"error", "hard_cap", "service_shutdown"}
      modifies this
      ensures Valid() && View() == Handle(old(View()), reason, target)
      ensures buffer == old(buffer) || buffer == null
    {
      record := record.(endReason := reason, outcome := FromEndReason(reason, record.joined).value);
      EnterFinish(target, true);
    }

    method EndWithResult(reason: string, failed: bool)
      requires Valid()
      modifies this
      ensures Valid() && View() == OnEngineReturned(old(View()), reason, failed)
      ensures buffer == old(buffer) || buffer == null
    {
      var outcome := FromEndReason(reason, record.joined);
      if outcome.None? {
        EnterHandler("error", Failed);
      } else {
        record := record.(endReason := reason, outcome := outcome.value);
        EnterFinish(if failed then Failed else Ended, false);
      }
    }

    method Raise(inHandler: bool)
      requires Valid()
      modifies this
      ensures Valid() && View() == FinishRaised(old(View()), inHandler)
      ensures buffer == old(buffer) || buffer == null
    {
      if inHandler { CloseSession(); } else { EnterHandler("error", Failed); }
    }

    /** `_finish` from the flush to the webhook delivery. */
    method FinishTranscript(writes: Writes)
      requires Valid() && buffer != null && phase.Finishing?
      modifies this, buffer
      ensures Valid() && View() == OnHealthStopped(old(View()), writes)
    {
      var target, inHandler := phase.target, phase.inHandler;
      var final := buffer.FlushPending();
      seen := seen + [Captions.FlushAll];
      if writes.AppendFails? && writes.index < |final| {
        lines := lines + final[..writes.index + 1];
        Raise(inHandler);
        return;
      }
      assert final[..|final|] == final;
      lines := lines + final;
      record := record.(captionLines := |lines|);
      if target != record.status {
        if target !in AllowedTransitions(record.status) {
          Raise(inHandler);
          return;
        }
        record := Transition(record, target);
      }
      if writes.LaterWriteFails? {
        Raise(inHandler);
      } else {
        phase := Delivering(inHandler);
      }
    }
  }

  /** The registry of sessions and the one active slot. */
  class SessionManager {
    const config: Config
    var managedSessions: map<SessionId, ManagedSession>
    var activeSessionId: Option<SessionId>

    ghost function Objects(): set<object>
      reads this, managedSessions.Values
    {
      (set id | id in managedSessions :: managedSessions[id] as object)
      + (set id | id in managedSessions :: managedSessions[id].monitor as object)
      + (set id | id in managedSessions && managedSessions[id].buffer != null :: managedSessions[id].buffer as object)
    }

    /** Every session is an object of its own. */
    ghost predicate Valid()
      reads this, managedSessions.Values, Objects()
    {
      && (forall id :: id in managedSessions ==> managedSessions[id].Valid() && managedSessions[id].config == config)
      && (forall a, b :: a in managedSessions && b in managedSessions && a != b ==> managedSessions[a] != managedSessions[b])
    }

    ghost function View(): Manager
      reads this, managedSessions.Values, Objects()
    {
      Manager(map id | id in managedSessions :: managedSessions[id].View(), activeSessionId)
    }

    constructor (config: Config)
      ensures Valid() && View() == NoSessions && this.config == config
    {
      this.config := config;
      managedSessions, activeSessionId := map[], None;
    }

    /** The slot holds a session that still has an active status. */
    predicate SlotTaken()
      reads this, managedSessions.Values
    {
      && activeSessionId.Some? && activeSessionId.value in managedSessions
      && !Terminal(managedSessions[activeSessionId.value].record.status)
    }

    method Register(id: SessionId, managed: ManagedSession)
      requires Valid() && id !in managedSessions && managed !in managedSessions.Values
      requires managed.Valid() && managed.config == config && managed.View() == NewSession(config)
      modifies this
      ensures Valid() && managedSessions == old(managedSessions)[id := managed]
      ensures View() == Manager(old(View()).sessions[id := NewSession(config)], Some(id))
    {
      managedSessions := managedSessions[id := managed];
      activeSessionId := Some(id);
    }

    /** Reserve the slot for a new session, under an id that has not been used. */
    method JoinMeeting(id: SessionId) returns (joined: bool)
      requires Valid() && id !in managedSessions
      modifies this
      ensures Valid() && View() == ManagerStep(config, old(View()), Join(id))
      ensures joined <==> !JoinRefused(old(View()))
    {
      assert SlotTaken() == JoinRefused(View());
      if SlotTaken() { return false; }
      var managed := new ManagedSession(config);
      assert Valid() && View() == old(View());
      Register(id, managed);
      return true;
    }

    /** The `finally` of a session task: free the slot if it is still this session's, drop its runtime state. */
    method ReleaseSession(id: SessionId)
      requires Valid() && id in managedSessions
      modifies this`activeSessionId, managedSessions[id]
      ensures Valid()
      ensures View() == Manager(old(View()).sessions[id := Close(old(View()).sessions[id])],
                                if old(activeSessionId) == Some(id) then None else old(activeSessionId))
    {
      if activeSessionId == Some(id) { activeSessionId := None; }
      managedSessions[id].CloseSession();
      forall other | other in managedSessions && other != id
        ensures managedSessions[other].Valid() && managedSessions[other].View() == old(managedSessions[other].View())
      {
        assert managedSessions[other] != managedSessions[id];
      }
    }
  }
}

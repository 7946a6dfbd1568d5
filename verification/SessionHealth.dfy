/**
 The health deadlines of one meeting session (meetbot/session_health.py).

 Times are seconds on the monotonic clock, as reals. `Monitor` and its functions specify one
 callback; `Run` folds a whole session; `SessionHealthMonitor` is the mutable object.
 */
module SessionHealth {
  import opened Options

  datatype Event = CaptionWarning | StaleWarning | Heartbeat

  datatype Settings = Settings(start: real, interval: real, captionSeconds: real, staleSeconds: real)

  /** The settings are positive because `_positive_int_env` refuses anything else. */
  type Policy = s: Settings | s.interval > 0.0 && s.captionSeconds > 0.0 && s.staleSeconds > 0.0
    witness Settings(0.0, 60.0, 90.0, 180.0)

  datatype Monitor = Monitor(
    heartbeatDeadline: real,
    captionDeadline: Option<real>,
    captionResolved: bool,
    staleChecked: bool,
    observedCount: nat)

  function Start(p: Policy): Monitor {
    Monitor(p.start + p.interval, None, false, false, 0)
  }

  function StaleDeadline(p: Policy): real {
    p.start + p.staleSeconds
  }

  function OnAdmitted(p: Policy, m: Monitor, now: real): Monitor {
    if m.captionDeadline.None? then m.(captionDeadline := Some(now + p.captionSeconds)) else m
  }

  function OnCaption(m: Monitor, count: nat): Monitor {
    m.(observedCount := count, captionResolved := true)
  }

  predicate CaptionOpen(m: Monitor, admitted: bool) {
    m.captionDeadline.Some? && !m.captionResolved && admitted
  }

  predicate CaptionDue(m: Monitor, admitted: bool, now: real) {
    CaptionOpen(m, admitted) && now >= m.captionDeadline.value
  }

  predicate StaleDue(p: Policy, m: Monitor, now: real) {
    !m.staleChecked && now >= StaleDeadline(p)
  }

  function Min(a: real, b: real): real {
    if a <= b then a else b
  }

  function NextDeadline(p: Policy, m: Monitor, admitted: bool): real {
    var beat := m.heartbeatDeadline;
    var stale := if m.staleChecked then beat else Min(beat, StaleDeadline(p));
    if CaptionOpen(m, admitted) then Min(stale, m.captionDeadline.value) else stale
  }

  /** How many intervals a deadline must move to pass `now`. */
  function Beats(deadline: real, interval: real, now: real): nat
    requires interval > 0.0
  {
    if deadline > now then 0
    else
      var whole := ((now - deadline) / interval).Floor;
      assert (now - deadline) / interval >= 0.0;
      whole + 1
  }

  function CaughtUp(deadline: real, interval: real, now: real): real
    requires interval > 0.0
  {
    deadline + Beats(deadline, interval, now) as real * interval
  }

  function DueEvents(p: Policy, m: Monitor, admitted: bool, participants: bool, now: real): (Monitor, seq<Event>)
  {
    var captionDue := CaptionDue(m, admitted, now);
    var staleDue := StaleDue(p, m, now);
    var zero := m.observedCount == 0;
    var warnings := (if captionDue then [CaptionWarning] else [])
                  + (if staleDue && (!participants || zero) then [StaleWarning] else []);
    var beatDue := now >= m.heartbeatDeadline;
    (Monitor(CaughtUp(m.heartbeatDeadline, p.interval, now),
             m.captionDeadline,
             m.captionResolved || captionDue || (staleDue && zero),
             m.staleChecked || staleDue,
             m.observedCount),
     if beatDue && warnings == [] then [Heartbeat] else warnings)
  }

  // ---------------------------------------------------------------- one poll

  lemma TimesKeepsOrder(a: real, b: real, d: real)
    requires a <= b && d > 0.0
    ensures a * d <= b * d
  {
  }

  lemma TimesKeepsStrictOrder(a: real, b: real, d: real)
    requires a < b && d > 0.0
    ensures a * d < b * d
  {
  }

  lemma ProductAtMost(x: real, q: real, f: real, d: real)
    requires d > 0.0 && q < f + 1.0 && q * d == x
    ensures x < f * d + d
  {
    var above := f + 1.0;
    TimesKeepsStrictOrder(q, above, d);
    assert x < above * d;
    assert above * d == f * d + d;
  }

  lemma QuotientBounds(x: real, d: real, n: int)
    requires d > 0.0 && n == (x / d).Floor
    ensures n as real * d <= x < n as real * d + d
  {
    var q := x / d;
    assert q * d == x;
    TimesKeepsOrder(n as real, q, d);
    ProductAtMost(x, q, n as real, d);
  }

  /** One beat more. */
  lemma BeatAfter(n: int, d: real)
    ensures n as real * d == (n - 1) as real * d + d
  {
    var before := (n - 1) as real;
    assert n as real == before + 1.0;
    assert (before + 1.0) * d == before * d + d;
  }

  /** Catching up lands on the first beat after `now`. */
  lemma CaughtUpIsNext(deadline: real, interval: real, now: real)
    requires interval > 0.0
    ensures CaughtUp(deadline, interval, now) > now
    ensures deadline <= now ==> CaughtUp(deadline, interval, now) - interval <= now
    ensures deadline > now ==> CaughtUp(deadline, interval, now) == deadline
  {
    var n: int := Beats(deadline, interval, now);
    var reached := n as real * interval;
    if deadline <= now {
      var below := (n - 1) as real * interval;
      QuotientBounds(now - deadline, interval, n - 1);
      BeatAfter(n, interval);
      assert reached == below + interval;
      assert CaughtUp(deadline, interval, now) == deadline + reached;
    } else {
      assert reached == 0.0;
    }
  }

  /** Each beat before the last is still due. */
  lemma BehindUntilCaughtUp(deadline: real, interval: real, now: real, k: nat)
    requires interval > 0.0 && k <= Beats(deadline, interval, now)
    ensures deadline + k as real * interval <= now <==> k < Beats(deadline, interval, now)
  {
    var n: int := Beats(deadline, interval, now);
    CaughtUpIsNext(deadline, interval, now);
    if k < n {
      StillDue(deadline, interval, now, k);
    } else {
      assert deadline + k as real * interval == CaughtUp(deadline, interval, now);
    }
  }

  lemma StillDue(deadline: real, interval: real, now: real, k: nat)
    requires interval > 0.0 && k < Beats(deadline, interval, now)
    ensures deadline + k as real * interval <= now
  {
    var n: int := Beats(deadline, interval, now);
    var beat, below, reached := k as real * interval, (n - 1) as real * interval, n as real * interval;
    CaughtUpIsNext(deadline, interval, now);
    assert deadline + reached - interval <= now;
    BeatAfter(n, interval);
    assert reached == below + interval;
    TimesKeepsOrder(k as real, (n - 1) as real, interval);
    assert beat <= below;
  }

  /** The monitor never spins: after a poll at `now`, the next deadline is strictly later. */
  lemma NextDeadlineIsLater(p: Policy, m: Monitor, admitted: bool, participants: bool, now: real)
    ensures NextDeadline(p, DueEvents(p, m, admitted, participants, now).0, admitted) > now
  {
    CaughtUpIsNext(m.heartbeatDeadline, p.interval, now);
  }

  /** What one poll returns and resolves: each warning exactly when its deadline has passed and it is still open, a
      heartbeat exactly when its deadline has been reached and there is no warning, and then nothing else. */
  lemma PollReturnsExactly(p: Policy, m: Monitor, admitted: bool, participants: bool, now: real)
    ensures var after, events := DueEvents(p, m, admitted, participants, now).0, DueEvents(p, m, admitted, participants, now).1;
            var caption := m.captionDeadline.Some? && !m.captionResolved && admitted && now >= m.captionDeadline.value;
            var stale := !m.staleChecked && now >= p.start + p.staleSeconds;
            var warns := stale && (!participants || m.observedCount == 0);
            && events == (if caption && warns then [CaptionWarning, StaleWarning]
                          else if caption then [CaptionWarning]
                          else if warns then [StaleWarning]
                          else if m.heartbeatDeadline <= now then [Heartbeat]
                          else [])
            && after.captionResolved == (m.captionResolved || caption || (stale && m.observedCount == 0))
            && after.staleChecked == (m.staleChecked || stale)
            && after.captionDeadline == m.captionDeadline && after.observedCount == m.observedCount
  {
  }

  /** Polling earlier than the next deadline finds and changes nothing; polling from then on always does something. */
  lemma NextDeadlineIsExact(p: Policy, m: Monitor, admitted: bool, participants: bool, now: real)
    ensures DueEvents(p, m, admitted, participants, now) == (m, []) <==> now < NextDeadline(p, m, admitted)
  {
    var due := DueEvents(p, m, admitted, participants, now);
    CaughtUpIsNext(m.heartbeatDeadline, p.interval, now);
    PollReturnsExactly(p, m, admitted, participants, now);
    if now < NextDeadline(p, m, admitted) {
      assert due.1 == [] && due.0.heartbeatDeadline == m.heartbeatDeadline;
      assert due.0 == m;
    }
  }

  // ---------------------------------------------------------------- whole sessions

  datatype Op =
    | Admitted(now: real)
    | Caption(count: nat)
    | Poll(admitted: bool, participants: bool, now: real)

  /** An emitted event, the number of operations before it, and the caption count it saw. */
  datatype Emitted = Emitted(event: Event, at: nat, count: nat)

  datatype Trace = Trace(monitor: Monitor, log: seq<Emitted>)

  function Stamp(events: seq<Event>, at: nat, count: nat): seq<Emitted> {
    seq(|events|, i requires 0 <= i < |events| => Emitted(events[i], at, count))
  }

  function Run(p: Policy, ops: seq<Op>): Trace
  {
    if ops == [] then Trace(Start(p), [])
    else
      var n := |ops| - 1;
      var t := Run(p, ops[..n]);
      match ops[n]
      case Admitted(now) => t.(monitor := OnAdmitted(p, t.monitor, now))
      case Caption(count) => t.(monitor := OnCaption(t.monitor, count))
      case Poll(admitted, participants, now) =>
        var due := DueEvents(p, t.monitor, admitted, participants, now);
        Trace(due.0, t.log + Stamp(due.1, n, t.monitor.observedCount))
  }

  /** The latest time seen: the session start or the latest poll. */
  function Latest(p: Policy, ops: seq<Op>): real {
    if ops == [] then p.start
    else
      var before := Latest(p, ops[..|ops| - 1]);
      var last := ops[|ops| - 1];
      if last.Poll? && last.now > before then last.now else before
  }

  function GridPoint(p: Policy, k: nat): real {
    p.start + k as real * p.interval
  }

  /** The heartbeat deadline is a grid point after the latest time seen, and the previous one is not. */
  lemma {:induction false} HeartbeatStaysOnGrid(p: Policy, ops: seq<Op>) returns (k: nat)
    ensures Run(p, ops).monitor.heartbeatDeadline == GridPoint(p, k + 1)
    ensures GridPoint(p, k) <= Latest(p, ops) < GridPoint(p, k + 1)
  {
    if ops == [] {
      k := 0;
    } else {
      var n := |ops| - 1;
      k := HeartbeatStaysOnGrid(p, ops[..n]);
      if ops[n].Poll? {
        k := PollMovesAlongGrid(p, k, ops[n].now, Latest(p, ops[..n]));
      }
    }
  }

  lemma PollMovesAlongGrid(p: Policy, k: nat, now: real, latest: real) returns (j: nat)
    requires GridPoint(p, k) <= latest < GridPoint(p, k + 1)
    ensures CaughtUp(GridPoint(p, k + 1), p.interval, now) == GridPoint(p, j + 1)
    ensures GridPoint(p, j) <= (if now > latest then now else latest) < GridPoint(p, j + 1)
  {
    CaughtUpIsNext(GridPoint(p, k + 1), p.interval, now);
    var beats := Beats(GridPoint(p, k + 1), p.interval, now);
    GridAdds(p, k + 1, beats);
    j := k + beats;
    GridAdds(p, j, 1);
  }

  lemma GridAdds(p: Policy, k: nat, n: nat)
    ensures GridPoint(p, k + n) == GridPoint(p, k) + n as real * p.interval
  {
  }

  lemma {:induction false} GridIsIncreasing(p: Policy, i: nat, j: nat)
    requires i < j
    ensures GridPoint(p, i) < GridPoint(p, j)
  {
  }

  /** The deadline is the least of all grid points after the latest time seen. */
  lemma HeartbeatIsLeastFutureGridPoint(p: Policy, ops: seq<Op>, i: nat)
    requires GridPoint(p, i) > Latest(p, ops)
    ensures Latest(p, ops) < Run(p, ops).monitor.heartbeatDeadline <= GridPoint(p, i)
  {
    var k := HeartbeatStaysOnGrid(p, ops);
    if i < k { GridIsIncreasing(p, i, k); }
    if i > k + 1 { GridIsIncreasing(p, k + 1, i); }
  }

  /** Some beat of the grid lies after `before` and has been reached. */
  ghost predicate BeatReached(p: Policy, before: real, now: real) {
    exists k: nat :: before < GridPoint(p, k) <= now
  }

  /** Over any session, a poll returns a heartbeat exactly if it is the first to reach some beat of the grid and has no
      warning to return: between two beats that are reached there is a warning or exactly one heartbeat. */
  lemma HeartbeatExactlyPerBeat(p: Policy, ops: seq<Op>, admitted: bool, participants: bool, now: real)
    ensures var events := DueEvents(p, Run(p, ops).monitor, admitted, participants, now).1;
            && (Heartbeat in events <==> BeatReached(p, Latest(p, ops), now) && CaptionWarning !in events && StaleWarning !in events)
            && (Heartbeat in events ==> events == [Heartbeat])
  {
    var m := Run(p, ops).monitor;
    PollReturnsExactly(p, m, admitted, participants, now);
    var k := HeartbeatStaysOnGrid(p, ops);
    assert m.heartbeatDeadline == GridPoint(p, k + 1);
    if BeatReached(p, Latest(p, ops), now) {
      var i: nat :| Latest(p, ops) < GridPoint(p, i) <= now;
      HeartbeatIsLeastFutureGridPoint(p, ops, i);
    }
  }

  /** The caption count of the latest caption. */
  function LatestCount(ops: seq<Op>): nat {
    if ops == [] then 0
    else if ops[|ops| - 1].Caption? then ops[|ops| - 1].count
    else LatestCount(ops[..|ops| - 1])
  }

  /** Some poll has reached the stale deadline. */
  predicate StalePolled(p: Policy, ops: seq<Op>) {
    exists i :: 0 <= i < |ops| && ops[i].Poll? && ops[i].now >= p.start + p.staleSeconds
  }

  /** What the monitor remembers of a session: the latest caption count, and whether the stale deadline was polled. */
  lemma {:induction false} MonitorRemembers(p: Policy, ops: seq<Op>)
    ensures Run(p, ops).monitor.observedCount == LatestCount(ops)
    ensures Run(p, ops).monitor.staleChecked <==> StalePolled(p, ops)
  {
    if ops != [] {
      var n := |ops| - 1;
      MonitorRemembers(p, ops[..n]);
      StalePolledStep(p, ops);
      if ops[n].Poll? {
        PollReturnsExactly(p, Run(p, ops[..n]).monitor, ops[n].admitted, ops[n].participants, ops[n].now);
      }
    }
  }

  lemma StalePolledStep(p: Policy, ops: seq<Op>)
    requires ops != []
    ensures var n := |ops| - 1;
            StalePolled(p, ops) <==> StalePolled(p, ops[..n]) || (ops[n].Poll? && ops[n].now >= p.start + p.staleSeconds)
  {
    var n := |ops| - 1;
    assert forall i :: 0 <= i < n ==> ops[..n][i] == ops[i];
    if StalePolled(p, ops[..n]) {
      var i :| 0 <= i < n && ops[..n][i].Poll? && ops[..n][i].now >= p.start + p.staleSeconds;
      assert ops[i].Poll?;
    }
  }

  /** A stale warning is returned exactly by the first poll from the stale deadline on, and only if it then finds no
      participants or no captions. */
  lemma StaleWarningExactlyOnFirstPoll(p: Policy, ops: seq<Op>, admitted: bool, participants: bool, now: real)
    ensures StaleWarning in DueEvents(p, Run(p, ops).monitor, admitted, participants, now).1 <==>
              && now >= p.start + p.staleSeconds && !StalePolled(p, ops)
              && (!participants || LatestCount(ops) == 0)
  {
    MonitorRemembers(p, ops);
    PollReturnsExactly(p, Run(p, ops).monitor, admitted, participants, now);
  }

  function FirstAdmission(ops: seq<Op>): Option<real> {
    if ops == [] then None
    else
      var before := FirstAdmission(ops[..|ops| - 1]);
      var last := ops[|ops| - 1];
      if before.None? && last.Admitted? then Some(last.now) else before
  }

  predicate NoCaptionIn(ops: seq<Op>) {
    forall i :: 0 <= i < |ops| ==> !ops[i].Caption?
  }

  /** The log justifies every warning by the history before it, and never repeats one. */
  ghost predicate Justified(p: Policy, ops: seq<Op>, e: Emitted) {
    && e.at < |ops| && ops[e.at].Poll?
    && (e.event.CaptionWarning? ==>
          && NoCaptionIn(ops[..e.at]) && ops[e.at].admitted
          && FirstAdmission(ops[..e.at]).Some?
          && ops[e.at].now >= FirstAdmission(ops[..e.at]).value + p.captionSeconds)
    && (e.event.StaleWarning? ==>
          && ops[e.at].now >= StaleDeadline(p)
          && (ops[e.at].participants ==> e.count == 0))
  }

  ghost predicate Absent(log: seq<Emitted>, event: Event) {
    forall i :: 0 <= i < |log| ==> log[i].event != event
  }

  ghost predicate Once(log: seq<Emitted>, event: Event) {
    forall i, j :: 0 <= i < j < |log| && log[i].event == event ==> log[j].event != event
  }

  /** No stale warning in the log was raised with zero captions. */
  ghost predicate NoSilentStale(log: seq<Emitted>) {
    forall i :: 0 <= i < |log| && log[i].event.StaleWarning? ==> log[i].count > 0
  }

  /** After a stale warning raised with zero captions there is no caption warning. */
  ghost predicate StaleSilencesCaption(log: seq<Emitted>) {
    forall i, j :: 0 <= i < j < |log| && log[i].event.StaleWarning? && log[i].count == 0 ==> !log[j].event.CaptionWarning?
  }

  /** The two latches and the log they guard. */
  ghost predicate LogInv(m: Monitor, log: seq<Emitted>) {
    && (!m.captionResolved ==> Absent(log, CaptionWarning) && NoSilentStale(log))
    && (!m.staleChecked ==> Absent(log, StaleWarning))
    && Once(log, CaptionWarning) && Once(log, StaleWarning) && StaleSilencesCaption(log)
  }

  /** The caption deadline comes from the first admission, and an open one means no caption yet. */
  ghost predicate MonitorInv(p: Policy, ops: seq<Op>) {
    var m := Run(p, ops).monitor;
    && (!m.captionResolved ==> NoCaptionIn(ops))
    && m.captionDeadline == match FirstAdmission(ops) { case None => None case Some(t) => Some(t + p.captionSeconds) }
  }

  lemma AppendKeepsLog(m: Monitor, log: seq<Emitted>, e: Emitted, later: Monitor)
    requires LogInv(m, log)
    requires e.event.CaptionWarning? ==> !m.captionResolved && later.captionResolved
    requires e.event.StaleWarning? ==> !m.staleChecked && later.staleChecked && (e.count == 0 ==> later.captionResolved)
    requires m.captionResolved ==> later.captionResolved
    requires m.staleChecked ==> later.staleChecked
    ensures LogInv(later, log + [e])
  {
  }

  lemma DueKeepsLog(p: Policy, m: Monitor, log: seq<Emitted>, admitted: bool, participants: bool, now: real, at: nat)
    requires LogInv(m, log)
    ensures var due := DueEvents(p, m, admitted, participants, now);
            LogInv(due.0, log + Stamp(due.1, at, m.observedCount))
  {
    var due := DueEvents(p, m, admitted, participants, now);
    var count := m.observedCount;
    match |due.1| {
      case 0 => assert log + Stamp(due.1, at, count) == log;
      case 1 =>
        AppendKeepsLog(m, log, Emitted(due.1[0], at, count), due.0);
        assert log + Stamp(due.1, at, count) == log + [Emitted(due.1[0], at, count)];
      case _ =>
        var mid := m.(captionResolved := true);
        AppendKeepsLog(m, log, Emitted(CaptionWarning, at, count), mid);
        AppendKeepsLog(mid, log + [Emitted(CaptionWarning, at, count)], Emitted(StaleWarning, at, count), due.0);
        assert log + Stamp(due.1, at, count)
            == log + [Emitted(CaptionWarning, at, count)] + [Emitted(StaleWarning, at, count)];
    }
  }

  lemma {:induction false} EverySessionKeepsLatches(p: Policy, ops: seq<Op>)
    ensures LogInv(Run(p, ops).monitor, Run(p, ops).log)
  {
    if ops != [] {
      var n := |ops| - 1;
      EverySessionKeepsLatches(p, ops[..n]);
      var t := Run(p, ops[..n]);
      if ops[n].Poll? {
        DueKeepsLog(p, t.monitor, t.log, ops[n].admitted, ops[n].participants, ops[n].now, n);
      }
    }
  }

  lemma {:induction false} EverySessionKeepsDeadline(p: Policy, ops: seq<Op>)
    ensures MonitorInv(p, ops)
  {
    if ops != [] {
      EverySessionKeepsDeadline(p, ops[..|ops| - 1]);
    }
  }

  // ---------------------------------------------------------------- main results

  /** Each warning is raised at most once per session, and a stale warning raised with zero captions
      silences the caption warning for good. */
  lemma WarningsOncePerSession(p: Policy, ops: seq<Op>)
    ensures Once(Run(p, ops).log, CaptionWarning) && Once(Run(p, ops).log, StaleWarning)
    ensures StaleSilencesCaption(Run(p, ops).log)
  {
    EverySessionKeepsLatches(p, ops);
  }

  /** Every emitted warning is true of the session so far: a caption warning means that the full
      grace period passed since the first admission without a caption; a stale warning means that the
      stale period passed since the start with no participants or no captions. */
  lemma {:induction false} WarningsAreJustified(p: Policy, ops: seq<Op>, i: nat)
    requires i < |Run(p, ops).log|
    ensures Justified(p, ops, Run(p, ops).log[i])
    decreases |ops|
  {
    var n := |ops| - 1;
    var before := Run(p, ops[..n]);
    var e := Run(p, ops).log[i];
    if i < |before.log| {
      WarningsAreJustified(p, ops[..n], i);
      assert ops[..n][..e.at] == ops[..e.at];
    } else {
      EverySessionKeepsDeadline(p, ops[..n]);
      var due := DueEvents(p, before.monitor, ops[n].admitted, ops[n].participants, ops[n].now);
      assert e == Emitted(due.1[i - |before.log|], n, before.monitor.observedCount);
    }
  }

  /** One of the two warnings that resolve the caption deadline has been raised. */
  ghost predicate Warned(log: seq<Emitted>) {
    exists i :: 0 <= i < |log| && (log[i].event.CaptionWarning? || (log[i].event.StaleWarning? && log[i].count == 0))
  }

  lemma StaysWarned(log: seq<Emitted>, more: seq<Emitted>)
    requires Warned(log) || Warned(more)
    ensures Warned(log + more)
  {
    if Warned(log) {
      var i :| 0 <= i < |log| && (log[i].event.CaptionWarning? || (log[i].event.StaleWarning? && log[i].count == 0));
      assert (log + more)[i] == log[i];
    } else {
      var i :| 0 <= i < |more| && (more[i].event.CaptionWarning? || (more[i].event.StaleWarning? && more[i].count == 0));
      assert (log + more)[|log| + i] == more[i];
    }
  }

  /** A poll that resolves the open deadline, or finds it due, warns. */
  lemma PollWarns(p: Policy, m: Monitor, admitted: bool, participants: bool, now: real, at: nat)
    requires !m.captionResolved && m.observedCount == 0
    requires DueEvents(p, m, admitted, participants, now).0.captionResolved
    ensures Warned(Stamp(DueEvents(p, m, admitted, participants, now).1, at, 0))
  {
    var due := DueEvents(p, m, admitted, participants, now);
    assert Stamp(due.1, at, 0)[0] == Emitted(due.1[0], at, 0);
  }

  lemma RunPoll(p: Policy, ops: seq<Op>, admitted: bool, participants: bool, now: real)
    ensures var t := Run(p, ops);
            var due := DueEvents(p, t.monitor, admitted, participants, now);
            Run(p, ops + [Poll(admitted, participants, now)]) == Trace(due.0, t.log + Stamp(due.1, |ops|, t.monitor.observedCount))
  {
    var all := ops + [Poll(admitted, participants, now)];
    assert all[..|ops|] == ops && all[|ops|] == Poll(admitted, participants, now);
  }

  /** Conversely, silence is never an oversight: an admitted session with no caption and no stale
      check so far gets its caption warning at the first poll after the grace period. */
  lemma OverdueCaptionIsReported(p: Policy, ops: seq<Op>, participants: bool, now: real)
    requires FirstAdmission(ops).Some? && now >= FirstAdmission(ops).value + p.captionSeconds
    requires NoCaptionIn(ops)
    ensures Warned(Run(p, ops + [Poll(true, participants, now)]).log)
  {
    var t := Run(p, ops);
    EverySessionKeepsDeadline(p, ops);
    ResolvedHasReason(p, ops);
    RunPoll(p, ops, true, participants, now);
    if !t.monitor.captionResolved { PollWarns(p, t.monitor, true, participants, now, |ops|); }
    StaysWarned(t.log, Stamp(DueEvents(p, t.monitor, true, participants, now).1, |ops|, t.monitor.observedCount));
  }

  /** The caption deadline is resolved only by a caption or by one of the two warnings. */
  lemma {:induction false} ResolvedHasReason(p: Policy, ops: seq<Op>)
    requires NoCaptionIn(ops)
    ensures Run(p, ops).monitor.observedCount == 0
    ensures Run(p, ops).monitor.captionResolved ==> Warned(Run(p, ops).log)
  {
    if ops != [] {
      var n := |ops| - 1;
      var m := Run(p, ops[..n]).monitor;
      ResolvedHasReason(p, ops[..n]);
      if ops[n].Poll? && Run(p, ops).monitor.captionResolved {
        var due := DueEvents(p, m, ops[n].admitted, ops[n].participants, ops[n].now);
        if !m.captionResolved { PollWarns(p, m, ops[n].admitted, ops[n].participants, ops[n].now, n); }
        StaysWarned(Run(p, ops[..n]).log, Stamp(due.1, n, 0));
      }
    }
  }

  /** Over any session, a caption warning is returned exactly by a poll that finds the session admitted, the grace
      period since its first admission over, no caption so far and neither warning given for that yet. */
  lemma CaptionWarningExactly(p: Policy, ops: seq<Op>, admitted: bool, participants: bool, now: real)
    ensures CaptionWarning in DueEvents(p, Run(p, ops).monitor, admitted, participants, now).1 <==>
              && admitted && FirstAdmission(ops).Some? && now >= FirstAdmission(ops).value + p.captionSeconds
              && NoCaptionIn(ops) && !Warned(Run(p, ops).log)
  {
    EverySessionKeepsDeadline(p, ops);
    EverySessionKeepsLatches(p, ops);
    if NoCaptionIn(ops) { ResolvedHasReason(p, ops); }
    PollReturnsExactly(p, Run(p, ops).monitor, admitted, participants, now);
  }

  // ---------------------------------------------------------------- the object

  class SessionHealthMonitor {
    const policy: Policy
    var heartbeatDeadline: real
    var captionDeadline: Option<real>
    var captionDeadlineResolved: bool
    var staleWarningChecked: bool
    var observedCaptionCount: nat

    ghost function View(): Monitor
      reads this
    {
      Monitor(heartbeatDeadline, captionDeadline, captionDeadlineResolved, staleWarningChecked, observedCaptionCount)
    }

    constructor (policy: Policy)
      ensures this.policy == policy && View() == Start(policy)
    {
      this.policy := policy;
      heartbeatDeadline := policy.start + policy.interval;
      captionDeadline := None;
      captionDeadlineResolved, staleWarningChecked := false, false;
      observedCaptionCount := 0;
    }

    method NoteAdmitted(now: real)
      modifies this`captionDeadline
      ensures View() == OnAdmitted(policy, old(View()), now)
    {
      if captionDeadline.None? { captionDeadline := Some(now + policy.captionSeconds); }
    }

    method NoteCaption(count: nat)
      modifies this
      ensures View() == OnCaption(old(View()), count)
    {
      observedCaptionCount := count;
      captionDeadlineResolved := true;
    }

    method TakeDueEvents(admitted: bool, participants: bool, now: real) returns (events: seq<Event>)
      modifies this
      ensures View() == DueEvents(policy, old(View()), admitted, participants, now).0
      ensures events == DueEvents(policy, old(View()), admitted, participants, now).1
    {
      events := [];
      if captionDeadline.Some? && !captionDeadlineResolved && admitted && now >= captionDeadline.value {
        captionDeadlineResolved := true;
        events := events + [CaptionWarning];
      }
      if !staleWarningChecked && now >= StaleDeadline(policy) {
        staleWarningChecked := true;
        var zeroCaptions := observedCaptionCount == 0;
        if !participants || zeroCaptions {
          if zeroCaptions { captionDeadlineResolved := true; }
          events := events + [StaleWarning];
        }
      }
      ghost var before := old(View());
      assert events == (if CaptionDue(before, admitted, now) then [CaptionWarning] else [])
                       + (if StaleDue(policy, before, now) && (!participants || before.observedCount == 0) then [StaleWarning] else []);
      if now >= heartbeatDeadline {
        CatchUp(now);
        if events == [] { events := events + [Heartbeat]; }
      }
    }

    /** The catch-up loop lands where the closed form says. */
    method CatchUp(now: real)
      modifies this`heartbeatDeadline
      ensures heartbeatDeadline == CaughtUp(old(heartbeatDeadline), policy.interval, now)
    {
      ghost var first, beats := heartbeatDeadline, Beats(heartbeatDeadline, policy.interval, now);
      ghost var k := 0;
      while heartbeatDeadline <= now
        invariant 0 <= k <= beats
        invariant heartbeatDeadline == first + k as real * policy.interval
        decreases beats - k
      {
        BehindUntilCaughtUp(first, policy.interval, now, k);
        BeatAfter(k + 1, policy.interval);
        heartbeatDeadline := heartbeatDeadline + policy.interval;
        k := k + 1;
      }
      BehindUntilCaughtUp(first, policy.interval, now, k);
    }
  }
}

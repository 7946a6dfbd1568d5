/**
 The external deadman watcher (ops/external_deadman/watcher.py).

 Times are microseconds since the epoch. `Decide` is the pure decision; `RunOnce` is one watcher
 run, which posts a notice before it persists the new state and where either step may fail, with
 or without taking effect; `RunAll` folds any sequence of runs.
 */
module Deadman {
  import opened Options

  const SECOND := 1_000_000
  const STALE_AFTER := 12 * 60 * SECOND

  /** The outage ID text: a prefix and a whole second, or a text found in the state file. */
  datatype OutageId = HeartbeatId(second: int) | MissingId(second: int) | UnknownId | LegacyId | OtherId(text: string)

  datatype State = State(alarmed: bool, missingSince: Option<int>, outageId: Option<OutageId>)

  const Fresh := State(false, None, None)

  datatype Notice = Alarm(id: OutageId) | Recovery(id: OutageId)

  datatype Decision = Decision(notice: Option<Notice>, state: State)

  function OutageIdOf(heartbeat: Option<int>, state: State): OutageId {
    match heartbeat
    case Some(ts) => HeartbeatId(ts / SECOND)
    case None => if state.missingSince.None? then UnknownId else MissingId(state.missingSince.value / SECOND)
  }

  function Effective(heartbeat: Option<int>, state: State, now: int): State {
    if heartbeat.Some? then state.(missingSince := None)
    else state.(missingSince := Some(if state.missingSince.Some? then state.missingSince.value else now))
  }

  predicate IsStale(heartbeat: Option<int>, state: State, now: int, staleAfter: int) {
    match heartbeat
    case Some(ts) => now - ts >= staleAfter
    case None => now - Effective(heartbeat, state, now).missingSince.value >= staleAfter
  }

  /** `evaluate_deadman` for a positive threshold. */
  function Decide(heartbeat: Option<int>, state: State, now: int, staleAfter: int): Decision {
    var effective := Effective(heartbeat, state, now);
    var stale := IsStale(heartbeat, state, now, staleAfter);
    if stale && !effective.alarmed then
      var id := OutageIdOf(heartbeat, effective);
      Decision(Some(Alarm(id)), effective.(alarmed := true, outageId := Some(id)))
    else if heartbeat.Some? && !stale && effective.alarmed then
      var id := if effective.outageId.Some? then effective.outageId.value else LegacyId;
      Decision(Some(Recovery(id)), effective.(alarmed := false, outageId := None))
    else Decision(None, effective)
  }

  // ---------------------------------------------------------------- the state file

  datatype Flag = NoFlag | Flag(value: bool) | NotAFlag
  datatype Stamp = NoStamp | StampAt(time: int) | NotAStamp
  datatype Name = NoName | Name(id: OutageId) | NotAName

  datatype Payload = Absent | Payload(alarmed: Flag, missingSince: Stamp, outageId: Name)

  /** `parse_state`; None is its ValueError. */
  function Parse(p: Payload): Option<State> {
    if p.Absent? then Some(Fresh)
    else if p.alarmed.NotAFlag? || p.outageId.NotAName? || p.missingSince.NotAStamp? then None
    else Some(State(p.alarmed.Flag? && p.alarmed.value,
                    if p.missingSince.StampAt? then Some(p.missingSince.time) else None,
                    if p.outageId.Name? then Some(p.outageId.id) else None))
  }

  function Serialize(s: State): Payload {
    Payload(Flag(s.alarmed),
            if s.missingSince.Some? then StampAt(s.missingSince.value / SECOND * SECOND) else NoStamp,
            if s.outageId.Some? then Name(s.outageId.value) else NoName)
  }

  function Floored(s: State): State {
    s.(missingSince := if s.missingSince.Some? then Some(s.missingSince.value / SECOND * SECOND) else None)
  }

  /** Reading back a written state only floors `missing_since` to whole seconds. */
  lemma ParseAfterSerialize(s: State)
    ensures Parse(Serialize(s)) == Some(Floored(s))
  {
  }

  /** And the other way round: a file that states all three fields, with a whole second, is written back as it was. */
  lemma SerializeAfterParse(alarmed: bool, start: Option<int>, id: Option<OutageId>)
    requires start.Some? ==> start.value % SECOND == 0
    ensures var p := Payload(Flag(alarmed), if start.Some? then StampAt(start.value) else NoStamp,
                             if id.Some? then Name(id.value) else NoName);
            Parse(p).Some? && Serialize(Parse(p).value) == p
  {
  }

  /** A missing file or field reads as no outage, and a field of the wrong type is refused, never guessed. */
  lemma ParseIsStrict(p: Payload)
    ensures Parse(Absent) == Some(Fresh) && Parse(Payload(NoFlag, NoStamp, NoName)) == Some(Fresh)
    ensures p.Payload? && (p.alarmed.NotAFlag? || p.missingSince.NotAStamp? || p.outageId.NotAName?) <==> Parse(p).None?
    ensures Parse(p).Some? && Parse(p).value.alarmed <==>
              p.Payload? && p.alarmed == Flag(true) && !p.missingSince.NotAStamp? && !p.outageId.NotAName?
  {
  }

  /** Flooring never changes the outage ID, only ever makes an alarm due less than a second early,
      and is the identity on a state that was read back. */
  lemma FlooringIsHarmless(heartbeat: Option<int>, s: State, now: int, staleAfter: int)
    ensures OutageIdOf(heartbeat, Floored(s)) == OutageIdOf(heartbeat, s)
    ensures Floored(Floored(s)) == Floored(s)
    ensures IsStale(heartbeat, s, now, staleAfter) && (heartbeat.Some? || s.missingSince.Some?) ==>
              IsStale(heartbeat, Floored(s), now, staleAfter)
    ensures IsStale(heartbeat, Floored(s), now, staleAfter) && (heartbeat.Some? || s.missingSince.Some?) ==>
              IsStale(heartbeat, s, now + SECOND - 1, staleAfter)
  {
  }

  // ---------------------------------------------------------------- one watcher run

  datatype Post = Accepted | RejectedUndelivered | RejectedButDelivered
  datatype Write = Written | FailedUnwritten | FailedButWritten

  /** One run: what it reads, its clock, its switches, and how its two effects go. */
  datatype Round = Round(heartbeat: Option<int>, now: int, dryRun: bool, forceStale: bool, post: Post, write: Write)

  datatype World = World(persisted: State, log: seq<Notice>)

  function Observed(r: Round): Option<int> {
    if r.forceStale then Some(r.now - STALE_AFTER - SECOND) else r.heartbeat
  }

  function DecisionOf(w: World, r: Round): Decision {
    Decide(Observed(r), w.persisted, r.now, STALE_AFTER)
  }

  function Deliver(w: World, r: Round): World {
    var notice := DecisionOf(w, r).notice;
    if notice.None? || r.post.RejectedUndelivered? then w else w.(log := w.log + [notice.value])
  }

  predicate PostPasses(w: World, r: Round) {
    DecisionOf(w, r).notice.None? || r.post.Accepted?
  }

  predicate WritePasses(w: World, r: Round) {
    DecisionOf(w, r).state == w.persisted || r.write.Written?
  }

  function Persist(w: World, s: State, r: Round): State {
    if s == w.persisted || r.write.FailedUnwritten? then w.persisted else Floored(s)
  }

  /** Post, then persist. */
  function RunOnce(w: World, r: Round): World {
    if r.dryRun then w
    else if !PostPasses(w, r) then Deliver(w, r)
    else Deliver(w, r).(persisted := Persist(w, DecisionOf(w, r).state, r))
  }

  /** The run reaches its end without an error. */
  predicate Completes(w: World, r: Round) {
    !r.dryRun && PostPasses(w, r) && WritePasses(w, r)
  }

  function RunAll(w: World, rounds: seq<Round>): World {
    if rounds == [] then w else RunOnce(RunAll(w, rounds[..|rounds| - 1]), rounds[|rounds| - 1])
  }

  predicate CompletesAt(w: World, rounds: seq<Round>, i: nat)
    requires i < |rounds|
  {
    Completes(RunAll(w, rounds[..i]), rounds[i])
  }

  // ---------------------------------------------------------------- delivery under faults

  predicate Live(r: Round) {
    !r.dryRun && !r.forceStale
  }

  /** When a run decides on a notice, and which, in terms of its clock, what it read and the persisted state: a missing
      heartbeat alarms exactly twelve minutes after the persisted start, a present one exactly when it is twelve minutes
      old, and only a younger one recovers. */
  lemma NoticeExactly(w: World, r: Round)
    requires Live(r)
    ensures var s, notice := w.persisted, DecisionOf(w, r).notice;
            match r.heartbeat
            case None =>
              && (notice.Some? <==> !s.alarmed && s.missingSince.Some? && r.now - s.missingSince.value >= 720_000_000)
              && (notice.Some? ==> notice == Some(Alarm(MissingId(s.missingSince.value / 1_000_000))))
            case Some(ts) =>
              && (notice.Some? <==> if s.alarmed then r.now - ts < 720_000_000 else r.now - ts >= 720_000_000)
              && (notice.Some? && !s.alarmed ==> notice == Some(Alarm(HeartbeatId(ts / 1_000_000))))
              && (notice.Some? && s.alarmed ==>
                    notice == Some(Recovery(if s.outageId.Some? then s.outageId.value else LegacyId)))
  {
  }

  /** A forced run alarms exactly if no alarm is recorded, whatever heartbeat it reads; a dry run does nothing. */
  lemma SwitchesExactly(w: World, r: Round)
    ensures r.forceStale ==>
              DecisionOf(w, r).notice
              == if w.persisted.alarmed then None else Some(Alarm(HeartbeatId((r.now - 721_000_000) / 1_000_000)))
    ensures r.dryRun ==> RunOnce(w, r) == w
  {
  }

  /** What a run leaves behind: the notice is in the log exactly if it was delivered, and then alone; the state is
      replaced, in whole seconds, exactly if the post was accepted and the write took effect. */
  lemma RunLeavesExactly(w: World, r: Round)
    requires !r.dryRun
    ensures var d, after := DecisionOf(w, r), RunOnce(w, r);
            && after.log == (if d.notice.Some? && !r.post.RejectedUndelivered? then w.log + [d.notice.value] else w.log)
            && after.persisted == (if (d.notice.None? || r.post.Accepted?) && !r.write.FailedUnwritten? && d.state != w.persisted
                                   then Floored(d.state) else w.persisted)
    ensures r.post.Accepted? && r.write.Written? ==> Completes(w, r)
    ensures Completes(w, r) ==> RunOnce(w, r).persisted == w.persisted == DecisionOf(w, r).state
                                || RunOnce(w, r).persisted == Floored(DecisionOf(w, r).state)
  {
  }

  /** The notices posted since `w` are all the same. */
  predicate OnlyRepeats(w: World, later: World, notice: Notice) {
    |w.log| <= |later.log| && later.log[..|w.log|] == w.log
    && forall i :: |w.log| <= i < |later.log| ==> later.log[i] == notice
  }

  predicate StaleAt(ts: int, rounds: seq<Round>) {
    forall i :: 0 <= i < |rounds| ==> Live(rounds[i]) && rounds[i].heartbeat == Some(ts) && rounds[i].now - ts >= STALE_AFTER
  }

  /** While the same stale heartbeat is read, any failures give every alarm one outage ID; the state is
      persisted as alarmed only after a delivery, and at the latest by a run that completes. */
  lemma {:induction false} StaleHeartbeatAlarms(w: World, ts: int, rounds: seq<Round>)
    requires !w.persisted.alarmed && StaleAt(ts, rounds)
    ensures var later, id := RunAll(w, rounds), HeartbeatId(ts / SECOND);
            && OnlyRepeats(w, later, Alarm(id))
            && (later.persisted.alarmed ==>
                  later.persisted == State(true, None, Some(id)) && |later.log| > |w.log|)
            && (!later.persisted.alarmed ==> later.persisted == w.persisted)
            && ((exists i :: 0 <= i < |rounds| && CompletesAt(w, rounds, i)) ==> later.persisted.alarmed)
  {
    if rounds != [] {
      var shorter := rounds[..|rounds| - 1];
      StaleHeartbeatAlarms(w, ts, shorter);
      if i :| 0 <= i < |rounds| - 1 && CompletesAt(w, rounds, i) {
        assert shorter[..i] == rounds[..i];
        assert CompletesAt(w, shorter, i);
      }
    }
  }

  predicate MissingAt(rounds: seq<Round>) {
    forall i :: 0 <= i < |rounds| ==> Live(rounds[i]) && rounds[i].heartbeat.None?
  }

  /** A missing-heartbeat alarm fires only from an already persisted `missing_since`. */
  lemma MissingAlarmNeedsPersistedStart(w: World, r: Round)
    requires Live(r) && r.heartbeat.None? && DecisionOf(w, r).notice.Some?
    ensures w.persisted.missingSince.Some? && !w.persisted.alarmed
    ensures DecisionOf(w, r).notice == Some(Alarm(MissingId(w.persisted.missingSince.value / SECOND)))
  {
  }

  /** The second in which the persisted outage started. */
  function StartOf(w: World): Option<int> {
    if w.persisted.missingSince.Some? then Some(w.persisted.missingSince.value / SECOND) else None
  }

  /** The run completes at a time when the persisted outage is past the threshold. */
  predicate CompletesStale(w: World, rounds: seq<Round>, i: nat)
    requires i < |rounds|
  {
    var before := RunAll(w, rounds[..i]).persisted.missingSince;
    CompletesAt(w, rounds, i) && before.Some? && rounds[i].now - before.value >= STALE_AFTER
  }

  /** While the heartbeat stays missing, the start of the outage is fixed once it is persisted, every
      alarm carries the ID of that start, and a run that completes past the threshold leaves it alarmed. */
  lemma {:induction false} MissingHeartbeatAlarms(w: World, rounds: seq<Round>)
    requires !w.persisted.alarmed && MissingAt(rounds)
    ensures var later := RunAll(w, rounds);
            && (StartOf(w).Some? ==> StartOf(later) == StartOf(w))
            && (StartOf(later).Some? ==> OnlyRepeats(w, later, Alarm(MissingId(StartOf(later).value))))
            && (StartOf(later).None? ==> later == w)
            && (later.persisted.alarmed ==>
                  |later.log| > |w.log| && StartOf(later).Some?
                  && later.persisted.outageId == Some(MissingId(StartOf(later).value)))
            && ((exists i :: 0 <= i < |rounds| && CompletesStale(w, rounds, i)) ==> later.persisted.alarmed)
  {
    if rounds != [] {
      var shorter, last := rounds[..|rounds| - 1], rounds[|rounds| - 1];
      MissingHeartbeatAlarms(w, shorter);
      MissingStep(RunAll(w, shorter), last);
      if i :| 0 <= i < |rounds| && CompletesStale(w, rounds, i) {
        if i < |rounds| - 1 {
          assert shorter[..i] == rounds[..i];
          assert CompletesStale(w, shorter, i);
        }
      }
    }
  }

  lemma MissingStep(w: World, r: Round)
    requires Live(r) && r.heartbeat.None?
    ensures var later := RunOnce(w, r);
            && (StartOf(w).Some? ==> StartOf(later) == StartOf(w))
            && (later.log == w.log
                || (StartOf(w).Some? && !w.persisted.alarmed && later.log == w.log + [Alarm(MissingId(StartOf(w).value))]))
            && (StartOf(later).None? ==> later == w)
            && (w.persisted.alarmed ==>
                  later.persisted.alarmed && later.persisted.outageId == w.persisted.outageId && later.log == w.log)
            && (!w.persisted.alarmed && later.persisted.alarmed ==>
                  StartOf(w).Some? && later.log != w.log && later.persisted.outageId == Some(MissingId(StartOf(w).value)))
            && (Completes(w, r) && StartOf(w).Some? && r.now - w.persisted.missingSince.value >= STALE_AFTER ==>
                  later.persisted.alarmed)
  {
  }

  /** The persisted start of an outage is the second of some run that saw the heartbeat missing. */
  predicate SawMissing(rounds: seq<Round>, start: int) {
    exists i :: 0 <= i < |rounds| && start == rounds[i].now / 1_000_000 * 1_000_000
  }

  /** Two of these runs, the later at least twelve minutes after the second of the earlier. */
  predicate TwelveMinutesApart(rounds: seq<Round>) {
    exists i, j :: 0 <= i < j < |rounds| && rounds[j].now - rounds[i].now / 1_000_000 * 1_000_000 >= 720_000_000
  }

  /** Over any runs that see the heartbeat missing, with any failures: the first alarm is posted no earlier than twelve
      minutes after the run that first found it missing. */
  lemma {:induction false} NoAlarmBeforeTwelveMinutes(log: seq<Notice>, rounds: seq<Round>)
    requires MissingAt(rounds)
    ensures var later := RunAll(World(Fresh, log), rounds);
            && (later.persisted.missingSince.Some? ==> SawMissing(rounds, later.persisted.missingSince.value))
            && (later.log != log ==> TwelveMinutesApart(rounds))
  {
    if rounds != [] {
      var n := |rounds| - 1;
      var before := RunAll(World(Fresh, log), rounds[..n]);
      NoAlarmBeforeTwelveMinutes(log, rounds[..n]);
      MissingRunStarts(before, rounds[n]);
      MoreRounds(rounds, before.persisted.missingSince);
    }
  }

  lemma MoreRounds(rounds: seq<Round>, start: Option<int>)
    requires rounds != []
    ensures SawMissing(rounds, rounds[|rounds| - 1].now / 1_000_000 * 1_000_000)
    ensures TwelveMinutesApart(rounds[..|rounds| - 1]) ==> TwelveMinutesApart(rounds)
    ensures start.Some? && SawMissing(rounds[..|rounds| - 1], start.value) ==>
              && SawMissing(rounds, start.value)
              && start.value % 1_000_000 == 0
              && (rounds[|rounds| - 1].now - start.value >= 720_000_000 ==> TwelveMinutesApart(rounds))
  {
    var n := |rounds| - 1;
    if TwelveMinutesApart(rounds[..n]) {
      var i, j :| 0 <= i < j < n && rounds[..n][j].now - rounds[..n][i].now / 1_000_000 * 1_000_000 >= 720_000_000;
      assert rounds[i] == rounds[..n][i] && rounds[j] == rounds[..n][j];
    }
    if start.Some? && SawMissing(rounds[..n], start.value) {
      var i :| 0 <= i < n && start.value == rounds[..n][i].now / 1_000_000 * 1_000_000;
      assert rounds[i] == rounds[..n][i];
    }
  }

  /** One run that finds the heartbeat missing: it starts the outage at its own second or leaves the start alone. */
  lemma MissingRunStarts(w: World, r: Round)
    requires Live(r) && r.heartbeat.None?
    requires w.persisted.missingSince.Some? ==> w.persisted.missingSince.value % 1_000_000 == 0
    ensures var later := RunOnce(w, r).persisted.missingSince;
            later == w.persisted.missingSince || (w.persisted.missingSince.None? && later == Some(r.now / 1_000_000 * 1_000_000))
    ensures RunOnce(w, r).log != w.log ==>
              !w.persisted.alarmed && w.persisted.missingSince.Some? && r.now - w.persisted.missingSince.value >= 720_000_000
  {
  }

  predicate FreshAt(rounds: seq<Round>) {
    forall i :: 0 <= i < |rounds| ==>
      Live(rounds[i]) && rounds[i].heartbeat.Some? && rounds[i].now - rounds[i].heartbeat.value < STALE_AFTER
  }

  /** The dual: while heartbeats stay fresh after an alarmed state, every notice is a recovery naming
      that outage, and a run that completes leaves the alarm cleared after at least one delivery. */
  lemma {:induction false} FreshHeartbeatRecovers(w: World, rounds: seq<Round>)
    requires w.persisted.alarmed && FreshAt(rounds)
    ensures var later := RunAll(w, rounds);
            var id := if w.persisted.outageId.Some? then w.persisted.outageId.value else LegacyId;
            && OnlyRepeats(w, later, Recovery(id))
            && (!later.persisted.alarmed ==> later.persisted == Fresh && |later.log| > |w.log|)
            && (later.persisted.alarmed ==> later.persisted == w.persisted)
            && ((exists i :: 0 <= i < |rounds| && CompletesAt(w, rounds, i)) ==> !later.persisted.alarmed)
  {
    if rounds != [] {
      var shorter := rounds[..|rounds| - 1];
      FreshHeartbeatRecovers(w, shorter);
      if i :| 0 <= i < |rounds| - 1 && CompletesAt(w, rounds, i) {
        assert shorter[..i] == rounds[..i];
        assert CompletesAt(w, shorter, i);
      }
    }
  }

  /** A completed run has nothing left to do: the same observation posts and writes nothing more. */
  lemma CompletedRunIsQuiet(w: World, r: Round, again: Round)
    requires Live(r) && Completes(w, r) && again == r.(post := again.post, write := again.write)
    ensures RunOnce(RunOnce(w, r), again) == RunOnce(w, r)
  {
  }

  // ---------------------------------------------------------------- alternation

  /** Alarms and recoveries alternate, each recovery naming the preceding alarm. */
  predicate Alternates(log: seq<Notice>) {
    && (log != [] ==> log[0].Alarm?)
    && forall i :: 0 <= i < |log| - 1 ==>
         if log[i].Alarm? then log[i + 1] == Recovery(log[i].id) else log[i + 1].Alarm?
  }

  /** The persisted state knows exactly whether the last notice is an open alarm. */
  predicate InStep(w: World) {
    && Alternates(w.log)
    && (if w.log != [] && w.log[|w.log| - 1].Alarm?
        then w.persisted.alarmed && w.persisted.outageId == Some(w.log[|w.log| - 1].id)
        else !w.persisted.alarmed && w.persisted.outageId.None?)
  }

  /** A notice goes out and its transition is not recorded. */
  predicate PostedUnrecorded(w: World, r: Round) {
    && !r.dryRun && DecisionOf(w, r).notice.Some?
    && (r.post.RejectedButDelivered? || (r.post.Accepted? && r.write.FailedUnwritten?))
  }

  /** The log stays in step with the state except exactly when a delivery goes unrecorded. */
  lemma InStepUnlessUnrecorded(w: World, r: Round)
    requires InStep(w)
    ensures InStep(RunOnce(w, r)) <==> !PostedUnrecorded(w, r)
  {
  }

  predicate WritesSucceed(rounds: seq<Round>) {
    forall i :: 0 <= i < |rounds| ==> !rounds[i].write.FailedUnwritten? && !rounds[i].post.RejectedButDelivered?
  }

  /** When state writes take effect, and posts may fail, the notice log strictly alternates alarm and
      recovery over any observations, each recovery naming the preceding alarm's outage. */
  lemma {:induction false} NoticesAlternate(rounds: seq<Round>)
    requires WritesSucceed(rounds)
    ensures InStep(RunAll(World(Fresh, []), rounds))
  {
    if rounds != [] {
      NoticesAlternate(rounds[..|rounds| - 1]);
      InStepUnlessUnrecorded(RunAll(World(Fresh, []), rounds[..|rounds| - 1]), rounds[|rounds| - 1]);
    }
  }

  // ---------------------------------------------------------------- what can be lost

  /** An alarm that was delivered but not recorded gets no recovery while heartbeats are fresh. */
  lemma {:induction false} UnrecordedAlarmHasNoRecovery(w: World, r: Round, rounds: seq<Round>)
    requires Live(r) && DecisionOf(w, r).notice.Some? && DecisionOf(w, r).notice.value.Alarm? && PostedUnrecorded(w, r)
    requires FreshAt(rounds)
    ensures RunAll(RunOnce(w, r), rounds).log == w.log + [DecisionOf(w, r).notice.value]
    ensures !RunAll(RunOnce(w, r), rounds).persisted.alarmed
  {
    if rounds != [] {
      UnrecordedAlarmHasNoRecovery(w, r, rounds[..|rounds| - 1]);
    }
  }

  /** A recovery that was delivered but not recorded suppresses the next alarm: however long the
      heartbeat then stays stale, no notice is posted. */
  lemma {:induction false} UnrecordedRecoveryHidesNextOutage(w: World, r: Round, ts: int, rounds: seq<Round>)
    requires Live(r) && DecisionOf(w, r).notice.Some? && DecisionOf(w, r).notice.value.Recovery? && PostedUnrecorded(w, r)
    requires StaleAt(ts, rounds)
    ensures RunAll(RunOnce(w, r), rounds).log == w.log + [DecisionOf(w, r).notice.value]
    ensures RunAll(RunOnce(w, r), rounds).persisted.alarmed
  {
    if rounds != [] {
      UnrecordedRecoveryHidesNextOutage(w, r, ts, rounds[..|rounds| - 1]);
    }
  }

  // ---------------------------------------------------------------- writing the state file

  datatype Reply = Done | Conflict | Unprocessable | OtherFailure

  /** What GitHub answers in one attempt of `write_json`; a failed read is not retried. */
  datatype Attempt = Attempt(readsFail: bool, branchExists: bool, orphan: Reply, put: Reply)

  function AttemptReply(a: Attempt): Reply {
    if a.readsFail then OtherFailure else if a.branchExists then a.put else a.orphan
  }

  predicate Retryable(a: Attempt) {
    AttemptReply(a).Unprocessable? || (a.branchExists && AttemptReply(a).Conflict?)
  }

  predicate SucceedsAt(attempts: seq<Attempt>, k: nat) {
    && k < |attempts| && AttemptReply(attempts[k]).Done?
    && forall i :: 0 <= i < k ==> Retryable(attempts[i])
  }

  /** What counts as success and what is tried again: the reply to the update, or to the creation of the branch if there
      is none; of the latter only an unprocessable one is tried again. */
  lemma RepliesExactly(a: Attempt)
    ensures AttemptReply(a).Done? <==> !a.readsFail && (if a.branchExists then a.put.Done? else a.orphan.Done?)
    ensures Retryable(a) <==>
              !a.readsFail && (if a.branchExists then a.put.Conflict? || a.put.Unprocessable? else a.orphan.Unprocessable?)
  {
  }

  /** Three attempts succeed exactly if the first does, or it is tried again and the second does, or both are tried again
      and the third does. */
  lemma SucceedsExactly(attempts: seq<Attempt>)
    requires |attempts| == 3
    ensures (exists k: nat :: SucceedsAt(attempts, k)) <==>
              || AttemptReply(attempts[0]).Done?
              || (Retryable(attempts[0]) && AttemptReply(attempts[1]).Done?)
              || (Retryable(attempts[0]) && Retryable(attempts[1]) && AttemptReply(attempts[2]).Done?)
  {
    assert AttemptReply(attempts[0]).Done? ==> SucceedsAt(attempts, 0);
    assert Retryable(attempts[0]) && AttemptReply(attempts[1]).Done? ==> SucceedsAt(attempts, 1);
    assert Retryable(attempts[0]) && Retryable(attempts[1]) && AttemptReply(attempts[2]).Done? ==> SucceedsAt(attempts, 2);
  }

  /** The write succeeds exactly if one of three attempts does and every earlier one was a conflict. */
  method WriteJson(attempts: seq<Attempt>) returns (written: bool, used: nat)
    requires |attempts| == 3
    ensures written <==> exists k: nat :: SucceedsAt(attempts, k)
    ensures 1 <= used <= 3
    ensures written ==> SucceedsAt(attempts, used - 1)
  {
    used, written := 0, false;
    while used == 0 || (!written && used < 3 && Retryable(attempts[used - 1]))
      invariant used <= 3
      invariant forall i :: 0 <= i < used - 1 ==> Retryable(attempts[i])
      invariant written ==> used > 0 && SucceedsAt(attempts, used - 1)
      invariant !written ==> forall i :: 0 <= i < used ==> !AttemptReply(attempts[i]).Done?
      decreases 3 - used
    {
      written := AttemptReply(attempts[used]).Done?;
      used := used + 1;
    }
    if !written {
      forall k: nat ensures !SucceedsAt(attempts, k) {
        assert used < 3 ==> !Retryable(attempts[used - 1]);
      }
    }
  }
}

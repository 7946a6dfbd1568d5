/**
 Harvesting human judgments from alert threads (brain/systems/alert_resolution.py).

 Which messages are judgments, and of what kind, is given; so are the Slack reads and whether an
 update of a record succeeds.
 */
module AlertResolution {
  import opened Options
  import opened Ordering

  datatype Kind = Deployed | Verified | Reproduced

  datatype Signal = Signal(kind: Kind, ts: real, fixPr: Option<string>, channel: string, thread: string, bot: Option<string>)

  /** The part of a tracker record the harvest reads or writes. `note` is None when the record has no such field. */
  datatype Record = Record(status: string, verified: bool, verifiedAt: Option<string>, confirmedTs: Option<real>,
                           reproducedTs: Option<real>, fixPr: Option<string>, channel: string, thread: string,
                           bot: Option<string>, note: Option<seq<Signal>>, version: nat)

  datatype Field =
    | ChannelField | ThreadField | BotField | ConfirmedField | ReproducedField | FixField
    | VerifiedField | VerifiedAtField | StatusField | NoteField

  /** The provisioned fields, the stored spelling of a status option if there is one, and how a Slack timestamp
      is written as a date, if it can be. */
  datatype Schema = Schema(fields: set<Field>, option: string -> Option<string>, iso: real -> Option<string>)

  predicate ByTime(a: Signal, b: Signal) {
    a.ts <= b.ts
  }

  lemma TimeIsAnOrder()
    ensures TotalPreorder(ByTime)
  {
  }

  predicate Confirms(s: Signal) {
    s.kind != Reproduced
  }

  function Confirmations(ordered: seq<Signal>): seq<Signal> {
    if ordered == [] then []
    else
      var n := |ordered| - 1;
      Confirmations(ordered[..n]) + (if Confirms(ordered[n]) then [ordered[n]] else [])
  }

  function LastFix(confirmations: seq<Signal>): Option<string> {
    if confirmations == [] then None
    else
      var n := |confirmations| - 1;
      var fix := confirmations[n].fixPr;
      if fix.Some? && fix.value != "" then fix else LastFix(confirmations[..n])
  }

  function Last<T>(s: seq<T>): Option<T> {
    if s == [] then None else Some(s[|s| - 1])
  }

  /** The newest signal; of several with one timestamp the last that was read. */
  function Latest(signals: seq<Signal>): Option<Signal> {
    Last(Sort(ByTime, signals))
  }

  function TsOr(ts: Option<real>): real {
    if ts.Some? then ts.value else -1.0
  }

  /** Signals up to this time have been dealt with. */
  function Watermark(r: Record): real {
    var a, b := TsOr(r.confirmedTs), TsOr(r.reproducedTs);
    if a < b then b else a
  }

  function FirstOption(schema: Schema, candidates: seq<string>): Option<string> {
    if candidates == [] then None
    else if schema.option(candidates[0]).Some? then schema.option(candidates[0])
    else FirstOption(schema, candidates[1..])
  }

  function StatusFor(schema: Schema, kind: Kind): Option<string> {
    FirstOption(schema, match kind
      case Verified => ["Done"]
      case Deployed => ["In Review", "In Progress", "Todo"]
      case Reproduced => ["Todo", "In Progress", "Blocked"])
  }

  function PatchKeys(schema: Schema, r: Record, signal: Signal, confirmation: Option<Signal>, fix: Option<string>): set<Field> {
    {ChannelField, ThreadField, VerifiedField}
    + (if signal.bot.Some? then {BotField} else {})
    + (if confirmation.Some? then {ConfirmedField} + (if fix.Some? then {FixField} else {}) else {})
    + (if signal.kind != Verified || schema.iso(signal.ts).Some? then {VerifiedAtField} else {})
    + (if signal.kind == Reproduced then {ReproducedField} else {})
    + (if StatusFor(schema, signal.kind).Some? then {StatusField} else {})
    + (if r.note.Some? then {NoteField} else {})
  }

  function Patched(schema: Schema, r: Record, signal: Signal, confirmation: Option<Signal>, fix: Option<string>): Record {
    r.(channel := signal.channel, thread := signal.thread,
       bot := if signal.bot.Some? then signal.bot else r.bot,
       confirmedTs := if confirmation.Some? then Some(confirmation.value.ts) else r.confirmedTs,
       fixPr := if confirmation.Some? && fix.Some? then fix else r.fixPr,
       verified := signal.kind == Verified,
       verifiedAt := if signal.kind != Verified then None
                     else if schema.iso(signal.ts).Some? then schema.iso(signal.ts) else r.verifiedAt,
       reproducedTs := if signal.kind == Reproduced then Some(signal.ts) else r.reproducedTs,
       status := if StatusFor(schema, signal.kind).Some? then StatusFor(schema, signal.kind).value else r.status,
       note := if r.note.Some? then Some(r.note.value + [signal]) else None,
       version := r.version + 1)
  }

  datatype Outcome = Skipped | Rejected | Updated(record: Record, signal: Signal)

  /** One harvest of one record. The whole patch is refused when the schema lacks one of its fields. */
  function Harvest(schema: Schema, r: Record, signals: seq<Signal>, updateOk: bool): Outcome {
    var latest := Latest(signals);
    if latest.None? || latest.value.ts <= Watermark(r) then Skipped
    else
      var confirmations := Confirmations(Sort(ByTime, signals));
      var confirmation, fix := Last(confirmations), LastFix(confirmations);
      if !(PatchKeys(schema, r, latest.value, confirmation, fix) <= schema.fields) || !updateOk then Rejected
      else Updated(Patched(schema, r, latest.value, confirmation, fix), latest.value)
  }

  // ---------------------------------------------------------------- the newest signal

  lemma LatestIsNewest(signals: seq<Signal>)
    ensures Latest(signals).None? <==> signals == []
    ensures Latest(signals).Some? ==> Latest(signals).value in signals
    ensures Latest(signals).Some? ==> forall s :: s in signals ==> s.ts <= Latest(signals).value.ts
  {
    var ordered := Sort(ByTime, signals);
    TimeIsAnOrder();
    SortSpec(ByTime, signals);
    SameElements(ordered, signals);
    forall s | s in signals && ordered != [] ensures s.ts <= Latest(signals).value.ts {
      var i :| 0 <= i < |ordered| && ordered[i] == s;
      assert i < |ordered| - 1 ==> ByTime(ordered[i], ordered[|ordered| - 1]);
    }
  }

  lemma {:induction false} ConfirmationsAreSignals(ordered: seq<Signal>)
    ensures forall s :: s in Confirmations(ordered) ==> s in ordered && Confirms(s)
  {
    if ordered != [] { ConfirmationsAreSignals(ordered[..|ordered| - 1]); }
  }

  /** The newest confirmation is the newest signal if that confirms, and no newer than it otherwise. */
  lemma LastConfirmation(signals: seq<Signal>)
    requires signals != []
    ensures var latest := Latest(signals);
            var confirmation := Last(Confirmations(Sort(ByTime, signals)));
            && latest.Some?
            && (Confirms(latest.value) ==> confirmation == latest)
            && (confirmation.Some? ==> confirmation.value.ts <= latest.value.ts)
  {
    var ordered := Sort(ByTime, signals);
    LatestIsNewest(signals);
    ConfirmationsAreSignals(ordered);
    SortPermutes(ByTime, signals);
    SameElements(ordered, signals);
    if Confirms(ordered[|ordered| - 1]) {
      ConfirmsLast(ordered);
    } else if Confirmations(ordered) != [] {
      assert Confirmations(ordered)[|Confirmations(ordered)| - 1] in Confirmations(ordered);
    }
  }

  lemma ConfirmsLast(ordered: seq<Signal>)
    requires ordered != [] && Confirms(ordered[|ordered| - 1])
    ensures Last(Confirmations(ordered)) == Some(ordered[|ordered| - 1])
  {
  }

  /** An update deals with the newest signal and moves the watermark exactly there, strictly forward; older
      confirmations written beside it do not move it back. */
  lemma UpdateMovesWatermark(schema: Schema, r: Record, signals: seq<Signal>, updateOk: bool)
    requires Harvest(schema, r, signals, updateOk).Updated?
    ensures var u := Harvest(schema, r, signals, updateOk);
            && Latest(signals) == Some(u.signal)
            && Watermark(u.record) == u.signal.ts > Watermark(r)
            && u.record.version == r.version + 1
  {
    LatestIsNewest(signals);
    LastConfirmation(signals);
  }

  // ---------------------------------------------------------------- what one harvest does

  /** The status option each kind of signal selects: the first of its list that the schema has. */
  lemma StatusForExactly(schema: Schema)
    ensures StatusFor(schema, Verified) == schema.option("Done")
    ensures StatusFor(schema, Deployed)
         == if schema.option("In Review").Some? then schema.option("In Review")
            else if schema.option("In Progress").Some? then schema.option("In Progress") else schema.option("Todo")
    ensures StatusFor(schema, Reproduced)
         == if schema.option("Todo").Some? then schema.option("Todo")
            else if schema.option("In Progress").Some? then schema.option("In Progress") else schema.option("Blocked")
  {
    OneOption(schema, "Done");
    FirstOptionExactly(schema, ["In Review", "In Progress", "Todo"]);
    FirstOptionExactly(schema, ["Todo", "In Progress", "Blocked"]);
  }

  lemma OneOption(schema: Schema, candidate: string)
    ensures FirstOption(schema, [candidate]) == schema.option(candidate)
  {
    assert [candidate][1..] == [] && FirstOption(schema, []) == None;
  }

  lemma FirstOptionExactly(schema: Schema, candidates: seq<string>)
    requires |candidates| == 3
    ensures FirstOption(schema, candidates)
         == if schema.option(candidates[0]).Some? then schema.option(candidates[0])
            else if schema.option(candidates[1]).Some? then schema.option(candidates[1]) else schema.option(candidates[2])
  {
    var rest := candidates[1..];
    assert rest[0] == candidates[1] && rest[1..] == [candidates[2]];
    OneOption(schema, candidates[2]);
    assert FirstOption(schema, rest) == if schema.option(rest[0]).Some? then schema.option(rest[0]) else FirstOption(schema, rest[1..]);
  }

  /** The watermark is the later of the two stored times, where one that is missing counts as before all. */
  lemma WatermarkExactly(r: Record)
    ensures Watermark(r) >= (if r.confirmedTs.Some? then r.confirmedTs.value else -1.0)
    ensures Watermark(r) >= (if r.reproducedTs.Some? then r.reproducedTs.value else -1.0)
    ensures Watermark(r) == (if r.confirmedTs.Some? then r.confirmedTs.value else -1.0)
         || Watermark(r) == (if r.reproducedTs.Some? then r.reproducedTs.value else -1.0)
  {
  }

  /** The signals hold something newer than all that was dealt with. */
  predicate Newer(r: Record, signals: seq<Signal>) {
    exists s :: s in signals && s.ts > (if r.confirmedTs.Some? then r.confirmedTs.value else -1.0)
                             && s.ts > (if r.reproducedTs.Some? then r.reproducedTs.value else -1.0)
  }

  /** Whether a record is skipped, updated or an error: it is skipped exactly if no signal is newer than both stored times,
      and otherwise updated exactly if the schema has every field of the patch and the update succeeds. */
  lemma HarvestExactly(schema: Schema, r: Record, signals: seq<Signal>, updateOk: bool)
    ensures var outcome := Harvest(schema, r, signals, updateOk);
            && (outcome.Skipped? <==> !Newer(r, signals))
            && (schema.fields == ALL_FIELDS ==> (outcome.Updated? <==> Newer(r, signals) && updateOk))
            && (outcome.Updated? ==> updateOk && {ChannelField, ThreadField, VerifiedField} <= schema.fields)
  {
    LatestIsNewest(signals);
    if schema.fields == ALL_FIELDS && Newer(r, signals) {
      var confirmations := Confirmations(Sort(ByTime, signals));
      assert PatchKeys(schema, r, Latest(signals).value, Last(confirmations), LastFix(confirmations)) <= ALL_FIELDS;
    }
  }

  /** The schema lacks a field that a patch for this newest signal needs, given whether something is confirmed or fixed. */
  predicate LacksField(schema: Schema, r: Record, newest: Signal, confirmed: bool, fixed: bool) {
    || ChannelField !in schema.fields || ThreadField !in schema.fields || VerifiedField !in schema.fields
    || (newest.bot.Some? && BotField !in schema.fields)
    || (confirmed && ConfirmedField !in schema.fields)
    || (fixed && FixField !in schema.fields)
    || ((newest.kind != Verified || schema.iso(newest.ts).Some?) && VerifiedAtField !in schema.fields)
    || (newest.kind == Reproduced && ReproducedField !in schema.fields)
    || (StatusFor(schema, newest.kind).Some? && StatusField !in schema.fields)
    || (r.note.Some? && NoteField !in schema.fields)
  }

  lemma NeededFields(schema: Schema, r: Record, newest: Signal, confirmation: Option<Signal>, fix: Option<string>)
    requires fix.Some? ==> confirmation.Some?
    ensures PatchKeys(schema, r, newest, confirmation, fix) <= schema.fields
       <==> !LacksField(schema, r, newest, confirmation.Some?, fix.Some?)
  {
    var keys := PatchKeys(schema, r, newest, confirmation, fix);
    if LacksField(schema, r, newest, confirmation.Some?, fix.Some?) {
      assert exists f :: f in keys && f !in schema.fields;
    }
  }

  /** A newer signal is refused exactly if the schema lacks a field that its patch needs, or the update fails. */
  lemma RefusedExactly(schema: Schema, r: Record, signals: seq<Signal>, updateOk: bool)
    requires Newer(r, signals)
    ensures Latest(signals).Some?
    ensures var confirmed := exists c :: c in signals && c.kind != Reproduced;
            Harvest(schema, r, signals, updateOk).Rejected? <==>
              !updateOk || LacksField(schema, r, Latest(signals).value, confirmed, FixIn(signals).Some?)
  {
    var ordered := Sort(ByTime, signals);
    var confirmations := Confirmations(ordered);
    HarvestExactly(schema, r, signals, updateOk);
    LatestIsNewest(signals);
    SortPermutes(ByTime, signals);
    SameElements(ordered, signals);
    ConfirmedExactly(ordered);
    FixNeedsConfirmation(ordered);
    NeededFields(schema, r, Latest(signals).value, Last(confirmations), LastFix(confirmations));
  }

  lemma {:induction false} ConfirmedExactly(ordered: seq<Signal>)
    ensures Confirmations(ordered) != [] <==> exists c :: c in ordered && c.kind != Reproduced
  {
    if ordered != [] {
      var n := |ordered| - 1;
      ConfirmedExactly(ordered[..n]);
      assert ordered == ordered[..n] + [ordered[n]];
    }
  }

  lemma FixNeedsConfirmation(ordered: seq<Signal>)
    ensures LastFix(Confirmations(ordered)).Some? ==> Confirmations(ordered) != []
  {
  }

  /** `c` is a newest confirmation among the signals. */
  predicate NewestConfirmation(signals: seq<Signal>, c: Signal) {
    c in signals && c.kind != Reproduced && forall s :: s in signals && s.kind != Reproduced ==> s.ts <= c.ts
  }

  /** What an update leaves, field by field: verified, its date and the status follow the newest signal, the time of
      a reproduction or of the newest confirmation is stored, the thread and bot are those of the signal, a note is
      appended to the notes there are, and the version counts one up. */
  lemma UpdateExactly(schema: Schema, r: Record, signals: seq<Signal>, updateOk: bool)
    requires Harvest(schema, r, signals, updateOk).Updated?
    ensures var u := Harvest(schema, r, signals, updateOk);
            var s, after := u.signal, u.record;
            && s in signals && (forall t :: t in signals ==> t.ts <= s.ts)
            && (after.verified <==> s.kind == Verified)
            && after.verifiedAt == (if s.kind != Verified then None else if schema.iso(s.ts).Some? then schema.iso(s.ts) else r.verifiedAt)
            && after.reproducedTs == (if s.kind == Reproduced then Some(s.ts) else r.reproducedTs)
            && after.status == (if StatusFor(schema, s.kind).Some? then StatusFor(schema, s.kind).value else r.status)
            && after.channel == s.channel && after.thread == s.thread
            && after.bot == (if s.bot.Some? then s.bot else r.bot)
            && after.note == (if r.note.Some? then Some(r.note.value + [s]) else None)
            && after.version == r.version + 1
            && NewestFix(signals, FixIn(signals)) && after.fixPr == (if FixIn(signals).Some? then FixIn(signals) else r.fixPr)
            && (if exists c :: NewestConfirmation(signals, c)
                then exists c :: NewestConfirmation(signals, c) && after.confirmedTs == Some(c.ts)
                else after.confirmedTs == r.confirmedTs)
  {
    var ordered := Sort(ByTime, signals);
    LatestIsNewest(signals);
    FixIsNewest(signals);
    FixNeedsConfirmation(ordered);
    ConfirmationIsNewest(signals);
  }

  lemma ConfirmationIsNewest(signals: seq<Signal>)
    ensures var last := Last(Confirmations(Sort(ByTime, signals)));
            && (last.Some? <==> exists c :: NewestConfirmation(signals, c))
            && (last.Some? ==> NewestConfirmation(signals, last.value))
  {
    var ordered := Sort(ByTime, signals);
    TimeIsAnOrder();
    SortSpec(ByTime, signals);
    SameElements(ordered, signals);
    ConfirmedExactly(ordered);
    LastConfirmationIsNewest(ordered);
    SameNewestConfirmation(ordered, signals);
  }

  lemma SameNewestConfirmation(a: seq<Signal>, b: seq<Signal>)
    requires forall s :: s in a <==> s in b
    ensures forall c :: NewestConfirmation(a, c) <==> NewestConfirmation(b, c)
  {
  }

  lemma {:induction false} LastConfirmationIsNewest(ordered: seq<Signal>)
    requires SortedBy(ByTime, ordered)
    ensures Last(Confirmations(ordered)).Some? ==> NewestConfirmation(ordered, Last(Confirmations(ordered)).value)
  {
    if ordered != [] {
      var n := |ordered| - 1;
      LastConfirmationIsNewest(ordered[..n]);
      assert ordered == ordered[..n] + [ordered[n]];
      if Confirms(ordered[n]) {
        ConfirmsLast(ordered);
        forall s | s in ordered ensures s.ts <= ordered[n].ts {
          var i :| 0 <= i < |ordered| && ordered[i] == s;
          assert i < n ==> ByTime(ordered[i], ordered[n]);
        }
      } else {
        assert Confirmations(ordered) == Confirmations(ordered[..n]) + [] == Confirmations(ordered[..n]);
      }
    }
  }

  // ---------------------------------------------------------------- any run of one record

  /** Harvests, mixed with edits by others to everything but the two timestamps. */
  datatype Step =
    | Poll(signals: seq<Signal>, updateOk: bool)
    | Edit(status: string, verified: bool, verifiedAt: Option<string>, fixPr: Option<string>)

  function StepRecord(schema: Schema, r: Record, step: Step): Record {
    match step
    case Poll(signals, updateOk) =>
      var outcome := Harvest(schema, r, signals, updateOk);
      if outcome.Updated? then outcome.record else r
    case Edit(status, verified, verifiedAt, fixPr) =>
      r.(status := status, verified := verified, verifiedAt := verifiedAt, fixPr := fixPr, version := r.version + 1)
  }

  function After(schema: Schema, r: Record, steps: seq<Step>): Record {
    if steps == [] then r
    else StepRecord(schema, After(schema, r, steps[..|steps| - 1]), steps[|steps| - 1])
  }

  /** The signals that moved the record, in order. */
  function Movements(schema: Schema, r: Record, steps: seq<Step>): seq<Signal> {
    if steps == [] then []
    else
      var n := |steps| - 1;
      var before := After(schema, r, steps[..n]);
      Movements(schema, r, steps[..n])
      + (if steps[n].Poll? && Harvest(schema, before, steps[n].signals, steps[n].updateOk).Updated?
         then [Harvest(schema, before, steps[n].signals, steps[n].updateOk).signal] else [])
  }

  /** Ever newer signals, all after `from`, that have moved the watermark to `now`. */
  ghost predicate Forward(moves: seq<Signal>, from: real, now: real) {
    && (forall i, j :: 0 <= i < j < |moves| ==> moves[i].ts < moves[j].ts)
    && (forall i :: 0 <= i < |moves| ==> from < moves[i].ts <= now)
    && now == (if moves == [] then from else moves[|moves| - 1].ts)
  }

  lemma ForwardAppend(moves: seq<Signal>, from: real, now: real, s: Signal)
    requires Forward(moves, from, now) && s.ts > now
    ensures Forward(moves + [s], from, s.ts)
  {
  }

  /** Over any run the record is moved by ever newer signals, each newer than everything dealt with before, so
      no signal moves it twice and no old confirmation closes it again after it was reopened. */
  lemma {:induction false} MovementsOnlyGoForward(schema: Schema, r: Record, steps: seq<Step>)
    ensures Forward(Movements(schema, r, steps), Watermark(r), Watermark(After(schema, r, steps)))
  {
    if steps != [] {
      var n := |steps| - 1;
      MovementsOnlyGoForward(schema, r, steps[..n]);
      StepMovesForward(schema, r, After(schema, r, steps[..n]), steps[n], Movements(schema, r, steps[..n]));
    }
  }

  lemma StepMovesForward(schema: Schema, r: Record, before: Record, step: Step, moves: seq<Signal>)
    requires Forward(moves, Watermark(r), Watermark(before))
    ensures var moved := step.Poll? && Harvest(schema, before, step.signals, step.updateOk).Updated?;
            Forward(moves + (if moved then [Harvest(schema, before, step.signals, step.updateOk).signal] else []),
                    Watermark(r), Watermark(StepRecord(schema, before, step)))
  {
    if step.Poll? && Harvest(schema, before, step.signals, step.updateOk).Updated? {
      UpdateMovesWatermark(schema, before, step.signals, step.updateOk);
      ForwardAppend(moves, Watermark(r), Watermark(before), Harvest(schema, before, step.signals, step.updateOk).signal);
    } else {
      assert Watermark(StepRecord(schema, before, step)) == Watermark(before);
      assert moves + [] == moves;
    }
  }

  /** Signals no newer than the watermark leave the record untouched, whatever was edited since. */
  lemma OldSignalsChangeNothing(schema: Schema, r: Record, steps: seq<Step>, signals: seq<Signal>, updateOk: bool)
    requires forall s :: s in signals ==> s.ts <= Watermark(After(schema, r, steps))
    ensures StepRecord(schema, After(schema, r, steps), Poll(signals, updateOk)) == After(schema, r, steps)
  {
    LatestIsNewest(signals);
  }

  // ---------------------------------------------------------------- replay

  ghost predicate DistinctTimes(signals: seq<Signal>) {
    forall a, b :: a in signals && b in signals && a.ts == b.ts ==> a == b
  }

  const ALL_FIELDS: set<Field> := {ChannelField, ThreadField, BotField, ConfirmedField, ReproducedField, FixField,
                                   VerifiedField, VerifiedAtField, StatusField, NoteField}

  ghost predicate PollsOf(steps: seq<Step>, all: seq<Signal>) {
    forall i :: 0 <= i < |steps| ==> steps[i].Poll? && forall s :: s in steps[i].signals ==> s in all
  }

  lemma NothingNewer(schema: Schema, r: Record, steps: seq<Step>, all: seq<Signal>)
    requires PollsOf(steps, all) && forall s :: s in all ==> s.ts <= Watermark(r)
    ensures After(schema, r, steps) == r
  {
    if steps != [] {
      var n := |steps| - 1;
      NothingNewer(schema, r, steps[..n], all);
      LatestIsNewest(steps[n].signals);
    }
  }

  /** With every field provisioned, a newer signal always updates, and the update sets these fields. */
  lemma NewerUpdates(schema: Schema, r: Record, signals: seq<Signal>, newest: Signal)
    requires schema.fields == ALL_FIELDS && Latest(signals) == Some(newest) && newest.ts > Watermark(r)
    ensures var outcome := Harvest(schema, r, signals, true);
            && outcome.Updated? && outcome.signal == newest
            && outcome.record.fixPr == Carried(FixIn(signals), r.fixPr)
  {
    var confirmations := Confirmations(Sort(ByTime, signals));
    assert PatchKeys(schema, r, newest, Last(confirmations), LastFix(confirmations)) <= ALL_FIELDS;
  }

  // ---------------------------------------------------------------- the fix reference

  /** The fix reference a harvest of these signals writes, if any. */
  function FixIn(signals: seq<Signal>): Option<string> {
    LastFix(Confirmations(Sort(ByTime, signals)))
  }

  function Carried(fix: Option<string>, before: Option<string>): Option<string> {
    if fix.Some? then fix else before
  }

  predicate HasFix(s: Signal) {
    Confirms(s) && s.fixPr.Some? && s.fixPr.value != ""
  }

  /** `fix` is the reference of the newest confirmation that has one. */
  ghost predicate NewestFix(signals: seq<Signal>, fix: Option<string>) {
    if fix.None? then forall s :: s in signals ==> !HasFix(s)
    else exists s :: s in signals && HasFix(s) && s.fixPr == fix && forall u :: u in signals && HasFix(u) ==> u.ts <= s.ts
  }

  lemma LastFixAppend(before: seq<Signal>, s: Signal)
    ensures LastFix(Confirmations(before + [s])) == (if HasFix(s) then s.fixPr else LastFix(Confirmations(before)))
  {
    var confirmations := Confirmations(before);
    assert (before + [s])[..|before|] == before;
    if Confirms(s) {
      assert Confirmations(before + [s]) == confirmations + [s];
      assert (confirmations + [s])[..|confirmations|] == confirmations;
    } else {
      assert confirmations + [] == confirmations;
    }
  }

  lemma {:induction false} LastFixIsNewest(ordered: seq<Signal>)
    requires SortedBy(ByTime, ordered)
    ensures NewestFix(ordered, LastFix(Confirmations(ordered)))
  {
    if ordered != [] {
      var n := |ordered| - 1;
      var before, s := ordered[..n], ordered[n];
      LastFixIsNewest(before);
      assert ordered == before + [s];
      LastFixAppend(before, s);
      if HasFix(s) {
        forall u | u in ordered ensures u.ts <= s.ts {
          var i :| 0 <= i < |ordered| && ordered[i] == u;
          assert i < n ==> ByTime(ordered[i], ordered[n]);
        }
      } else if LastFix(Confirmations(before)).Some? {
        var t :| t in before && HasFix(t) && t.fixPr == LastFix(Confirmations(before)) && forall u :: u in before && HasFix(u) ==> u.ts <= t.ts;
        assert t in ordered;
      }
    }
  }

  lemma FixIsNewest(signals: seq<Signal>)
    ensures NewestFix(signals, FixIn(signals))
  {
    var ordered := Sort(ByTime, signals);
    TimeIsAnOrder();
    SortSpec(ByTime, signals);
    SameElements(ordered, signals);
    LastFixIsNewest(ordered);
  }

  /** With distinct times the fix reference depends only on which signals there are. */
  lemma FixDependsOnSignals(a: seq<Signal>, b: seq<Signal>)
    requires DistinctTimes(a) && forall s :: s in a <==> s in b
    ensures FixIn(a) == FixIn(b)
  {
    FixIsNewest(a);
    FixIsNewest(b);
  }

  /** A confirmation with a reference that is the newest signal decides. */
  lemma NewestDecidesFix(signals: seq<Signal>, newest: Signal)
    requires newest in signals && HasFix(newest)
    requires forall s :: s in signals && s != newest ==> s.ts < newest.ts
    ensures FixIn(signals) == newest.fixPr
  {
    FixIsNewest(signals);
  }

  /** Whoever is in the poll, so is everything older. */
  ghost predicate HoldsOlder(signals: seq<Signal>, all: seq<Signal>) {
    forall s, u :: s in signals && u in all && u.ts < s.ts ==> u in signals
  }

  ghost predicate PollsHoldOlder(steps: seq<Step>, all: seq<Signal>) {
    forall i :: 0 <= i < |steps| && steps[i].Poll? ==> HoldsOlder(steps[i].signals, all)
  }

  /** A poll that updates. */
  predicate Moves(schema: Schema, r: Record, step: Step) {
    step.Poll? && Harvest(schema, r, step.signals, step.updateOk).Updated?
  }

  /** The reference comes from one of the signals or was there before. */
  ghost predicate FixOrigin(all: seq<Signal>, before: Option<string>, now: Option<string>) {
    now == before || exists u :: u in all && HasFix(u) && u.fixPr == now
  }

  lemma {:induction false} FixIsCarried(schema: Schema, r: Record, steps: seq<Step>, all: seq<Signal>)
    requires PollsOf(steps, all)
    ensures FixOrigin(all, r.fixPr, After(schema, r, steps).fixPr)
  {
    if steps != [] {
      var n := |steps| - 1;
      FixIsCarried(schema, r, steps[..n], all);
      FixIsNewest(steps[n].signals);
    }
  }

  /** A poll that reaches the newest signal: what it makes of the reference. */
  lemma ReachingPoll(schema: Schema, before: Record, step: Step, all: seq<Signal>, newest: Signal)
    requires Moves(schema, before, step) && (forall s :: s in step.signals ==> s in all)
    requires DistinctTimes(all) && Latest(all) == Some(newest)
    requires Watermark(StepRecord(schema, before, step)) >= newest.ts
    ensures newest in step.signals && Latest(step.signals) == Some(newest)
    ensures StepRecord(schema, before, step).fixPr == Carried(FixIn(step.signals), before.fixPr)
  {
    LatestIsNewest(all);
    LatestIsNewest(step.signals);
    UpdateMovesWatermark(schema, before, step.signals, step.updateOk);
  }

  lemma WholePoll(signals: seq<Signal>, all: seq<Signal>, newest: Signal)
    requires newest in signals && HoldsOlder(signals, all) && (forall s :: s in signals ==> s in all)
    requires DistinctTimes(all) && Latest(all) == Some(newest)
    ensures FixIn(signals) == FixIn(all)
  {
    LatestIsNewest(all);
    forall s | s in all ensures s in signals { assert s == newest || s.ts < newest.ts; }
    FixDependsOnSignals(all, signals);
  }

  /** The reference all signals together leave. */
  function FinalFix(r: Record, all: seq<Signal>): Option<string> {
    Carried(FixIn(all), r.fixPr)
  }

  lemma NoFixNoChange(schema: Schema, r: Record, steps: seq<Step>, all: seq<Signal>)
    requires PollsOf(steps, all) && FixIn(all).None?
    ensures After(schema, r, steps).fixPr == r.fixPr
  {
    FixIsNewest(all);
    FixIsCarried(schema, r, steps, all);
  }

  lemma {:induction false} WholePollsReachFinalFix(schema: Schema, r: Record, steps: seq<Step>, all: seq<Signal>, newest: Signal)
    requires PollsOf(steps, all) && PollsHoldOlder(steps, all) && DistinctTimes(all) && Latest(all) == Some(newest)
    requires newest.ts > Watermark(r)
    ensures Watermark(After(schema, r, steps)) >= newest.ts ==> After(schema, r, steps).fixPr == FinalFix(r, all)
  {
    if steps != [] {
      var n := |steps| - 1;
      var before := After(schema, r, steps[..n]);
      WholePollsReachFinalFix(schema, r, steps[..n], all, newest);
      if Moves(schema, before, steps[n]) && Watermark(StepRecord(schema, before, steps[n])) >= newest.ts {
        ReachingPoll(schema, before, steps[n], all, newest);
        WholePoll(steps[n].signals, all, newest);
        if FixIn(all).None? { NoFixNoChange(schema, r, steps[..n], all); }
      }
    }
  }

  /** If no poll misses a message older than one it holds, the fix reference ends as after one harvest of all. */
  lemma FixReferenceReplays(schema: Schema, r: Record, steps: seq<Step>, all: seq<Signal>)
    requires PollsOf(steps, all) && PollsHoldOlder(steps, all) && DistinctTimes(all) && schema.fields == ALL_FIELDS
    ensures StepRecord(schema, After(schema, r, steps), Poll(all, true)).fixPr == StepRecord(schema, r, Poll(all, true)).fixPr
  {
    LatestIsNewest(all);
    if Latest(all).None? || Latest(all).value.ts <= Watermark(r) {
      NothingNewer(schema, r, steps, all);
    } else {
      WholePollsReachFinalFix(schema, r, steps, all, Latest(all).value);
      FinalFixAfterAll(schema, r, r, [], all);
      FinalFixAfterAll(schema, r, After(schema, r, steps), steps, all);
    }
  }

  /** The final harvest writes the final reference, unless the newest signal has been dealt with already. */
  lemma FinalFixAfterAll(schema: Schema, r: Record, now: Record, steps: seq<Step>, all: seq<Signal>)
    requires PollsOf(steps, all) && now == After(schema, r, steps) && schema.fields == ALL_FIELDS && Latest(all).Some?
    ensures StepRecord(schema, now, Poll(all, true)).fixPr
         == if Latest(all).value.ts > Watermark(now) then FinalFix(r, all) else now.fixPr
  {
    if Latest(all).value.ts > Watermark(now) {
      NewerUpdates(schema, now, all, Latest(all).value);
      if FixIn(all).None? { NoFixNoChange(schema, r, steps, all); }
    }
  }

  lemma {:induction false} AfterConcat(schema: Schema, r: Record, a: seq<Step>, b: seq<Step>)
    ensures After(schema, r, a + b) == After(schema, After(schema, r, a), b)
  {
    if b == [] {
      assert a + b == a;
    } else {
      var n := |b| - 1;
      AfterConcat(schema, r, a, b[..n]);
      assert (a + b)[..|a + b| - 1] == a + b[..n] && (a + b)[|a + b| - 1] == b[n];
    }
  }

  /** For polls that miss older messages: let `poll` be the one that reached the newest signal. The reference agrees
      with one harvest of all exactly if there is none in all, or that poll left the same one. */
  lemma FixReferenceAgreesExactly(schema: Schema, r: Record, before: seq<Step>, poll: Step, later: seq<Step>, all: seq<Signal>)
    requires PollsOf(before + [poll] + later, all) && DistinctTimes(all) && schema.fields == ALL_FIELDS
    requires Latest(all).Some? && Latest(all).value.ts > Watermark(r)
    requires Moves(schema, After(schema, r, before), poll) && Latest(all).value in poll.signals
    ensures var final := Poll(all, true);
            (StepRecord(schema, After(schema, r, before + [poll] + later), final).fixPr == StepRecord(schema, r, final).fixPr)
            <==> (FixIn(all).None? || Carried(FixIn(poll.signals), After(schema, r, before).fixPr) == FixIn(all))
  {
    var newest := Latest(all).value;
    var steps := before + [poll];
    var middle, reached := After(schema, r, before), After(schema, r, steps);
    PartsOf(before, poll, later, all);
    LatestIsNewest(all);
    LatestIsNewest(poll.signals);
    UpdateMovesWatermark(schema, middle, poll.signals, poll.updateOk);
    assert steps[..|before|] == before && reached == StepRecord(schema, middle, poll);
    ReachingPoll(schema, middle, poll, all, newest);
    AfterConcat(schema, r, steps, later);
    NothingNewer(schema, reached, later, all);
    FinalFixAfterAll(schema, r, r, [], all);
    if FixIn(all).None? {
      NoFixNoChange(schema, r, steps, all);
    }
  }

  lemma PartsOf(before: seq<Step>, poll: Step, later: seq<Step>, all: seq<Signal>)
    requires PollsOf(before + [poll] + later, all)
    ensures PollsOf(before, all) && PollsOf(before + [poll], all) && PollsOf(later, all)
    ensures poll.Poll? && forall s :: s in poll.signals ==> s in all
  {
    var steps := before + [poll] + later;
    assert forall i :: 0 <= i < |before| ==> steps[i] == before[i];
    assert steps[|before|] == poll;
    assert forall i :: 0 <= i < |later| ==> steps[|before| + 1 + i] == later[i];
  }

  /** The reference is the same for every schedule. */
  ghost predicate FixReplays(schema: Schema, r: Record, all: seq<Signal>) {
    forall steps :: PollsOf(steps, all) ==>
      StepRecord(schema, After(schema, r, steps), Poll(all, true)).fixPr == StepRecord(schema, r, Poll(all, true)).fixPr
  }

  /** Nothing to lose: the newest signal is old or decides the reference, there is none, or only one value occurs. */
  ghost predicate FixSettled(r: Record, all: seq<Signal>) {
    || Latest(all).None? || Latest(all).value.ts <= Watermark(r) || HasFix(Latest(all).value) || FixIn(all).None?
    || (r.fixPr == FixIn(all) && forall u :: u in all && HasFix(u) ==> u.fixPr == FixIn(all))
  }

  /** Over all schedules, also those whose polls miss older messages, the reference is independent of arrival exactly
      if it is settled in this sense. */
  lemma FixReplaysExactly(schema: Schema, r: Record, all: seq<Signal>)
    requires DistinctTimes(all) && schema.fields == ALL_FIELDS
    ensures FixReplays(schema, r, all) <==> FixSettled(r, all)
  {
    if FixSettled(r, all) {
      forall steps | PollsOf(steps, all)
        ensures StepRecord(schema, After(schema, r, steps), Poll(all, true)).fixPr == StepRecord(schema, r, Poll(all, true)).fixPr
      {
        SettledFixReplays(schema, r, steps, all);
      }
    } else {
      UnsettledFixDiffers(schema, r, all);
    }
  }

  lemma SettledFixReplays(schema: Schema, r: Record, steps: seq<Step>, all: seq<Signal>)
    requires PollsOf(steps, all) && DistinctTimes(all) && schema.fields == ALL_FIELDS && FixSettled(r, all)
    ensures StepRecord(schema, After(schema, r, steps), Poll(all, true)).fixPr == StepRecord(schema, r, Poll(all, true)).fixPr
  {
    LatestIsNewest(all);
    if Latest(all).None? || Latest(all).value.ts <= Watermark(r) {
      NothingNewer(schema, r, steps, all);
    } else {
      var newest := Latest(all).value;
      FinalFixAfterAll(schema, r, r, [], all);
      FinalFixAfterAll(schema, r, After(schema, r, steps), steps, all);
      if HasFix(newest) {
        NewestDecidesFix(all, newest);
        NewestFixReached(schema, r, steps, all, newest);
      } else {
        FixIsNewest(all);
        FixIsCarried(schema, r, steps, all);
      }
    }
  }

  lemma {:induction false} NewestFixReached(schema: Schema, r: Record, steps: seq<Step>, all: seq<Signal>, newest: Signal)
    requires PollsOf(steps, all) && DistinctTimes(all) && Latest(all) == Some(newest) && HasFix(newest)
    requires newest.ts > Watermark(r)
    ensures Watermark(After(schema, r, steps)) >= newest.ts ==> After(schema, r, steps).fixPr == newest.fixPr
  {
    if steps != [] {
      var n := |steps| - 1;
      var before := After(schema, r, steps[..n]);
      NewestFixReached(schema, r, steps[..n], all, newest);
      if Moves(schema, before, steps[n]) && Watermark(StepRecord(schema, before, steps[n])) >= newest.ts {
        ReachingPoll(schema, before, steps[n], all, newest);
        LatestIsNewest(all);
        NewestDecidesFix(steps[n].signals, newest);
      }
    }
  }

  /** Polling the newest signal, alone or with one confirmation, then everything. */
  lemma OnePollThenAll(schema: Schema, r: Record, signals: seq<Signal>, all: seq<Signal>)
    requires DistinctTimes(all) && schema.fields == ALL_FIELDS
    requires Latest(all).Some? && Latest(all).value.ts > Watermark(r) && Latest(all).value in signals
    requires forall s :: s in signals ==> s in all
    ensures PollsOf([Poll(signals, true)], all)
    ensures StepRecord(schema, After(schema, r, [Poll(signals, true)]), Poll(all, true)).fixPr == Carried(FixIn(signals), r.fixPr)
  {
    var newest, step := Latest(all).value, Poll(signals, true);
    LatestIsNewest(all);
    LatestIsNewest(signals);
    assert Latest(signals) == Some(newest);
    NewerUpdates(schema, r, signals, newest);
    UpdateMovesWatermark(schema, r, signals, true);
    assert [step][..0] == [] && After(schema, r, [step]) == StepRecord(schema, r, step);
    FinalFixAfterAll(schema, r, After(schema, r, [step]), [step], all);
  }

  lemma UnsettledFixDiffers(schema: Schema, r: Record, all: seq<Signal>)
    requires DistinctTimes(all) && schema.fields == ALL_FIELDS && !FixSettled(r, all)
    ensures !FixReplays(schema, r, all)
  {
    var newest := Latest(all).value;
    LatestIsNewest(all);
    FinalFixAfterAll(schema, r, r, [], all);
    FixIsNewest([newest]);
    OnePollThenAll(schema, r, [newest], all);
    if r.fixPr == FixIn(all) {
      var u :| u in all && HasFix(u) && u.fixPr != FixIn(all);
      FixIsNewest([u, newest]);
      OnePollThenAll(schema, r, [u, newest], all);
    }
  }

  // ---------------------------------------------------------------- the fields that only the newest signal decides

  /** What an update makes of one field: its signal sets it or leaves it alone. */
  ghost predicate Writes<T(!new)>(schema: Schema, get: Record -> T, sets: Signal -> Option<T>) {
    forall r, signals, ok :: Harvest(schema, r, signals, ok).Updated? ==>
      var u := Harvest(schema, r, signals, ok);
      get(u.record) == if sets(u.signal).Some? then sets(u.signal).value else get(r)
  }

  /** The field is the same for every schedule. */
  ghost predicate Replays<T(!new)>(schema: Schema, get: Record -> T, r: Record, all: seq<Signal>) {
    forall steps :: PollsOf(steps, all) ==>
      get(StepRecord(schema, After(schema, r, steps), Poll(all, true))) == get(StepRecord(schema, r, Poll(all, true)))
  }

  /** A signal that would change the field if it were harvested alone. */
  predicate Changes<T(==)>(get: Record -> T, sets: Signal -> Option<T>, r: Record, u: Signal) {
    u.ts > Watermark(r) && sets(u).Some? && sets(u).value != get(r)
  }

  /** The newest signal sets the field, or no signal could have changed it before. */
  predicate Settled<T(==)>(get: Record -> T, sets: Signal -> Option<T>, r: Record, all: seq<Signal>) {
    Latest(all).None? || sets(Latest(all).value).Some? || forall u :: u in all ==> !Changes(get, sets, r, u)
  }

  /** Over all schedules such a field is independent of arrival exactly if it is settled in this sense. */
  lemma ReplaysExactly<T(!new)>(schema: Schema, get: Record -> T, sets: Signal -> Option<T>, r: Record, all: seq<Signal>)
    requires DistinctTimes(all) && schema.fields == ALL_FIELDS && Writes(schema, get, sets)
    ensures Replays(schema, get, r, all) <==> Settled(get, sets, r, all)
  {
    if Settled(get, sets, r, all) {
      forall steps | PollsOf(steps, all)
        ensures get(StepRecord(schema, After(schema, r, steps), Poll(all, true))) == get(StepRecord(schema, r, Poll(all, true)))
      {
        SettledReplays(schema, get, sets, r, steps, all);
      }
    } else {
      UnsettledDiffers(schema, get, sets, r, all);
    }
  }

  lemma {:induction false} FieldIsCarried<T(!new)>(schema: Schema, get: Record -> T, sets: Signal -> Option<T>, r: Record,
                                                   steps: seq<Step>, all: seq<Signal>)
    requires PollsOf(steps, all) && Writes(schema, get, sets) && forall u :: u in all ==> !Changes(get, sets, r, u)
    ensures get(After(schema, r, steps)) == get(r) && Watermark(After(schema, r, steps)) >= Watermark(r)
  {
    if steps != [] {
      var n := |steps| - 1;
      var before := After(schema, r, steps[..n]);
      FieldIsCarried(schema, get, sets, r, steps[..n], all);
      if Moves(schema, before, steps[n]) {
        UpdateMovesWatermark(schema, before, steps[n].signals, steps[n].updateOk);
        LatestIsNewest(steps[n].signals);
      }
    }
  }

  lemma {:induction false} NewestReached<T(!new)>(schema: Schema, get: Record -> T, sets: Signal -> Option<T>, r: Record,
                                                  steps: seq<Step>, all: seq<Signal>, newest: Signal)
    requires PollsOf(steps, all) && Writes(schema, get, sets) && DistinctTimes(all)
    requires Latest(all) == Some(newest) && newest.ts > Watermark(r) && sets(newest).Some?
    ensures Watermark(After(schema, r, steps)) >= newest.ts ==> get(After(schema, r, steps)) == sets(newest).value
  {
    if steps != [] {
      var n := |steps| - 1;
      var before := After(schema, r, steps[..n]);
      NewestReached(schema, get, sets, r, steps[..n], all, newest);
      if Moves(schema, before, steps[n]) && Watermark(StepRecord(schema, before, steps[n])) >= newest.ts {
        ReachingPoll(schema, before, steps[n], all, newest);
      }
    }
  }

  /** What the final harvest makes of the field. */
  lemma FinalPoll<T(!new)>(schema: Schema, get: Record -> T, sets: Signal -> Option<T>, now: Record, all: seq<Signal>)
    requires schema.fields == ALL_FIELDS && Writes(schema, get, sets) && Latest(all).Some?
    ensures var newest := Latest(all).value;
            get(StepRecord(schema, now, Poll(all, true)))
            == if newest.ts > Watermark(now) && sets(newest).Some? then sets(newest).value else get(now)
  {
    if Latest(all).value.ts > Watermark(now) { NewerUpdates(schema, now, all, Latest(all).value); }
  }

  lemma SettledReplays<T(!new)>(schema: Schema, get: Record -> T, sets: Signal -> Option<T>, r: Record,
                                steps: seq<Step>, all: seq<Signal>)
    requires PollsOf(steps, all) && DistinctTimes(all) && schema.fields == ALL_FIELDS && Writes(schema, get, sets)
    requires Settled(get, sets, r, all)
    ensures get(StepRecord(schema, After(schema, r, steps), Poll(all, true))) == get(StepRecord(schema, r, Poll(all, true)))
  {
    LatestIsNewest(all);
    if Latest(all).None? || Latest(all).value.ts <= Watermark(r) {
      NothingNewer(schema, r, steps, all);
    } else {
      FinalPoll(schema, get, sets, r, all);
      FinalPoll(schema, get, sets, After(schema, r, steps), all);
      if sets(Latest(all).value).Some? {
        NewestReached(schema, get, sets, r, steps, all, Latest(all).value);
      } else {
        FieldIsCarried(schema, get, sets, r, steps, all);
      }
    }
  }

  lemma OneSignalPoll<T(!new)>(schema: Schema, get: Record -> T, sets: Signal -> Option<T>, r: Record, u: Signal)
    requires schema.fields == ALL_FIELDS && Writes(schema, get, sets) && Changes(get, sets, r, u)
    ensures get(After(schema, r, [Poll([u], true)])) == sets(u).value
  {
    var step := Poll([u], true);
    LatestIsNewest([u]);
    FinalPoll(schema, get, sets, r, [u]);
    assert [step][..0] == [] && After(schema, r, [step]) == StepRecord(schema, r, step);
  }

  lemma UnsettledDiffers<T(!new)>(schema: Schema, get: Record -> T, sets: Signal -> Option<T>, r: Record, all: seq<Signal>)
    requires schema.fields == ALL_FIELDS && Writes(schema, get, sets) && !Settled(get, sets, r, all)
    ensures !Replays(schema, get, r, all)
  {
    var u :| u in all && Changes(get, sets, r, u);
    var steps := [Poll([u], true)];
    OneSignalPoll(schema, get, sets, r, u);
    FinalPoll(schema, get, sets, r, all);
    FinalPoll(schema, get, sets, After(schema, r, steps), all);
    assert PollsOf(steps, all);
  }

  const STATUS: Record -> string := (r: Record) => r.status
  const DATE: Record -> Option<string> := (r: Record) => r.verifiedAt
  const VERIFIED: Record -> bool := (r: Record) => r.verified
  const DEALT_WITH: Record -> real := (r: Record) => Watermark(r)

  const SOURCE: Record -> (string, string) := (r: Record) => (r.channel, r.thread)
  const BOT: Record -> Option<string> := (r: Record) => r.bot

  function SetsStatus(schema: Schema): Signal -> Option<string> {
    (s: Signal) => StatusFor(schema, s.kind)
  }

  function SetsDate(schema: Schema): Signal -> Option<Option<string>> {
    (s: Signal) => if s.kind != Verified then Some(None) else if schema.iso(s.ts).Some? then Some(schema.iso(s.ts)) else None
  }

  const SETS_VERIFIED: Signal -> Option<bool> := (s: Signal) => Some(s.kind == Verified)
  const SETS_DEALT_WITH: Signal -> Option<real> := (s: Signal) => Some(s.ts)

  const SETS_SOURCE: Signal -> Option<(string, string)> := (s: Signal) => Some((s.channel, s.thread))
  const SETS_BOT: Signal -> Option<Option<string>> := (s: Signal) => if s.bot.Some? then Some(s.bot) else None

  lemma UpdatesWrite(schema: Schema)
    ensures Writes(schema, STATUS, SetsStatus(schema)) && Writes(schema, DATE, SetsDate(schema))
    ensures Writes(schema, VERIFIED, SETS_VERIFIED) && Writes(schema, DEALT_WITH, SETS_DEALT_WITH)
    ensures Writes(schema, SOURCE, SETS_SOURCE) && Writes(schema, BOT, SETS_BOT)
  {
    forall r, signals, ok | Harvest(schema, r, signals, ok).Updated?
      ensures Watermark(Harvest(schema, r, signals, ok).record) == Harvest(schema, r, signals, ok).signal.ts
    {
      UpdateMovesWatermark(schema, r, signals, ok);
    }
  }

  /** The status is independent of arrival, over all schedules, exactly if there is an option for the newest kind, or
      no signal could have moved the status before it. */
  lemma StatusReplaysExactly(schema: Schema, r: Record, all: seq<Signal>)
    requires DistinctTimes(all) && schema.fields == ALL_FIELDS
    ensures Replays(schema, STATUS, r, all) <==> Settled(STATUS, SetsStatus(schema), r, all)
  {
    UpdatesWrite(schema);
    ReplaysExactly(schema, STATUS, SetsStatus(schema), r, all);
  }

  /** The date of the verification is, exactly if the newest signal withdraws it or can be dated, or no signal could
      have changed it before. */
  lemma DateReplaysExactly(schema: Schema, r: Record, all: seq<Signal>)
    requires DistinctTimes(all) && schema.fields == ALL_FIELDS
    ensures Replays(schema, DATE, r, all) <==> Settled(DATE, SetsDate(schema), r, all)
  {
    UpdatesWrite(schema);
    ReplaysExactly(schema, DATE, SetsDate(schema), r, all);
  }

  /** However the messages arrive, in whatever parts and with whatever failures before the last harvest, the
      record ends verified or not, linked to the same thread, and dealt with up to the same time, as if all had been
      harvested at once; so do status, date and bot if they are settled, and the fix reference if it is settled or no poll misses a message older
      than one it holds. */
  lemma ReplayIndependence(schema: Schema, r: Record, steps: seq<Step>, all: seq<Signal>)
    requires PollsOf(steps, all) && DistinctTimes(all) && schema.fields == ALL_FIELDS
    ensures var final := Poll(all, true);
            var piecemeal := StepRecord(schema, After(schema, r, steps), final);
            var atOnce := StepRecord(schema, r, final);
            && piecemeal.verified == atOnce.verified && Watermark(piecemeal) == Watermark(atOnce)
            && piecemeal.channel == atOnce.channel && piecemeal.thread == atOnce.thread
            && (Settled(BOT, SETS_BOT, r, all) ==> piecemeal.bot == atOnce.bot)
            && (Settled(STATUS, SetsStatus(schema), r, all) ==> piecemeal.status == atOnce.status)
            && (Settled(DATE, SetsDate(schema), r, all) ==> piecemeal.verifiedAt == atOnce.verifiedAt)
            && (PollsHoldOlder(steps, all) || FixSettled(r, all) ==> piecemeal.fixPr == atOnce.fixPr)
  {
    UpdatesWrite(schema);
    SettledReplays(schema, VERIFIED, SETS_VERIFIED, r, steps, all);
    SettledReplays(schema, DEALT_WITH, SETS_DEALT_WITH, r, steps, all);
    SettledReplays(schema, SOURCE, SETS_SOURCE, r, steps, all);
    if Settled(BOT, SETS_BOT, r, all) { SettledReplays(schema, BOT, SETS_BOT, r, steps, all); }
    if Settled(STATUS, SetsStatus(schema), r, all) { SettledReplays(schema, STATUS, SetsStatus(schema), r, steps, all); }
    if Settled(DATE, SetsDate(schema), r, all) { SettledReplays(schema, DATE, SetsDate(schema), r, steps, all); }
    if PollsHoldOlder(steps, all) { FixReferenceReplays(schema, r, steps, all); }
    if FixSettled(r, all) { SettledFixReplays(schema, r, steps, all); }
  }

  /** Two signals on which the fix reference depends on arrival: an older confirmation that becomes readable only
      after a newer report was dealt with is never looked at again. */
  lemma FixReferenceDependsOnArrival(schema: Schema, r: Record, report: Signal, fixed: Signal)
    requires schema.fields == ALL_FIELDS && Watermark(r) < fixed.ts < report.ts
    requires report.kind == Reproduced && HasFix(fixed) && fixed.fixPr != r.fixPr
    ensures var all := [fixed, report];
            && StepRecord(schema, After(schema, r, [Poll([report], true)]), Poll(all, true)).fixPr == r.fixPr
            && StepRecord(schema, r, Poll(all, true)).fixPr == fixed.fixPr
  {
    var all := [fixed, report];
    LatestIsNewest(all);
    FixIsNewest(all);
    FixIsNewest([report]);
    OnePollThenAll(schema, r, [report], all);
    FinalFixAfterAll(schema, r, r, [], all);
  }

  /** Two signals on which the status does: without an option for the newer one it stays where the older one left it. */
  lemma StatusNeedsItsOption(schema: Schema, r: Record, older: Signal, newer: Signal)
    requires schema.fields == ALL_FIELDS && Watermark(r) < older.ts < newer.ts
    requires Changes(STATUS, SetsStatus(schema), r, older) && StatusFor(schema, newer.kind).None?
    ensures !Replays(schema, STATUS, r, [older, newer])
  {
    LatestIsNewest([older, newer]);
    assert older in [older, newer];
    StatusReplaysExactly(schema, r, [older, newer]);
  }

  // ---------------------------------------------------------------- one harvest over all records

  /** One source of a record: its thread could not be read, or gave so many messages with these signals. */
  datatype Read = ReadFailed | Messages(count: nat, signals: seq<Signal>)

  datatype Group = Group(record: Record, threads: seq<Read>, updateOk: bool)

  datatype Movement = Movement(position: nat, kind: Kind, ts: real)

  datatype Summary = Summary(examined: nat, threadsRead: nat, messagesRead: nat, updated: nat, deployed: nat,
                             verified: nat, reproduced: nat, skipped: nat, errors: nat, movements: seq<Movement>)

  function SignalsOf(threads: seq<Read>): seq<Signal> {
    if threads == [] then []
    else
      var last := threads[|threads| - 1];
      SignalsOf(threads[..|threads| - 1]) + (if last.Messages? then last.signals else [])
  }

  function FailedReads(threads: seq<Read>): nat {
    if threads == [] then 0
    else FailedReads(threads[..|threads| - 1]) + (if threads[|threads| - 1].ReadFailed? then 1 else 0)
  }

  function AllFailedReads(groups: seq<Group>): nat {
    if groups == [] then 0
    else AllFailedReads(groups[..|groups| - 1]) + FailedReads(groups[|groups| - 1].threads)
  }

  function GroupAfter(schema: Schema, g: Group): Record {
    StepRecord(schema, g.record, Poll(SignalsOf(g.threads), g.updateOk))
  }

  predicate Moved(schema: Schema, g: Group) {
    Harvest(schema, g.record, SignalsOf(g.threads), g.updateOk).Updated?
  }

  function MovementOf(schema: Schema, g: Group, position: nat): Movement
    requires Moved(schema, g)
  {
    var signal := Harvest(schema, g.record, SignalsOf(g.threads), g.updateOk).signal;
    Movement(position, signal.kind, signal.ts)
  }

  /** Every examined record is updated, skipped or counted as an error. */
  ghost predicate Counted(groups: seq<Group>, s: Summary) {
    && s.examined == |groups|
    && s.examined + AllFailedReads(groups) == s.updated + s.skipped + s.errors
    && s.updated == s.deployed + s.verified + s.reproduced == |s.movements|
  }

  /** The movements are those of the records that moved, in order. */
  function MovementsOf(schema: Schema, groups: seq<Group>): seq<Movement> {
    if groups == [] then []
    else
      var n := |groups| - 1;
      MovementsOf(schema, groups[..n]) + (if Moved(schema, groups[n]) then [MovementOf(schema, groups[n], n)] else [])
  }

  function ThreadsRead(threads: seq<Read>): nat {
    if threads == [] then 0
    else ThreadsRead(threads[..|threads| - 1]) + (if threads[|threads| - 1].Messages? then 1 else 0)
  }

  function MessagesRead(threads: seq<Read>): nat {
    if threads == [] then 0
    else
      var last := threads[|threads| - 1];
      MessagesRead(threads[..|threads| - 1]) + (if last.Messages? then last.count else 0)
  }

  /** What one record adds to the summary. */
  function Tally(schema: Schema, s: Summary, g: Group, position: nat): Summary {
    var s' := s.(examined := s.examined + 1, errors := s.errors + FailedReads(g.threads),
                 threadsRead := s.threadsRead + ThreadsRead(g.threads), messagesRead := s.messagesRead + MessagesRead(g.threads));
    match Harvest(schema, g.record, SignalsOf(g.threads), g.updateOk)
    case Skipped => s'.(skipped := s'.skipped + 1)
    case Rejected => s'.(errors := s'.errors + 1)
    case Updated(_, signal) =>
      s'.(updated := s'.updated + 1,
          deployed := s'.deployed + (if signal.kind == Deployed then 1 else 0),
          verified := s'.verified + (if signal.kind == Verified then 1 else 0),
          reproduced := s'.reproduced + (if signal.kind == Reproduced then 1 else 0),
          movements := s'.movements + [Movement(position, signal.kind, signal.ts)])
  }

  const EMPTY_SUMMARY := Summary(0, 0, 0, 0, 0, 0, 0, 0, 0, [])

  function SummaryOf(schema: Schema, groups: seq<Group>): Summary {
    if groups == [] then EMPTY_SUMMARY
    else
      var n := |groups| - 1;
      Tally(schema, SummaryOf(schema, groups[..n]), groups[n], n)
  }

  function RecordsAfter(schema: Schema, groups: seq<Group>): seq<Record> {
    if groups == [] then []
    else RecordsAfter(schema, groups[..|groups| - 1]) + [GroupAfter(schema, groups[|groups| - 1])]
  }

  /** The summary of a harvest accounts for every record, and its movements are exactly those of the records
      that moved. */
  lemma {:induction false} SummaryAccounts(schema: Schema, groups: seq<Group>)
    ensures Counted(groups, SummaryOf(schema, groups))
    ensures SummaryOf(schema, groups).movements == MovementsOf(schema, groups)
  {
    if groups != [] {
      var n := |groups| - 1;
      SummaryAccounts(schema, groups[..n]);
      assert groups == groups[..n] + [groups[n]];
      TallyCounts(schema, groups[..n], SummaryOf(schema, groups[..n]), groups[n]);
    }
  }

  lemma TallyCounts(schema: Schema, before: seq<Group>, s: Summary, g: Group)
    requires Counted(before, s) && s.movements == MovementsOf(schema, before)
    ensures Counted(before + [g], Tally(schema, s, g, |before|))
    ensures Tally(schema, s, g, |before|).movements
         == s.movements + (if Moved(schema, g) then [MovementOf(schema, g, |before|)] else [])
  {
    assert (before + [g])[..|before|] == before;
    assert s.movements + [] == s.movements;
  }

  /** How many of the movements are of this kind. */
  function OfKind(movements: seq<Movement>, kind: Kind): nat {
    if movements == [] then 0
    else OfKind(movements[..|movements| - 1], kind) + (if movements[|movements| - 1].kind == kind then 1 else 0)
  }

  /** How many records had nothing newer. */
  function Unmoved(groups: seq<Group>): nat {
    if groups == [] then 0
    else
      var g := groups[|groups| - 1];
      Unmoved(groups[..|groups| - 1]) + (if Newer(g.record, SignalsOf(g.threads)) then 0 else 1)
  }

  function Sources(groups: seq<Group>): nat {
    if groups == [] then 0 else Sources(groups[..|groups| - 1]) + |groups[|groups| - 1].threads|
  }

  function MessageCount(threads: seq<Read>): nat {
    if threads == [] then 0
    else (match threads[0] case ReadFailed => 0 case Messages(count, _) => count) + MessageCount(threads[1..])
  }

  function Messages(groups: seq<Group>): nat {
    if groups == [] then 0 else Messages(groups[..|groups| - 1]) + MessageCount(groups[|groups| - 1].threads)
  }

  lemma {:induction false} MessageCountAppend(threads: seq<Read>, last: Read)
    ensures MessageCount(threads + [last]) == MessageCount(threads) + (match last case ReadFailed => 0 case Messages(count, _) => count)
  {
    if threads == [] {
      assert [last][1..] == [] && threads + [last] == [last];
    } else {
      assert (threads + [last])[1..] == threads[1..] + [last];
      MessageCountAppend(threads[1..], last);
    }
  }

  lemma {:induction false} EveryMessageIsCounted(threads: seq<Read>)
    ensures MessagesRead(threads) == MessageCount(threads)
  {
    if threads != [] {
      var n := |threads| - 1;
      EveryMessageIsCounted(threads[..n]);
      MessageCountAppend(threads[..n], threads[n]);
      assert threads == threads[..n] + [threads[n]];
    }
  }

  /** The signals of a record are those of all its sources that could be read. */
  lemma {:induction false} SignalsExactly(threads: seq<Read>, s: Signal)
    ensures s in SignalsOf(threads) <==> exists i :: 0 <= i < |threads| && threads[i].Messages? && s in threads[i].signals
  {
    if threads != [] {
      var n := |threads| - 1;
      SignalsExactly(threads[..n], s);
      if s in SignalsOf(threads[..n]) {
        var i :| 0 <= i < n && threads[..n][i].Messages? && s in threads[..n][i].signals;
        assert threads[i].Messages? && s in threads[i].signals;
      }
      if i :| 0 <= i < n && threads[i].Messages? && s in threads[i].signals {
        assert threads[..n][i].Messages? && s in threads[..n][i].signals;
      }
    }
  }

  lemma {:induction false} OneRecordEach(schema: Schema, groups: seq<Group>)
    ensures |RecordsAfter(schema, groups)| == |groups|
    ensures forall i :: 0 <= i < |groups| ==> RecordsAfter(schema, groups)[i] == GroupAfter(schema, groups[i])
  {
    if groups != [] { OneRecordEach(schema, groups[..|groups| - 1]); }
  }

  /** One harvest leaves every record updated or as it was, in its place. */
  lemma RecordsExactly(schema: Schema, groups: seq<Group>, i: nat)
    requires i < |groups|
    ensures |RecordsAfter(schema, groups)| == |groups|
    ensures var g := groups[i];
            var outcome := Harvest(schema, g.record, SignalsOf(g.threads), g.updateOk);
            RecordsAfter(schema, groups)[i] == if outcome.Updated? then outcome.record else g.record
  {
    OneRecordEach(schema, groups);
  }

  lemma {:induction false} EverySourceIsReadOrFails(threads: seq<Read>)
    ensures ThreadsRead(threads) + FailedReads(threads) == |threads|
  {
    if threads != [] { EverySourceIsReadOrFails(threads[..|threads| - 1]); }
  }

  ghost predicate KindsCounted(s: Summary) {
    && s.deployed == OfKind(s.movements, Deployed) && s.verified == OfKind(s.movements, Verified)
    && s.reproduced == OfKind(s.movements, Reproduced)
  }

  lemma TallyKeepsKinds(schema: Schema, s: Summary, g: Group, position: nat)
    requires KindsCounted(s)
    ensures KindsCounted(Tally(schema, s, g, position))
  {
    match Harvest(schema, g.record, SignalsOf(g.threads), g.updateOk)
    case Updated(_, signal) => OfKindAppend(s.movements, Movement(position, signal.kind, signal.ts));
    case _ =>
  }

  lemma TallyReads(schema: Schema, s: Summary, g: Group, position: nat)
    ensures var s' := Tally(schema, s, g, position);
            && s'.skipped == s.skipped + (if Newer(g.record, SignalsOf(g.threads)) then 0 else 1)
            && s'.threadsRead + FailedReads(g.threads) == s.threadsRead + |g.threads|
            && s'.messagesRead == s.messagesRead + MessageCount(g.threads)
  {
    EverySourceIsReadOrFails(g.threads);
    EveryMessageIsCounted(g.threads);
    HarvestExactly(schema, g.record, SignalsOf(g.threads), g.updateOk);
  }

  /** The counters, one by one: each kind counts its movements, the skipped records are those with nothing newer, and every
      source of every record was read or failed. What is left are the errors. */
  lemma {:induction false} CountersExactly(schema: Schema, groups: seq<Group>)
    ensures var s := SummaryOf(schema, groups);
            && s.deployed == OfKind(s.movements, Deployed) && s.verified == OfKind(s.movements, Verified)
            && s.reproduced == OfKind(s.movements, Reproduced)
            && s.skipped == Unmoved(groups)
            && s.threadsRead + AllFailedReads(groups) == Sources(groups) && s.messagesRead == Messages(groups)
  {
    if groups != [] {
      var n := |groups| - 1;
      CountersExactly(schema, groups[..n]);
      TallyKeepsKinds(schema, SummaryOf(schema, groups[..n]), groups[n], n);
      TallyReads(schema, SummaryOf(schema, groups[..n]), groups[n], n);
    }
  }

  lemma OfKindAppend(movements: seq<Movement>, m: Movement)
    ensures forall kind :: OfKind(movements + [m], kind) == OfKind(movements, kind) + (if m.kind == kind then 1 else 0)
  {
    assert (movements + [m])[..|movements|] == movements;
  }

  method ReadSources(threads: seq<Read>, start: Summary) returns (signals: seq<Signal>, summary: Summary)
    ensures signals == SignalsOf(threads)
    ensures summary == start.(threadsRead := start.threadsRead + ThreadsRead(threads),
                              messagesRead := start.messagesRead + MessagesRead(threads),
                              errors := start.errors + FailedReads(threads))
  {
    signals, summary := [], start;
    for i := 0 to |threads|
      invariant signals == SignalsOf(threads[..i])
      invariant summary == start.(threadsRead := start.threadsRead + ThreadsRead(threads[..i]),
                                  messagesRead := start.messagesRead + MessagesRead(threads[..i]),
                                  errors := start.errors + FailedReads(threads[..i]))
    {
      assert threads[..i + 1][..i] == threads[..i];
      match threads[i] {
        case ReadFailed => summary := summary.(errors := summary.errors + 1);
        case Messages(count, found) =>
          summary := summary.(threadsRead := summary.threadsRead + 1, messagesRead := summary.messagesRead + count);
          signals := signals + found;
      }
    }
    assert threads[..|threads|] == threads;
  }

  method HarvestGroup(schema: Schema, g: Group, position: nat, start: Summary) returns (record: Record, summary: Summary)
    ensures record == GroupAfter(schema, g)
    ensures summary == Tally(schema, start, g, position)
  {
    var signals;
    signals, summary := ReadSources(g.threads, start.(examined := start.examined + 1));
    record := g.record;
    match Harvest(schema, g.record, signals, g.updateOk) {
      case Skipped => summary := summary.(skipped := summary.skipped + 1);
      case Rejected => summary := summary.(errors := summary.errors + 1);
      case Updated(after, signal) =>
        record := after;
        summary := summary.(updated := summary.updated + 1,
                            movements := summary.movements + [Movement(position, signal.kind, signal.ts)]);
        match signal.kind {
          case Deployed => summary := summary.(deployed := summary.deployed + 1);
          case Verified => summary := summary.(verified := summary.verified + 1);
          case Reproduced => summary := summary.(reproduced := summary.reproduced + 1);
        }
    }
  }

  /** One harvest over all records. */
  method RunHarvest(schema: Schema, groups: seq<Group>) returns (records: seq<Record>, summary: Summary)
    ensures records == RecordsAfter(schema, groups) && summary == SummaryOf(schema, groups)
    ensures Counted(groups, summary)
  {
    records, summary := [], EMPTY_SUMMARY;
    for i := 0 to |groups|
      invariant records == RecordsAfter(schema, groups[..i]) && summary == SummaryOf(schema, groups[..i])
    {
      assert groups[..i + 1][..i] == groups[..i];
      var record;
      record, summary := HarvestGroup(schema, groups[i], i, summary);
      records := records + [record];
    }
    assert groups[..|groups|] == groups;
    SummaryAccounts(schema, groups);
  }
}

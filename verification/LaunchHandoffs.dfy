/**
 Idempotency keys of launch handoffs (brain/systems/launch_handoffs.py, with the unique constraint of
 brain/platform/db/models/launch_handoff.py).

 The table is the sequence of all rows ever created; a row's id is its position.
 */
module LaunchHandoffs {
  import opened Options

  const DERIVED_PREFIX := "derived:launch-handoff:v1:"
  const RETIRED_PREFIX := "retired:lh:v1:"

  /** The two digests. */
  datatype World = World(derive: string -> string, retire: (string, nat, int) -> string)

  /** `derived` is the key kind kept in system metadata, which callers cannot write. */
  datatype Row = Row(org: string, key: Option<string>, derived: bool, status: string, expiresAt: Option<int>,
                     launches: nat, refires: nat, lastRefire: Option<int>, retiredKey: Option<string>)

  /** A request to create a handoff. `identity` is what a provider alert and its owner derive a key from, if the
      source is one; `complete` says that org, title and instructions are there; `races` that the lookup misses a
      holder another transaction has just inserted. */
  datatype Request = Request(org: string, callerKey: string, derive: bool, identity: Option<string>,
                             complete: bool, now: int, races: bool)

  datatype Scope = Strict | Actionable

  datatype Decision = Decision(key: Option<string>, scope: Scope)

  /** `Refused` protects a caller-supplied key; `Conflict` is the unique constraint. */
  datatype Result = Made(i: nat) | Reused(i: nat) | Invalid | Refused | Conflict

  function DerivedKey(w: World, identity: string): string {
    DERIVED_PREFIX + w.derive(identity)
  }

  function RetiredKey(w: World, key: string, i: nat, now: int): string {
    RETIRED_PREFIX + w.retire(key, i, now)
  }

  function ResolveIdempotency(w: World, r: Request): Decision {
    if r.callerKey != "" then Decision(Some(r.callerKey), Strict)
    else if r.derive then
      Decision(if r.identity.Some? then Some(DerivedKey(w, r.identity.value)) else None, Actionable)
    else Decision(None, Strict)
  }

  predicate IsActionable(row: Row, now: int) {
    row.status == "open" && (row.expiresAt.None? || row.expiresAt.value > now)
  }

  predicate Holds(row: Row, org: string, key: string) {
    row.org == org && row.key == Some(key)
  }

  /** The row that holds a key. */
  function Holder(rows: seq<Row>, org: string, key: string): (found: Option<nat>)
    ensures found.Some? ==> found.value < |rows| && Holds(rows[found.value], org, key)
    ensures found.None? ==> forall i :: 0 <= i < |rows| ==> !Holds(rows[i], org, key)
  {
    if rows == [] then None
    else if Holds(rows[|rows| - 1], org, key) then Some(|rows| - 1)
    else Holder(rows[..|rows| - 1], org, key)
  }

  function Refired(row: Row, now: int): Row {
    row.(refires := row.refires + 1, lastRefire := Some(now))
  }

  function Retired(w: World, row: Row, i: nat, now: int): Row
    requires row.key.Some?
  {
    row.(retiredKey := row.key, key := Some(RetiredKey(w, row.key.value, i, now)))
  }

  function NewRow(d: Decision, org: string): Row {
    Row(org, d.key, d.key.Some? && d.scope == Actionable, "open", None, 0, 0, None, None)
  }

  predicate MayRetire(row: Row) {
    row.key.Some? && DERIVED_PREFIX <= row.key.value && row.derived
  }

  /** The insertion at the end of a create; a violated constraint rolls the whole create back to `before`. */
  function Inserted(before: seq<Row>, rows: seq<Row>, d: Decision, org: string): (Result, seq<Row>) {
    if d.key.Some? && Holder(rows, org, d.key.value).Some? then (Conflict, before)
    else (Made(|rows|), rows + [NewRow(d, org)])
  }

  function Create(w: World, rows: seq<Row>, r: Request): (Result, seq<Row>) {
    var d := ResolveIdempotency(w, r);
    if !r.complete then (Invalid, rows)
    else if d.key.None? || r.races then Inserted(rows, rows, d, r.org)
    else
      var holder := Holder(rows, r.org, d.key.value);
      if holder.None? then Inserted(rows, rows, d, r.org)
      else
        var i := holder.value;
        if d.scope == Strict || IsActionable(rows[i], r.now) then (Reused(i), rows[i := Refired(rows[i], r.now)])
        else if !MayRetire(rows[i]) then (Refused, rows)
        else if Holder(rows, r.org, RetiredKey(w, d.key.value, i, r.now)).Some? then (Conflict, rows)
        else Inserted(rows, rows[i := Retired(w, rows[i], i, r.now)], d, r.org)
  }

  // ---------------------------------------------------------------- runs

  /** `Change` is anything else that moves a handoff's status or expiry. */
  datatype Step = CreateStep(request: Request) | Launch(i: nat) | Change(i: nat, status: string, expiresAt: Option<int>)

  function StepRows(w: World, rows: seq<Row>, step: Step): seq<Row> {
    match step
    case CreateStep(request) => Create(w, rows, request).1
    case Launch(i) =>
      if i < |rows| then
        rows[i := rows[i].(launches := rows[i].launches + 1, status := if rows[i].status == "open" then "launched" else rows[i].status)]
      else rows
    case Change(i, status, expiresAt) =>
      if i < |rows| then rows[i := rows[i].(status := status, expiresAt := expiresAt)] else rows
  }

  function After(w: World, rows: seq<Row>, steps: seq<Step>): seq<Row> {
    if steps == [] then rows
    else StepRows(w, After(w, rows, steps[..|steps| - 1]), steps[|steps| - 1])
  }

  // ---------------------------------------------------------------- one holder per key

  ghost predicate UniqueKeys(rows: seq<Row>) {
    forall i, j :: 0 <= i < j < |rows| && rows[i].key.Some? && rows[i].key == rows[j].key ==> rows[i].org != rows[j].org
  }

  lemma CreateKeepsUnique(w: World, rows: seq<Row>, r: Request)
    requires UniqueKeys(rows)
    ensures UniqueKeys(Create(w, rows, r).1)
  {
  }

  /** At most one row of an org holds a given key, whatever happens, races included. */
  lemma {:induction false} OneHolderPerKey(w: World, steps: seq<Step>)
    ensures UniqueKeys(After(w, [], steps))
  {
    if steps != [] {
      var n := |steps| - 1;
      OneHolderPerKey(w, steps[..n]);
      if steps[n].CreateStep? { CreateKeepsUnique(w, After(w, [], steps[..n]), steps[n].request); }
    }
  }

  // ---------------------------------------------------------------- what becomes of a row

  /** A row under a caller's key: never marked derived, and the key is the caller's for ever. */
  ghost predicate KeepsCallerKey(row: Row, key: string) {
    row.key == Some(key) && !row.derived
  }

  lemma StepKeepsCallerKey(w: World, rows: seq<Row>, step: Step, i: nat, key: string)
    requires i < |rows| && KeepsCallerKey(rows[i], key)
    ensures i < |StepRows(w, rows, step)| && KeepsCallerKey(StepRows(w, rows, step)[i], key)
  {
  }

  lemma {:induction false} CallerKeySurvives(w: World, rows: seq<Row>, steps: seq<Step>, i: nat, key: string)
    requires i < |rows| && KeepsCallerKey(rows[i], key)
    ensures i < |After(w, rows, steps)| && KeepsCallerKey(After(w, rows, steps)[i], key)
  {
    if steps != [] {
      var n := |steps| - 1;
      CallerKeySurvives(w, rows, steps[..n], i, key);
      StepKeepsCallerKey(w, After(w, rows, steps[..n]), steps[n], i, key);
    }
  }

  /** A row created under a caller-supplied key keeps it for ever, whatever happens afterwards. */
  lemma CallerKeyIsKept(w: World, rows: seq<Row>, r: Request, steps: seq<Step>)
    requires r.callerKey != "" && Create(w, rows, r).0.Made?
    ensures var i := Create(w, rows, r).0.i;
            var later := After(w, Create(w, rows, r).1, steps);
            i < |later| && later[i].key == Some(r.callerKey) && !later[i].derived
  {
    var i := Create(w, rows, r).0.i;
    assert ResolveIdempotency(w, r) == Decision(Some(r.callerKey), Strict);
    CallerKeySurvives(w, Create(w, rows, r).1, steps, i, r.callerKey);
  }

  /** A create that may reuse only actionable handoffs hands out one that is actionable at that moment and holds
      the key. The only other ends are a refusal, exactly for a dead holder that a caller put there, and the
      unique constraint. */
  lemma DerivedCreateIsActionable(w: World, rows: seq<Row>, r: Request)
    requires r.complete && r.callerKey == "" && r.derive && r.identity.Some?
    ensures var key := DerivedKey(w, r.identity.value);
            var (result, rows') := Create(w, rows, r);
            && ((result.Made? || result.Reused?) ==>
                  result.i < |rows'| && IsActionable(rows'[result.i], r.now) && Holds(rows'[result.i], r.org, key))
            && !result.Invalid?
            && (result.Refused? <==>
                  var h := Holder(rows, r.org, key);
                  !r.races && h.Some? && !IsActionable(rows[h.value], r.now) && !rows[h.value].derived)
  {
  }

  // ---------------------------------------------------------------- what a create does

  /** The row of the org that has this key. */
  predicate HeldBy(rows: seq<Row>, i: int, org: string, key: string) {
    0 <= i < |rows| && rows[i].org == org && rows[i].key == Some(key)
  }

  /** Open and not yet expired: at the very time it expires a row is no longer actionable. */
  predicate Alive(row: Row, now: int) {
    row.status == "open" && (row.expiresAt.Some? ==> now < row.expiresAt.value)
  }

  /** The key a request asks for: the caller's own, or the one derived from its alert and owner if it may be derived. */
  function AskedKey(w: World, r: Request): string {
    if r.callerKey != "" then r.callerKey
    else if r.derive && r.identity.Some? then "derived:launch-handoff:v1:" + w.derive(r.identity.value)
    else ""
  }

  lemma HolderIsUnique(rows: seq<Row>, i: int, org: string, key: string)
    requires UniqueKeys(rows) && HeldBy(rows, i, org, key)
    ensures Holder(rows, org, key) == Some(i)
  {
  }

  /** An incomplete request is turned away before anything else, and only it is. */
  lemma InvalidExactly(w: World, rows: seq<Row>, r: Request)
    ensures Create(w, rows, r).0.Invalid? <==> !r.complete
    ensures !r.complete ==> Create(w, rows, r).1 == rows
  {
  }

  /** Whether the row that has the asked key is handed out again: under a caller's own key always, dead or alive; under a
      derived key only while it is alive. It is then counted and dated, and nothing else changes. */
  lemma ReusedExactly(w: World, rows: seq<Row>, r: Request, i: int)
    requires UniqueKeys(rows) && r.complete && !r.races && AskedKey(w, r) != "" && HeldBy(rows, i, r.org, AskedKey(w, r))
    ensures Create(w, rows, r).0 == Reused(i) <==> r.callerKey != "" || Alive(rows[i], r.now)
    ensures Create(w, rows, r).0 == Reused(i) ==>
              Create(w, rows, r).1 == rows[i := rows[i].(refires := rows[i].refires + 1, lastRefire := Some(r.now))]
  {
    HolderIsUnique(rows, i, r.org, AskedKey(w, r));
  }

  /** A dead row under a derived key: the create is refused exactly if the row is not marked as derived or its key does not
      look it. Otherwise the row gives up the key, which stays on record, and a new one takes it, unless the key it
      would move to is taken. */
  lemma DeadHolderExactly(w: World, rows: seq<Row>, r: Request, i: int)
    requires UniqueKeys(rows) && r.complete && !r.races && r.callerKey == "" && AskedKey(w, r) != ""
    requires HeldBy(rows, i, r.org, AskedKey(w, r)) && !Alive(rows[i], r.now)
    ensures var key := AskedKey(w, r);
            var moved := "retired:lh:v1:" + w.retire(key, i, r.now);
            var (result, after) := Create(w, rows, r);
            && (!rows[i].derived ==> result == Refused && after == rows)
            && (rows[i].derived && (exists j :: HeldBy(rows, j, r.org, moved)) ==> result == Conflict && after == rows)
            && (rows[i].derived && !(exists j :: HeldBy(rows, j, r.org, moved)) ==>
                  && result == Made(|rows|)
                  && after == rows[i := rows[i].(key := Some(moved), retiredKey := Some(key))]
                              + [Row(r.org, Some(key), true, "open", None, 0, 0, None, None)])
  {
    var key := AskedKey(w, r);
    var moved := "retired:lh:v1:" + w.retire(key, i, r.now);
    HolderIsUnique(rows, i, r.org, key);
    assert DERIVED_PREFIX <= key;
    assert key[0] == 'd' && moved[0] == 'r';
    if exists j :: HeldBy(rows, j, r.org, moved) {
      var j :| HeldBy(rows, j, r.org, moved);
      HolderIsUnique(rows, j, r.org, moved);
    } else if rows[i].derived {
      NobodyHolds(rows, r.org, moved);
      OthersDoNotHold(rows, i, r.org, key, rows[i].(key := Some(moved), retiredKey := Some(key)));
    }
  }

  lemma NobodyHolds(rows: seq<Row>, org: string, key: string)
    requires !exists j :: HeldBy(rows, j, org, key)
    ensures Holder(rows, org, key).None?
  {
    if Holder(rows, org, key).Some? { assert HeldBy(rows, Holder(rows, org, key).value, org, key); }
  }

  lemma OthersDoNotHold(rows: seq<Row>, i: int, org: string, key: string, row: Row)
    requires UniqueKeys(rows) && HeldBy(rows, i, org, key) && row.key != Some(key)
    ensures Holder(rows[i := row], org, key).None?
  {
  }

  /** Without a key, or with one that nobody has, a complete request makes a new open row under that key, marked derived
      exactly if it did not come from the caller, and changes no other. */
  lemma NewRowExactly(w: World, rows: seq<Row>, r: Request)
    requires r.complete && (AskedKey(w, r) == "" || !exists j :: HeldBy(rows, j, r.org, AskedKey(w, r)))
    ensures var key := AskedKey(w, r);
            Create(w, rows, r) == (Made(|rows|),
                                   rows + [Row(r.org, if key == "" then None else Some(key), key != "" && r.callerKey == "",
                                               "open", None, 0, 0, None, None)])
  {
    if AskedKey(w, r) != "" { NobodyHolds(rows, r.org, AskedKey(w, r)); }
  }

  /** A launched row is used up: it is no longer alive, so the next create under its derived key does not hand it out. */
  lemma LaunchUsesUp(w: World, rows: seq<Row>, i: nat, now: int)
    requires i < |rows|
    ensures var after := StepRows(w, rows, Launch(i));
            && |after| == |rows| && after[i].launches == rows[i].launches + 1 && !Alive(after[i], now)
            && after[i] == rows[i].(launches := after[i].launches, status := after[i].status)
            && after[i].status == (if rows[i].status == "open" then "launched" else rows[i].status)
            && forall j :: 0 <= j < |rows| && j != i ==> after[j] == rows[j]
  {
  }

  // ---------------------------------------------------------------- no conflict without a race

  /** The digests do not collide, at least for different rows. */
  ghost predicate Injective(w: World) {
    forall k, i, t, k', i', t' :: w.retire(k, i, t) == w.retire(k', i', t') ==> i == i'
  }

  /** Where a key can come from. */
  ghost predicate KeyOrigin(w: World, row: Row, i: nat) {
    if row.key.None? then !row.derived
    else if !row.derived then !(RETIRED_PREFIX <= row.key.value)
    else
      || (row.retiredKey.None? && exists identity :: row.key.value == DerivedKey(w, identity))
      || (row.retiredKey.Some? && exists t :: row.key.value == RetiredKey(w, row.retiredKey.value, i, t))
  }

  ghost predicate KeyOrigins(w: World, rows: seq<Row>) {
    forall i :: 0 <= i < |rows| ==> KeyOrigin(w, rows[i], i)
  }

  lemma PrefixesDiffer(w: World, identity: string, key: string, i: nat, now: int)
    ensures DerivedKey(w, identity) != RetiredKey(w, key, i, now)
    ensures !(RETIRED_PREFIX <= DerivedKey(w, identity))
  {
    assert DerivedKey(w, identity)[0] == 'd' && RetiredKey(w, key, i, now)[0] == 'r';
  }

  lemma RetiredKeyIsFree(w: World, rows: seq<Row>, i: nat, now: int, identity: string)
    requires Injective(w) && KeyOrigins(w, rows) && i < |rows| && rows[i].key == Some(DerivedKey(w, identity))
    ensures Holder(rows, rows[i].org, RetiredKey(w, rows[i].key.value, i, now)).None?
  {
    var key := RetiredKey(w, rows[i].key.value, i, now);
    forall j | 0 <= j < |rows| ensures rows[j].key != Some(key) { NotThatKey(w, rows, i, now, identity, j); }
  }

  /** A retired key names the row it was taken from. */
  lemma RetiredKeyNamesItsRow(w: World, row: Row, j: nat, key: string, i: nat, now: int)
    requires Injective(w) && KeyOrigin(w, row, j)
    ensures row.key == Some(RetiredKey(w, key, i, now)) ==> j == i
  {
    var retired := RetiredKey(w, key, i, now);
    assert RETIRED_PREFIX <= retired && retired[|RETIRED_PREFIX|..] == w.retire(key, i, now);
    forall identity ensures DerivedKey(w, identity) != retired { PrefixesDiffer(w, identity, key, i, now); }
    if row.key == Some(retired) {
      var t :| retired == RetiredKey(w, row.retiredKey.value, j, t);
      assert retired[|RETIRED_PREFIX|..] == w.retire(row.retiredKey.value, j, t);
    }
  }

  lemma NotThatKey(w: World, rows: seq<Row>, i: nat, now: int, identity: string, j: nat)
    requires Injective(w) && KeyOrigins(w, rows) && i < |rows| && rows[i].key == Some(DerivedKey(w, identity)) && j < |rows|
    ensures rows[j].key != Some(RetiredKey(w, rows[i].key.value, i, now))
  {
    assert KeyOrigin(w, rows[j], j);
    RetiredKeyNamesItsRow(w, rows[j], j, rows[i].key.value, i, now);
    PrefixesDiffer(w, identity, rows[i].key.value, i, now);
  }

  /** No caller supplies a key from the namespace of retired keys. */
  predicate LeavesRetiredKeys(step: Step) {
    step.CreateStep? ==> !(RETIRED_PREFIX <= step.request.callerKey)
  }

  lemma StepKeepsOrigins(w: World, rows: seq<Row>, step: Step)
    requires KeyOrigins(w, rows) && LeavesRetiredKeys(step)
    ensures KeyOrigins(w, StepRows(w, rows, step))
  {
  }

  lemma {:induction false} RunKeepsOrigins(w: World, steps: seq<Step>)
    requires forall s :: s in steps ==> LeavesRetiredKeys(s)
    ensures KeyOrigins(w, After(w, [], steps))
  {
    if steps != [] {
      var n := |steps| - 1;
      RunKeepsOrigins(w, steps[..n]);
      StepKeepsOrigins(w, After(w, [], steps[..n]), steps[n]);
    }
  }

  /** Apart from races, the unique constraint is never met, as long as callers leave the retired namespace alone. */
  lemma NoConflictWithoutRace(w: World, steps: seq<Step>, r: Request)
    requires Injective(w) && !r.races && forall s :: s in steps ==> LeavesRetiredKeys(s)
    ensures !Create(w, After(w, [], steps), r).0.Conflict?
  {
    var rows := After(w, [], steps);
    var d := ResolveIdempotency(w, r);
    RunKeepsOrigins(w, steps);
    OneHolderPerKey(w, steps);
    if r.complete && d.key.Some? && d.scope == Actionable {
      var holder := Holder(rows, r.org, d.key.value);
      if holder.Some? {
        RetiredKeyIsFree(w, rows, holder.value, r.now, r.identity.value);
        RetiredLeavesKeyFree(w, rows, holder.value, r, r.identity.value);
      }
    }
  }

  lemma RetiredLeavesKeyFree(w: World, rows: seq<Row>, i: nat, r: Request, identity: string)
    requires UniqueKeys(rows) && i < |rows| && Holds(rows[i], r.org, DerivedKey(w, identity))
    ensures Holder(rows[i := Retired(w, rows[i], i, r.now)], r.org, DerivedKey(w, identity)).None?
  {
    var after := rows[i := Retired(w, rows[i], i, r.now)];
    var key := DerivedKey(w, identity);
    PrefixesDiffer(w, identity, key, i, r.now);
    forall j | 0 <= j < |after| ensures !Holds(after[j], r.org, key) {
      assert j < i ==> rows[j].key.Some? && rows[j].key == rows[i].key ==> rows[j].org != rows[i].org;
    }
  }

  /** The holder of the request's derived key is dead and would be retired. */
  predicate Retires(w: World, rows: seq<Row>, r: Request) {
    && r.complete && !r.races && r.callerKey == "" && r.derive && r.identity.Some?
    && var h := Holder(rows, r.org, DerivedKey(w, r.identity.value));
       h.Some? && !IsActionable(rows[h.value], r.now) && rows[h.value].derived
  }

  /** What the dead holder's key would become. */
  function NextRetiredKey(w: World, rows: seq<Row>, r: Request): string
    requires Retires(w, rows, r)
  {
    var key := DerivedKey(w, r.identity.value);
    RetiredKey(w, key, Holder(rows, r.org, key).value, r.now)
  }

  /** A create meets the unique constraint exactly if it races with a holder of its key, or retires a dead holder to
      a key that is already held. */
  lemma ConflictsExactly(w: World, rows: seq<Row>, r: Request)
    requires UniqueKeys(rows)
    ensures var key := ResolveIdempotency(w, r).key;
            Create(w, rows, r).0 == Conflict <==>
              || (r.complete && r.races && key.Some? && Holder(rows, r.org, key.value).Some?)
              || (Retires(w, rows, r) && Holder(rows, r.org, NextRetiredKey(w, rows, r)).Some?)
  {
    if Retires(w, rows, r) {
      var key := DerivedKey(w, r.identity.value);
      assert DERIVED_PREFIX <= key;
      RetiredLeavesKeyFree(w, rows, Holder(rows, r.org, key).value, r, r.identity.value);
    }
  }

  /** Where the key of a derived row comes from, whatever callers do. */
  ghost predicate DerivedOrigins(w: World, rows: seq<Row>) {
    forall i :: 0 <= i < |rows| && rows[i].derived ==> KeyOrigin(w, rows[i], i)
  }

  lemma StepKeepsDerivedOrigins(w: World, rows: seq<Row>, step: Step)
    requires DerivedOrigins(w, rows)
    ensures DerivedOrigins(w, StepRows(w, rows, step))
  {
  }

  lemma {:induction false} RunKeepsDerivedOrigins(w: World, steps: seq<Step>)
    ensures DerivedOrigins(w, After(w, [], steps))
  {
    if steps != [] {
      RunKeepsDerivedOrigins(w, steps[..|steps| - 1]);
      StepKeepsDerivedOrigins(w, After(w, [], steps[..|steps| - 1]), steps[|steps| - 1]);
    }
  }

  /** Some caller created a handoff of the org under this key. */
  ghost predicate CallerHolds(rows: seq<Row>, org: string, key: string) {
    exists j :: 0 <= j < |rows| && Holds(rows[j], org, key) && !rows[j].derived
  }

  /** Over any run, a create without a race meets the constraint exactly if the key it would retire a dead holder to
      is one that a caller supplied. */
  lemma RaceFreeConflictsExactly(w: World, steps: seq<Step>, r: Request)
    requires Injective(w) && !r.races
    ensures var rows := After(w, [], steps);
            Create(w, rows, r).0 == Conflict <==> Retires(w, rows, r) && CallerHolds(rows, r.org, NextRetiredKey(w, rows, r))
  {
    var rows := After(w, [], steps);
    OneHolderPerKey(w, steps);
    RunKeepsDerivedOrigins(w, steps);
    ConflictsExactly(w, rows, r);
    if Retires(w, rows, r) {
      var i := Holder(rows, r.org, DerivedKey(w, r.identity.value)).value;
      var held := Holder(rows, r.org, NextRetiredKey(w, rows, r));
      if held.Some? && rows[held.value].derived {
        RetiredKeyNamesItsRow(w, rows[held.value], held.value, DerivedKey(w, r.identity.value), i, r.now);
        PrefixesDiffer(w, r.identity.value, DerivedKey(w, r.identity.value), i, r.now);
      }
    }
  }

  function OneRequest(org: string, identity: string, now: int): Request {
    Request(org, "", true, Some(identity), true, now, false)
  }

  /** The derived row, launched, beside a row that a caller created under the key it will be retired to. */
  function BlockedRows(w: World, org: string, identity: string, now: int): seq<Row> {
    var key := DerivedKey(w, identity);
    [NewRow(Decision(Some(key), Actionable), org).(launches := 1, status := "launched"),
     NewRow(Decision(Some(RetiredKey(w, key, 0, now)), Strict), org)]
  }

  lemma FirstCreate(w: World, r: Request)
    requires r.complete
    ensures Create(w, [], r) == (Made(0), [NewRow(ResolveIdempotency(w, r), r.org)])
  {
    var none: seq<Row> := [];
    assert none + [NewRow(ResolveIdempotency(w, r), r.org)] == [NewRow(ResolveIdempotency(w, r), r.org)];
  }

  lemma SecondCreate(w: World, row: Row, r: Request)
    requires r.complete && r.callerKey != "" && row.key != Some(r.callerKey)
    ensures Create(w, [row], r).1 == [row, NewRow(Decision(Some(r.callerKey), Strict), r.org)]
  {
    assert [row][..0] == [];
  }

  lemma BlockedIsReachable(w: World, org: string, identity: string, now: int)
    ensures var r := OneRequest(org, identity, now);
            var blocker := r.(callerKey := RetiredKey(w, DerivedKey(w, identity), 0, now));
            After(w, [], [CreateStep(r), CreateStep(blocker), Launch(0)]) == BlockedRows(w, org, identity, now)
  {
    var r := OneRequest(org, identity, now);
    var key := DerivedKey(w, identity);
    var blocker := r.(callerKey := RetiredKey(w, key, 0, now));
    var a, b, c := CreateStep(r), CreateStep(blocker), Launch(0);
    var first := NewRow(Decision(Some(key), Actionable), org);
    var second := NewRow(Decision(Some(blocker.callerKey), Strict), org);
    PrefixesDiffer(w, identity, key, 0, now);
    assert blocker.callerKey[0] == 'r';
    FirstCreate(w, r);
    SecondCreate(w, first, blocker);
    AfterNext(w, [], [], a);
    AfterNext(w, [], [a], b);
    AfterNext(w, [], [a, b], c);
    assert [] + [a] == [a] && [a] + [b] == [a, b] && [a, b] + [c] == [a, b, c];
    assert After(w, [], [a, b]) == [first, second];
  }

  lemma AfterNext(w: World, rows: seq<Row>, steps: seq<Step>, step: Step)
    ensures After(w, rows, steps + [step]) == StepRows(w, After(w, rows, steps), step)
  {
    assert (steps + [step])[..|steps|] == steps;
  }

  /** That guard can be met: a caller who supplies the retired key beforehand blocks the retirement. */
  lemma RetiredNamespaceCanConflict(w: World, org: string, identity: string, now: int)
    ensures var request := OneRequest(org, identity, now);
            var steps := [CreateStep(request),
                          CreateStep(request.(callerKey := RetiredKey(w, DerivedKey(w, identity), 0, now))),
                          Launch(0)];
            Create(w, After(w, [], steps), request).0 == Conflict
  {
    var key := DerivedKey(w, identity);
    var rows := BlockedRows(w, org, identity, now);
    BlockedIsReachable(w, org, identity, now);
    PrefixesDiffer(w, identity, key, 0, now);
    assert DERIVED_PREFIX <= key;
    assert rows[..1] == [rows[0]] && [rows[0]][..0] == [];
  }

  // ---------------------------------------------------------------- every keyed create is accounted for

  function KeyedRows(rows: seq<Row>): nat {
    if rows == [] then 0
    else KeyedRows(rows[..|rows| - 1]) + (if rows[|rows| - 1].key.Some? then 1 else 0)
  }

  function Refires(rows: seq<Row>): nat {
    if rows == [] then 0 else Refires(rows[..|rows| - 1]) + rows[|rows| - 1].refires
  }

  /** Creates that had a key and gave the caller a handoff. */
  function KeyedCreates(w: World, rows: seq<Row>, steps: seq<Step>): nat {
    if steps == [] then 0
    else
      var n := |steps| - 1;
      KeyedCreates(w, rows, steps[..n])
      + (if steps[n].CreateStep? && Served(w, After(w, rows, steps[..n]), steps[n].request) then 1 else 0)
  }

  predicate Served(w: World, rows: seq<Row>, r: Request) {
    var result := Create(w, rows, r).0;
    ResolveIdempotency(w, r).key.Some? && (result.Made? || result.Reused?)
  }

  lemma {:induction false} UpdateCounts(rows: seq<Row>, i: nat, row: Row)
    requires i < |rows| && row.key.Some? == rows[i].key.Some?
    ensures KeyedRows(rows[i := row]) == KeyedRows(rows)
    ensures Refires(rows[i := row]) == Refires(rows) - rows[i].refires + row.refires
  {
    var n := |rows| - 1;
    if i == n {
      assert rows[i := row][..n] == rows[..n];
    } else {
      UpdateCounts(rows[..n], i, row);
      assert rows[i := row][..n] == rows[..n][i := row];
    }
  }

  lemma AppendCounts(rows: seq<Row>, row: Row)
    ensures KeyedRows(rows + [row]) == KeyedRows(rows) + (if row.key.Some? then 1 else 0)
    ensures Refires(rows + [row]) == Refires(rows) + row.refires
  {
  }

  lemma CreateCounts(w: World, rows: seq<Row>, r: Request)
    ensures var rows' := Create(w, rows, r).1;
            KeyedRows(rows') + Refires(rows') == KeyedRows(rows) + Refires(rows) + (if Served(w, rows, r) then 1 else 0)
  {
    var d := ResolveIdempotency(w, r);
    AppendCounts(rows, NewRow(d, r.org));
    if d.key.Some? && Holder(rows, r.org, d.key.value).Some? {
      var i := Holder(rows, r.org, d.key.value).value;
      var retired := rows[i := Retired(w, rows[i], i, r.now)];
      UpdateCounts(rows, i, Refired(rows[i], r.now));
      UpdateCounts(rows, i, Retired(w, rows[i], i, r.now));
      AppendCounts(retired, NewRow(d, r.org));
    }
  }

  lemma OtherStepCounts(w: World, rows: seq<Row>, step: Step)
    requires !step.CreateStep?
    ensures KeyedRows(StepRows(w, rows, step)) == KeyedRows(rows) && Refires(StepRows(w, rows, step)) == Refires(rows)
  {
    if step.i < |rows| { UpdateCounts(rows, step.i, StepRows(w, rows, step)[step.i]); }
  }

  /** Every keyed create that was served either made a keyed row or counts as a refire of one; launches, expiry and
      retirement lose none. */
  lemma {:induction false} KeyedCreatesAreConserved(w: World, steps: seq<Step>)
    ensures KeyedCreates(w, [], steps) == KeyedRows(After(w, [], steps)) + Refires(After(w, [], steps))
  {
    if steps != [] {
      var n := |steps| - 1;
      var rows := After(w, [], steps[..n]);
      KeyedCreatesAreConserved(w, steps[..n]);
      if steps[n].CreateStep? { CreateCounts(w, rows, steps[n].request); } else { OtherStepCounts(w, rows, steps[n]); }
    }
  }

  // ---------------------------------------------------------------- the service

  /** The table the service works on; every method is one transaction. */
  class LaunchHandoffService {
    const world: World
    var rows: seq<Row>

    constructor (world: World)
      ensures this.world == world && rows == []
    {
      this.world := world;
      rows := [];
    }

    method RecordRefire(i: nat, now: int)
      requires i < |rows|
      modifies this
      ensures rows == old(rows)[i := Refired(old(rows)[i], now)]
    {
      var row := rows[i].(refires := rows[i].refires + 1);
      rows := rows[i := row.(lastRefire := Some(now))];
    }

    /** Take the key off a dead holder, keeping it on record; refuses for a caller's key. */
    method RetireDerivedKey(i: nat, now: int) returns (refused: bool)
      requires i < |rows| && rows[i].key.Some?
      modifies this
      ensures refused <==> !MayRetire(old(rows)[i])
      ensures rows == if refused then old(rows) else old(rows)[i := Retired(world, old(rows)[i], i, now)]
    {
      var key := rows[i].key.value;
      if !(DERIVED_PREFIX <= key) || !rows[i].derived { return true; }
      rows := rows[i := rows[i].(retiredKey := Some(key), key := Some(RetiredKey(world, key, i, now)))];
      refused := false;
    }

    method CreateLaunchHandoff(r: Request) returns (result: Result)
      modifies this
      ensures (result, rows) == Create(world, old(rows), r)
    {
      if !r.complete { return Invalid; }
      var d := ResolveIdempotency(world, r);
      var before := rows;
      if d.key.Some? && !r.races {
        var holder := Holder(rows, r.org, d.key.value);
        if holder.Some? {
          var i := holder.value;
          if d.scope == Strict || IsActionable(rows[i], r.now) {
            RecordRefire(i, r.now);
            return Reused(i);
          }
          var taken := Holder(rows, r.org, RetiredKey(world, d.key.value, i, r.now));
          var refused := RetireDerivedKey(i, r.now);
          if refused { return Refused; }
          if taken.Some? {
            rows := before;
            return Conflict;
          }
        }
      }
      if d.key.Some? && Holder(rows, r.org, d.key.value).Some? {
        rows := before;
        return Conflict;
      }
      result := Made(|rows|);
      rows := rows + [NewRow(d, r.org)];
    }

    method MarkLaunched(i: nat)
      requires i < |rows|
      modifies this
      ensures rows == StepRows(world, old(rows), Launch(i))
    {
      var row := rows[i].(launches := rows[i].launches + 1);
      if row.status == "open" { row := row.(status := "launched"); }
      rows := rows[i := row];
    }
  }
}

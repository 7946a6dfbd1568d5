/**
 The rolling caption buffer (meetbot/captions.py).

 `Buffer` and its operations specify one step; `After` folds a whole history of
 observations and flushes and keeps a log of what was committed and when.
 `RollingCaptionBuffer` is the object the session runtime uses.
 */
module Captions {
  import opened Options

  datatype Line = Line(ts: string, speaker: string, text: string)

  datatype Pending = Pending(lineId: Option<string>, line: Line, order: nat)

  /** One DOM snapshot. `ts` is the observer's stamp ("" when absent), `now` the buffer's clock. */
  datatype Observation = Observation(speaker: string, text: string, lineId: string, ts: string, now: string)

  /** Whitespace normalisation and the similarity test (ratio at least 0.6) are parameters. */
  datatype Rules = Rules(clean: string -> string, similar: (string, string) -> bool)

  datatype Buffer = Buffer(pending: map<string, Pending>, closed: set<(string, string)>, nextOrder: nat)

  const Empty := Buffer(map[], {}, 0)

  function SpeakerOf(r: Rules, o: Observation): string {
    if r.clean(o.speaker) == "" then "Unknown speaker" else r.clean(o.speaker)
  }

  function IdOf(r: Rules, o: Observation): Option<string> {
    if r.clean(o.lineId) == "" then None else Some(r.clean(o.lineId))
  }

  function TextOf(r: Rules, o: Observation): string {
    r.clean(o.text)
  }

  function StampOf(o: Observation): string {
    if o.ts == "" then o.now else o.ts
  }

  predicate SameInflightLine(r: Rules, current: Pending, newId: Option<string>, newText: string) {
    if current.lineId.Some? || newId.Some? then
      current.lineId.Some? && newId.Some? && current.lineId == newId
    else
      current.line.text <= newText || newText <= current.line.text || r.similar(current.line.text, newText)
  }

  function Close(closed: set<(string, string)>, speaker: string, id: Option<string>): set<(string, string)> {
    if id.Some? then closed + {(speaker, id.value)} else closed
  }

  function NewPending(r: Rules, b: Buffer, o: Observation): Pending {
    Pending(IdOf(r, o), Line(StampOf(o), SpeakerOf(r, o), TextOf(r, o)), b.nextOrder)
  }

  /** The snapshot is dropped: no text, or its node was already committed. */
  predicate Ignored(r: Rules, b: Buffer, o: Observation) {
    TextOf(r, o) == "" || (IdOf(r, o).Some? && (SpeakerOf(r, o), IdOf(r, o).value) in b.closed)
  }

  /** One snapshot: the new buffer and the line it commits, if any. */
  function Observe(r: Rules, b: Buffer, o: Observation): (Buffer, seq<Pending>) {
    var speaker := SpeakerOf(r, o);
    if Ignored(r, b, o) then (b, [])
    else if speaker !in b.pending then
      (b.(pending := b.pending[speaker := NewPending(r, b, o)], nextOrder := b.nextOrder + 1), [])
    else
      var current := b.pending[speaker];
      if current.line.text == TextOf(r, o) then (b, [])
      else if SameInflightLine(r, current, IdOf(r, o), TextOf(r, o)) then
        (b.(pending := b.pending[speaker := current.(line := Line(current.line.ts, speaker, TextOf(r, o)))]), [])
      else
        (Buffer(b.pending[speaker := NewPending(r, b, o)],
                Close(b.closed, speaker, current.lineId),
                b.nextOrder + 1),
         [current])
  }

  /** The pending lines with orders in [lo, hi), oldest first. */
  ghost function InOrder(pending: map<string, Pending>, lo: nat, hi: nat): seq<Pending>
    decreases hi - lo
  {
    if lo >= hi then []
    else if exists s :: s in pending && pending[s].order == lo then
      var s :| s in pending && pending[s].order == lo;
      [pending[s]] + InOrder(pending, lo + 1, hi)
    else InOrder(pending, lo + 1, hi)
  }

  ghost function FlushedKeys(pending: map<string, Pending>): set<(string, string)> {
    set s | s in pending && pending[s].lineId.Some? :: (pending[s].line.speaker, pending[s].lineId.value)
  }

  ghost function Flush(b: Buffer): (Buffer, seq<Pending>) {
    (Buffer(map[], b.closed + FlushedKeys(b.pending), b.nextOrder), InOrder(b.pending, 0, b.nextOrder))
  }

  /** No two pending lines have one number. */
  ghost predicate Apart(pending: map<string, Pending>) {
    forall s, t :: s in pending && t in pending && s != t ==> pending[s].order != pending[t].order
  }

  ghost predicate Distinct(pending: map<string, Pending>, hi: nat) {
    && (forall s :: s in pending ==> pending[s].line.speaker == s && pending[s].order < hi)
    && Apart(pending)
  }

  /** Pending lines are filed under their speaker, non-empty, numbered apart and never closed. */
  ghost predicate Valid(b: Buffer) {
    && Distinct(b.pending, b.nextOrder)
    && (forall s :: s in b.pending ==> b.pending[s].line.text != "")
    && (forall s :: s in b.pending && b.pending[s].lineId.Some? ==> (s, b.pending[s].lineId.value) !in b.closed)
  }

  // ---------------------------------------------------------------- whole histories

  datatype Op = Snapshot(observation: Observation) | FlushAll

  /** A committed line and the number of operations that preceded its commit. */
  datatype Commit = Commit(entry: Pending, at: nat)

  datatype Trace = Trace(buffer: Buffer, log: seq<Commit>)

  ghost function Stamped(entries: seq<Pending>, at: nat): seq<Commit> {
    seq(|entries|, i requires 0 <= i < |entries| => Commit(entries[i], at))
  }

  ghost function Step(r: Rules, b: Buffer, op: Op): (Buffer, seq<Pending>) {
    match op
    case Snapshot(o) => Observe(r, b, o)
    case FlushAll => Flush(b)
  }

  ghost function After(r: Rules, ops: seq<Op>): Trace {
    if ops == [] then Trace(Empty, [])
    else
      var n := |ops| - 1;
      var before := After(r, ops[..n]);
      var step := Step(r, before.buffer, ops[n]);
      Trace(step.0, before.log + Stamped(step.1, n))
  }

  /** The speaker as shown, or a stand-in. */
  function NamedSpeaker(r: Rules, o: Observation): string {
    var shown := r.clean(o.speaker);
    if shown == "" then "Unknown speaker" else shown
  }

  /** The line has the time of the snapshot, which is the clock's if the observer gave none, its speaker and its node. */
  predicate OpenedBy(r: Rules, p: Pending, o: Observation) {
    && (if o.ts == "" then p.line.ts == o.now else p.line.ts == o.ts)
    && p.line.speaker == NamedSpeaker(r, o)
    && (if r.clean(o.lineId) == "" then p.lineId.None? else p.lineId == Some(r.clean(o.lineId)))
  }

  /** The operation is a non-empty snapshot of this speaker's node. */
  predicate Mentions(r: Rules, op: Op, speaker: string, id: string) {
    && op.Snapshot? && NamedSpeaker(r, op.observation) == speaker
    && r.clean(op.observation.lineId) == id != "" && r.clean(op.observation.text) != ""
  }

  /** The last text seen for a node, by scanning the history backwards. */
  function LastText(r: Rules, ops: seq<Op>, speaker: string, id: string): Option<string> {
    if ops == [] then None
    else
      var last := ops[|ops| - 1];
      if Mentions(r, last, speaker, id) then Some(r.clean(last.observation.text))
      else LastText(r, ops[..|ops| - 1], speaker, id)
  }

  /** Operation `i` is the one that opened the line numbered `order`. */
  ghost predicate Opens(r: Rules, ops: seq<Op>, i: nat, order: nat) {
    && i < |ops|
    && After(r, ops[..i]).buffer.nextOrder == order
    && After(r, ops[..i + 1]).buffer.nextOrder == order + 1
  }

  /** The entry carries the stamp, speaker and node of the snapshot that opened it. */
  ghost predicate OpenedFaithfully(r: Rules, ops: seq<Op>, p: Pending) {
    exists i: nat :: Opens(r, ops, i, p.order) && ops[i].Snapshot? && OpenedBy(r, p, ops[i].observation)
  }

  ghost predicate Current(r: Rules, ops: seq<Op>, p: Pending) {
    && OpenedFaithfully(r, ops, p)
    && (p.lineId.Some? ==> LastText(r, ops, p.line.speaker, p.lineId.value) == Some(p.line.text))
  }

  /** The node keys of the committed lines. */
  ghost function LogKeys(log: seq<Commit>): set<(string, string)> {
    set i | 0 <= i < |log| && log[i].entry.lineId.Some? :: (log[i].entry.line.speaker, log[i].entry.lineId.value)
  }

  /** Line numbers occur once, among the committed and the pending lines together. */
  ghost predicate OrdersOk(t: Trace) {
    && (forall i, j :: 0 <= i < j < |t.log| ==> t.log[i].entry.order != t.log[j].entry.order)
    && (forall i :: 0 <= i < |t.log| ==> t.log[i].entry.order < t.buffer.nextOrder)
    && (forall i, s :: 0 <= i < |t.log| && s in t.buffer.pending ==> t.log[i].entry.order != t.buffer.pending[s].order)
  }

  /** Node keys are committed once, and the closed set is exactly the set of committed keys. */
  ghost predicate KeysOk(t: Trace) {
    && (forall i, j :: 0 <= i < j < |t.log| && t.log[i].entry.lineId.Some? ==>
          t.log[j].entry.lineId != t.log[i].entry.lineId || t.log[j].entry.line.speaker != t.log[i].entry.line.speaker)
    && t.buffer.closed == LogKeys(t.log)
  }

  /** What every history keeps about the log; the last conjunct says that no opened line is missing. */
  ghost predicate LogOk(t: Trace) {
    OrdersOk(t) && KeysOk(t) && |t.log| + |t.buffer.pending| == t.buffer.nextOrder
  }

  // ---------------------------------------------------------------- one step

  ghost predicate Between(pending: map<string, Pending>, p: Pending, lo: nat, hi: nat) {
    lo <= p.order < hi && exists s :: s in pending && pending[s] == p
  }

  lemma {:induction false} InOrderMembers(pending: map<string, Pending>, lo: nat, hi: nat)
    requires Apart(pending)
    ensures forall p :: p in InOrder(pending, lo, hi) <==> Between(pending, p, lo, hi)
    decreases hi - lo
  {
    if lo < hi {
      var rest := InOrder(pending, lo + 1, hi);
      InOrderMembers(pending, lo + 1, hi);
      if exists s :: s in pending && pending[s].order == lo {
        var s :| s in pending && pending[s].order == lo;
        assert InOrder(pending, lo, hi) == [pending[s]] + rest;
        forall p ensures p in [pending[s]] + rest <==> Between(pending, p, lo, hi) {
          assert p in [pending[s]] + rest <==> p == pending[s] || p in rest;
          if Between(pending, p, lo, hi) && p.order == lo {
            var x :| x in pending && pending[x] == p;
            assert x == s;
          }
        }
      }
    }
  }

  lemma {:induction false} InOrderIsSorted(pending: map<string, Pending>, lo: nat, hi: nat)
    requires Apart(pending)
    ensures forall i, j :: 0 <= i < j < |InOrder(pending, lo, hi)| ==>
              InOrder(pending, lo, hi)[i].order < InOrder(pending, lo, hi)[j].order
    decreases hi - lo
  {
    if lo < hi {
      var all, rest := InOrder(pending, lo, hi), InOrder(pending, lo + 1, hi);
      InOrderIsSorted(pending, lo + 1, hi);
      InOrderMembers(pending, lo + 1, hi);
      if all != rest {
        assert all[0].order == lo && all[1..] == rest;
        forall i, j | 0 <= i < j < |all| ensures all[i].order < all[j].order {
          assert all[j] == rest[j - 1] && rest[j - 1] in rest && Between(pending, rest[j - 1], lo + 1, hi);
          assert i > 0 ==> all[i] == rest[i - 1];
        }
      }
    }
  }

  /** A flush returns every pending line, in first-observed order. */
  lemma FlushSpec(b: Buffer)
    requires Valid(b)
    ensures forall p :: p in Flush(b).1 <==> exists s :: s in b.pending && b.pending[s] == p
    ensures forall i, j :: 0 <= i < j < |Flush(b).1| ==> Flush(b).1[i].order < Flush(b).1[j].order
  {
    InOrderIsSorted(b.pending, 0, b.nextOrder);
    InOrderMembers(b.pending, 0, b.nextOrder);
  }

  lemma OpeningKeepsValid(b: Buffer, p: Pending, closed: set<(string, string)>)
    requires Valid(b) && p.order == b.nextOrder && p.line.text != ""
    requires p.lineId.Some? ==> (p.line.speaker, p.lineId.value) !in closed
    requires forall s :: s in b.pending && b.pending[s].lineId.Some? && s != p.line.speaker ==>
               (s, b.pending[s].lineId.value) !in closed
    ensures Valid(Buffer(b.pending[p.line.speaker := p], closed, b.nextOrder + 1))
  {
  }

  lemma RewritingKeepsValid(b: Buffer, s: string, text: string)
    requires Valid(b) && s in b.pending && text != ""
    ensures Valid(b.(pending := b.pending[s := b.pending[s].(line := Line(b.pending[s].line.ts, s, text))]))
  {
  }

  lemma StepKeepsValid(r: Rules, b: Buffer, op: Op)
    requires Valid(b)
    ensures Valid(Step(r, b, op).0)
  {
    if op.Snapshot? && !Ignored(r, b, op.observation) {
      var o := op.observation;
      var s := SpeakerOf(r, o);
      if s !in b.pending {
        OpeningKeepsValid(b, NewPending(r, b, o), b.closed);
      } else if SameInflightLine(r, b.pending[s], IdOf(r, o), TextOf(r, o)) {
        RewritingKeepsValid(b, s, TextOf(r, o));
      } else {
        OpeningKeepsValid(b, NewPending(r, b, o), Close(b.closed, s, b.pending[s].lineId));
      }
    }
  }

  /** First-observed order leaves no freedom: two such lists of the same lines are equal. */
  lemma {:induction false} SortedOrdersAreUnique(a: seq<Pending>, b: seq<Pending>)
    requires forall i, j :: 0 <= i < j < |a| ==> a[i].order < a[j].order
    requires forall i, j :: 0 <= i < j < |b| ==> b[i].order < b[j].order
    requires forall p :: p in a <==> p in b
    ensures a == b
  {
    assert a != [] ==> a[0] in b;
    assert b != [] ==> b[0] in a;
    if a != [] {
      assert a[0] == b[0];
      forall p ensures p in a[1..] <==> p in b[1..] {
        if p in a[1..] { assert p in a && p.order > a[0].order; }
        if p in b[1..] { assert p in b && p.order > b[0].order; }
      }
      SortedOrdersAreUnique(a[1..], b[1..]);
    }
  }

  // ---------------------------------------------------------------- the log

  function Without(pending: map<string, Pending>, s: string): map<string, Pending> {
    map k | k in pending && k != s :: pending[k]
  }

  /** Committing one pending line. */
  ghost function Committed(t: Trace, s: string, at: nat): Trace
    requires s in t.buffer.pending
  {
    var p := t.buffer.pending[s];
    Trace(Buffer(Without(t.buffer.pending, s), Close(t.buffer.closed, s, p.lineId), t.buffer.nextOrder),
          t.log + [Commit(p, at)])
  }

  lemma LogKeysAppend(log: seq<Commit>, c: Commit)
    ensures LogKeys(log + [c]) == Close(LogKeys(log), c.entry.line.speaker, c.entry.lineId)
  {
    var all := log + [c];
    assert all[|log|] == c;
    forall k | k in LogKeys(log) ensures k in LogKeys(all) {
      var i :| 0 <= i < |log| && log[i].entry.lineId.Some? && k == (log[i].entry.line.speaker, log[i].entry.lineId.value);
      assert all[i] == log[i];
    }
    if c.entry.lineId.Some? {
      assert (all[|log|].entry.line.speaker, all[|log|].entry.lineId.value) in LogKeys(all);
    }
  }

  lemma CommittedKeepsKeys(t: Trace, s: string, at: nat)
    requires Valid(t.buffer) && KeysOk(t) && s in t.buffer.pending
    ensures KeysOk(Committed(t, s, at))
  {
    var p := t.buffer.pending[s];
    LogKeysAppend(t.log, Commit(p, at));
    forall i | 0 <= i < |t.log| && t.log[i].entry.lineId.Some?
      ensures p.lineId != t.log[i].entry.lineId || p.line.speaker != t.log[i].entry.line.speaker
    {
      assert (t.log[i].entry.line.speaker, t.log[i].entry.lineId.value) in LogKeys(t.log);
    }
  }

  lemma CommittedKeepsOrders(t: Trace, s: string, at: nat)
    requires Valid(t.buffer) && OrdersOk(t) && s in t.buffer.pending
    ensures OrdersOk(Committed(t, s, at)) && Valid(Committed(t, s, at).buffer)
  {
  }

  lemma CommittedKeepsLog(t: Trace, s: string, at: nat)
    requires Valid(t.buffer) && LogOk(t) && s in t.buffer.pending
    ensures Valid(Committed(t, s, at).buffer) && LogOk(Committed(t, s, at))
  {
    CommittedKeepsOrders(t, s, at);
    CommittedKeepsKeys(t, s, at);
    assert Without(t.buffer.pending, s).Keys == t.buffer.pending.Keys - {s};
  }

  ghost function Opened(t: Trace, p: Pending): Trace {
    t.(buffer := t.buffer.(pending := t.buffer.pending[p.line.speaker := p], nextOrder := t.buffer.nextOrder + 1))
  }

  lemma OpenedKeepsLog(t: Trace, p: Pending)
    requires LogOk(t) && p.line.speaker !in t.buffer.pending && p.order == t.buffer.nextOrder
    ensures LogOk(Opened(t, p))
  {
  }

  /** Replacing the pending line: commit the old one, then open the new one. */
  ghost function Replaced(t: Trace, p: Pending, at: nat): Trace
    requires p.line.speaker in t.buffer.pending
  {
    Opened(Committed(t, p.line.speaker, at), p)
  }

  lemma ReplacedKeepsLog(t: Trace, p: Pending, at: nat)
    requires Valid(t.buffer) && LogOk(t) && p.line.speaker in t.buffer.pending && p.order == t.buffer.nextOrder
    ensures LogOk(Replaced(t, p, at))
  {
    CommittedKeepsLog(t, p.line.speaker, at);
    OpenedKeepsLog(Committed(t, p.line.speaker, at), p);
  }

  lemma ObserveReplaces(r: Rules, t: Trace, o: Observation, at: nat)
    requires Observe(r, t.buffer, o).1 != []
    ensures SpeakerOf(r, o) in t.buffer.pending
    ensures var step := Observe(r, t.buffer, o);
            Trace(step.0, t.log + Stamped(step.1, at)) == Replaced(t, NewPending(r, t.buffer, o), at)
  {
  }

  lemma RewritingKeepsLog(t: Trace, s: string, line: Line)
    requires LogOk(t) && s in t.buffer.pending
    ensures LogOk(t.(buffer := t.buffer.(pending := t.buffer.pending[s := t.buffer.pending[s].(line := line)])))
  {
  }

  lemma NothingCommitted(log: seq<Commit>, at: nat)
    ensures log + Stamped([], at) == log
  {
  }

  lemma ObserveKeepsLog(r: Rules, t: Trace, o: Observation, at: nat)
    requires Valid(t.buffer) && LogOk(t)
    ensures var step := Observe(r, t.buffer, o); LogOk(Trace(step.0, t.log + Stamped(step.1, at)))
  {
    var s := SpeakerOf(r, o);
    NothingCommitted(t.log, at);
    if Observe(r, t.buffer, o).1 != [] {
      ObserveReplaces(r, t, o, at);
      ReplacedKeepsLog(t, NewPending(r, t.buffer, o), at);
    } else if !Ignored(r, t.buffer, o) {
      if s !in t.buffer.pending {
        OpenedKeepsLog(t, NewPending(r, t.buffer, o));
      } else {
        RewritingKeepsLog(t, s, Line(t.buffer.pending[s].line.ts, s, TextOf(r, o)));
      }
    }
  }

  lemma {:induction false} InOrderIgnoresOlder(pending: map<string, Pending>, s: string, lo: nat, hi: nat)
    requires s in pending && pending[s].order < lo
    requires Apart(pending)
    ensures InOrder(Without(pending, s), lo, hi) == InOrder(pending, lo, hi)
    decreases hi - lo
  {
    if lo < hi {
      InOrderIgnoresOlder(pending, s, lo + 1, hi);
      if x :| x in pending && pending[x].order == lo {
        assert x in Without(pending, s) && Without(pending, s)[x] == pending[x];
      }
    }
  }

  ghost function Flushed(t: Trace, lo: nat, at: nat): Trace {
    Trace(Buffer(map[], t.buffer.closed + FlushedKeys(t.buffer.pending), t.buffer.nextOrder),
          t.log + Stamped(InOrder(t.buffer.pending, lo, t.buffer.nextOrder), at))
  }

  /** Flushing is committing the oldest pending line and flushing the rest. */
  lemma FlushPeels(t: Trace, s: string, lo: nat, at: nat)
    requires Valid(t.buffer) && s in t.buffer.pending && t.buffer.pending[s].order == lo
    ensures Flushed(t, lo, at) == Flushed(Committed(t, s, at), lo + 1, at)
  {
    var pending, n := t.buffer.pending, t.buffer.nextOrder;
    InOrderIgnoresOlder(pending, s, lo + 1, n);
    var rest := InOrder(pending, lo + 1, n);
    assert InOrder(pending, lo, n) == [pending[s]] + rest;
    assert t.log + Stamped([pending[s]] + rest, at) == t.log + [Commit(pending[s], at)] + Stamped(rest, at);
    FlushedKeysSplit(pending, s);
  }

  lemma {:induction false} FlushKeepsLog(t: Trace, lo: nat, at: nat)
    requires Valid(t.buffer) && LogOk(t) && lo <= t.buffer.nextOrder
    requires forall s :: s in t.buffer.pending ==> lo <= t.buffer.pending[s].order
    ensures LogOk(Flushed(t, lo, at))
    decreases t.buffer.nextOrder - lo, 1
  {
    if lo == t.buffer.nextOrder {
      assert t.buffer.pending.Keys == {} && t.buffer.pending == map[];
      assert Flushed(t, lo, at) == t;
    } else if s :| s in t.buffer.pending && t.buffer.pending[s].order == lo {
      FlushPeels(t, s, lo, at);
      FlushKeepsLogFrom(t, s, lo, at);
    } else {
      assert Flushed(t, lo, at) == Flushed(t, lo + 1, at);
      FlushKeepsLog(t, lo + 1, at);
    }
  }

  lemma OthersAreLater(pending: map<string, Pending>, s: string, lo: nat)
    requires Apart(pending) && s in pending && pending[s].order == lo
    requires forall x :: x in pending ==> lo <= pending[x].order
    ensures forall x :: x in Without(pending, s) ==> lo + 1 <= Without(pending, s)[x].order
  {
  }

  lemma {:induction false} FlushKeepsLogFrom(t: Trace, s: string, lo: nat, at: nat)
    requires Valid(t.buffer) && LogOk(t) && lo < t.buffer.nextOrder
    requires forall x :: x in t.buffer.pending ==> lo <= t.buffer.pending[x].order
    requires s in t.buffer.pending && t.buffer.pending[s].order == lo
    ensures LogOk(Flushed(Committed(t, s, at), lo + 1, at))
    decreases t.buffer.nextOrder - lo, 0
  {
    CommittedKeepsLog(t, s, at);
    OthersAreLater(t.buffer.pending, s, lo);
    FlushKeepsLog(Committed(t, s, at), lo + 1, at);
  }

  /** The oldest line comes first and the others keep their order. */
  lemma {:induction false} OldestComesFirst(pending: map<string, Pending>, s: string, lo: nat, hi: nat)
    requires s in pending && lo <= pending[s].order < hi
    requires Apart(pending)
    requires forall x :: x in pending ==> pending[s].order <= pending[x].order
    ensures InOrder(pending, lo, hi) == [pending[s]] + InOrder(Without(pending, s), lo, hi)
    decreases hi - lo
  {
    if lo == pending[s].order {
      InOrderIgnoresOlder(pending, s, lo + 1, hi);
      assert InOrder(Without(pending, s), lo, hi) == InOrder(Without(pending, s), lo + 1, hi);
    } else {
      OldestComesFirst(pending, s, lo + 1, hi);
    }
  }

  lemma {:induction false} NothingPending(lo: nat, hi: nat)
    ensures InOrder(map[], lo, hi) == []
    decreases hi - lo
  {
    if lo < hi { NothingPending(lo + 1, hi); }
  }

  lemma FlushedKeysSplit(pending: map<string, Pending>, s: string)
    requires s in pending && pending[s].line.speaker == s
    ensures FlushedKeys(pending) == Close(FlushedKeys(Without(pending, s)), s, pending[s].lineId)
  {
    var rest := Without(pending, s);
    forall k | k in FlushedKeys(pending) ensures k in Close(FlushedKeys(rest), s, pending[s].lineId) {
      var x :| x in pending && pending[x].lineId.Some? && k == (pending[x].line.speaker, pending[x].lineId.value);
      if x != s { assert x in rest && rest[x] == pending[x]; }
    }
    forall k | k in FlushedKeys(rest) ensures k in FlushedKeys(pending) {
      var x :| x in rest && rest[x].lineId.Some? && k == (rest[x].line.speaker, rest[x].lineId.value);
      assert x in pending && pending[x] == rest[x];
    }
  }

  lemma {:induction false} EveryHistoryKeepsTheLog(r: Rules, ops: seq<Op>)
    ensures Valid(After(r, ops).buffer) && LogOk(After(r, ops))
  {
    if ops != [] {
      var n := |ops| - 1;
      EveryHistoryKeepsTheLog(r, ops[..n]);
      var t := After(r, ops[..n]);
      StepKeepsValid(r, t.buffer, ops[n]);
      match ops[n] {
        case Snapshot(o) => ObserveKeepsLog(r, t, o, n);
        case FlushAll => FlushKeepsLog(t, 0, n);
      }
    }
  }

  // ---------------------------------------------------------------- stamps and texts

  lemma OpensExtends(r: Rules, ops: seq<Op>, i: nat, order: nat)
    requires ops != [] && Opens(r, ops[..|ops| - 1], i, order)
    ensures Opens(r, ops, i, order)
  {
    assert ops[..|ops| - 1][..i] == ops[..i];
    assert ops[..|ops| - 1][..i + 1] == ops[..i + 1];
  }

  lemma FaithfulExtends(r: Rules, ops: seq<Op>, p: Pending)
    requires ops != [] && OpenedFaithfully(r, ops[..|ops| - 1], p)
    ensures OpenedFaithfully(r, ops, p)
  {
    var shorter := ops[..|ops| - 1];
    var i: nat :| Opens(r, shorter, i, p.order) && shorter[i].Snapshot? && OpenedBy(r, p, shorter[i].observation);
    OpensExtends(r, ops, i, p.order);
    assert ops[i] == shorter[i];
  }

  lemma NewIsCurrent(r: Rules, ops: seq<Op>, p: Pending)
    requires ops != [] && ops[|ops| - 1].Snapshot?
    requires After(r, ops).buffer.nextOrder == After(r, ops[..|ops| - 1]).buffer.nextOrder + 1
    requires p == NewPending(r, After(r, ops[..|ops| - 1]).buffer, ops[|ops| - 1].observation)
    requires p.line.text != ""
    ensures Current(r, ops, p)
  {
    assert ops[..|ops|] == ops;
    assert Opens(r, ops, |ops| - 1, p.order);
  }

  /** What a snapshot can do to one speaker's pending line: nothing (and then it showed no other text
      for that node), rewrite its text, or open a new line. */
  lemma SnapshotCases(r: Rules, b: Buffer, o: Observation, s: string)
    requires Valid(b) && s in Observe(r, b, o).0.pending
    ensures var p := Observe(r, b, o).0.pending[s];
            || (s in b.pending && p == b.pending[s]
                && (p.lineId.Some? && Mentions(r, Snapshot(o), s, p.lineId.value) ==> TextOf(r, o) == p.line.text))
            || (s in b.pending && p == b.pending[s].(line := Line(b.pending[s].line.ts, s, TextOf(r, o)))
                && TextOf(r, o) != "" && SpeakerOf(r, o) == s && IdOf(r, o) == p.lineId)
            || (s in b.pending && p == b.pending[s].(line := Line(b.pending[s].line.ts, s, TextOf(r, o)))
                && p.lineId.None?)
            || (Observe(r, b, o).0.nextOrder == b.nextOrder + 1 && p == NewPending(r, b, o) && p.line.text != "")
  {
  }

  lemma UntouchedStaysCurrent(r: Rules, ops: seq<Op>, p: Pending)
    requires ops != [] && Current(r, ops[..|ops| - 1], p)
    requires p.lineId.Some? && Mentions(r, ops[|ops| - 1], p.line.speaker, p.lineId.value) ==>
               TextOf(r, ops[|ops| - 1].observation) == p.line.text
    ensures Current(r, ops, p)
  {
    FaithfulExtends(r, ops, p);
  }

  lemma RewrittenStaysCurrent(r: Rules, ops: seq<Op>, p: Pending, text: string)
    requires ops != [] && Current(r, ops[..|ops| - 1], p)
    requires p.lineId.Some? ==> Mentions(r, ops[|ops| - 1], p.line.speaker, p.lineId.value)
                                && TextOf(r, ops[|ops| - 1].observation) == text
    ensures Current(r, ops, p.(line := p.line.(text := text)))
  {
    var shorter := ops[..|ops| - 1];
    var q := p.(line := p.line.(text := text));
    assert OpenedFaithfully(r, shorter, q) by {
      var i: nat :| Opens(r, shorter, i, p.order) && shorter[i].Snapshot? && OpenedBy(r, p, shorter[i].observation);
      assert Opens(r, shorter, i, q.order);
    }
    FaithfulExtends(r, ops, q);
  }

  lemma {:induction false} PendingIsCurrent(r: Rules, ops: seq<Op>, s: string)
    requires s in After(r, ops).buffer.pending
    ensures Current(r, ops, After(r, ops).buffer.pending[s])
  {
    var shorter := ops[..|ops| - 1];
    var before := After(r, shorter).buffer;
    var o := ops[|ops| - 1].observation;
    var p := After(r, ops).buffer.pending[s];
    EveryHistoryKeepsTheLog(r, shorter);
    if s in before.pending { PendingIsCurrent(r, shorter, s); }
    SnapshotCases(r, before, o, s);
    if s in before.pending && p == before.pending[s] {
      UntouchedStaysCurrent(r, ops, p);
    } else if s in before.pending && p.order == before.pending[s].order {
      RewrittenStaysCurrent(r, ops, before.pending[s], p.line.text);
    } else {
      NewIsCurrent(r, ops, p);
    }
  }

  lemma NewCommitsWerePending(r: Rules, b: Buffer, op: Op, p: Pending)
    requires Valid(b) && p in Step(r, b, op).1
    ensures exists s :: s in b.pending && b.pending[s] == p
  {
    if op.FlushAll? { FlushSpec(b); }
  }

  lemma LogSplits(r: Rules, ops: seq<Op>, i: nat)
    requires ops != [] && i < |After(r, ops).log|
    ensures var n, before := |ops| - 1, After(r, ops[..|ops| - 1]);
            if i < |before.log| then After(r, ops).log[i] == before.log[i]
            else && i - |before.log| < |Step(r, before.buffer, ops[n]).1|
                 && After(r, ops).log[i] == Commit(Step(r, before.buffer, ops[n]).1[i - |before.log|], n)
  {
  }

  lemma CommitIsCurrent(r: Rules, ops: seq<Op>, op: Op, p: Pending)
    requires p in Step(r, After(r, ops).buffer, op).1
    ensures Current(r, ops, p)
  {
    EveryHistoryKeepsTheLog(r, ops);
    var b := After(r, ops).buffer;
    NewCommitsWerePending(r, b, op, p);
    var s :| s in b.pending && b.pending[s] == p;
    PendingIsCurrent(r, ops, s);
  }

  /** The commit's line was current when it was committed. */
  ghost predicate CommitOk(r: Rules, ops: seq<Op>, c: Commit) {
    c.at < |ops| && Current(r, ops[..c.at], c.entry)
  }

  lemma CommitOkExtends(r: Rules, ops: seq<Op>, c: Commit)
    requires ops != [] && CommitOk(r, ops[..|ops| - 1], c)
    ensures CommitOk(r, ops, c)
  {
    assert ops[..|ops| - 1][..c.at] == ops[..c.at];
  }

  lemma {:induction false} LogIsFaithful(r: Rules, ops: seq<Op>, i: nat)
    requires i < |After(r, ops).log|
    ensures CommitOk(r, ops, After(r, ops).log[i])
    decreases |ops|
  {
    var shorter := ops[..|ops| - 1];
    var before := After(r, shorter);
    LogSplits(r, ops, i);
    if i < |before.log| {
      LogIsFaithful(r, shorter, i);
      CommitOkExtends(r, ops, before.log[i]);
    } else {
      CommitIsCurrent(r, shorter, ops[|ops| - 1], After(r, ops).log[i].entry);
    }
  }

  // ---------------------------------------------------------------- main results

  /** Over any history, each (speaker, node) is committed at most once, and a committed node is
      closed for ever: it is never pending again. */
  lemma CommittedAtMostOnce(r: Rules, ops: seq<Op>, i: nat, j: nat, s: string)
    requires i < j < |After(r, ops).log| && After(r, ops).log[i].entry.lineId.Some?
    ensures var first, second := After(r, ops).log[i].entry, After(r, ops).log[j].entry;
            second.line.speaker != first.line.speaker || second.lineId != first.lineId
    ensures var first := After(r, ops).log[i].entry;
            s in After(r, ops).buffer.pending && s == first.line.speaker ==>
              After(r, ops).buffer.pending[s].lineId != first.lineId
  {
    EveryHistoryKeepsTheLog(r, ops);
    var t := After(r, ops);
    assert (t.log[i].entry.line.speaker, t.log[i].entry.lineId.value) in LogKeys(t.log);
  }

  /** A committed line carries the stamp of the snapshot that opened it and the last text its node
      showed before the commit. */
  lemma CommittedFaithfully(r: Rules, ops: seq<Op>, i: nat)
    requires i < |After(r, ops).log|
    ensures var c := After(r, ops).log[i];
            && c.at < |ops|
            && OpenedFaithfully(r, ops[..c.at], c.entry)
            && (c.entry.lineId.Some? ==>
                  LastText(r, ops[..c.at], c.entry.line.speaker, c.entry.lineId.value) == Some(c.entry.line.text))
  {
    LogIsFaithful(r, ops, i);
  }

  /** Every line ever opened is committed or pending; after a flush all of them are committed. */
  lemma NoOpenedLineIsLost(r: Rules, ops: seq<Op>)
    ensures var t := After(r, ops); t.buffer.nextOrder == |t.log| + |t.buffer.pending|
    ensures var t := After(r, ops + [FlushAll]);
            t.buffer.pending == map[] && |t.log| == After(r, ops).buffer.nextOrder == t.buffer.nextOrder
  {
    EveryHistoryKeepsTheLog(r, ops);
    EveryHistoryKeepsTheLog(r, ops + [FlushAll]);
    assert (ops + [FlushAll])[..|ops|] == ops;
  }

  lemma StepNeverForgets(r: Rules, b: Buffer, op: Op)
    ensures b.nextOrder <= Step(r, b, op).0.nextOrder
  {
  }

  lemma AfterOneMore(r: Rules, ops: seq<Op>, op: Op)
    ensures var before := After(r, ops);
            var step := Step(r, before.buffer, op);
            After(r, ops + [op]) == Trace(step.0, before.log + Stamped(step.1, |ops|))
  {
  }

  lemma FlushCount(b: Buffer)
    requires Valid(b)
    ensures |Flush(b).1| == |b.pending|
  {
    FlushSpec(b);
    DistinctCount(b.pending, Flush(b).1);
  }

  lemma RestIsListed(pending: map<string, Pending>, out: seq<Pending>, s: string)
    requires Apart(pending)
    requires forall p :: p in out <==> exists x :: x in pending && pending[x] == p
    requires forall i, j :: 0 <= i < j < |out| ==> out[i].order < out[j].order
    requires out != [] && s in pending && pending[s] == out[0]
    ensures forall p :: p in out[1..] <==> exists x :: x in Without(pending, s) && Without(pending, s)[x] == p
  {
    var rest := Without(pending, s);
    forall p | p in out[1..] ensures exists x :: x in rest && rest[x] == p {
      assert p in out && p.order > out[0].order;
      var x :| x in pending && pending[x] == p;
      assert x in rest && rest[x] == p;
    }
    forall x | x in rest ensures rest[x] in out[1..] {
      assert pending[x] in out && pending[x] != out[0];
    }
  }

  /** A duplicate-free list of the values of a map has as many elements as the map. */
  lemma {:induction false} DistinctCount(pending: map<string, Pending>, out: seq<Pending>)
    requires Apart(pending)
    requires forall p :: p in out <==> exists s :: s in pending && pending[s] == p
    requires forall i, j :: 0 <= i < j < |out| ==> out[i].order < out[j].order
    ensures |out| == |pending|
    decreases |out|
  {
    assert pending == map[] || out != [] by {
      if s :| s in pending { assert pending[s] in out; }
    }
    if out != [] {
      assert out[0] in out;
      var s :| s in pending && pending[s] == out[0];
      var rest := Without(pending, s);
      RestIsListed(pending, out, s);
      DistinctCount(rest, out[1..]);
      assert rest.Keys == pending.Keys - {s};
    }
  }

  /** The number of opened lines never decreases. */
  lemma {:induction false} OpenedNeverDecreases(r: Rules, ops: seq<Op>, more: seq<Op>)
    ensures After(r, ops).buffer.nextOrder <= After(r, ops + more).buffer.nextOrder
    decreases |more|
  {
    if more == [] {
      assert ops + more == ops;
    } else {
      var all := ops + more;
      assert all[..|all| - 1] == ops + more[..|more| - 1];
      OpenedNeverDecreases(r, ops, more[..|more| - 1]);
      StepNeverForgets(r, After(r, all[..|all| - 1]).buffer, all[|all| - 1]);
    }
  }

  /** A new node commits the speaker's pending line exactly when it shows a different text: a new
      node that repeats the pending text is swallowed and neither opened nor closed. */
  lemma NewNodeCommitsIffTextDiffers(r: Rules, b: Buffer, o: Observation)
    requires Valid(b) && !Ignored(r, b, o) && IdOf(r, o).Some?
    requires SpeakerOf(r, o) in b.pending && b.pending[SpeakerOf(r, o)].lineId != IdOf(r, o)
    ensures Observe(r, b, o).1 == [b.pending[SpeakerOf(r, o)]] <==> TextOf(r, o) != b.pending[SpeakerOf(r, o)].line.text
    ensures TextOf(r, o) == b.pending[SpeakerOf(r, o)].line.text ==> Observe(r, b, o) == (b, [])
  {
  }

  /** A snapshot opens a line exactly if it commits one or its speaker had none pending; the line shows the text under the
      next number, and has the time, speaker and node of the snapshot. */
  lemma OpenedLineExactly(r: Rules, b: Buffer, o: Observation)
    ensures var (after, committed) := Observe(r, b, o);
            var s := NamedSpeaker(r, o);
            && (after.nextOrder == b.nextOrder + 1 || (after.nextOrder == b.nextOrder && committed == []))
            && (after.nextOrder == b.nextOrder + 1 ==>
                  && s in after.pending && OpenedBy(r, after.pending[s], o)
                  && after.pending[s].line.text == r.clean(o.text) != "" && after.pending[s].order == b.nextOrder
                  && committed == if s in b.pending then [b.pending[s]] else [])
            && (forall x :: x != s ==> (x in after.pending <==> x in b.pending) && (x in b.pending ==> after.pending[x] == b.pending[x]))
  {
  }

  /** A snapshot is dropped exactly if it shows nothing or a node that is closed, or repeats the pending text. */
  lemma DroppedExactly(r: Rules, b: Buffer, o: Observation)
    ensures var s, id, text := NamedSpeaker(r, o), r.clean(o.lineId), r.clean(o.text);
            Observe(r, b, o) == (b, []) <==>
              || text == "" || (id != "" && (s, id) in b.closed)
              || (s in b.pending && b.pending[s].line.text == text)
  {
    var s, after := NamedSpeaker(r, o), Observe(r, b, o).0;
    if after.nextOrder == b.nextOrder && s in b.pending && after != b {
      assert after.pending[s].line.text == r.clean(o.text) != b.pending[s].line.text;
    }
  }

  /** When a speaker's pending line and a new snapshot show different texts: the line is rewritten in place, keeping its
      number, stamp and node, exactly if both are of one node, or both are of none and one text continues the other
      or they are alike. Otherwise exactly that line is committed. */
  lemma ContinuedExactly(r: Rules, b: Buffer, o: Observation)
    requires NamedSpeaker(r, o) in b.pending && r.clean(o.text) != "" && r.clean(o.text) != b.pending[NamedSpeaker(r, o)].line.text
    requires r.clean(o.lineId) != "" ==> (NamedSpeaker(r, o), r.clean(o.lineId)) !in b.closed
    ensures var s, text := NamedSpeaker(r, o), r.clean(o.text);
            var p := b.pending[s];
            var continues := if r.clean(o.lineId) != "" then p.lineId == Some(r.clean(o.lineId))
                             else p.lineId.None? && (p.line.text <= text || text <= p.line.text || r.similar(p.line.text, text));
            && (continues ==> Observe(r, b, o) == (b.(pending := b.pending[s := p.(line := Line(p.line.ts, s, text))]), []))
            && (!continues ==> Observe(r, b, o).1 == [p]
                               && Observe(r, b, o).0.closed == b.closed + (if p.lineId.Some? then {(s, p.lineId.value)} else {}))
  {
  }

  // ---------------------------------------------------------------- the object

  ghost function Lines(entries: seq<Pending>): seq<Line> {
    seq(|entries|, i requires 0 <= i < |entries| => entries[i].line)
  }

  lemma PeelOldest(rest: map<string, Pending>, s: string, n: nat)
    requires Distinct(rest, n) && s in rest && forall x :: x in rest ==> rest[s].order <= rest[x].order
    ensures InOrder(rest, 0, n) == [rest[s]] + InOrder(Without(rest, s), 0, n)
    ensures FlushedKeys(rest) == Close(FlushedKeys(Without(rest, s)), s, rest[s].lineId)
    ensures Distinct(Without(rest, s), n) && Without(rest, s).Keys == rest.Keys - {s}
  {
    OldestComesFirst(rest, s, 0, n);
    FlushedKeysSplit(rest, s);
  }

  /** A flush under way: `rest` is still to come, `sorted` has been written out. */
  ghost predicate Flushing(before: Buffer, rest: map<string, Pending>, closed: set<(string, string)>, sorted: seq<Pending>) {
    && Distinct(rest, before.nextOrder)
    && sorted + InOrder(rest, 0, before.nextOrder) == InOrder(before.pending, 0, before.nextOrder)
    && closed + FlushedKeys(rest) == before.closed + FlushedKeys(before.pending)
  }

  lemma FlushOne(before: Buffer, rest: map<string, Pending>, closed: set<(string, string)>, sorted: seq<Pending>, s: string)
    requires Flushing(before, rest, closed, sorted) && s in rest
    requires forall x :: x in rest ==> rest[s].order <= rest[x].order
    ensures Flushing(before, Without(rest, s), Close(closed, s, rest[s].lineId), sorted + [rest[s]])
  {
    PeelOldest(rest, s, before.nextOrder);
    var after := InOrder(Without(rest, s), 0, before.nextOrder);
    assert sorted + [rest[s]] + after == sorted + ([rest[s]] + after);
  }

  class RollingCaptionBuffer {
    const rules: Rules
    var pending: map<string, Pending>
    var closedLineIds: set<(string, string)>
    var nextOrder: nat

    ghost function View(): Buffer
      reads this
    {
      Buffer(pending, closedLineIds, nextOrder)
    }

    constructor (rules: Rules)
      ensures this.rules == rules && View() == Empty
    {
      this.rules := rules;
      pending := map[];
      closedLineIds := {};
      nextOrder := 0;
    }

    method TakeNumber(speaker: string, text: string, lineId: Option<string>, stamp: string) returns (p: Pending)
      modifies this`nextOrder
      ensures p == Pending(lineId, Line(stamp, speaker, text), old(nextOrder)) && nextOrder == old(nextOrder) + 1
    {
      p := Pending(lineId, Line(stamp, speaker, text), nextOrder);
      nextOrder := nextOrder + 1;
    }

    method ObserveSnapshot(o: Observation) returns (lines: seq<Line>)
      requires Valid(View())
      modifies this
      ensures Valid(View())
      ensures View() == Observe(rules, old(View()), o).0
      ensures lines == Lines(Observe(rules, old(View()), o).1)
    {
      StepKeepsValid(rules, View(), Snapshot(o));
      var speaker, text, lineId := SpeakerOf(rules, o), TextOf(rules, o), IdOf(rules, o);
      lines := [];
      if text == "" || (lineId.Some? && (speaker, lineId.value) in closedLineIds) {
        return;
      }
      if speaker !in pending {
        var entry := TakeNumber(speaker, text, lineId, StampOf(o));
        pending := pending[speaker := entry];
        return;
      }
      var current := pending[speaker];
      if current.line.text == text {
        return;
      }
      if SameInflightLine(rules, current, lineId, text) {
        pending := pending[speaker := current.(line := Line(current.line.ts, speaker, text))];
        return;
      }
      if current.lineId.Some? {
        closedLineIds := closedLineIds + {(speaker, current.lineId.value)};
      }
      var entry := TakeNumber(speaker, text, lineId, StampOf(o));
      pending := pending[speaker := entry];
      lines := [current.line];
    }

    method FlushPending() returns (lines: seq<Line>)
      requires Valid(View())
      modifies this
      ensures Valid(View())
      ensures View() == Flush(old(View())).0
      ensures lines == Lines(Flush(old(View())).1)
    {
      ghost var before := View();
      ghost var sorted: seq<Pending> := [];
      var rest := pending;
      pending := map[];
      lines := [];
      while rest != map[]
        invariant pending == map[] && nextOrder == before.nextOrder
        invariant Flushing(before, rest, closedLineIds, sorted)
        invariant lines == Lines(sorted)
        decreases rest.Keys
      {
        var s := OldestSpeaker(rest);
        assert Without(rest, s).Keys == rest.Keys - {s};
        FlushOne(before, rest, closedLineIds, sorted, s);
        closedLineIds := Close(closedLineIds, s, rest[s].lineId);
        lines := lines + [rest[s].line];
        sorted := sorted + [rest[s]];
        rest := Without(rest, s);
      }
      NothingPending(0, nextOrder);
      assert FlushedKeys(map[]) == {};
    }

    method OldestSpeaker(lines: map<string, Pending>) returns (oldest: string)
      requires lines != map[]
      ensures oldest in lines && forall s :: s in lines ==> lines[oldest].order <= lines[s].order
    {
      var unseen := lines.Keys;
      oldest :| oldest in unseen;
      while unseen != {}
        invariant unseen <= lines.Keys && oldest in lines
        invariant forall s :: s in lines && s !in unseen ==> lines[oldest].order <= lines[s].order
        decreases unseen
      {
        var s :| s in unseen;
        if lines[s].order < lines[oldest].order { oldest := s; }
        unseen := unseen - {s};
      }
    }

    function PendingCount(): nat
      reads this
    {
      |pending|
    }
  }
}

/**
 Collection of finished worker workspaces (brain/systems/workspace_reclamation.py).

 Everything the collector sees is an argument: what each look at the file system and at the run
 table returns, before and again just before a deletion, is arbitrary and the two looks may differ.
 */
module WorkspaceReclamation {
  import opened Options
  import opened Ordering
  import WorkspaceInventory

  type ScanErrors = seq<WorkspaceInventory.ScanError>

  const MAX_RECLAIMS_PER_RUN := 100
  const MAX_WORKSPACE_REPORT_LIMIT := 200
  const PARENT_STATUS_BATCH_SIZE := 500

  /** One look at a candidate path: refused as unsafe, not stat-able, or a workspace with its age. */
  datatype Look = Unsafe | NoStat | Seen(parentRunId: int, modifiedAt: int)

  datatype Entry = Entry(path: string, candidate: bool, look: Look, inventory: WorkspaceInventory.Inventory)

  /** The look just before a deletion; `deleteOk` says whether removing the tree would succeed. */
  datatype Recheck = Recheck(inventory: WorkspaceInventory.Inventory, look: Look, status: Option<string>, deleteOk: bool)

  datatype Disposition =
    | Recent
    | ParentRunNonTerminal
    | IncompleteInventory
    | Reclaimable
    | ReclaimLimitReached
    | Reclaimed
    | RefusedBeforeReclamation

  datatype Workspace = Workspace(path: string, parentRunId: int, status: Option<string>, modifiedAt: int,
                                 bytesUsed: nat, inventoryComplete: bool, scanErrors: ScanErrors,
                                 reclaimable: bool, disposition: Disposition)

  datatype Counters = Counters(scanned: nat, reclaimable: nat, bytesReclaimable: nat, reclaimed: nat,
                               bytesReclaimed: nat, recent: nat, nonTerminal: nat, refused: nat, errors: nat)

  const NOTHING := Counters(0, 0, 0, 0, 0, 0, 0, 0, 0)

  /** What the collector is told: the age limit, which statuses are terminal, and the later looks. */
  datatype World = World(cutoff: int, terminal: string -> bool, runs: map<int, string>, recheck: string -> Recheck)

  predicate NonTerminal(world: World, status: Option<string>) {
    status.Some? && !world.terminal(status.value)
  }

  // ---------------------------------------------------------------- first pass

  function Validated(entries: seq<Entry>): seq<Entry> {
    if entries == [] then []
    else
      var last := entries[|entries| - 1];
      Validated(entries[..|entries| - 1]) + (if last.candidate && last.look.Seen? then [last] else [])
  }

  function CountEntry(c: Counters, e: Entry): Counters {
    if !e.candidate then c
    else
      var c' := c.(scanned := c.scanned + 1);
      match e.look
      case Unsafe => c'.(refused := c.refused + 1)
      case NoStat => c'.(errors := c.errors + 1)
      case Seen(_, _) => c'
  }

  function CountEntries(entries: seq<Entry>): Counters {
    if entries == [] then NOTHING
    else CountEntry(CountEntries(entries[..|entries| - 1]), entries[|entries| - 1])
  }

  /** A parent id of zero is not looked up. */
  function FirstStatus(world: World, parentRunId: int): Option<string> {
    if parentRunId != 0 && parentRunId in world.runs then Some(world.runs[parentRunId]) else None
  }

  function Measure(world: World, e: Entry): Workspace
    requires e.look.Seen?
  {
    var status := FirstStatus(world, e.look.parentRunId);
    var complete := e.inventory.scanErrors == [];
    var disposition := if e.look.modifiedAt > world.cutoff then Recent
                       else if NonTerminal(world, status) then ParentRunNonTerminal
                       else if !complete then IncompleteInventory
                       else Reclaimable;
    Workspace(e.path, e.look.parentRunId, status, e.look.modifiedAt, e.inventory.bytesUsed, complete,
              e.inventory.scanErrors, disposition == Reclaimable, disposition)
  }

  function CountMeasured(c: Counters, w: Workspace): Counters {
    var c' := c.(errors := c.errors + |w.scanErrors|);
    match w.disposition
    case Recent => c'.(recent := c.recent + 1)
    case ParentRunNonTerminal => c'.(nonTerminal := c.nonTerminal + 1)
    case Reclaimable => c'.(reclaimable := c.reclaimable + 1, bytesReclaimable := c.bytesReclaimable + w.bytesUsed)
    case _ => c'
  }

  datatype Books = Books(counters: Counters, workspaces: seq<Workspace>)

  function MeasureAll(world: World, c: Counters, found: seq<Entry>): Books
    requires forall e :: e in found ==> e.look.Seen?
  {
    if found == [] then Books(c, [])
    else
      var before := MeasureAll(world, c, found[..|found| - 1]);
      var w := Measure(world, found[|found| - 1]);
      Books(CountMeasured(before.counters, w), before.workspaces + [w])
  }

  lemma {:induction false} ValidatedAreSeen(entries: seq<Entry>)
    ensures forall e :: e in Validated(entries) ==> e in entries && e.candidate && e.look.Seen?
  {
    if entries != [] { ValidatedAreSeen(entries[..|entries| - 1]); }
  }

  /** The inventory of one run, before anything is reclaimed. */
  function Inventoried(world: World, entries: seq<Entry>): Books {
    ValidatedAreSeen(entries);
    MeasureAll(world, CountEntries(entries), Validated(entries))
  }

  /** The parent runs asked about: one query per batch of ids, merged. Looking a workspace's parent up in
      the result is `FirstStatus`. */
  method ParentRunStatuses(world: World, found: seq<Entry>) returns (statuses: map<int, string>)
    requires forall e :: e in found ==> e.look.Seen?
    ensures forall e :: e in found ==> FirstStatus(world, e.look.parentRunId) == Lookup(statuses, e.look.parentRunId)
    ensures forall id :: id in statuses ==> id != 0 && id in world.runs && statuses[id] == world.runs[id]
  {
    var ordered := ParentIds(found);
    statuses := map[];
    var offset := 0;
    while offset < |ordered|
      invariant 0 <= offset
      invariant forall id :: id in statuses <==> id in world.runs && id in ordered[..Least(offset, |ordered|)]
      invariant forall id :: id in statuses ==> statuses[id] == world.runs[id]
    {
      var end := Least(offset + PARENT_STATUS_BATCH_SIZE, |ordered|);
      var batch := ordered[offset..end];
      var rows := map id | id in batch && id in world.runs :: world.runs[id];
      assert ordered[..end] == ordered[..offset] + batch;
      statuses := statuses + rows;
      offset := offset + PARENT_STATUS_BATCH_SIZE;
    }
    assert ordered[..|ordered|] == ordered;
  }

  function Lookup(statuses: map<int, string>, id: int): Option<string> {
    if id in statuses then Some(statuses[id]) else None
  }

  function Least(a: nat, b: nat): nat {
    if a < b then a else b
  }

  /** The parent ids to ask about, each once, in ascending order. */
  method ParentIds(found: seq<Entry>) returns (ordered: seq<int>)
    requires forall e :: e in found ==> e.look.Seen?
    ensures forall id :: id in ordered <==> id != 0 && exists e :: e in found && e.look.parentRunId == id
    ensures SortedBy((a: int, b: int) => a <= b, ordered)
  {
    ordered := [];
    for i := 0 to |found|
      invariant forall id :: id in ordered <==> id != 0 && exists k :: 0 <= k < i && found[k].look.parentRunId == id
    {
      var id := found[i].look.parentRunId;
      if id != 0 && id !in ordered { ordered := ordered + [id]; }
    }
    var leq := (a: int, b: int) => a <= b;
    SortSpec(leq, ordered);
    SameElements(Sort(leq, ordered), ordered);
    ordered := Sort(leq, ordered);
  }

  // ---------------------------------------------------------------- second pass

  /** The workspace after its re-check and, if everything still holds, the attempt to delete it. */
  function Settle(world: World, w: Workspace): Workspace {
    var r := world.recheck(w.path);
    if r.inventory.scanErrors != [] then
      w.(bytesUsed := r.inventory.bytesUsed, inventoryComplete := false, scanErrors := r.inventory.scanErrors,
         reclaimable := false, disposition := IncompleteInventory)
    else if !r.look.Seen? then w.(reclaimable := false, disposition := RefusedBeforeReclamation)
    else if r.look.modifiedAt > world.cutoff then w.(reclaimable := false, disposition := Recent)
    else if NonTerminal(world, r.status) then
      w.(status := r.status, reclaimable := false, disposition := ParentRunNonTerminal)
    else if !r.deleteOk then w.(status := r.status, reclaimable := false, disposition := RefusedBeforeReclamation)
    else
      w.(status := r.status, bytesUsed := r.inventory.bytesUsed, inventoryComplete := true, scanErrors := [],
         reclaimable := false, disposition := Reclaimed)
  }

  function CountSettled(world: World, c: Counters, w: Workspace): Counters {
    var r := world.recheck(w.path);
    if r.inventory.scanErrors != [] then c.(errors := c.errors + |r.inventory.scanErrors|)
    else if r.look.Unsafe? then c.(refused := c.refused + 1)
    else if r.look.NoStat? then c.(errors := c.errors + 1)
    else if r.look.modifiedAt > world.cutoff then c.(recent := c.recent + 1)
    else if NonTerminal(world, r.status) then c.(nonTerminal := c.nonTerminal + 1)
    else if !r.deleteOk then c.(errors := c.errors + 1)
    else c.(reclaimed := c.reclaimed + 1, bytesReclaimed := c.bytesReclaimed + r.inventory.bytesUsed)
  }

  /** A place in the list of measured workspaces with the key it is sorted by. */
  datatype Ticket = Ticket(modifiedAt: int, path: string, position: nat)

  predicate OlderLeq(a: Ticket, b: Ticket) {
    a.modifiedAt < b.modifiedAt || (a.modifiedAt == b.modifiedAt && LexLeq(a.path, b.path))
  }

  function TicketOf(workspaces: seq<Workspace>, i: nat): Ticket
    requires i < |workspaces|
  {
    Ticket(workspaces[i].modifiedAt, workspaces[i].path, i)
  }

  function Tickets(workspaces: seq<Workspace>): seq<Ticket> {
    if workspaces == [] then []
    else
      var n := |workspaces| - 1;
      Tickets(workspaces[..n]) + (if workspaces[n].reclaimable then [TicketOf(workspaces, n)] else [])
  }

  /** The reclaimable workspaces, oldest first. */
  function Queue(workspaces: seq<Workspace>): seq<Ticket> {
    Sort(OlderLeq, Tickets(workspaces))
  }

  function Clamp(value: int, low: nat, high: nat): nat {
    if value < low then low else if value > high then high else value
  }

  ghost predicate Placed(tickets: seq<Ticket>, size: nat) {
    forall t :: t in tickets ==> t.position < size
  }

  function Postpone(workspaces: seq<Workspace>, tickets: seq<Ticket>): seq<Workspace>
    requires Placed(tickets, |workspaces|)
    ensures |Postpone(workspaces, tickets)| == |workspaces|
    decreases |tickets|
  {
    if tickets == [] then workspaces
    else
      var i := tickets[0].position;
      assert tickets[0] in tickets;
      Postpone(workspaces[i := workspaces[i].(disposition := ReclaimLimitReached)], tickets[1..])
  }

  function SettleAll(world: World, books: Books, tickets: seq<Ticket>): Books
    requires Placed(tickets, |books.workspaces|)
    ensures |SettleAll(world, books, tickets).workspaces| == |books.workspaces|
    decreases |tickets|
  {
    if tickets == [] then books
    else
      assert tickets[0] in tickets;
      var i := tickets[0].position;
      var w := books.workspaces[i];
      SettleAll(world, Books(CountSettled(world, books.counters, w), books.workspaces[i := Settle(world, w)]), tickets[1..])
  }

  function Reserved(queue: seq<Ticket>, maxReclaims: nat): nat {
    if maxReclaims < |queue| then maxReclaims else |queue|
  }

  lemma QueuePlaced(workspaces: seq<Workspace>)
    ensures Placed(Queue(workspaces), |workspaces|)
    ensures forall t :: t in Queue(workspaces) <==> IsTicket(workspaces, t)
    ensures NoRepeats(Queue(workspaces)) && SortedBy(OlderLeq, Queue(workspaces))
    ensures |Queue(workspaces)| == Sum(IsReclaimable, workspaces)
  {
    OlderIsAnOrder();
    SortSpec(OlderLeq, Tickets(workspaces));
    SameElements(Queue(workspaces), Tickets(workspaces));
    TicketsAreReclaimable(workspaces);
    TicketsDoNotRepeat(workspaces);
    RearrangedNoRepeats(Tickets(workspaces), Queue(workspaces));
  }

  lemma OlderIsAnOrder()
    ensures TotalPreorder(OlderLeq)
  {
    forall a, b ensures OlderLeq(a, b) || OlderLeq(b, a) { LexTotal(a.path, b.path); }
    forall a, b, c | OlderLeq(a, b) && OlderLeq(b, c) ensures OlderLeq(a, c) {
      if a.modifiedAt == b.modifiedAt && b.modifiedAt == c.modifiedAt { LexTransitive(a.path, b.path, c.path); }
    }
  }

  ghost predicate IsTicket(workspaces: seq<Workspace>, t: Ticket) {
    t.position < |workspaces| && workspaces[t.position].reclaimable && t == TicketOf(workspaces, t.position)
  }

  lemma {:induction false} TicketsAreReclaimable(workspaces: seq<Workspace>)
    ensures forall t :: t in Tickets(workspaces) <==> IsTicket(workspaces, t)
  {
    if workspaces != [] {
      var n := |workspaces| - 1;
      TicketsAreReclaimable(workspaces[..n]);
      forall t ensures IsTicket(workspaces, t) <==>
                       IsTicket(workspaces[..n], t) || (workspaces[n].reclaimable && t == TicketOf(workspaces, n))
      {
        assert t.position < n ==> workspaces[t.position] == workspaces[..n][t.position];
      }
    }
  }

  lemma {:induction false} TicketsDoNotRepeat(workspaces: seq<Workspace>)
    ensures NoRepeats(Tickets(workspaces))
    ensures |Tickets(workspaces)| == Sum(IsReclaimable, workspaces)
  {
    if workspaces != [] {
      var n := |workspaces| - 1;
      TicketsDoNotRepeat(workspaces[..n]);
      TicketsAreReclaimable(workspaces[..n]);
      assert forall t :: t in Tickets(workspaces[..n]) ==> t.position < n;
    }
  }

  /** Reclaim the oldest workspaces up to the limit; the rest wait for another run. */
  function Collected(world: World, entries: seq<Entry>, maxReclaims: nat): Books {
    var books := Inventoried(world, entries);
    var queue := Queue(books.workspaces);
    var n := Reserved(queue, maxReclaims);
    QueuePlaced(books.workspaces);
    assert forall t :: t in queue[..n] || t in queue[n..] ==> t in queue;
    SettleAll(world, Books(books.counters, Postpone(books.workspaces, queue[n..])), queue[..n])
  }

  // ---------------------------------------------------------------- the books

  function Sum(f: Workspace -> int, workspaces: seq<Workspace>): int {
    if workspaces == [] then 0
    else Sum(f, workspaces[..|workspaces| - 1]) + f(workspaces[|workspaces| - 1])
  }

  function Ended(d: Disposition): Workspace -> int {
    (w: Workspace) => if w.disposition == d then 1 else 0
  }

  function IsReclaimable(w: Workspace): int {
    if w.reclaimable then 1 else 0
  }

  function ReclaimableBytes(w: Workspace): int {
    if w.reclaimable then w.bytesUsed else 0
  }

  function ReclaimedBytes(w: Workspace): int {
    if w.disposition == Reclaimed then w.bytesUsed else 0
  }

  function ErrorCount(w: Workspace): int {
    |w.scanErrors|
  }

  lemma {:induction false} SumUpdate(f: Workspace -> int, workspaces: seq<Workspace>, i: nat, w: Workspace)
    requires i < |workspaces|
    ensures Sum(f, workspaces[i := w]) == Sum(f, workspaces) - f(workspaces[i]) + f(w)
  {
    var n := |workspaces| - 1;
    if i == n {
      assert workspaces[i := w][..n] == workspaces[..n];
    } else {
      SumUpdate(f, workspaces[..n], i, w);
      assert workspaces[i := w][..n] == workspaces[..n][i := w];
    }
  }

  /** Every counter is the number of workspaces with that disposition, reclaimed bytes are those of the
      reclaimed workspaces, and every scanned candidate and every error is accounted for. */
  ghost predicate Balanced(books: Books) {
    var c, ws := books.counters, books.workspaces;
    && c.recent == Sum(Ended(Recent), ws)
    && c.nonTerminal == Sum(Ended(ParentRunNonTerminal), ws)
    && c.reclaimed == Sum(Ended(Reclaimed), ws)
    && c.bytesReclaimed == Sum(ReclaimedBytes, ws)
    && c.errors + c.refused + |ws| == c.scanned + Sum(ErrorCount, ws) + Sum(Ended(RefusedBeforeReclamation), ws)
  }

  /** Every scanned candidate is refused, not stat-able, or validated. */
  lemma {:induction false} EveryCandidateIsCounted(entries: seq<Entry>)
    ensures var c := CountEntries(entries);
            && c.scanned == c.refused + c.errors + |Validated(entries)|
            && c == NOTHING.(scanned := c.scanned, refused := c.refused, errors := c.errors)
  {
    if entries != [] { EveryCandidateIsCounted(entries[..|entries| - 1]); }
  }

  /** The books of the first pass, with `left` validated workspaces still to be measured. */
  ghost predicate MeasuredSoFar(c: Counters, ws: seq<Workspace>, left: nat) {
    && Balanced(Books(c.(errors := c.errors + left), ws))
    && c.reclaimable == Sum(IsReclaimable, ws)
    && c.bytesReclaimable == Sum(ReclaimableBytes, ws)
  }

  lemma SumAppend(f: Workspace -> int, ws: seq<Workspace>, w: Workspace)
    ensures Sum(f, ws + [w]) == Sum(f, ws) + f(w)
  {
    assert (ws + [w])[..|ws|] == ws && (ws + [w])[|ws|] == w;
  }

  /** What one measured workspace adds to the counters. */
  lemma MeasureTallies(world: World, c: Counters, e: Entry)
    requires e.look.Seen?
    ensures var w := Measure(world, e);
            var c' := CountMeasured(c, w);
            && c'.recent == c.recent + Ended(Recent)(w) && c'.nonTerminal == c.nonTerminal + Ended(ParentRunNonTerminal)(w)
            && c'.reclaimed == c.reclaimed + Ended(Reclaimed)(w) && c'.bytesReclaimed == c.bytesReclaimed + ReclaimedBytes(w)
            && c'.errors + c'.refused == c.errors + c.refused + ErrorCount(w) + Ended(RefusedBeforeReclamation)(w)
            && c'.reclaimable == c.reclaimable + IsReclaimable(w)
            && c'.bytesReclaimable == c.bytesReclaimable + ReclaimableBytes(w)
            && c'.scanned == c.scanned
  {
  }

  lemma MeasureOne(world: World, c: Counters, ws: seq<Workspace>, left: nat, e: Entry)
    requires e.look.Seen? && left > 0 && MeasuredSoFar(c, ws, left)
    ensures MeasuredSoFar(CountMeasured(c, Measure(world, e)), ws + [Measure(world, e)], left - 1)
  {
    var w := Measure(world, e);
    MeasureTallies(world, c, e);
    SumAppend(Ended(Recent), ws, w);
    SumAppend(Ended(ParentRunNonTerminal), ws, w);
    SumAppend(Ended(Reclaimed), ws, w);
    SumAppend(Ended(RefusedBeforeReclamation), ws, w);
    SumAppend(ReclaimedBytes, ws, w);
    SumAppend(ErrorCount, ws, w);
    SumAppend(IsReclaimable, ws, w);
    SumAppend(ReclaimableBytes, ws, w);
  }

  lemma {:induction false} MeasureKeepsBooks(world: World, c: Counters, found: seq<Entry>, left: nat)
    requires forall e :: e in found ==> e.look.Seen?
    requires MeasuredSoFar(c, [], |found| + left)
    ensures var books := MeasureAll(world, c, found);
            MeasuredSoFar(books.counters, books.workspaces, left) && |books.workspaces| == |found|
  {
    if found != [] {
      var n := |found| - 1;
      MeasureKeepsBooks(world, c, found[..n], left + 1);
      var before := MeasureAll(world, c, found[..n]);
      MeasureOne(world, before.counters, before.workspaces, left + 1, found[n]);
    }
  }

  /** After the first pass the books balance, and the reclaimable counters describe the list. */
  lemma InventoryBalances(world: World, entries: seq<Entry>)
    ensures var books := Inventoried(world, entries);
            && Balanced(books)
            && books.counters.reclaimable == Sum(IsReclaimable, books.workspaces)
            && books.counters.bytesReclaimable == Sum(ReclaimableBytes, books.workspaces)
            && books.counters.reclaimed == 0
            && |books.workspaces| == |Validated(entries)|
  {
    ValidatedAreSeen(entries);
    EveryCandidateIsCounted(entries);
    MeasureKeepsBooks(world, CountEntries(entries), Validated(entries), 0);
    NothingReclaimedYet(world, CountEntries(entries), Validated(entries));
  }

  lemma {:induction false} NothingReclaimedYet(world: World, c: Counters, found: seq<Entry>)
    requires forall e :: e in found ==> e.look.Seen?
    ensures MeasureAll(world, c, found).counters.reclaimed == c.reclaimed
  {
    if found != [] { NothingReclaimedYet(world, c, found[..|found| - 1]); }
  }

  /** A workspace marked reclaimable was measured completely. */
  ghost predicate Eligible(w: Workspace) {
    w.disposition == Reclaimable && w.reclaimable && w.scanErrors == [] && w.inventoryComplete
  }

  lemma {:induction false} MeasuredAt(world: World, c: Counters, found: seq<Entry>, i: nat)
    requires forall e :: e in found ==> e.look.Seen?
    ensures |MeasureAll(world, c, found).workspaces| == |found|
    ensures i < |found| ==> MeasureAll(world, c, found).workspaces[i] == Measure(world, found[i])
  {
    if found != [] { MeasuredAt(world, c, found[..|found| - 1], i); }
  }

  lemma SettleTallies(world: World, c: Counters, w: Workspace)
    requires Eligible(w)
    ensures var w' := Settle(world, w);
            var c' := CountSettled(world, c, w);
            && c'.recent == c.recent + Ended(Recent)(w') && c'.nonTerminal == c.nonTerminal + Ended(ParentRunNonTerminal)(w')
            && c'.reclaimed == c.reclaimed + Ended(Reclaimed)(w') && c'.bytesReclaimed == c.bytesReclaimed + ReclaimedBytes(w')
            && c'.errors + c'.refused == c.errors + c.refused + ErrorCount(w') + Ended(RefusedBeforeReclamation)(w')
            && c'.scanned == c.scanned && c'.reclaimable == c.reclaimable && c'.bytesReclaimable == c.bytesReclaimable
    ensures ErrorCount(w) == 0 && ReclaimedBytes(w) == 0
  {
  }

  lemma SettleKeepsBooks(world: World, books: Books, i: nat)
    requires Balanced(books) && i < |books.workspaces| && Eligible(books.workspaces[i])
    ensures var w := books.workspaces[i];
            Balanced(Books(CountSettled(world, books.counters, w), books.workspaces[i := Settle(world, w)]))
  {
    var ws, w := books.workspaces, books.workspaces[i];
    var w' := Settle(world, w);
    SettleTallies(world, books.counters, w);
    SumUpdate(Ended(Recent), ws, i, w');
    SumUpdate(Ended(ParentRunNonTerminal), ws, i, w');
    SumUpdate(Ended(Reclaimed), ws, i, w');
    SumUpdate(Ended(RefusedBeforeReclamation), ws, i, w');
    SumUpdate(ReclaimedBytes, ws, i, w');
    SumUpdate(ErrorCount, ws, i, w');
  }

  lemma PostponeKeepsBooks(books: Books, i: nat)
    requires Balanced(books) && i < |books.workspaces| && Eligible(books.workspaces[i])
    ensures Balanced(Books(books.counters, books.workspaces[i := books.workspaces[i].(disposition := ReclaimLimitReached)]))
  {
    var ws := books.workspaces;
    var w' := ws[i].(disposition := ReclaimLimitReached);
    SumUpdate(Ended(Recent), ws, i, w');
    SumUpdate(Ended(ParentRunNonTerminal), ws, i, w');
    SumUpdate(Ended(Reclaimed), ws, i, w');
    SumUpdate(Ended(RefusedBeforeReclamation), ws, i, w');
    SumUpdate(ReclaimedBytes, ws, i, w');
    SumUpdate(ErrorCount, ws, i, w');
  }

  ghost predicate Distinct(tickets: seq<Ticket>) {
    forall i, j :: 0 <= i < j < |tickets| ==> tickets[i].position != tickets[j].position
  }

  ghost predicate AllEligible(workspaces: seq<Workspace>, tickets: seq<Ticket>) {
    forall t :: t in tickets ==> t.position < |workspaces| && Eligible(workspaces[t.position])
  }

  lemma OthersStayEligible(workspaces: seq<Workspace>, tickets: seq<Ticket>, w: Workspace)
    requires Distinct(tickets) && AllEligible(workspaces, tickets) && tickets != [] && tickets[0].position < |workspaces|
    ensures AllEligible(workspaces[tickets[0].position := w], tickets[1..]) && Distinct(tickets[1..])
  {
    forall t | t in tickets[1..] ensures t in tickets && t.position != tickets[0].position {
      var k :| 0 <= k < |tickets[1..]| && tickets[1..][k] == t;
      assert tickets[k + 1] == t;
    }
  }

  lemma {:induction false} PostponeAllKeepsBooks(books: Books, tickets: seq<Ticket>)
    requires Balanced(books) && Distinct(tickets) && AllEligible(books.workspaces, tickets)
    ensures Balanced(Books(books.counters, Postpone(books.workspaces, tickets)))
    decreases |tickets|
  {
    if tickets != [] {
      assert tickets[0] in tickets;
      var i := tickets[0].position;
      PostponeKeepsBooks(books, i);
      var next := Books(books.counters, books.workspaces[i := books.workspaces[i].(disposition := ReclaimLimitReached)]);
      OthersStayEligible(books.workspaces, tickets, next.workspaces[i]);
      PostponeAllKeepsBooks(next, tickets[1..]);
    }
  }

  lemma {:induction false} SettleAllKeepsBooks(world: World, books: Books, tickets: seq<Ticket>)
    requires Balanced(books) && Distinct(tickets) && AllEligible(books.workspaces, tickets)
    ensures var after := SettleAll(world, books, tickets);
            && Balanced(after)
            && after.counters.reclaimed <= books.counters.reclaimed + |tickets|
            && after.counters.reclaimable == books.counters.reclaimable
            && after.counters.bytesReclaimable == books.counters.bytesReclaimable
            && after.counters.scanned == books.counters.scanned
    decreases |tickets|
  {
    if tickets != [] {
      assert tickets[0] in tickets;
      var i := tickets[0].position;
      var w := books.workspaces[i];
      SettleKeepsBooks(world, books, i);
      var next := Books(CountSettled(world, books.counters, w), books.workspaces[i := Settle(world, w)]);
      OthersStayEligible(books.workspaces, tickets, Settle(world, w));
      SettleAllKeepsBooks(world, next, tickets[1..]);
    }
  }

  /** What the second pass makes of each workspace. */
  lemma {:induction false} PostponeTouches(workspaces: seq<Workspace>, tickets: seq<Ticket>, i: nat)
    requires Placed(tickets, |workspaces|) && i < |workspaces|
    ensures Postpone(workspaces, tickets)[i]
         == if exists t :: t in tickets && t.position == i then workspaces[i].(disposition := ReclaimLimitReached) else workspaces[i]
    decreases |tickets|
  {
    if tickets != [] {
      assert tickets[0] in tickets;
      var p := tickets[0].position;
      PostponeTouches(workspaces[p := workspaces[p].(disposition := ReclaimLimitReached)], tickets[1..], i);
      assert forall t :: t in tickets <==> t == tickets[0] || t in tickets[1..];
    }
  }

  lemma {:induction false} SettleTouches(world: World, books: Books, tickets: seq<Ticket>, i: nat)
    requires Placed(tickets, |books.workspaces|) && Distinct(tickets) && i < |books.workspaces|
    ensures SettleAll(world, books, tickets).workspaces[i]
         == if exists t :: t in tickets && t.position == i then Settle(world, books.workspaces[i]) else books.workspaces[i]
    decreases |tickets|
  {
    if tickets != [] {
      assert tickets[0] in tickets;
      var p := tickets[0].position;
      var w := books.workspaces[p];
      SettleTouches(world, Books(CountSettled(world, books.counters, w), books.workspaces[p := Settle(world, w)]), tickets[1..], i);
      assert forall t :: t in tickets <==> t == tickets[0] || t in tickets[1..];
    }
  }

  // ---------------------------------------------------------------- main results

  lemma QueueIsEligible(world: World, entries: seq<Entry>)
    ensures var books := Inventoried(world, entries);
            && AllEligible(books.workspaces, Queue(books.workspaces))
            && Distinct(Queue(books.workspaces))
  {
    var ws := Inventoried(world, entries).workspaces;
    var queue := Queue(ws);
    ValidatedAreSeen(entries);
    QueuePlaced(ws);
    forall t | t in queue ensures t.position < |ws| && Eligible(ws[t.position]) {
      MeasuredAt(world, CountEntries(entries), Validated(entries), t.position);
    }
    forall i, j | 0 <= i < j < |queue| ensures queue[i].position != queue[j].position {
      assert queue[i] in queue && queue[j] in queue;
    }
  }

  lemma PostponeKeepsEligible(workspaces: seq<Workspace>, waiting: seq<Ticket>, chosen: seq<Ticket>)
    requires AllEligible(workspaces, chosen) && Placed(waiting, |workspaces|)
    requires forall a, b :: a in chosen && b in waiting ==> a.position != b.position
    ensures AllEligible(Postpone(workspaces, waiting), chosen)
  {
    forall t | t in chosen ensures Eligible(Postpone(workspaces, waiting)[t.position]) {
      PostponeTouches(workspaces, waiting, t.position);
    }
  }

  lemma SplitQueue(queue: seq<Ticket>, n: nat)
    requires n <= |queue| && Distinct(queue)
    ensures Distinct(queue[..n]) && Distinct(queue[n..])
    ensures forall a, b :: a in queue[..n] && b in queue[n..] ==> a.position != b.position
    ensures forall t :: t in queue <==> t in queue[..n] || t in queue[n..]
  {
  }

  /** The books of every run balance, whatever the second looks return, and no more than
      the limit is reclaimed. */
  lemma BooksBalance(world: World, entries: seq<Entry>, maxReclaims: nat)
    ensures var first := Inventoried(world, entries);
            var after := Collected(world, entries, maxReclaims);
            && Balanced(first) && Balanced(after)
            && |after.workspaces| == |Validated(entries)|
            && after.counters.reclaimable == Sum(IsReclaimable, first.workspaces)
            && after.counters.bytesReclaimable == Sum(ReclaimableBytes, first.workspaces)
            && after.counters.reclaimed <= maxReclaims
            && after.counters.reclaimed <= after.counters.reclaimable
  {
    var first := Inventoried(world, entries);
    var queue := Queue(first.workspaces);
    var n := Reserved(queue, maxReclaims);
    InventoryBalances(world, entries);
    QueueIsEligible(world, entries);
    QueuePlaced(first.workspaces);
    SplitQueue(queue, n);
    PostponeAllKeepsBooks(first, queue[n..]);
    PostponeKeepsEligible(first.workspaces, queue[n..], queue[..n]);
    SettleAllKeepsBooks(world, Books(first.counters, Postpone(first.workspaces, queue[n..])), queue[..n]);
  }

  /** The turn of a measured workspace: among the oldest `maxReclaims`, behind them, or not queued. */
  ghost predicate Chosen(workspaces: seq<Workspace>, maxReclaims: nat, i: nat)
    requires i < |workspaces|
  {
    TicketOf(workspaces, i) in Queue(workspaces)[..Reserved(Queue(workspaces), maxReclaims)]
  }

  lemma InPart(part: seq<Ticket>, workspaces: seq<Workspace>, i: nat)
    requires i < |workspaces|
    requires forall t :: t in part ==> t.position < |workspaces| && t == TicketOf(workspaces, t.position)
    ensures (exists t :: t in part && t.position == i) <==> TicketOf(workspaces, i) in part
  {
  }

  /** Where each workspace ends: re-checked, postponed, or as first measured. */
  lemma EachWorkspaceEnds(world: World, entries: seq<Entry>, maxReclaims: nat, i: nat)
    requires i < |Inventoried(world, entries).workspaces|
    ensures var ws := Inventoried(world, entries).workspaces;
            && |Collected(world, entries, maxReclaims).workspaces| == |ws|
            && Collected(world, entries, maxReclaims).workspaces[i]
            == (if !ws[i].reclaimable then ws[i]
                else if Chosen(ws, maxReclaims, i) then Settle(world, ws[i])
                else ws[i].(disposition := ReclaimLimitReached))
  {
    var first := Inventoried(world, entries);
    var ws := first.workspaces;
    var queue := Queue(ws);
    var n := Reserved(queue, maxReclaims);
    QueueIsEligible(world, entries);
    QueuePlaced(ws);
    SplitQueue(queue, n);
    InPart(queue[..n], ws, i);
    InPart(queue[n..], ws, i);
    PostponeTouches(ws, queue[n..], i);
    SettleTouches(world, Books(first.counters, Postpone(ws, queue[n..])), queue[..n], i);
  }

  /** Everything a deletion needs, at one look. */
  predicate Fit(world: World, look: Look, inventory: WorkspaceInventory.Inventory, status: Option<string>) {
    && inventory.scanErrors == []
    && look.Seen? && look.modifiedAt <= world.cutoff
    && (status.None? || world.terminal(status.value))
  }

  lemma SettleReclaims(world: World, w: Workspace)
    requires Eligible(w)
    ensures var r := world.recheck(w.path);
            Settle(world, w).disposition == Reclaimed <==> Fit(world, r.look, r.inventory, r.status) && r.deleteOk
  {
  }

  lemma MeasureFit(world: World, e: Entry)
    requires e.look.Seen?
    ensures var w := Measure(world, e);
            && w.path == e.path && w.disposition != Reclaimed
            && (w.reclaimable <==> Fit(world, e.look, e.inventory, FirstStatus(world, e.look.parentRunId)))
            && (w.reclaimable ==> Eligible(w))
  {
  }

  /** A workspace ends reclaimed exactly when it was fit at both looks, was among the oldest, and could be deleted. */
  lemma ReclaimedExactlyWhenConfirmed(world: World, entries: seq<Entry>, maxReclaims: nat, i: nat)
    requires i < |Validated(entries)|
    ensures var e := Validated(entries)[i];
            var r := world.recheck(e.path);
            var ws := Inventoried(world, entries).workspaces;
            && e in entries && e.candidate && e.look.Seen? && |ws| == |Validated(entries)|
            && |Collected(world, entries, maxReclaims).workspaces| == |ws|
            && (Collected(world, entries, maxReclaims).workspaces[i].disposition == Reclaimed <==>
                && Fit(world, e.look, e.inventory, FirstStatus(world, e.look.parentRunId))
                && Chosen(ws, maxReclaims, i)
                && Fit(world, r.look, r.inventory, r.status) && r.deleteOk)
  {
    ValidatedAreSeen(entries);
    var e := Validated(entries)[i];
    assert e in Validated(entries);
    MeasuredAt(world, CountEntries(entries), Validated(entries), i);
    EachWorkspaceEnds(world, entries, maxReclaims, i);
    ChosenIsReclaimable(Inventoried(world, entries).workspaces, maxReclaims, i);
    MeasureFit(world, e);
    if Measure(world, e).reclaimable { SettleReclaims(world, Measure(world, e)); }
  }

  /** How a workspace ends, in terms of the two looks at it: too recent, under a live parent run, incomplete, refused or
      gone, in this order of precedence, with the size, errors and parent status of the look that decided. */
  ghost predicate EndsAs(world: World, e: Entry, chosen: bool, w: Workspace)
    requires e.look.Seen?
  {
    var status := FirstStatus(world, e.look.parentRunId);
    var r := world.recheck(e.path);
    && w.path == e.path && w.modifiedAt == e.look.modifiedAt
    && (if e.look.modifiedAt > world.cutoff then w.disposition == Recent
        else if status.Some? && !world.terminal(status.value) then w.disposition == ParentRunNonTerminal
        else if e.inventory.scanErrors != [] then w.disposition == IncompleteInventory && w.scanErrors == e.inventory.scanErrors
        else if !chosen then w.disposition == ReclaimLimitReached
        else if r.inventory.scanErrors != [] then w.disposition == IncompleteInventory && w.scanErrors == r.inventory.scanErrors
        else if !r.look.Seen? then w.disposition == RefusedBeforeReclamation
        else if r.look.modifiedAt > world.cutoff then w.disposition == Recent
        else if r.status.Some? && !world.terminal(r.status.value) then w.disposition == ParentRunNonTerminal
        else if !r.deleteOk then w.disposition == RefusedBeforeReclamation
        else w.disposition == Reclaimed && w.bytesUsed == r.inventory.bytesUsed && w.scanErrors == [])
    && (w.disposition != Reclaimed && w.disposition != IncompleteInventory ==> w.bytesUsed == e.inventory.bytesUsed)
    && (w.reclaimable <==> w.disposition == ReclaimLimitReached)
    && w.status == (if chosen && r.inventory.scanErrors == [] && r.look.Seen? && r.look.modifiedAt <= world.cutoff
                    then r.status else status)
  }

  lemma MeasuredEndsAs(world: World, e: Entry, chosen: bool)
    requires e.look.Seen? && (chosen ==> Measure(world, e).reclaimable)
    ensures var w := Measure(world, e);
            EndsAs(world, e, chosen, if !w.reclaimable then w
                                     else if chosen then Settle(world, w)
                                     else w.(disposition := ReclaimLimitReached))
  {}

  /** Where each workspace ends. */
  lemma DispositionExactly(world: World, entries: seq<Entry>, maxReclaims: nat, i: nat)
    requires i < |Validated(entries)|
    ensures |Inventoried(world, entries).workspaces| == |Validated(entries)| == |Collected(world, entries, maxReclaims).workspaces|
    ensures Validated(entries)[i].look.Seen?
    ensures EndsAs(world, Validated(entries)[i], Chosen(Inventoried(world, entries).workspaces, maxReclaims, i),
                   Collected(world, entries, maxReclaims).workspaces[i])
  {
    var e := Validated(entries)[i];
    var ws := Inventoried(world, entries).workspaces;
    ValidatedAreSeen(entries);
    assert e in Validated(entries);
    MeasuredAt(world, CountEntries(entries), Validated(entries), i);
    assert ws[i] == Measure(world, e);
    EachWorkspaceEnds(world, entries, maxReclaims, i);
    ChosenIsReclaimable(ws, maxReclaims, i);
    MeasuredEndsAs(world, e, Chosen(ws, maxReclaims, i));
  }

  lemma ChosenIsReclaimable(workspaces: seq<Workspace>, maxReclaims: nat, i: nat)
    requires i < |workspaces|
    ensures Chosen(workspaces, maxReclaims, i) ==> workspaces[i].reclaimable
  {
    QueuePlaced(workspaces);
    if Chosen(workspaces, maxReclaims, i) {
      assert TicketOf(workspaces, i) in Queue(workspaces);
      assert IsTicket(workspaces, TicketOf(workspaces, i));
    }
  }

  /** The limit spares the youngest: whoever is chosen is at least as old as whoever has to wait,
      and nobody waits while there is room. */
  lemma OldestFirst(workspaces: seq<Workspace>, maxReclaims: nat, i: nat, j: nat)
    requires i < |workspaces| && j < |workspaces|
    requires Chosen(workspaces, maxReclaims, i)
    requires workspaces[j].reclaimable && !Chosen(workspaces, maxReclaims, j)
    ensures OlderLeq(TicketOf(workspaces, i), TicketOf(workspaces, j))
    ensures Reserved(Queue(workspaces), maxReclaims) == maxReclaims < Sum(IsReclaimable, workspaces)
  {
    var queue := Queue(workspaces);
    QueuePlaced(workspaces);
    assert IsTicket(workspaces, TicketOf(workspaces, j));
    HeadComesFirst(queue, Reserved(queue, maxReclaims), TicketOf(workspaces, i), TicketOf(workspaces, j));
  }

  /** The age order, spelled out: whoever is chosen was modified earlier than whoever has to wait, or at the same time and
      its path comes first. */
  lemma ChosenAreOlder(workspaces: seq<Workspace>, maxReclaims: nat, i: nat, j: nat)
    requires i < |workspaces| && j < |workspaces|
    requires Chosen(workspaces, maxReclaims, i)
    requires workspaces[j].reclaimable && !Chosen(workspaces, maxReclaims, j)
    ensures || workspaces[i].modifiedAt < workspaces[j].modifiedAt
            || (workspaces[i].modifiedAt == workspaces[j].modifiedAt && LexLeq(workspaces[i].path, workspaces[j].path))
  {
    OldestFirst(workspaces, maxReclaims, i, j);
  }

  /** The workspaces that were measured fit and end postponed. */
  predicate Postponed(first: Workspace, last: Workspace) {
    first.reclaimable && last.disposition == ReclaimLimitReached
  }

  /** The same for how a run leaves them, which is what `CollectWorkspaces` returns: of the workspaces measured fit, those
      it tried were modified earlier than those it postponed, and it postponed some only after trying as many as allowed. */
  lemma OldestAreTried(world: World, entries: seq<Entry>, maxReclaims: nat, i: nat, j: nat)
    requires i < |Inventoried(world, entries).workspaces| && j < |Inventoried(world, entries).workspaces|
    ensures var first, last := Inventoried(world, entries).workspaces, Collected(world, entries, maxReclaims).workspaces;
            && |last| == |first|
            && (first[i].reclaimable && !Postponed(first[i], last[i]) && Postponed(first[j], last[j]) ==>
                  && (first[i].modifiedAt < first[j].modifiedAt
                      || (first[i].modifiedAt == first[j].modifiedAt && LexLeq(first[i].path, first[j].path)))
                  && maxReclaims < Sum(IsReclaimable, first))
            && (first[i].reclaimable && Sum(IsReclaimable, first) <= maxReclaims ==> !Postponed(first[i], last[i]))
  {
    var ws := Inventoried(world, entries).workspaces;
    PostponedUnlessChosen(world, entries, maxReclaims, i);
    PostponedUnlessChosen(world, entries, maxReclaims, j);
    if ws[i].reclaimable && !Chosen(ws, maxReclaims, i) {
      AllChosen(ws, maxReclaims, i);
    } else if ws[i].reclaimable && ws[j].reclaimable && !Chosen(ws, maxReclaims, j) {
      ChosenAreOlder(ws, maxReclaims, i, j);
      OldestFirst(ws, maxReclaims, i, j);
    }
  }

  lemma PostponedUnlessChosen(world: World, entries: seq<Entry>, maxReclaims: nat, i: nat)
    requires i < |Inventoried(world, entries).workspaces|
    ensures var first, last := Inventoried(world, entries).workspaces, Collected(world, entries, maxReclaims).workspaces;
            && |last| == |first|
            && (Postponed(first[i], last[i]) <==> first[i].reclaimable && !Chosen(first, maxReclaims, i))
  {
    EachWorkspaceEnds(world, entries, maxReclaims, i);
  }

  /** Whoever is fit and not chosen is there only because of the limit. */
  lemma AllChosen(workspaces: seq<Workspace>, maxReclaims: nat, i: nat)
    requires i < |workspaces| && workspaces[i].reclaimable && !Chosen(workspaces, maxReclaims, i)
    ensures maxReclaims < Sum(IsReclaimable, workspaces)
  {
    QueuePlaced(workspaces);
    var queue := Queue(workspaces);
    assert IsTicket(workspaces, TicketOf(workspaces, i));
    assert queue[..|queue|] == queue;
  }

  lemma HeadComesFirst(queue: seq<Ticket>, n: nat, a: Ticket, b: Ticket)
    requires n <= |queue| && SortedBy(OlderLeq, queue) && a in queue[..n] && b in queue && b !in queue[..n]
    ensures OlderLeq(a, b) && n < |queue|
  {
    var i :| 0 <= i < n && queue[..n][i] == a;
    var j :| 0 <= j < |queue| && queue[j] == b;
    InHead(queue, n);
    assert OlderLeq(queue[i], queue[j]);
  }

  lemma InHead(queue: seq<Ticket>, n: nat)
    requires n <= |queue|
    ensures forall j :: 0 <= j < n ==> queue[j] in queue[..n]
  {
    forall j | 0 <= j < n ensures queue[j] in queue[..n] { assert queue[..n][j] == queue[j]; }
  }

  /** The paths handed to the recursive delete, in order. */
  function Attempts(world: World, tickets: seq<Ticket>): seq<string> {
    if tickets == [] then []
    else
      var r := world.recheck(tickets[0].path);
      (if Fit(world, r.look, r.inventory, r.status) then [tickets[0].path] else []) + Attempts(world, tickets[1..])
  }

  /** Nothing is ever deleted, not even partly, without its own fresh complete re-check. */
  lemma {:induction false} AttemptsAreConfirmed(world: World, tickets: seq<Ticket>)
    ensures |Attempts(world, tickets)| <= |tickets|
    ensures forall p :: p in Attempts(world, tickets) <==>
              (exists t :: t in tickets && t.path == p)
              && Fit(world, world.recheck(p).look, world.recheck(p).inventory, world.recheck(p).status)
  {
    if tickets != [] {
      AttemptsAreConfirmed(world, tickets[1..]);
      assert forall t :: t in tickets <==> t == tickets[0] || t in tickets[1..];
    }
  }

  // ---------------------------------------------------------------- the report

  predicate ReportLeq(a: Workspace, b: Workspace) {
    if (a.disposition == Reclaimed) != (b.disposition == Reclaimed) then a.disposition == Reclaimed
    else if a.reclaimable != b.reclaimable then a.reclaimable
    else if a.bytesUsed != b.bytesUsed then a.bytesUsed > b.bytesUsed
    else LexLeq(a.path, b.path)
  }

  lemma ReportIsAnOrder()
    ensures TotalPreorder(ReportLeq)
  {
    forall a, b ensures ReportLeq(a, b) || ReportLeq(b, a) { LexTotal(a.path, b.path); }
    forall a, b, c | ReportLeq(a, b) && ReportLeq(b, c) ensures ReportLeq(a, c) {
      if LexLeq(a.path, b.path) && LexLeq(b.path, c.path) { LexTransitive(a.path, b.path, c.path); }
    }
  }

  datatype Report = Report(workspaces: seq<Workspace>, truncated: bool)

  function Reported(workspaces: seq<Workspace>, limit: nat): Report {
    var ordered := Sort(ReportLeq, workspaces);
    Report(if limit < |ordered| then ordered[..limit] else ordered, |ordered| > limit)
  }

  /** The report is the top of the list, and says so exactly when something is missing from it. */
  lemma ReportIsTop(workspaces: seq<Workspace>, limit: nat)
    ensures var report := Reported(workspaces, limit);
            && SortedBy(ReportLeq, report.workspaces)
            && multiset(report.workspaces) <= multiset(workspaces)
            && |report.workspaces| == (if |workspaces| < limit then |workspaces| else limit)
            && (report.truncated <==> multiset(report.workspaces) != multiset(workspaces))
            && (forall shown, omitted :: shown in report.workspaces && omitted in multiset(workspaces) - multiset(report.workspaces)
                  ==> ReportLeq(shown, omitted))
  {
    var ordered := Sort(ReportLeq, workspaces);
    ReportIsAnOrder();
    SortSpec(ReportLeq, workspaces);
    var cut := if limit < |ordered| then limit else |ordered|;
    var top, rest := ordered[..cut], ordered[cut..];
    CutSorted(ReportLeq, ordered, cut);
    assert top == Reported(workspaces, limit).workspaces;
    CutElements(multiset(workspaces), top, rest);
  }

  /** The order of the report, spelled out: reclaimed workspaces first, then those that still can be, larger before smaller,
      and by path. */
  lemma ReportOrderExactly(workspaces: seq<Workspace>, limit: nat, i: nat, j: nat)
    requires i < j < |Reported(workspaces, limit).workspaces|
    ensures var a, b := Reported(workspaces, limit).workspaces[i], Reported(workspaces, limit).workspaces[j];
            var alike := (a.disposition == Reclaimed) == (b.disposition == Reclaimed);
            && (b.disposition == Reclaimed ==> a.disposition == Reclaimed)
            && (alike && b.reclaimable ==> a.reclaimable)
            && (alike && a.reclaimable == b.reclaimable ==> a.bytesUsed >= b.bytesUsed)
            && (alike && a.reclaimable == b.reclaimable && a.bytesUsed == b.bytesUsed ==> LexLeq(a.path, b.path))
  {
    ReportIsTop(workspaces, limit);
  }

  lemma CutElements(all: multiset<Workspace>, top: seq<Workspace>, rest: seq<Workspace>)
    requires all == multiset(top) + multiset(rest)
    ensures multiset(top) <= all
    ensures multiset(top) == all <==> rest == []
    ensures forall w :: w in all - multiset(top) <==> w in rest
  {
  }

  // ---------------------------------------------------------------- the collector

  class MeasuredWorkspace {
    const path: string
    const parentRunId: int
    const modifiedAt: int
    var status: Option<string>
    var bytesUsed: nat
    var inventoryComplete: bool
    var scanErrors: ScanErrors
    var reclaimable: bool
    var disposition: Disposition

    constructor (w: Workspace)
      ensures View() == w
    {
      path, parentRunId, modifiedAt := w.path, w.parentRunId, w.modifiedAt;
      status, bytesUsed, inventoryComplete, scanErrors := w.status, w.bytesUsed, w.inventoryComplete, w.scanErrors;
      reclaimable, disposition := w.reclaimable, w.disposition;
    }

    function View(): Workspace
      reads this
    {
      Workspace(path, parentRunId, status, modifiedAt, bytesUsed, inventoryComplete, scanErrors, reclaimable, disposition)
    }

    /** Walk the tree again, look at the path and the parent run again, then delete or give up. */
    method ConfirmAndReclaim(world: World, counters: Counters) returns (counters': Counters, attempted: bool)
      modifies this
      ensures View() == Settle(world, old(View()))
      ensures counters' == CountSettled(world, counters, old(View()))
      ensures attempted <==> var r := world.recheck(path); Fit(world, r.look, r.inventory, r.status)
    {
      var r := world.recheck(path);
      counters', attempted := counters, false;
      if r.inventory.scanErrors != [] {
        bytesUsed := r.inventory.bytesUsed;
        inventoryComplete := false;
        scanErrors := r.inventory.scanErrors;
        reclaimable := false;
        disposition := IncompleteInventory;
        counters' := counters.(errors := counters.errors + |r.inventory.scanErrors|);
        return;
      }
      match r.look {
        case Unsafe =>
          reclaimable, disposition := false, RefusedBeforeReclamation;
          counters' := counters.(refused := counters.refused + 1);
          return;
        case NoStat =>
          reclaimable, disposition := false, RefusedBeforeReclamation;
          counters' := counters.(errors := counters.errors + 1);
          return;
        case Seen(_, modified) =>
          if modified > world.cutoff {
            reclaimable, disposition := false, Recent;
            counters' := counters.(recent := counters.recent + 1);
            return;
          }
      }
      status := r.status;
      if NonTerminal(world, status) {
        reclaimable, disposition := false, ParentRunNonTerminal;
        counters' := counters.(nonTerminal := counters.nonTerminal + 1);
        return;
      }
      attempted := true;
      if !r.deleteOk {
        reclaimable, disposition := false, RefusedBeforeReclamation;
        counters' := counters.(errors := counters.errors + 1);
        return;
      }
      bytesUsed, inventoryComplete, scanErrors := r.inventory.bytesUsed, true, [];
      reclaimable, disposition := false, Reclaimed;
      counters' := counters.(reclaimed := counters.reclaimed + 1,
                             bytesReclaimed := counters.bytesReclaimed + r.inventory.bytesUsed);
    }

    method Postponed()
      modifies this
      ensures View() == old(View()).(disposition := ReclaimLimitReached)
    {
      disposition := ReclaimLimitReached;
    }
  }

  /** The objects show these values, and no object stands twice in the list. */
  ghost predicate Shows(measured: seq<MeasuredWorkspace>, workspaces: seq<Workspace>)
    reads measured
  {
    && |measured| == |workspaces|
    && (forall i :: 0 <= i < |measured| ==> measured[i].View() == workspaces[i])
    && (forall i, j :: 0 <= i < j < |measured| ==> measured[i] != measured[j])
  }

  method ValidateEntries(entries: seq<Entry>) returns (found: seq<Entry>, counters: Counters)
    ensures found == Validated(entries) && counters == CountEntries(entries)
  {
    found, counters := [], NOTHING;
    for i := 0 to |entries|
      invariant found == Validated(entries[..i]) && counters == CountEntries(entries[..i])
    {
      var e := entries[i];
      assert entries[..i + 1][..i] == entries[..i];
      if !e.candidate { continue; }
      counters := counters.(scanned := counters.scanned + 1);
      match e.look {
        case Unsafe => counters := counters.(refused := counters.refused + 1);
        case NoStat => counters := counters.(errors := counters.errors + 1);
        case Seen(_, _) => found := found + [e];
      }
    }
    assert entries[..|entries|] == entries;
  }

  method MeasureFound(world: World, found: seq<Entry>, start: Counters)
    returns (measured: seq<MeasuredWorkspace>, counters: Counters)
    requires forall e :: e in found ==> e.look.Seen?
    ensures counters == MeasureAll(world, start, found).counters
    ensures Shows(measured, MeasureAll(world, start, found).workspaces) && fresh(set m | m in measured)
  {
    measured, counters := [], start;
    for i := 0 to |found|
      invariant counters == MeasureAll(world, start, found[..i]).counters
      invariant Shows(measured, MeasureAll(world, start, found[..i]).workspaces)
      invariant fresh(set m | m in measured)
    {
      assert found[..i + 1][..i] == found[..i];
      var w := Measure(world, found[i]);
      counters := CountMeasured(counters, w);
      var item := new MeasuredWorkspace(w);
      measured := measured + [item];
    }
    assert found[..|found|] == found;
  }

  /** The list as values, for sorting and reporting. */
  method Snapshot(measured: seq<MeasuredWorkspace>, ghost workspaces: seq<Workspace>) returns (values: seq<Workspace>)
    requires Shows(measured, workspaces)
    ensures values == workspaces
  {
    values := [];
    for i := 0 to |measured|
      invariant values == workspaces[..i]
    {
      values := values + [measured[i].View()];
    }
  }

  method PostponeRest(measured: seq<MeasuredWorkspace>, tickets: seq<Ticket>, ghost workspaces: seq<Workspace>)
    requires Shows(measured, workspaces) && Placed(tickets, |workspaces|)
    modifies measured
    ensures Shows(measured, Postpone(workspaces, tickets))
  {
    ghost var current := workspaces;
    var left := tickets;
    while left != []
      invariant |current| == |workspaces| && Shows(measured, current) && Placed(left, |current|)
      invariant Postpone(current, left) == Postpone(workspaces, tickets)
      decreases |left|
    {
      assert left[0] in left;
      var i := left[0].position;
      measured[i].Postponed();
      current := current[i := current[i].(disposition := ReclaimLimitReached)];
      left := left[1..];
    }
  }

  method ReclaimNext(world: World, measured: seq<MeasuredWorkspace>, ticket: Ticket, counters: Counters,
                     attempts: seq<string>, ghost workspaces: seq<Workspace>)
    returns (counters': Counters, attempts': seq<string>, ghost workspaces': seq<Workspace>)
    requires Shows(measured, workspaces) && ticket.position < |workspaces|
    requires ticket.path == workspaces[ticket.position].path
    modifies measured
    ensures workspaces' == workspaces[ticket.position := Settle(world, workspaces[ticket.position])]
    ensures Shows(measured, workspaces')
    ensures counters' == CountSettled(world, counters, workspaces[ticket.position])
    ensures attempts' == attempts + Attempts(world, [ticket])
    ensures forall i :: 0 <= i < |workspaces| ==> workspaces'[i].path == workspaces[i].path
  {
    var i := ticket.position;
    var attempted;
    attempts' := attempts;
    counters', attempted := measured[i].ConfirmAndReclaim(world, counters);
    if attempted { attempts' := attempts' + [measured[i].path]; }
    workspaces' := workspaces[i := Settle(world, workspaces[i])];
    assert [ticket][1..] == [];
  }

  /** What is done so far and what `left` still does make up the whole second pass. */
  ghost predicate OnTrack(world: World, books: Books, attempts: seq<string>, left: seq<Ticket>, goal: Books, goalAttempts: seq<string>) {
    && Placed(left, |books.workspaces|)
    && (forall t :: t in left ==> t.path == books.workspaces[t.position].path)
    && SettleAll(world, books, left) == goal
    && attempts + Attempts(world, left) == goalAttempts
  }

  lemma StaysOnTrack(world: World, books: Books, attempts: seq<string>, left: seq<Ticket>, goal: Books, goalAttempts: seq<string>)
    requires left != [] && OnTrack(world, books, attempts, left, goal, goalAttempts)
    ensures left[0].position < |books.workspaces| && left[0].path == books.workspaces[left[0].position].path
    ensures OnTrack(world, Books(CountSettled(world, books.counters, books.workspaces[left[0].position]),
                                 books.workspaces[left[0].position := Settle(world, books.workspaces[left[0].position])]),
                    attempts + Attempts(world, [left[0]]), left[1..], goal, goalAttempts)
  {
  }

  method ReclaimChosen(world: World, measured: seq<MeasuredWorkspace>, tickets: seq<Ticket>, start: Counters,
                       ghost workspaces: seq<Workspace>)
    returns (counters: Counters, attempts: seq<string>)
    requires Shows(measured, workspaces) && Placed(tickets, |workspaces|)
    requires forall t :: t in tickets ==> t.path == workspaces[t.position].path
    modifies measured
    ensures Shows(measured, SettleAll(world, Books(start, workspaces), tickets).workspaces)
    ensures counters == SettleAll(world, Books(start, workspaces), tickets).counters
    ensures attempts == Attempts(world, tickets)
  {
    ghost var current := workspaces;
    ghost var goal, goalAttempts := SettleAll(world, Books(start, workspaces), tickets), Attempts(world, tickets);
    counters, attempts := start, [];
    var left := tickets;
    while left != []
      invariant Shows(measured, current)
      invariant OnTrack(world, Books(counters, current), attempts, left, goal, goalAttempts)
      decreases |left|
    {
      StaysOnTrack(world, Books(counters, current), attempts, left, goal, goalAttempts);
      counters, attempts, current := ReclaimNext(world, measured, left[0], counters, attempts, current);
      left := left[1..];
    }
  }

  /** The books of a run that only takes inventory, or also reclaims. */
  function BooksOf(world: World, entries: seq<Entry>, reclaim: bool, maxReclaims: nat): Books {
    if reclaim then Collected(world, entries, maxReclaims) else Inventoried(world, entries)
  }

  /** Every path was fit for deletion at its re-check. */
  predicate Confirmed(world: World, attempts: seq<string>) {
    forall p :: p in attempts ==> Fit(world, world.recheck(p).look, world.recheck(p).inventory, world.recheck(p).status)
  }

  /** Inventory and collection of one listing. */
  method CollectWorkspaces(world: World, entries: seq<Entry>, reclaim: bool, maxReclaims: nat)
    returns (measured: seq<MeasuredWorkspace>, counters: Counters, attempts: seq<string>)
    ensures var books := BooksOf(world, entries, reclaim, maxReclaims);
            Shows(measured, books.workspaces) && counters == books.counters
    ensures attempts == if reclaim then
                          var queue := Queue(Inventoried(world, entries).workspaces);
                          Attempts(world, queue[..Reserved(queue, maxReclaims)])
                        else []
  {
    var found, start := ValidateEntries(entries);
    ValidatedAreSeen(entries);
    measured, counters := MeasureFound(world, found, start);
    attempts := [];
    if reclaim {
      ghost var books := Inventoried(world, entries);
      var values := Snapshot(measured, books.workspaces);
      var queue := Queue(values);
      var n := Reserved(queue, maxReclaims);
      QueuePlaced(values);
      assert forall t :: t in queue[..n] || t in queue[n..] ==> t in queue;
      PostponeRest(measured, queue[n..], values);
      ghost var current := Postpone(values, queue[n..]);
      PostponeKeepsPaths(values, queue[n..]);
      counters, attempts := ReclaimChosen(world, measured, queue[..n], counters, current);
    }
  }

  lemma PostponeKeepsPaths(workspaces: seq<Workspace>, tickets: seq<Ticket>)
    requires Placed(tickets, |workspaces|)
    ensures forall i :: 0 <= i < |workspaces| ==> Postpone(workspaces, tickets)[i].path == workspaces[i].path
  {
    forall i | 0 <= i < |workspaces| ensures Postpone(workspaces, tickets)[i].path == workspaces[i].path {
      PostponeTouches(workspaces, tickets, i);
    }
  }

  // ---------------------------------------------------------------- one call

  /** The directory that holds the workspaces. */
  datatype Ideas = Missing | UnsafeIdeas | Unlistable | Listed(entries: seq<Entry>)

  datatype Request = Request(action: string, automatic: bool, retention: Option<int>, maxReclaims: int, reportLimit: int, now: int)

  datatype Policy = Policy(automaticReclamationAllowed: bool, finishedWorkspaceRetention: int)

  datatype Outcome =
    | InvalidAction
    | InvalidRetention
    | Finished(counters: Counters, maxReclaims: nat, skipped: bool, report: Report)

  function Retention(request: Request, policy: Policy): int {
    if request.retention.Some? then request.retention.value else policy.finishedWorkspaceRetention
  }

  predicate Withheld(request: Request, policy: Policy) {
    request.action == "reclaim" && request.automatic && !policy.automaticReclamationAllowed
  }

  /** The run over a listing. */
  method RunOverListing(world: World, entries: seq<Entry>, reclaim: bool, maxReclaims: nat, limit: nat)
    returns (counters: Counters, report: Report, attempts: seq<string>)
    ensures var books := BooksOf(world, entries, reclaim, maxReclaims);
            counters == books.counters && report == Reported(books.workspaces, limit)
    ensures |attempts| <= maxReclaims && (attempts != [] ==> reclaim)
    ensures Confirmed(world, attempts)
  {
    ghost var queue := Queue(Inventoried(world, entries).workspaces);
    AttemptsAreConfirmed(world, queue[..Reserved(queue, maxReclaims)]);
    var measured;
    measured, counters, attempts := CollectWorkspaces(world, entries, reclaim, maxReclaims);
    var values := Snapshot(measured, BooksOf(world, entries, reclaim, maxReclaims).workspaces);
    report := Reported(values, limit);
  }

  /** The bounds on what a caller may ask for, spelled out. */
  lemma LimitsExactly(asked: int)
    ensures Clamp(asked, 1, MAX_RECLAIMS_PER_RUN) == (if asked < 1 then 1 else if asked > 100 then 100 else asked)
    ensures Clamp(asked, 1, MAX_WORKSPACE_REPORT_LIMIT) == (if asked < 1 then 1 else if asked > 200 then 200 else asked)
  {
  }

  /** What a directory that cannot be listed counts as. */
  function Unlisted(ideas: Ideas): Counters {
    match ideas
    case Missing => NOTHING
    case UnsafeIdeas => NOTHING.(refused := 1)
    case _ => NOTHING.(errors := 1)
  }

  /** What a run over the directory reports and hands to the delete: the books and the top of the list, with every
      attempt confirmed and within the limit. */
  ghost predicate RunResult(world: World, ideas: Ideas, reclaim: bool, maxReclaims: nat, limit: nat,
                            counters: Counters, report: Report, attempts: seq<string>) {
    if ideas.Listed? then
      var books := BooksOf(world, ideas.entries, reclaim, maxReclaims);
      && counters == books.counters && report == Reported(books.workspaces, limit)
      && |attempts| <= maxReclaims && Confirmed(world, attempts) && (attempts != [] ==> reclaim)
    else
      && report == Report([], false) && attempts == []
      && counters == NOTHING.(refused := if ideas.UnsafeIdeas? then 1 else 0, errors := if ideas.Unlistable? then 1 else 0)
  }

  /** The run over the directory, if it can be listed. */
  method RunOverIdeas(world: World, ideas: Ideas, reclaim: bool, maxReclaims: nat, limit: nat)
    returns (counters: Counters, report: Report, attempts: seq<string>)
    ensures RunResult(world, ideas, reclaim, maxReclaims, limit, counters, report, attempts)
  {
    if ideas.Listed? {
      counters, report, attempts := RunOverListing(world, ideas.entries, reclaim, maxReclaims, limit);
    } else {
      counters, report, attempts := Unlisted(ideas), Report([], false), [];
    }
  }

  /** One call of the collector: nothing is deleted unless asked for, and never automatically against the policy. */
  method ManageWorkspaces(request: Request, policy: Policy, ideas: Ideas, terminal: string -> bool,
                          runs: map<int, string>, recheck: string -> Recheck)
    returns (outcome: Outcome, attempts: seq<string>)
    ensures outcome == InvalidAction <==> request.action !in {"inventory", "reclaim"}
    ensures var retention := if request.retention.Some? then request.retention.value else policy.finishedWorkspaceRetention;
            var withheld := request.action == "reclaim" && request.automatic && !policy.automaticReclamationAllowed;
            && (outcome == InvalidRetention <==> request.action in {"inventory", "reclaim"} && retention <= 0)
            && (!outcome.Finished? ==> attempts == [])
            && (outcome.Finished? ==>
              && outcome.maxReclaims == Clamp(request.maxReclaims, 1, MAX_RECLAIMS_PER_RUN)
              && (outcome.skipped <==> withheld && ideas.Listed?)
              && RunResult(World(request.now - retention, terminal, runs, recheck), ideas,
                           request.action == "reclaim" && !withheld, outcome.maxReclaims,
                           Clamp(request.reportLimit, 1, MAX_WORKSPACE_REPORT_LIMIT),
                           outcome.counters, outcome.report, attempts))
  {
    attempts := [];
    if request.action !in {"inventory", "reclaim"} { return InvalidAction, []; }
    var maxReclaims := Clamp(request.maxReclaims, 1, MAX_RECLAIMS_PER_RUN);
    var limit := Clamp(request.reportLimit, 1, MAX_WORKSPACE_REPORT_LIMIT);
    var withheld := Withheld(request, policy);
    var retention := Retention(request, policy);
    if retention <= 0 { return InvalidRetention, []; }
    var world := World(request.now - retention, terminal, runs, recheck);
    var counters, report;
    counters, report, attempts := RunOverIdeas(world, ideas, request.action == "reclaim" && !withheld, maxReclaims, limit);
    outcome := Finished(counters, maxReclaims, withheld && ideas.Listed?, report);
  }
}

/**
 The workspace walk (brain/systems/workspace_inventory.py).

 A file tree is a value; the recursive functions say what a walk should find, and
 `InventoryWorkspace` finds it with an explicit stack.
 */
module WorkspaceInventory {
  import opened Options
  import opened Ordering

  /** `ClosedDir` cannot be scanned; `Special` is anything else that is neither a regular file nor a
      directory, symbolic links included, because entries are stat-ed without following them. */
  datatype Node =
    | File(size: nat)
    | Dir(children: seq<Entry>)
    | ClosedDir
    | Special

  datatype Entry = Entry(name: string, statOk: bool, node: Node)

  type Path = seq<string>

  datatype Operation = Scan | Stat

  datatype ScanError = ScanError(path: Path, operation: Operation)

  datatype Consumer = Consumer(path: string, bytesUsed: nat)

  datatype Inventory = Inventory(bytesUsed: nat, topConsumers: seq<Consumer>, scanErrors: seq<ScanError>)

  // ---------------------------------------------------------------- what there is to find

  /** Bytes of the regular files reachable without following symbolic links. */
  function Bytes(n: Node): nat {
    match n
    case File(size) => size
    case Dir(children) => EntriesBytes(children)
    case _ => 0
  }

  function EntriesBytes(entries: seq<Entry>): nat {
    if entries == [] then 0
    else (if entries[0].statOk then Bytes(entries[0].node) else 0) + EntriesBytes(entries[1..])
  }

  /** Every failed scan or stat below and including this directory. */
  function Failures(path: Path, n: Node): multiset<ScanError>
    decreases n
  {
    match n
    case Dir(children) => EntriesFailures(path, children)
    case ClosedDir => multiset{ScanError(path, Scan)}
    case _ => multiset{}
  }

  function EntriesFailures(path: Path, entries: seq<Entry>): multiset<ScanError>
    decreases entries
  {
    if entries == [] then multiset{}
    else
      var e := entries[0];
      (if e.statOk then Failures(path + [e.name], e.node) else multiset{ScanError(path + [e.name], Stat)})
      + EntriesFailures(path, entries[1..])
  }

  /** The bytes below the direct children called `name`. */
  function ConsumerBytes(entries: seq<Entry>, name: string): nat {
    if entries == [] then 0
    else (if entries[0].statOk && entries[0].name == name then Bytes(entries[0].node) else 0)
         + ConsumerBytes(entries[1..], name)
  }

  /** The direct children that are files or directories. */
  function ConsumerNames(entries: seq<Entry>): set<string> {
    set i | 0 <= i < |entries| && entries[i].statOk && !entries[i].node.Special? :: entries[i].name
  }

  /** What a scan of the workspace root lists; a root that is no directory fails to scan. */
  function RootEntries(root: Node): seq<Entry> {
    if root.Dir? then root.children else []
  }

  function RootFailures(root: Node): multiset<ScanError> {
    if root.Dir? then Failures([], root) else multiset{ScanError([], Scan)}
  }

  /** No scan and no stat anywhere in the tree fails. */
  predicate Readable(n: Node) {
    match n
    case Dir(children) => forall e :: e in children ==> e.statOk && Readable(e.node)
    case ClosedDir => false
    case _ => true
  }

  /** There are no failures exactly in a readable tree. */
  lemma {:induction false} NoFailuresIffReadable(path: Path, n: Node)
    ensures Failures(path, n) == multiset{} <==> Readable(n)
    decreases n, 1, 0
  {
    if n.Dir? {
      EntriesNoFailures(path, n, n.children);
    } else if n.ClosedDir? {
      assert ScanError(path, Scan) in Failures(path, n);
    }
  }

  function EntryFailures(path: Path, e: Entry): multiset<ScanError> {
    if e.statOk then Failures(path + [e.name], e.node) else multiset{ScanError(path + [e.name], Stat)}
  }

  lemma NoFailuresInSum(a: multiset<ScanError>, b: multiset<ScanError>)
    ensures a + b == multiset{} <==> a == multiset{} && b == multiset{}
  {
  }

  lemma {:induction false} EntriesNoFailures(path: Path, n: Node, entries: seq<Entry>)
    requires n.Dir? && forall e :: e in entries ==> e in n.children
    ensures EntriesFailures(path, entries) == multiset{} <==> forall e :: e in entries ==> e.statOk && Readable(e.node)
    decreases n, 0, |entries|
  {
    if entries != [] {
      var e := entries[0];
      assert e in entries && entries == [e] + entries[1..];
      NoFailuresIffReadable(path + [e.name], e.node);
      EntriesNoFailures(path, n, entries[1..]);
      NoFailuresInSum(EntryFailures(path, e), EntriesFailures(path, entries[1..]));
      assert !e.statOk ==> ScanError(path + [e.name], Stat) in EntryFailures(path, e);
    }
  }

  // ---------------------------------------------------------------- the stack

  /** A directory waiting to be scanned, charged to a direct child of the root (None: the root). */
  datatype Item = Item(path: Path, node: Node, consumer: Option<string>)

  function Listing(n: Node): seq<Entry> {
    if n.Dir? then n.children else []
  }

  function ItemFailures(i: Item): multiset<ScanError> {
    if i.node.Dir? then Failures(i.path, i.node) else multiset{ScanError(i.path, Scan)}
  }

  /** What a listing under `consumer` adds to `name`. */
  function ListingShare(consumer: Option<string>, entries: seq<Entry>, name: string): nat {
    match consumer
    case None => ConsumerBytes(entries, name)
    case Some(owner) => if owner == name then EntriesBytes(entries) else 0
  }

  function ItemShare(i: Item, name: string): nat {
    ListingShare(i.consumer, Listing(i.node), name)
  }

  function Weight(n: Node): nat {
    match n
    case Dir(children) => 1 + EntriesWeight(children)
    case _ => 1
  }

  function EntriesWeight(entries: seq<Entry>): nat {
    if entries == [] then 0 else Weight(entries[0].node) + EntriesWeight(entries[1..])
  }

  function StackBytes(stack: seq<Item>): nat {
    if stack == [] then 0 else StackBytes(stack[..|stack| - 1]) + EntriesBytes(Listing(stack[|stack| - 1].node))
  }

  function StackShare(stack: seq<Item>, name: string): nat {
    if stack == [] then 0 else StackShare(stack[..|stack| - 1], name) + ItemShare(stack[|stack| - 1], name)
  }

  function StackFailures(stack: seq<Item>): multiset<ScanError> {
    if stack == [] then multiset{} else StackFailures(stack[..|stack| - 1]) + ItemFailures(stack[|stack| - 1])
  }

  function StackWeight(stack: seq<Item>): nat {
    if stack == [] then 0 else StackWeight(stack[..|stack| - 1]) + Weight(stack[|stack| - 1].node)
  }

  /** Pushing at most one directory adds its accounts. */
  lemma Pushed(stack: seq<Item>, pushed: seq<Item>)
    requires |pushed| <= 1
    ensures StackBytes(stack + pushed) == StackBytes(stack) + StackBytes(pushed)
    ensures StackFailures(stack + pushed) == StackFailures(stack) + StackFailures(pushed)
    ensures StackWeight(stack + pushed) == StackWeight(stack) + StackWeight(pushed)
  {
    if pushed == [] {
      assert stack + pushed == stack;
    } else {
      assert pushed[..0] == [] && (stack + pushed)[..|stack|] == stack;
    }
  }

  lemma PushedShare(stack: seq<Item>, pushed: seq<Item>, owner: string, name: string)
    requires |pushed| <= 1 && (pushed != [] ==> pushed[0].consumer == Some(owner))
    ensures StackShare(stack + pushed, name) == StackShare(stack, name) + (if owner == name then StackBytes(pushed) else 0)
  {
    if pushed == [] {
      assert stack + pushed == stack;
    } else {
      assert pushed[..0] == [] && (stack + pushed)[..|stack|] == stack;
    }
  }

  lemma Single(i: Item)
    ensures StackBytes([i]) == EntriesBytes(Listing(i.node))
    ensures StackFailures([i]) == ItemFailures(i)
    ensures StackWeight([i]) == Weight(i.node)
  {
  }

  function Get(sizes: map<string, nat>, name: string): nat {
    if name in sizes then sizes[name] else 0
  }

  /** The sum of all values. */
  ghost function Total(sizes: map<string, nat>): nat {
    if sizes == map[] then 0
    else
      var k :| k in sizes;
      sizes[k] + Total(Drop(sizes, k))
  }

  function Drop(sizes: map<string, nat>, name: string): map<string, nat> {
    map k | k in sizes && k != name :: sizes[k]
  }

  lemma {:induction false} TotalSplits(sizes: map<string, nat>, name: string)
    requires name in sizes
    ensures Total(sizes) == sizes[name] + Total(Drop(sizes, name))
    decreases |sizes|
  {
    var k :| k in sizes && Total(sizes) == sizes[k] + Total(Drop(sizes, k));
    if k != name {
      assert Drop(sizes, k).Keys == sizes.Keys - {k};
      assert Drop(sizes, name).Keys == sizes.Keys - {name};
      TotalSplits(Drop(sizes, k), name);
      TotalSplits(Drop(sizes, name), k);
      assert Drop(Drop(sizes, k), name) == Drop(Drop(sizes, name), k);
    }
  }

  lemma TotalCharge(sizes: map<string, nat>, name: string, bytes: nat)
    ensures Total(sizes[name := Get(sizes, name) + bytes]) == Total(sizes) + bytes
  {
    var after := sizes[name := Get(sizes, name) + bytes];
    TotalSplits(after, name);
    assert Drop(after, name) == Drop(sizes, name);
    if name in sizes {
      TotalSplits(sizes, name);
    } else {
      assert Drop(sizes, name) == sizes;
    }
  }

  // ---------------------------------------------------------------- the walk

  /** Found so far plus still to be found is everything: bytes, bytes per name, failures. */
  ghost predicate BytesBalanced(root: Node, sizes: map<string, nat>, pending: seq<Item>, rest: seq<Entry>) {
    Total(sizes) + StackBytes(pending) + EntriesBytes(rest) == EntriesBytes(RootEntries(root))
  }

  ghost predicate ShareBalanced(root: Node, sizes: map<string, nat>, pending: seq<Item>,
                                consumer: Option<string>, rest: seq<Entry>, name: string) {
    Get(sizes, name) + StackShare(pending, name) + ListingShare(consumer, rest, name)
      == ConsumerBytes(RootEntries(root), name)
  }

  ghost predicate FailuresBalanced(root: Node, errors: seq<ScanError>, pending: seq<Item>, path: Path, rest: seq<Entry>) {
    multiset(errors) + StackFailures(pending) + EntriesFailures(path, rest) == RootFailures(root)
  }

  ghost predicate Balanced(root: Node, sizes: map<string, nat>, errors: seq<ScanError>, pending: seq<Item>,
                           item: Item, rest: seq<Entry>)
  {
    && BytesBalanced(root, sizes, pending, rest)
    && FailuresBalanced(root, errors, pending, item.path, rest)
    && forall name :: ShareBalanced(root, sizes, pending, item.consumer, rest, name)
  }

  /** Names recorded so far plus those still in the root listing are all consumer names, and every
      directory on the stack is charged to a recorded name. */
  ghost predicate Named(root: Node, sizes: map<string, nat>, pending: seq<Item>, item: Item, rest: seq<Entry>) {
    && (forall i :: 0 <= i < |pending| ==> pending[i].consumer.Some? && pending[i].consumer.value in sizes)
    && (if item.consumer.None? then sizes.Keys + ConsumerNames(rest) == ConsumerNames(RootEntries(root))
        else item.consumer.value in sizes && sizes.Keys == ConsumerNames(RootEntries(root)))
  }

  function ChargedTo(item: Item, e: Entry): string {
    if item.consumer.Some? then item.consumer.value else e.name
  }

  /** The first entry's part of a listing. */
  lemma FirstShare(item: Item, entries: seq<Entry>, name: string)
    requires entries != []
    ensures ListingShare(item.consumer, entries, name)
         == (if entries[0].statOk && ChargedTo(item, entries[0]) == name then Bytes(entries[0].node) else 0)
            + ListingShare(item.consumer, entries[1..], name)
  {
  }

  /** The first entry's failures and bytes, split into what is booked now and what is stacked. */
  ghost predicate Splits(item: Item, e: Entry, charged: nat, found: seq<ScanError>, pushed: seq<Item>) {
    && |pushed| <= 1
    && (if e.statOk then Bytes(e.node) else 0) == charged + StackBytes(pushed)
    && (if e.statOk then Failures(item.path + [e.name], e.node) else multiset{ScanError(item.path + [e.name], Stat)})
       == multiset(found) + StackFailures(pushed)
    && (pushed != [] ==> pushed[0].consumer == Some(ChargedTo(item, e)))
  }

  /** `after` is `before` with `charged` more bytes for `name`. */
  ghost predicate Charges(before: map<string, nat>, after: map<string, nat>, name: string, charged: nat) {
    && Total(after) == Total(before) + charged
    && forall other :: Get(after, other) == Get(before, other) + (if other == name then charged else 0)
  }

  lemma VisitBytes(root: Node, sizes: map<string, nat>, sizes': map<string, nat>, pending: seq<Item>, item: Item,
                   entries: seq<Entry>, charged: nat, found: seq<ScanError>, pushed: seq<Item>)
    requires entries != [] && BytesBalanced(root, sizes, pending, entries)
    requires Splits(item, entries[0], charged, found, pushed) && Total(sizes') == Total(sizes) + charged
    ensures BytesBalanced(root, sizes', pending + pushed, entries[1..])
  {
    Pushed(pending, pushed);
  }

  lemma VisitFailures(root: Node, errors: seq<ScanError>, pending: seq<Item>, item: Item,
                      entries: seq<Entry>, charged: nat, found: seq<ScanError>, pushed: seq<Item>)
    requires entries != [] && FailuresBalanced(root, errors, pending, item.path, entries)
    requires Splits(item, entries[0], charged, found, pushed)
    ensures FailuresBalanced(root, errors + found, pending + pushed, item.path, entries[1..])
  {
    Pushed(pending, pushed);
  }

  lemma VisitShare(root: Node, sizes: map<string, nat>, sizes': map<string, nat>, pending: seq<Item>, item: Item,
                   entries: seq<Entry>, charged: nat, found: seq<ScanError>, pushed: seq<Item>, other: string)
    requires entries != [] && ShareBalanced(root, sizes, pending, item.consumer, entries, other)
    requires Splits(item, entries[0], charged, found, pushed) && Charges(sizes, sizes', ChargedTo(item, entries[0]), charged)
    ensures ShareBalanced(root, sizes', pending + pushed, item.consumer, entries[1..], other)
  {
    FirstShare(item, entries, other);
    PushedShare(pending, pushed, ChargedTo(item, entries[0]), other);
  }

  lemma VisitBalances(root: Node, sizes: map<string, nat>, sizes': map<string, nat>, errors: seq<ScanError>,
                      pending: seq<Item>, item: Item, entries: seq<Entry>,
                      charged: nat, found: seq<ScanError>, pushed: seq<Item>)
    requires entries != [] && Balanced(root, sizes, errors, pending, item, entries)
    requires Splits(item, entries[0], charged, found, pushed) && Charges(sizes, sizes', ChargedTo(item, entries[0]), charged)
    ensures Balanced(root, sizes', errors + found, pending + pushed, item, entries[1..])
  {
    VisitBytes(root, sizes, sizes', pending, item, entries, charged, found, pushed);
    VisitFailures(root, errors, pending, item, entries, charged, found, pushed);
    forall other ensures ShareBalanced(root, sizes', pending + pushed, item.consumer, entries[1..], other) {
      VisitShare(root, sizes, sizes', pending, item, entries, charged, found, pushed, other);
    }
  }

  lemma NamedAfterVisit(root: Node, sizes: map<string, nat>, sizes': map<string, nat>, pending: seq<Item>,
                        item: Item, entries: seq<Entry>, pushed: seq<Item>)
    requires entries != [] && Named(root, sizes, pending, item, entries)
    requires var e := entries[0];
             sizes'.Keys == sizes.Keys + (if e.statOk && !e.node.Special? then {ChargedTo(item, e)} else {})
    requires forall i :: 0 <= i < |pushed| ==> pushed[i].consumer == Some(ChargedTo(item, entries[0])) && ChargedTo(item, entries[0]) in sizes'
    ensures Named(root, sizes', pending + pushed, item, entries[1..])
  {
  }

  /** What one entry books at once, reports and stacks. */
  function BookedBy(e: Entry): nat {
    if e.statOk && e.node.File? then e.node.size else 0
  }

  function FoundBy(item: Item, e: Entry): seq<ScanError> {
    if e.statOk then [] else [ScanError(item.path + [e.name], Stat)]
  }

  function StackedBy(item: Item, e: Entry): seq<Item> {
    if e.statOk && (e.node.Dir? || e.node.ClosedDir?) then [Item(item.path + [e.name], e.node, Some(ChargedTo(item, e)))]
    else []
  }

  function SizesAfter(sizes: map<string, nat>, item: Item, e: Entry): map<string, nat> {
    if e.statOk && !e.node.Special? then sizes[ChargedTo(item, e) := Get(sizes, ChargedTo(item, e)) + BookedBy(e)] else sizes
  }

  lemma EntrySplits(item: Item, e: Entry)
    ensures Splits(item, e, BookedBy(e), FoundBy(item, e), StackedBy(item, e))
    ensures StackWeight(StackedBy(item, e)) <= Weight(e.node)
  {
  }

  lemma EntryCharges(sizes: map<string, nat>, item: Item, e: Entry)
    ensures Charges(sizes, SizesAfter(sizes, item, e), ChargedTo(item, e), BookedBy(e))
  {
    TotalCharge(sizes, ChargedTo(item, e), BookedBy(e));
  }

  lemma VisitKeepsBalance(root: Node, sizes: map<string, nat>, errors: seq<ScanError>, pending: seq<Item>,
                          item: Item, entries: seq<Entry>)
    requires entries != [] && Balanced(root, sizes, errors, pending, item, entries)
    ensures Balanced(root, SizesAfter(sizes, item, entries[0]), errors + FoundBy(item, entries[0]),
                     pending + StackedBy(item, entries[0]), item, entries[1..])
  {
    var e := entries[0];
    EntrySplits(item, e);
    EntryCharges(sizes, item, e);
    VisitBalances(root, sizes, SizesAfter(sizes, item, e), errors, pending, item, entries,
                  BookedBy(e), FoundBy(item, e), StackedBy(item, e));
  }

  lemma VisitKeepsNames(root: Node, sizes: map<string, nat>, pending: seq<Item>, item: Item, entries: seq<Entry>)
    requires entries != [] && Named(root, sizes, pending, item, entries)
    ensures Named(root, SizesAfter(sizes, item, entries[0]), pending + StackedBy(item, entries[0]), item, entries[1..])
    ensures StackWeight(pending + StackedBy(item, entries[0])) + EntriesWeight(entries[1..])
         <= StackWeight(pending) + EntriesWeight(entries)
  {
    NamedAfterVisit(root, sizes, SizesAfter(sizes, item, entries[0]), pending, item, entries, StackedBy(item, entries[0]));
    EntrySplits(item, entries[0]);
    Pushed(pending, StackedBy(item, entries[0]));
  }

  /** One directory entry: charge a file, stack a directory, record a failed stat. */
  method VisitEntry(item: Item, e: Entry, sizes: map<string, nat>, errors: seq<ScanError>, pending: seq<Item>)
    returns (sizes': map<string, nat>, errors': seq<ScanError>, pending': seq<Item>)
    ensures sizes' == SizesAfter(sizes, item, e)
    ensures errors' == errors + FoundBy(item, e)
    ensures pending' == pending + StackedBy(item, e)
  {
    var path := item.path + [e.name];
    sizes', errors', pending' := sizes, errors, pending;
    if !e.statOk {
      errors' := errors + [ScanError(path, Stat)];
      return;
    }
    var name := ChargedTo(item, e);
    if e.node.Dir? || e.node.ClosedDir? {
      sizes' := sizes[name := Get(sizes, name)];
      pending' := pending + [Item(path, e.node, Some(name))];
    } else if e.node.File? {
      sizes' := sizes[name := Get(sizes, name) + e.node.size];
    }
  }

  /** One scanned listing: every entry visited once, in the order the operating system gives. */
  method VisitListing(ghost root: Node, item: Item, sizes: map<string, nat>, errors: seq<ScanError>, pending: seq<Item>)
    returns (sizes': map<string, nat>, errors': seq<ScanError>, pending': seq<Item>)
    requires item.node.Dir? && Balanced(root, sizes, errors, pending, item, item.node.children)
    requires Named(root, sizes, pending, item, item.node.children)
    ensures Balanced(root, sizes', errors', pending', item, []) && Named(root, sizes', pending', item, [])
    ensures StackWeight(pending') <= StackWeight(pending) + EntriesWeight(item.node.children)
  {
    sizes', errors', pending' := sizes, errors, pending;
    var entries := item.node.children;
    while entries != []
      invariant Balanced(root, sizes', errors', pending', item, entries) && Named(root, sizes', pending', item, entries)
      invariant StackWeight(pending') + EntriesWeight(entries) <= StackWeight(pending) + EntriesWeight(item.node.children)
    {
      VisitKeepsBalance(root, sizes', errors', pending', item, entries);
      VisitKeepsNames(root, sizes', pending', item, entries);
      sizes', errors', pending' := VisitEntry(item, entries[0], sizes', errors', pending');
      entries := entries[1..];
    }
  }

  function RootItem(root: Node): Item {
    Item([], root, None)
  }

  /** Between two listings: either nothing is scanned yet, or the root has been. */
  ghost predicate Settled(root: Node, sizes: map<string, nat>, errors: seq<ScanError>, pending: seq<Item>) {
    && Balanced(root, sizes, errors, pending, RootItem(root), [])
    && ((pending == [RootItem(root)] && sizes == map[]) || Named(root, sizes, pending, RootItem(root), []))
  }

  lemma StartSettled(root: Node)
    ensures Settled(root, map[], [], [RootItem(root)])
  {
    var stack := [RootItem(root)];
    assert stack[..0] == [];
    Single(RootItem(root));
    assert Total(map[]) == 0;
    forall name ensures ShareBalanced(root, map[], stack, None, [], name) {
      assert StackShare(stack, name) == StackShare([], name) + ItemShare(RootItem(root), name);
    }
  }

  lemma PopBytes(root: Node, sizes: map<string, nat>, pending: seq<Item>)
    requires pending != [] && BytesBalanced(root, sizes, pending, [])
    ensures BytesBalanced(root, sizes, pending[..|pending| - 1], Listing(pending[|pending| - 1].node))
  {
  }

  lemma PopShare(root: Node, sizes: map<string, nat>, pending: seq<Item>, name: string)
    requires pending != [] && ShareBalanced(root, sizes, pending, None, [], name)
    ensures var item := pending[|pending| - 1];
            ShareBalanced(root, sizes, pending[..|pending| - 1], item.consumer, Listing(item.node), name)
  {
  }

  lemma PopFailures(root: Node, errors: seq<ScanError>, pending: seq<Item>)
    requires pending != [] && FailuresBalanced(root, errors, pending, [], [])
    ensures var item := pending[|pending| - 1];
            if item.node.Dir? then FailuresBalanced(root, errors, pending[..|pending| - 1], item.path, item.node.children)
            else FailuresBalanced(root, errors + [ScanError(item.path, Scan)], pending[..|pending| - 1], [], [])
  {
  }

  lemma PopRootNames(root: Node)
    ensures Named(root, map[], [], RootItem(root), Listing(root))
  {
  }

  lemma PopChildNames(root: Node, sizes: map<string, nat>, pending: seq<Item>)
    requires pending != [] && Named(root, sizes, pending, RootItem(root), [])
    ensures Named(root, sizes, pending[..|pending| - 1], pending[|pending| - 1], Listing(pending[|pending| - 1].node))
  {
  }

  lemma PopNames(root: Node, sizes: map<string, nat>, errors: seq<ScanError>, pending: seq<Item>)
    requires pending != [] && Settled(root, sizes, errors, pending)
    ensures var item := pending[|pending| - 1];
            Named(root, sizes, pending[..|pending| - 1], item, Listing(item.node))
  {
    if Named(root, sizes, pending, RootItem(root), []) {
      PopChildNames(root, sizes, pending);
    } else {
      assert pending[..|pending| - 1] == [];
      PopRootNames(root);
    }
  }

  /** Taking a directory off the stack leaves its listing to visit, and nothing else changes. */
  lemma PopListing(root: Node, sizes: map<string, nat>, errors: seq<ScanError>, pending: seq<Item>)
    requires pending != [] && Settled(root, sizes, errors, pending) && pending[|pending| - 1].node.Dir?
    ensures var item := pending[|pending| - 1];
            && Balanced(root, sizes, errors, pending[..|pending| - 1], item, item.node.children)
            && Named(root, sizes, pending[..|pending| - 1], item, item.node.children)
  {
    var rest, item := pending[..|pending| - 1], pending[|pending| - 1];
    PopNames(root, sizes, errors, pending);
    PopBytes(root, sizes, pending);
    PopFailures(root, errors, pending);
    forall name ensures ShareBalanced(root, sizes, rest, item.consumer, item.node.children, name) {
      PopShare(root, sizes, pending, name);
    }
  }

  /** A directory that cannot be scanned contributes one error and no bytes. */
  lemma PopUnscannable(root: Node, sizes: map<string, nat>, errors: seq<ScanError>, pending: seq<Item>)
    requires pending != [] && Settled(root, sizes, errors, pending) && !pending[|pending| - 1].node.Dir?
    ensures var item := pending[|pending| - 1];
            Settled(root, sizes, errors + [ScanError(item.path, Scan)], pending[..|pending| - 1])
  {
    var item := pending[|pending| - 1];
    var rest, errors' := pending[..|pending| - 1], errors + [ScanError(item.path, Scan)];
    PopNames(root, sizes, errors, pending);
    PopBytes(root, sizes, pending);
    PopFailures(root, errors, pending);
    forall name ensures ShareBalanced(root, sizes, rest, item.consumer, [], name) {
      PopShare(root, sizes, pending, name);
    }
    ListingSettled(root, sizes, errors', rest, item);
  }

  lemma ListingSettled(root: Node, sizes: map<string, nat>, errors: seq<ScanError>, pending: seq<Item>, item: Item)
    requires Balanced(root, sizes, errors, pending, item, []) && Named(root, sizes, pending, item, [])
    ensures Settled(root, sizes, errors, pending)
  {
    forall name ensures ShareBalanced(root, sizes, pending, None, [], name) {
      assert ShareBalanced(root, sizes, pending, item.consumer, [], name);
    }
  }

  lemma NothingPending(root: Node, sizes: map<string, nat>, errors: seq<ScanError>)
    requires Settled(root, sizes, errors, [])
    ensures sizes.Keys == ConsumerNames(RootEntries(root))
    ensures forall name :: name in sizes ==> sizes[name] == ConsumerBytes(RootEntries(root), name)
    ensures Total(sizes) == EntriesBytes(RootEntries(root)) && multiset(errors) == RootFailures(root)
  {
    assert ConsumerNames([]) == {};
    forall name | name in sizes ensures sizes[name] == ConsumerBytes(RootEntries(root), name) {
      assert ShareBalanced(root, sizes, [], None, [], name);
    }
  }

  /** The walk: what the stack-driven loop records is what the recursive definitions find. */
  method WalkTree(root: Node) returns (sizes: map<string, nat>, errors: seq<ScanError>)
    ensures sizes.Keys == ConsumerNames(RootEntries(root))
    ensures forall name :: name in sizes ==> sizes[name] == ConsumerBytes(RootEntries(root), name)
    ensures Total(sizes) == EntriesBytes(RootEntries(root))
    ensures multiset(errors) == RootFailures(root)
  {
    sizes, errors := map[], [];
    var pending := [RootItem(root)];
    StartSettled(root);
    while pending != []
      invariant Settled(root, sizes, errors, pending)
      decreases StackWeight(pending)
    {
      var item := pending[|pending| - 1];
      if item.node.Dir? {
        PopListing(root, sizes, errors, pending);
        pending := pending[..|pending| - 1];
        sizes, errors, pending := VisitListing(root, item, sizes, errors, pending);
        ListingSettled(root, sizes, errors, pending, item);
      } else {
        PopUnscannable(root, sizes, errors, pending);
        errors := errors + [ScanError(item.path, Scan)];
        pending := pending[..|pending| - 1];
      }
    }
    NothingPending(root, sizes, errors);
  }

  // ---------------------------------------------------------------- the report

  /** More bytes first; equal sizes by path. */
  predicate RankLeq(a: Consumer, b: Consumer) {
    a.bytesUsed > b.bytesUsed || (a.bytesUsed == b.bytesUsed && LexLeq(a.path, b.path))
  }

  lemma RankIsAnOrder()
    ensures TotalPreorder(RankLeq)
  {
    forall a, b ensures RankLeq(a, b) || RankLeq(b, a) { LexTotal(a.path, b.path); }
    forall a, b, c | RankLeq(a, b) && RankLeq(b, c) ensures RankLeq(a, c) {
      if a.bytesUsed == b.bytesUsed && b.bytesUsed == c.bytesUsed { LexTransitive(a.path, b.path, c.path); }
    }
  }

  /** `consumers` lists each entry of `sizes` once. */
  ghost predicate Lists(consumers: seq<Consumer>, sizes: map<string, nat>) {
    && (forall c :: c in consumers ==> c.path in sizes && sizes[c.path] == c.bytesUsed)
    && (forall name :: name in sizes ==> Consumer(name, sizes[name]) in consumers)
    && |consumers| == |sizes|
  }

  method ListConsumers(sizes: map<string, nat>) returns (consumers: seq<Consumer>, total: nat)
    ensures Lists(consumers, sizes) && total == Total(sizes)
  {
    consumers, total := [], 0;
    var left := sizes;
    while left != map[]
      invariant forall name :: name in left ==> name in sizes && left[name] == sizes[name]
      invariant forall c :: c in consumers ==> c.path in sizes && sizes[c.path] == c.bytesUsed
      invariant forall name :: name in sizes && name !in left ==> Consumer(name, sizes[name]) in consumers
      invariant |consumers| + |left| == |sizes| && total + Total(left) == Total(sizes)
      decreases |left|
    {
      var name :| name in left;
      TotalSplits(left, name);
      consumers, total := consumers + [Consumer(name, left[name])], total + left[name];
      assert Drop(left, name).Keys == left.Keys - {name};
      left := Drop(left, name);
    }
  }

  /** A report of at most `limit` consumers (at least one), largest first, none larger left out. */
  ghost predicate Ranked(top: seq<Consumer>, sizes: map<string, nat>, limit: int) {
    && |top| == (if |sizes| <= limit then |sizes| else if limit >= 1 then limit else if |sizes| == 0 then 0 else 1)
    && SortedBy(RankLeq, top)
    && (forall c :: c in top ==> c.path in sizes && sizes[c.path] == c.bytesUsed)
    && (forall name :: name in sizes && Consumer(name, sizes[name]) !in top ==>
          forall c :: c in top ==> RankLeq(c, Consumer(name, sizes[name])))
  }

  lemma TopIsRanked(sorted: seq<Consumer>, sizes: map<string, nat>, limit: int, count: nat)
    requires Lists(sorted, sizes) && SortedBy(RankLeq, sorted)
    requires count == (if limit < 1 then 1 else limit)
    ensures Ranked(if count < |sorted| then sorted[..count] else sorted, sizes, limit)
  {
    var top := if count < |sorted| then sorted[..count] else sorted;
    forall name | name in sizes && Consumer(name, sizes[name]) !in top
      ensures forall c :: c in top ==> RankLeq(c, Consumer(name, sizes[name]))
    {
      var j :| 0 <= j < |sorted| && sorted[j] == Consumer(name, sizes[name]);
      assert j >= |top|;
    }
  }

  /** The report, spelled out: sizes fall, equal sizes are ordered by path, and whoever is left out is no larger than
      anyone shown. */
  lemma LargestFirst(top: seq<Consumer>, sizes: map<string, nat>, limit: int)
    requires Ranked(top, sizes, limit)
    ensures forall i, j :: 0 <= i < j < |top| ==>
              top[i].bytesUsed > top[j].bytesUsed || (top[i].bytesUsed == top[j].bytesUsed && LexLeq(top[i].path, top[j].path))
    ensures forall name, i :: name in sizes && 0 <= i < |top| && (forall k :: 0 <= k < |top| ==> top[k].path != name) ==>
              sizes[name] <= top[i].bytesUsed
    ensures |top| == |sizes| || (|top| < |sizes| && |top| == if limit < 1 then 1 else limit)
  {
    forall i, j | 0 <= i < j < |top|
      ensures top[i].bytesUsed > top[j].bytesUsed || (top[i].bytesUsed == top[j].bytesUsed && LexLeq(top[i].path, top[j].path))
    {
      assert RankLeq(top[i], top[j]);
    }
    forall name, i | name in sizes && 0 <= i < |top| && (forall k :: 0 <= k < |top| ==> top[k].path != name)
      ensures sizes[name] <= top[i].bytesUsed
    {
      assert Consumer(name, sizes[name]) !in top;
      assert RankLeq(top[i], Consumer(name, sizes[name]));
    }
  }

  method RankConsumers(consumers: seq<Consumer>, ghost sizes: map<string, nat>, limit: int) returns (top: seq<Consumer>)
    requires Lists(consumers, sizes)
    ensures Ranked(top, sizes, limit)
  {
    var sorted := Sort(RankLeq, consumers);
    var count := if limit < 1 then 1 else limit;
    RankIsAnOrder();
    SortSpec(RankLeq, consumers);
    SameElements(sorted, consumers);
    TopIsRanked(sorted, sizes, limit, count);
    top := if count < |sorted| then sorted[..count] else sorted;
  }

  /** The inventory reports exactly what is in the tree, and is complete exactly when all of it could be read. */
  method InventoryWorkspace(root: Node, topConsumerLimit: int) returns (inventory: Inventory, ghost sizes: map<string, nat>)
    ensures inventory.bytesUsed == EntriesBytes(RootEntries(root))
    ensures multiset(inventory.scanErrors) == RootFailures(root)
    ensures inventory.scanErrors == [] <==> root.Dir? && Readable(root)
    ensures sizes.Keys == ConsumerNames(RootEntries(root))
    ensures forall name :: name in sizes ==> sizes[name] == ConsumerBytes(RootEntries(root), name)
    ensures Ranked(inventory.topConsumers, sizes, topConsumerLimit)
  {
    var found, errors := WalkTree(root);
    var consumers, total := ListConsumers(found);
    var top := RankConsumers(consumers, found, topConsumerLimit);
    inventory := Inventory(total, top, errors);
    sizes := found;
    NoFailuresIffReadable([], root);
    assert errors == [] <==> |multiset(errors)| == 0;
    assert !root.Dir? ==> ScanError([], Scan) in RootFailures(root);
  }
}

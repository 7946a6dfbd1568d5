/**
 Chantiers: merging duplicates, the active set, and matching declarations (brain/systems/chantiers.py).

 A record's id is its position in the table. Text cleaning is a pair of functions: `strip` and `fold`
 stand for Python's `strip` and `casefold`.
 */
module Chantiers {
  import opened Options
  import opened Ordering

  datatype Words = Words(strip: string -> string, fold: string -> string)

  /** Stripping strips. */
  ghost predicate Tidy(w: Words) {
    forall s :: w.strip(w.strip(s)) == w.strip(s)
  }

  // ---------------------------------------------------------------- references

  /** A stored reference: anything, or an object with these fields; `extra` when it has others. */
  datatype Ref = NotMapping | Ref(source: string, ref: string, title: Option<string>, extra: bool)

  function CleanTitle(w: Words, title: Option<string>): Option<string> {
    if title.Some? && w.strip(title.value) != "" then Some(w.strip(title.value)) else None
  }

  function Clean(w: Words, r: Ref): Ref
    requires r.Ref?
  {
    Ref(w.strip(r.source), w.strip(r.ref), CleanTitle(w, r.title), false)
  }

  /** A cleaned reference keeps source and ref, stripped, and its title exactly if something is left of it. */
  lemma CleanedExactly(w: Words, r: Ref)
    requires r.Ref?
    ensures var c := Clean(w, r);
            && c.Ref? && !c.extra && c.source == w.strip(r.source) && c.ref == w.strip(r.ref)
            && (c.title.Some? <==> r.title.Some? && w.strip(r.title.value) != "")
            && (c.title.Some? ==> c.title.value == w.strip(r.title.value))
  {
  }

  type Identity = (string, string)

  function IdentityOf(w: Words, r: Ref): Identity {
    if r.Ref? then (w.fold(w.strip(r.source)), w.strip(r.ref)) else ("", "")
  }

  predicate Named(w: Words, r: Ref) {
    r.Ref? && w.strip(r.source) != "" && w.strip(r.ref) != ""
  }

  /** Which references count as one: those with one source, up to case, and one ref; a nameless one counts as none. */
  lemma OneIdentityExactly(w: Words, a: Ref, b: Ref)
    requires Named(w, a) && Named(w, b)
    ensures IdentityOf(w, a) == IdentityOf(w, b) <==>
              a.Ref? && b.Ref? && w.fold(w.strip(a.source)) == w.fold(w.strip(b.source)) && w.strip(a.ref) == w.strip(b.ref)
  {
  }

  lemma NamedExactly(w: Words, r: Ref)
    ensures Named(w, r) <==> r.Ref? && !(w.strip(r.source) == "" || w.strip(r.ref) == "")
  {
  }

  function Identities(w: Words, refs: seq<Ref>): set<Identity> {
    set r | r in refs && Named(w, r) :: IdentityOf(w, r)
  }

  /** A value that is no list counts as an empty one. */
  function ListOf(refs: Option<seq<Ref>>): seq<Ref> {
    if refs.Some? then refs.value else []
  }

  function Keep(w: Words, merged: seq<Ref>, item: Ref): seq<Ref> {
    if !Named(w, item) || IdentityOf(w, item) in Identities(w, merged) then merged else merged + [Clean(w, item)]
  }

  function KeepAll(w: Words, candidates: seq<Ref>): seq<Ref> {
    if candidates == [] then []
    else Keep(w, KeepAll(w, candidates[..|candidates| - 1]), candidates[|candidates| - 1])
  }

  function MergedRefs(w: Words, existing: Option<seq<Ref>>, incoming: Option<seq<Ref>>): seq<Ref> {
    KeepAll(w, ListOf(existing) + ListOf(incoming))
  }

  /** Clean references, none twice. */
  ghost predicate CleanList(w: Words, refs: seq<Ref>) {
    && (forall r :: r in refs ==> Named(w, r) && Clean(w, r) == r)
    && (forall i, j :: 0 <= i < j < |refs| ==> IdentityOf(w, refs[i]) != IdentityOf(w, refs[j]))
  }

  lemma CleanKeepsIdentity(w: Words, r: Ref)
    requires Tidy(w) && Named(w, r)
    ensures Named(w, Clean(w, r)) && IdentityOf(w, Clean(w, r)) == IdentityOf(w, r) && Clean(w, Clean(w, r)) == Clean(w, r)
  {
  }

  lemma IdentitiesAppend(w: Words, refs: seq<Ref>, item: Ref)
    ensures Identities(w, refs + [item]) == Identities(w, refs) + (if Named(w, item) then {IdentityOf(w, item)} else {})
  {
  }

  lemma KeepSpec(w: Words, merged: seq<Ref>, item: Ref)
    requires Tidy(w) && CleanList(w, merged)
    ensures CleanList(w, Keep(w, merged, item))
    ensures Identities(w, Keep(w, merged, item)) == Identities(w, merged) + (if Named(w, item) then {IdentityOf(w, item)} else {})
  {
    if Named(w, item) && IdentityOf(w, item) !in Identities(w, merged) {
      CleanKeepsIdentity(w, item);
      IdentitiesAppend(w, merged, Clean(w, item));
      forall i | 0 <= i < |merged| ensures IdentityOf(w, merged[i]) != IdentityOf(w, Clean(w, item)) {
        assert merged[i] in merged;
      }
    }
  }

  lemma {:induction false} KeepAllSpec(w: Words, candidates: seq<Ref>)
    requires Tidy(w)
    ensures CleanList(w, KeepAll(w, candidates))
    ensures Identities(w, KeepAll(w, candidates)) == Identities(w, candidates)
  {
    if candidates != [] {
      var n := |candidates| - 1;
      KeepAllSpec(w, candidates[..n]);
      KeepSpec(w, KeepAll(w, candidates[..n]), candidates[n]);
      IdentitiesAppend(w, candidates[..n], candidates[n]);
      assert candidates == candidates[..n] + [candidates[n]];
    }
  }

  /** Merging gives the union of the identities, each once, cleaned. */
  lemma MergedRefsAreTheUnion(w: Words, existing: Option<seq<Ref>>, incoming: Option<seq<Ref>>)
    requires Tidy(w)
    ensures var merged := MergedRefs(w, existing, incoming);
            && CleanList(w, merged)
            && Identities(w, merged) == Identities(w, ListOf(existing)) + Identities(w, ListOf(incoming))
  {
    KeepAllSpec(w, ListOf(existing) + ListOf(incoming));
    var all := ListOf(existing) + ListOf(incoming);
    assert Identities(w, all) == Identities(w, ListOf(existing)) + Identities(w, ListOf(incoming)) by {
      assert forall r :: r in all <==> r in ListOf(existing) || r in ListOf(incoming);
    }
  }

  lemma {:induction false} KeepAllOfClean(w: Words, refs: seq<Ref>)
    requires CleanList(w, refs)
    ensures KeepAll(w, refs) == refs
  {
    if refs != [] {
      var n := |refs| - 1;
      KeepAllOfClean(w, refs[..n]);
      assert refs[n] in refs && refs == refs[..n] + [refs[n]];
      assert forall r :: r in refs[..n] ==> IdentityOf(w, r) != IdentityOf(w, refs[n]);
    }
  }

  lemma {:induction false} KeepAllOfKnown(w: Words, clean: seq<Ref>, more: seq<Ref>)
    requires CleanList(w, clean) && Identities(w, more) <= Identities(w, clean)
    ensures KeepAll(w, clean + more) == clean
  {
    if more == [] {
      assert clean + more == clean;
      KeepAllOfClean(w, clean);
    } else {
      var n := |more| - 1;
      assert more == more[..n] + [more[n]];
      IdentitiesAppend(w, more[..n], more[n]);
      KeepAllOfKnown(w, clean, more[..n]);
      assert (clean + more)[..|clean + more| - 1] == clean + more[..n];
    }
  }

  /** Merging the same references again changes nothing. */
  lemma MergingTwiceIsMergingOnce(w: Words, existing: Option<seq<Ref>>, incoming: Option<seq<Ref>>)
    requires Tidy(w)
    ensures var merged := MergedRefs(w, existing, incoming);
            && MergedRefs(w, Some(merged), incoming) == merged
            && MergedRefs(w, Some(merged), existing) == merged
  {
    var merged := MergedRefs(w, existing, incoming);
    MergedRefsAreTheUnion(w, existing, incoming);
    KeepAllOfKnown(w, merged, ListOf(incoming));
    KeepAllOfKnown(w, merged, ListOf(existing));
  }

  // ---------------------------------------------------------------- display titles

  /** The first named reference of its identity. */
  predicate First(w: Words, all: seq<Ref>, i: int) {
    && 0 <= i < |all| && Named(w, all[i])
    && forall k :: 0 <= k < i && Named(w, all[k]) ==> IdentityOf(w, all[k]) != IdentityOf(w, all[i])
  }

  predicate Titled(w: Words, r: Ref) {
    Named(w, r) && CleanTitle(w, r.title).Some?
  }

  lemma {:induction false} FirstExists(w: Words, all: seq<Ref>, j: nat) returns (i: nat)
    requires j < |all| && Named(w, all[j])
    ensures i <= j && First(w, all, i) && IdentityOf(w, all[i]) == IdentityOf(w, all[j])
  {
    if k: nat :| k < j && Named(w, all[k]) && IdentityOf(w, all[k]) == IdentityOf(w, all[j]) {
      i := FirstExists(w, all, k);
    } else {
      i := j;
    }
  }

  lemma FirstIsUnique(w: Words, all: seq<Ref>, i: int, j: int)
    requires First(w, all, i) && First(w, all, j) && IdentityOf(w, all[i]) == IdentityOf(w, all[j])
    ensures i == j
  {
  }

  /** A merge keeps exactly the first reference of each identity, cleaned. */
  lemma {:induction false} KeptAreTheFirst(w: Words, all: seq<Ref>, kept: Ref)
    requires Tidy(w)
    ensures kept in KeepAll(w, all) <==> exists i :: First(w, all, i) && kept == Clean(w, all[i])
  {
    if all != [] {
      var n := |all| - 1;
      KeptAreTheFirst(w, all[..n], kept);
      KeptAppend(w, all);
      assert forall i :: 0 <= i < n ==> all[..n][i] == all[i];
      assert forall i :: 0 <= i < n ==> (First(w, all, i) <==> First(w, all[..n], i));
    }
  }

  /** The last reference is kept exactly when it is the first of its identity. */
  lemma KeptAppend(w: Words, all: seq<Ref>)
    requires Tidy(w) && all != []
    ensures var n := |all| - 1;
            KeepAll(w, all) == KeepAll(w, all[..n]) + (if First(w, all, n) then [Clean(w, all[n])] else [])
  {
    var n := |all| - 1;
    KeepAllSpec(w, all[..n]);
    assert Named(w, all[n]) ==> (First(w, all, n) <==> IdentityOf(w, all[n]) !in Identities(w, all[..n])) by {
      assert forall k :: 0 <= k < n ==> all[..n][k] == all[k] && all[k] in all[..n];
    }
    assert KeepAll(w, all[..n]) + [] == KeepAll(w, all[..n]);
  }

  /** The merged list has this title for the identity. */
  predicate HasTitle(w: Words, merged: seq<Ref>, id: Identity, title: Option<string>) {
    exists k :: k in merged && IdentityOf(w, k) == id && k.Ref? && k.title == title
  }

  lemma TitleOfIdentity(w: Words, all: seq<Ref>, i: int, title: Option<string>)
    requires Tidy(w) && First(w, all, i)
    ensures HasTitle(w, KeepAll(w, all), IdentityOf(w, all[i]), title) <==> CleanTitle(w, all[i].title) == title
  {
    KeptAreTheFirst(w, all, Clean(w, all[i]));
    CleanKeepsIdentity(w, all[i]);
    assert Clean(w, all[i]) in KeepAll(w, all);
    forall k | k in KeepAll(w, all) && IdentityOf(w, k) == IdentityOf(w, all[i]) ensures k == Clean(w, all[i]) {
      KeptAreTheFirst(w, all, k);
      var j :| First(w, all, j) && k == Clean(w, all[j]);
      CleanKeepsIdentity(w, all[j]);
      FirstIsUnique(w, all, i, j);
    }
  }

  lemma IdentityTitled(w: Words, all: seq<Ref>, i: int)
    requires Tidy(w) && First(w, all, i)
    ensures Titled(w, all[i]) <==> exists title :: HasTitle(w, KeepAll(w, all), IdentityOf(w, all[i]), Some(title))
  {
    forall title ensures HasTitle(w, KeepAll(w, all), IdentityOf(w, all[i]), Some(title)) <==> CleanTitle(w, all[i].title) == Some(title) {
      TitleOfIdentity(w, all, i, Some(title));
    }
    if Titled(w, all[i]) { assert CleanTitle(w, all[i].title) == Some(CleanTitle(w, all[i].title).value); }
  }

  /** The titled reference `j` belongs to the identity that `i` is the first of. */
  predicate Follows(w: Words, all: seq<Ref>, i: int, j: int) {
    && First(w, all, i) && 0 <= j < |all| && Titled(w, all[j])
    && IdentityOf(w, all[j]) == IdentityOf(w, all[i])
  }

  /** Whenever a reference of an identity is titled, the first of that identity is. */
  ghost predicate FirstsAreTitled(w: Words, all: seq<Ref>) {
    forall i, j :: Follows(w, all, i, j) ==> Titled(w, all[i])
  }

  /** All titled references of an identity have the title of the first. */
  ghost predicate FirstsDecide(w: Words, all: seq<Ref>) {
    forall i, j :: Follows(w, all, i, j) ==> CleanTitle(w, all[i].title) == CleanTitle(w, all[j].title)
  }

  /** The merge keeps some title for the identity of `j`. */
  ghost predicate IdentityKeepsTitle(w: Words, merged: seq<Ref>, r: Ref) {
    exists title :: HasTitle(w, merged, IdentityOf(w, r), Some(title))
  }

  lemma TitleKeptByFirst(w: Words, all: seq<Ref>, j: nat) returns (i: nat)
    requires Tidy(w) && j < |all| && Titled(w, all[j])
    ensures Follows(w, all, i, j)
    ensures IdentityKeepsTitle(w, KeepAll(w, all), all[j]) <==> Titled(w, all[i])
    ensures HasTitle(w, KeepAll(w, all), IdentityOf(w, all[j]), CleanTitle(w, all[j].title))
        <==> CleanTitle(w, all[i].title) == CleanTitle(w, all[j].title)
  {
    i := FirstExists(w, all, j);
    IdentityTitled(w, all, i);
    TitleOfIdentity(w, all, i, CleanTitle(w, all[j].title));
  }

  /** No identity loses its title exactly when the first reference of each is titled whenever any of it is. */
  lemma TitlesSurviveExactly(w: Words, existing: Option<seq<Ref>>, incoming: Option<seq<Ref>>)
    requires Tidy(w)
    ensures var all := ListOf(existing) + ListOf(incoming);
            (forall r :: r in all && Titled(w, r) ==> IdentityKeepsTitle(w, MergedRefs(w, existing, incoming), r))
              <==> FirstsAreTitled(w, all)
  {
    var all := ListOf(existing) + ListOf(incoming);
    if FirstsAreTitled(w, all) {
      forall r | r in all && Titled(w, r) ensures IdentityKeepsTitle(w, KeepAll(w, all), r) {
        var j: nat :| j < |all| && all[j] == r;
        var i := TitleKeptByFirst(w, all, j);
      }
    } else {
      var i, j :| Follows(w, all, i, j) && !Titled(w, all[i]);
      var k := TitleKeptByFirst(w, all, j);
      FirstIsUnique(w, all, i, k);
      assert all[j] in all;
    }
  }

  /** Every reference keeps its own title exactly when all titled references of an identity agree with the first. */
  lemma OwnTitlesSurviveExactly(w: Words, existing: Option<seq<Ref>>, incoming: Option<seq<Ref>>)
    requires Tidy(w)
    ensures var all := ListOf(existing) + ListOf(incoming);
            (forall r :: r in all && Titled(w, r) ==>
               HasTitle(w, MergedRefs(w, existing, incoming), IdentityOf(w, r), CleanTitle(w, r.title)))
              <==> FirstsDecide(w, all)
  {
    var all := ListOf(existing) + ListOf(incoming);
    if FirstsDecide(w, all) {
      forall r | r in all && Titled(w, r) ensures HasTitle(w, KeepAll(w, all), IdentityOf(w, r), CleanTitle(w, r.title)) {
        var j: nat :| j < |all| && all[j] == r;
        var i := TitleKeptByFirst(w, all, j);
      }
    } else {
      var i, j :| Follows(w, all, i, j) && CleanTitle(w, all[i].title) != CleanTitle(w, all[j].title);
      var k := TitleKeptByFirst(w, all, j);
      FirstIsUnique(w, all, i, k);
      assert all[j] in all;
    }
  }

  /** The first reference of an identity decides its title; a title that only the duplicate has is lost. */
  lemma LaterTitleIsLost(w: Words, source: string, ref: string, title: string)
    requires Tidy(w) && w.strip(source) != "" && w.strip(ref) != ""
    ensures MergedRefs(w, Some([Ref(source, ref, None, false)]), Some([Ref(source, ref, Some(title), false)]))
         == [Ref(w.strip(source), w.strip(ref), None, false)]
  {
    var a, b := Ref(source, ref, None, false), Ref(source, ref, Some(title), false);
    assert [a] + [b] == [a, b] && [a, b][..1] == [a] && [a][..0] == [];
    CleanKeepsIdentity(w, a);
    assert KeepAll(w, [a]) == Keep(w, [], a) == [Clean(w, a)];
    assert Clean(w, a) in [Clean(w, a)];
  }

  method MergeChantierRefs(w: Words, existing: Option<seq<Ref>>, incoming: Option<seq<Ref>>) returns (merged: seq<Ref>)
    requires Tidy(w)
    ensures merged == MergedRefs(w, existing, incoming)
    ensures CleanList(w, merged)
    ensures Identities(w, merged) == Identities(w, ListOf(existing)) + Identities(w, ListOf(incoming))
  {
    var candidates := ListOf(existing) + ListOf(incoming);
    var seen: set<Identity> := {};
    merged := [];
    for i := 0 to |candidates|
      invariant merged == KeepAll(w, candidates[..i]) && seen == Identities(w, merged)
    {
      var item := candidates[i];
      KeepAllSpec(w, candidates[..i]);
      KeepSpec(w, merged, item);
      assert candidates[..i + 1][..i] == candidates[..i];
      if !item.Ref? { continue; }
      var source, ref := w.strip(item.source), w.strip(item.ref);
      var identity := (w.fold(source), ref);
      if source == "" || ref == "" || identity in seen { continue; }
      merged := merged + [Ref(source, ref, CleanTitle(w, item.title), false)];
      seen := seen + {identity};
    }
    assert candidates[..|candidates|] == candidates;
    MergedRefsAreTheUnion(w, existing, incoming);
  }

  // ---------------------------------------------------------------- records

  /** `state`, `slug` and `supersededBy` are as the code reads them, stripped, and the state folded. */
  datatype Chantier = Chantier(isChantier: bool, archived: bool, slug: string, state: string, supersededBy: string,
                               refs: Option<seq<Ref>>, version: nat)

  const ACTIVE_STATES := {"exploring", "building", "shipping", "verifying"}

  predicate IsActive(c: Chantier) {
    c.state in ACTIVE_STATES && c.supersededBy == ""
  }

  /** The ids counted as active: records listed as chantiers, archived ones left out. */
  function ActiveIds(table: seq<Chantier>): set<nat> {
    set i | 0 <= i < |table| && table[i].isChantier && !table[i].archived && IsActive(table[i]) :: i
  }

  datatype Merge = Merge(duplicate: nat, canonical: nat, duplicateVersion: nat, canonicalVersion: nat, reasonGiven: bool)

  datatype Result =
    | SameRecord | NoReason | NoSuchRecord | NotAChantier | ArchivedRecord | NoStableSlug
    | SupersededElsewhere | SupersededNotPaused | CanonicalNotActive
    | CanonicalVersionMismatch | DuplicateVersionMismatch
    | AlreadyMerged | Merged

  /** The checks before anything is written, in the order the code makes them. */
  function MergeResult(table: seq<Chantier>, m: Merge): Result {
    if m.duplicate == m.canonical then SameRecord
    else if !m.reasonGiven then NoReason
    else if m.canonical >= |table| || m.duplicate >= |table| then NoSuchRecord
    else
      var c, d := table[m.canonical], table[m.duplicate];
      if !c.isChantier || !d.isChantier then NotAChantier
      else if c.archived || d.archived then ArchivedRecord
      else if c.slug == "" then NoStableSlug
      else if d.supersededBy != "" then
        if d.supersededBy != c.slug then SupersededElsewhere
        else if d.state != "paused" then SupersededNotPaused
        else AlreadyMerged
      else if !IsActive(c) then CanonicalNotActive
      else if c.version != m.canonicalVersion then CanonicalVersionMismatch
      else if d.version != m.duplicateVersion then DuplicateVersionMismatch
      else Merged
  }

  function Absorbed(w: Words, c: Chantier, d: Chantier): Chantier {
    var merged := MergedRefs(w, c.refs, d.refs);
    if Some(merged) != c.refs then c.(refs := Some(merged), version := c.version + 1) else c
  }

  function Superseded(d: Chantier, slug: string): Chantier {
    d.(state := "paused", supersededBy := slug, version := d.version + 1)
  }

  function AfterMerge(w: Words, table: seq<Chantier>, m: Merge): seq<Chantier> {
    if MergeResult(table, m) == Merged then
      table[m.canonical := Absorbed(w, table[m.canonical], table[m.duplicate])]
           [m.duplicate := Superseded(table[m.duplicate], table[m.canonical].slug)]
    else table
  }

  function AfterMerges(w: Words, table: seq<Chantier>, merges: seq<Merge>): seq<Chantier> {
    if merges == [] then table
    else AfterMerge(w, AfterMerges(w, table, merges[..|merges| - 1]), merges[|merges| - 1])
  }

  /** A fresh merge takes exactly the duplicate out of the active set, gives the canonical record the references of
      both, and touches nothing else. */
  lemma FreshMerge(w: Words, table: seq<Chantier>, m: Merge)
    requires Tidy(w) && MergeResult(table, m) == Merged
    ensures var after := AfterMerge(w, table, m);
            var c, d := table[m.canonical], table[m.duplicate];
            && |after| == |table|
            && ActiveIds(after) == ActiveIds(table) - {m.duplicate} && m.canonical in ActiveIds(after)
            && Identities(w, ListOf(after[m.canonical].refs)) == Identities(w, ListOf(c.refs)) + Identities(w, ListOf(d.refs))
            && CleanList(w, ListOf(after[m.canonical].refs))
            && after[m.canonical] == c.(refs := after[m.canonical].refs, version := after[m.canonical].version)
            && after[m.duplicate] == d.(state := "paused", supersededBy := c.slug, version := d.version + 1)
            && forall i :: 0 <= i < |table| && i != m.canonical && i != m.duplicate ==> after[i] == table[i]
  {
    var after := AfterMerge(w, table, m);
    MergedRefsAreTheUnion(w, table[m.canonical].refs, table[m.duplicate].refs);
    assert after[m.canonical].refs == Some(MergedRefs(w, table[m.canonical].refs, table[m.duplicate].refs));
    ActiveAfterMerge(w, table, m);
  }

  lemma ActiveAfterMerge(w: Words, table: seq<Chantier>, m: Merge)
    requires MergeResult(table, m) == Merged
    ensures ActiveIds(AfterMerge(w, table, m)) == ActiveIds(table) - {m.duplicate}
    ensures m.canonical in ActiveIds(AfterMerge(w, table, m))
  {
    var after := AfterMerge(w, table, m);
    forall i ensures i in ActiveIds(after) <==> i in ActiveIds(table) && i != m.duplicate {
      if 0 <= i < |table| {
        assert after[i].isChantier == table[i].isChantier && after[i].archived == table[i].archived;
        assert IsActive(after[i]) <==> IsActive(table[i]) && i != m.duplicate;
      }
    }
    assert m.canonical in ActiveIds(table);
  }

  /** Exploring, building, shipping or verifying, and not superseded. */
  predicate InWork(c: Chantier) {
    (c.state == "exploring" || c.state == "building" || c.state == "shipping" || c.state == "verifying") && c.supersededBy == ""
  }

  predicate Listed(table: seq<Chantier>, i: nat) {
    i < |table| && table[i].isChantier && !table[i].archived
  }

  /** A merge goes through exactly if it is given a reason, its two records are different listed chantiers, the canonical
      one is in work and has a slug, the duplicate is superseded by none, and the caller knows the current version of
      both. In every other case nothing is written. */
  lemma MergedExactly(w: Words, table: seq<Chantier>, m: Merge)
    ensures MergeResult(table, m).Merged? <==>
              && m.reasonGiven && m.duplicate != m.canonical && Listed(table, m.duplicate) && Listed(table, m.canonical)
              && InWork(table[m.canonical]) && table[m.canonical].slug != "" && table[m.duplicate].supersededBy == ""
              && table[m.canonical].version == m.canonicalVersion && table[m.duplicate].version == m.duplicateVersion
    ensures !MergeResult(table, m).Merged? ==> AfterMerge(w, table, m) == table
  {
  }

  /** A version that is no longer current refuses a merge that would go through otherwise, and the caller is told which. */
  lemma StaleVersionRefusesExactly(table: seq<Chantier>, m: Merge)
    requires Listed(table, m.duplicate) && Listed(table, m.canonical)
    requires var current := m.(canonicalVersion := table[m.canonical].version, duplicateVersion := table[m.duplicate].version);
             MergeResult(table, current).Merged?
    ensures MergeResult(table, m)
         == if table[m.canonical].version != m.canonicalVersion then CanonicalVersionMismatch
            else if table[m.duplicate].version != m.duplicateVersion then DuplicateVersionMismatch
            else Merged
  {
  }

  /** Whom the counts and sweeps see: listed chantiers in work. */
  lemma ActiveExactly(table: seq<Chantier>, i: nat)
    ensures i in ActiveIds(table) <==> Listed(table, i) && InWork(table[i])
  {
  }

  /** Why a merge of two listed chantiers is refused before versions matter: no slug to point to, a duplicate that is
      superseded elsewhere or not paused, or a canonical one that is not in work, in this order. */
  lemma RefusedExactly(table: seq<Chantier>, m: Merge)
    requires m.reasonGiven && m.duplicate != m.canonical && Listed(table, m.duplicate) && Listed(table, m.canonical)
    ensures var c, d := table[m.canonical], table[m.duplicate];
            && (MergeResult(table, m).NoStableSlug? <==> c.slug == "")
            && (MergeResult(table, m).SupersededElsewhere? <==> c.slug != "" && d.supersededBy != "" && d.supersededBy != c.slug)
            && (MergeResult(table, m).SupersededNotPaused? <==>
                  c.slug != "" && d.supersededBy == c.slug && d.state != "paused")
            && (MergeResult(table, m).CanonicalNotActive? <==> c.slug != "" && d.supersededBy == "" && !InWork(c))
  {
  }

  /** And why it is not even looked at: one record twice, no reason, a record that is not there, is no chantier or is archived. */
  lemma UnfitExactly(table: seq<Chantier>, m: Merge)
    ensures MergeResult(table, m).SameRecord? <==> m.duplicate == m.canonical
    ensures MergeResult(table, m).NoReason? <==> m.duplicate != m.canonical && !m.reasonGiven
    ensures m.duplicate != m.canonical && m.reasonGiven ==>
              && (MergeResult(table, m).NoSuchRecord? <==> !(m.duplicate < |table| && m.canonical < |table|))
              && (m.duplicate < |table| && m.canonical < |table| ==>
                    && (MergeResult(table, m).NotAChantier? <==>
                          !(table[m.duplicate].isChantier && table[m.canonical].isChantier))
                    && (table[m.duplicate].isChantier && table[m.canonical].isChantier ==>
                          (MergeResult(table, m).ArchivedRecord? <==> table[m.duplicate].archived || table[m.canonical].archived)))
  {
  }

  /** It has been done already exactly if the duplicate is paused and superseded by the slug of the canonical one. */
  lemma AlreadyMergedExactly(table: seq<Chantier>, m: Merge)
    ensures MergeResult(table, m).AlreadyMerged? <==>
              && m.reasonGiven && m.duplicate != m.canonical && Listed(table, m.duplicate) && Listed(table, m.canonical)
              && table[m.canonical].slug != "" && table[m.duplicate].supersededBy == table[m.canonical].slug
              && table[m.duplicate].state == "paused"
  {
  }

  /** The canonical record is written exactly if it does not have the references of the duplicate already, or they are not
      clean; repeating what is there would only count its version up. */
  lemma AbsorbsExactly(w: Words, table: seq<Chantier>, m: Merge)
    requires Tidy(w) && MergeResult(table, m).Merged?
    ensures var c, d := table[m.canonical], table[m.duplicate];
            AfterMerge(w, table, m)[m.canonical] == c <==>
              c.refs.Some? && CleanList(w, c.refs.value) && Identities(w, ListOf(d.refs)) <= Identities(w, c.refs.value)
  {
    var c, d := table[m.canonical], table[m.duplicate];
    MergedRefsAreTheUnion(w, c.refs, d.refs);
    if c.refs.Some? && CleanList(w, c.refs.value) && Identities(w, ListOf(d.refs)) <= Identities(w, c.refs.value) {
      KeepAllOfKnown(w, c.refs.value, ListOf(d.refs));
    }
  }

  /** Every merge that changes a record counts its version up by one, and no other. */
  lemma MergeCountsVersions(w: Words, table: seq<Chantier>, m: Merge, i: nat)
    requires i < |table|
    ensures var after := AfterMerge(w, table, m);
            |after| == |table| && after[i].version == table[i].version + (if after[i] == table[i] then 0 else 1)
  {
  }

  lemma {:induction false} VersionsTellChanges(w: Words, table: seq<Chantier>, merges: seq<Merge>, i: nat)
    requires i < |table|
    ensures var after := AfterMerges(w, table, merges);
            |after| == |table| && after[i].version >= table[i].version && (after[i].version == table[i].version ==> after[i] == table[i])
  {
    if merges != [] {
      var n := |merges| - 1;
      VersionsTellChanges(w, table, merges[..n], i);
      MergeCountsVersions(w, AfterMerges(w, table, merges[..n]), merges[n], i);
    }
  }

  /** No lost update: a merge that goes through with the versions of an earlier look finds both records exactly as they
      were then, whatever was merged in between. */
  lemma MergeSeesWhatItsCallerSaw(w: Words, table: seq<Chantier>, between: seq<Merge>, m: Merge)
    requires m.duplicate < |table| && m.canonical < |table|
    requires m.canonicalVersion == table[m.canonical].version && m.duplicateVersion == table[m.duplicate].version
    requires MergeResult(AfterMerges(w, table, between), m).Merged?
    ensures var now := AfterMerges(w, table, between);
            |now| == |table| && now[m.canonical] == table[m.canonical] && now[m.duplicate] == table[m.duplicate]
  {
    VersionsTellChanges(w, table, between, m.canonical);
    VersionsTellChanges(w, table, between, m.duplicate);
  }

  // ---------------------------------------------------------------- repeating a merge

  lemma MergeKeepsMerged(w: Words, table: seq<Chantier>, m: Merge, d: nat, c: nat)
    requires d < |table| && c < |table| && table[d].supersededBy == table[c].slug != "" && table[d].state == "paused"
    ensures var after := AfterMerge(w, table, m);
            && |after| == |table| && after[c].slug == table[c].slug
            && after[d].supersededBy == table[c].slug && after[d].state == "paused"
            && after[c].isChantier == table[c].isChantier && after[c].archived == table[c].archived
            && after[d].isChantier == table[d].isChantier && after[d].archived == table[d].archived
  {
  }

  lemma {:induction false} MergesKeepMerged(w: Words, table: seq<Chantier>, merges: seq<Merge>, d: nat, c: nat)
    requires d < |table| && c < |table| && table[d].supersededBy == table[c].slug != "" && table[d].state == "paused"
    ensures var after := AfterMerges(w, table, merges);
            && |after| == |table| && after[c].slug == table[c].slug
            && after[d].supersededBy == table[c].slug && after[d].state == "paused"
            && after[c].isChantier == table[c].isChantier && after[c].archived == table[c].archived
            && after[d].isChantier == table[d].isChantier && after[d].archived == table[d].archived
  {
    if merges != [] {
      var n := |merges| - 1;
      MergesKeepMerged(w, table, merges[..n], d, c);
      MergeKeepsMerged(w, AfterMerges(w, table, merges[..n]), merges[n], d, c);
    }
  }

  /** Once merged, the same merge is recognised for ever, whatever is merged in between and whatever versions the
      caller expects, and writes nothing. */
  lemma RepeatedMergeWritesNothing(w: Words, table: seq<Chantier>, m: Merge, between: seq<Merge>, again: Merge)
    requires MergeResult(table, m) == Merged
    requires again.duplicate == m.duplicate && again.canonical == m.canonical && again.reasonGiven
    ensures var later := AfterMerges(w, AfterMerge(w, table, m), between);
            MergeResult(later, again) == AlreadyMerged && AfterMerge(w, later, again) == later
  {
    MergesKeepMerged(w, AfterMerge(w, table, m), between, m.duplicate, m.canonical);
  }

  // ---------------------------------------------------------------- supersession links

  predicate Linked(table: seq<Chantier>, i: nat, j: nat) {
    i < |table| && j < |table| && table[i].supersededBy != "" && table[j].slug == table[i].supersededBy
  }

  predicate Path(table: seq<Chantier>, path: seq<nat>) {
    forall k :: 0 <= k < |path| - 1 ==> Linked(table, path[k], path[k + 1])
  }

  ghost predicate Acyclic(table: seq<Chantier>) {
    forall path :: |path| >= 2 && Path(table, path) ==> path[0] != path[|path| - 1]
  }

  ghost predicate DistinctSlugs(table: seq<Chantier>) {
    forall i, j :: 0 <= i < j < |table| && table[i].slug != "" ==> table[i].slug != table[j].slug
  }

  /** A fresh merge adds one link, from a record without one to another. */
  lemma MergeAddsOneLink(w: Words, table: seq<Chantier>, m: Merge, i: nat, j: nat)
    requires DistinctSlugs(table) && MergeResult(table, m) == Merged
    ensures var after := AfterMerge(w, table, m);
            && DistinctSlugs(after)
            && (Linked(after, i, j) <==> Linked(table, i, j) || (i == m.duplicate && j == m.canonical))
            && !Linked(after, m.canonical, j) && !Linked(table, m.duplicate, j)
  {
  }

  lemma MergeKeepsAcyclic(w: Words, table: seq<Chantier>, m: Merge)
    requires DistinctSlugs(table) && Acyclic(table)
    ensures DistinctSlugs(AfterMerge(w, table, m)) && Acyclic(AfterMerge(w, table, m))
  {
    var after := AfterMerge(w, table, m);
    if MergeResult(table, m) == Merged {
      MergeAddsOneLink(w, table, m, 0, 0);
      forall path | |path| >= 2 && Path(after, path) ensures path[0] != path[|path| - 1] {
        NoNewCycle(w, table, m, path);
      }
    }
  }

  lemma NoNewCycle(w: Words, table: seq<Chantier>, m: Merge, path: seq<nat>)
    requires DistinctSlugs(table) && Acyclic(table) && MergeResult(table, m) == Merged
    requires |path| >= 2 && Path(AfterMerge(w, table, m), path)
    ensures path[0] != path[|path| - 1]
  {
    var after := AfterMerge(w, table, m);
    var last := |path| - 1;
    forall k | 0 <= k < last ensures path[k] != m.canonical && Linked(after, path[k], path[k + 1]) {
      MergeAddsOneLink(w, table, m, path[k], path[k + 1]);
    }
    forall k | 0 <= k < last && path[k + 1] != m.canonical ensures Linked(table, path[k], path[k + 1]) {
      MergeAddsOneLink(w, table, m, path[k], path[k + 1]);
    }
    if path[last] != m.canonical { assert Path(table, path); }
  }

  /** Over any run of merges, with stable distinct slugs, supersession never runs in a circle. */
  lemma {:induction false} SupersessionIsAcyclic(w: Words, table: seq<Chantier>, merges: seq<Merge>)
    requires DistinctSlugs(table) && Acyclic(table)
    ensures DistinctSlugs(AfterMerges(w, table, merges)) && Acyclic(AfterMerges(w, table, merges))
  {
    if merges != [] {
      var n := |merges| - 1;
      SupersessionIsAcyclic(w, table, merges[..n]);
      MergeKeepsAcyclic(w, AfterMerges(w, table, merges[..n]), merges[n]);
    }
  }

  /** Two records with one slug: merging one into the other makes it supersede itself. */
  lemma SharedSlugMakesACycle(w: Words, table: seq<Chantier>, m: Merge)
    requires MergeResult(table, m) == Merged && table[m.duplicate].slug == table[m.canonical].slug
    ensures Path(AfterMerge(w, table, m), [m.duplicate, m.duplicate]) && !Acyclic(AfterMerge(w, table, m))
  {
  }

  /** All records can still be merged: active, listed, without links. */
  predicate AllOpen(table: seq<Chantier>) {
    forall i :: 0 <= i < |table| ==> table[i].isChantier && !table[i].archived && IsActive(table[i])
  }

  /** From a table of open records, every run of merges stays free of circles exactly when the slugs are distinct. */
  lemma AcyclicExactlyWithDistinctSlugs(w: Words, table: seq<Chantier>)
    requires AllOpen(table)
    ensures (forall merges :: Acyclic(AfterMerges(w, table, merges))) <==> DistinctSlugs(table)
  {
    if DistinctSlugs(table) {
      NoLinksNoCycle(table);
      forall merges ensures Acyclic(AfterMerges(w, table, merges)) { SupersessionIsAcyclic(w, table, merges); }
    } else {
      var i, j :| 0 <= i < j < |table| && table[i].slug != "" && table[i].slug == table[j].slug;
      SharedSlugCycle(w, table, i, j);
    }
  }

  lemma NoLinksNoCycle(table: seq<Chantier>)
    requires AllOpen(table)
    ensures Acyclic(table)
  {
    forall path | |path| >= 2 ensures !Path(table, path) { assert !Linked(table, path[0], path[1]); }
  }

  lemma SharedSlugCycle(w: Words, table: seq<Chantier>, i: nat, j: nat)
    requires AllOpen(table) && i < j < |table| && table[i].slug != "" && table[i].slug == table[j].slug
    ensures exists merges :: !Acyclic(AfterMerges(w, table, merges))
  {
    var m := Merge(j, i, table[j].version, table[i].version, true);
    assert [m][..0] == [];
    assert AfterMerges(w, table, [m]) == AfterMerge(w, table, m);
    SharedSlugMakesACycle(w, table, m);
  }

  /** The stored records; a merge runs under the lock of the object type. */
  class ChantierStore {
    const words: Words
    var table: seq<Chantier>

    constructor (words: Words, table: seq<Chantier>)
      ensures this.words == words && this.table == table
    {
      this.words := words;
      this.table := table;
    }

    /** The atomic patch of the record service. */
    method UpdateRefs(i: nat, refs: seq<Ref>)
      requires i < |table|
      modifies this
      ensures table == old(table)[i := old(table)[i].(refs := Some(refs), version := old(table)[i].version + 1)]
    {
      table := table[i := table[i].(refs := Some(refs), version := table[i].version + 1)];
    }

    method Supersede(i: nat, slug: string)
      requires i < |table|
      modifies this
      ensures table == old(table)[i := Superseded(old(table)[i], slug)]
    {
      table := table[i := table[i].(state := "paused", supersededBy := slug, version := table[i].version + 1)];
    }

    method MergeChantierRecords(m: Merge) returns (result: Result, activeIds: set<nat>)
      requires Tidy(words)
      modifies this
      ensures result == MergeResult(old(table), m) && table == AfterMerge(words, old(table), m)
      ensures result.Merged? || result.AlreadyMerged? ==> activeIds == ActiveIds(table)
    {
      activeIds := {};
      if m.duplicate == m.canonical { return SameRecord, {}; }
      if !m.reasonGiven { return NoReason, {}; }
      if m.canonical >= |table| || m.duplicate >= |table| { return NoSuchRecord, {}; }
      var canonical, duplicate := table[m.canonical], table[m.duplicate];
      if !canonical.isChantier || !duplicate.isChantier { return NotAChantier, {}; }
      if canonical.archived || duplicate.archived { return ArchivedRecord, {}; }
      if canonical.slug == "" { return NoStableSlug, {}; }
      if duplicate.supersededBy != "" {
        if duplicate.supersededBy != canonical.slug { return SupersededElsewhere, {}; }
        if duplicate.state != "paused" { return SupersededNotPaused, {}; }
        return AlreadyMerged, ActiveIds(table);
      }
      if !IsActive(canonical) { return CanonicalNotActive, {}; }
      if canonical.version != m.canonicalVersion { return CanonicalVersionMismatch, {}; }
      if duplicate.version != m.duplicateVersion { return DuplicateVersionMismatch, {}; }
      var mergedRefs := MergeChantierRefs(words, canonical.refs, duplicate.refs);
      if Some(mergedRefs) != canonical.refs { UpdateRefs(m.canonical, mergedRefs); }
      Supersede(m.duplicate, canonical.slug);
      return Merged, ActiveIds(table);
    }
  }

  // ---------------------------------------------------------------- listing

  const PAGE_SIZE := 500

  /** One page of a listing that does not change meanwhile. */
  function Page<T>(listing: seq<T>, offset: nat): seq<T>
    requires offset <= |listing|
  {
    if |listing| - offset < PAGE_SIZE then listing[offset..] else listing[offset..offset + PAGE_SIZE]
  }

  /** Paging returns the complete listing, once, in order. */
  method ListAllRecords<T>(listing: seq<T>) returns (records: seq<T>)
    ensures records == listing
  {
    records := [];
    var offset := 0;
    while true
      invariant offset <= |listing| && records == listing[..offset]
      decreases |listing| - offset
    {
      var page := Page(listing, offset);
      records := records + page;
      if |page| < PAGE_SIZE { return; }
      offset := offset + |page|;
    }
  }

  // ---------------------------------------------------------------- matching a declaration

  datatype Entry = Entry(id: nat, chantier: Chantier)

  /** What a declaration is compared by: its references, and the exact and the approximate text rules. */
  datatype Declaration = Declaration(refs: set<Identity>, exact: Chantier -> bool, text: Chantier -> Option<string>)

  datatype Match = NoMatch | Found(entry: Entry, evidence: string) | Ambiguous(ids: set<nat>)

  predicate RefMatch(w: Words, d: Declaration, e: Entry) {
    d.refs * Identities(w, ListOf(e.chantier.refs)) != {}
  }

  predicate Primary(w: Words, d: Declaration, e: Entry) {
    IsActive(e.chantier) && (RefMatch(w, d, e) || d.exact(e.chantier))
  }

  predicate Fuzzy(d: Declaration, e: Entry) {
    IsActive(e.chantier) && d.text(e.chantier).Some?
  }

  function Select<T>(p: T -> bool, s: seq<T>): seq<T> {
    if s == [] then []
    else Select(p, s[..|s| - 1]) + (if p(s[|s| - 1]) then [s[|s| - 1]] else [])
  }

  function Ids(s: seq<Entry>): set<nat> {
    set e | e in s :: e.id
  }

  /** Whom a declaration names: a chantier in work that shares a reference with it, by folded source and by ref, or that
      the exact rule fits. */
  lemma NamesExactly(w: Words, d: Declaration, e: Entry)
    ensures RefMatch(w, d, e) <==>
              exists r :: r in ListOf(e.chantier.refs) && r.Ref? && w.strip(r.source) != "" && w.strip(r.ref) != ""
                && (w.fold(w.strip(r.source)), w.strip(r.ref)) in d.refs
    ensures Primary(w, d, e) <==> InWork(e.chantier) && (RefMatch(w, d, e) || d.exact(e.chantier))
    ensures Fuzzy(d, e) <==> InWork(e.chantier) && d.text(e.chantier).Some?
  {
    if RefMatch(w, d, e) {
      var id :| id in d.refs * Identities(w, ListOf(e.chantier.refs));
      var r :| r in ListOf(e.chantier.refs) && Named(w, r) && IdentityOf(w, r) == id;
      assert (w.fold(w.strip(r.source)), w.strip(r.ref)) in d.refs;
    }
    forall r | r in ListOf(e.chantier.refs) && r.Ref? && w.strip(r.source) != "" && w.strip(r.ref) != ""
               && (w.fold(w.strip(r.source)), w.strip(r.ref)) in d.refs
      ensures RefMatch(w, d, e)
    {
      assert IdentityOf(w, r) in d.refs * Identities(w, ListOf(e.chantier.refs));
    }
  }

  /** Exact identity first; then one approximate match; several of either kind are refused. */
  function MatchActive(w: Words, records: seq<Entry>, d: Declaration): Match {
    var primary := Select((e: Entry) => Primary(w, d, e), records);
    var fuzzy := Select((e: Entry) => Fuzzy(d, e), records);
    if |Ids(primary)| > 1 then Ambiguous(Ids(primary))
    else if primary != [] then
      Found(primary[0], if RefMatch(w, d, primary[0]) then "overlapping_refs" else "exact_slug_or_title")
    else if |fuzzy| > 1 then Ambiguous(Ids(fuzzy))
    else if fuzzy != [] && d.text(fuzzy[0].chantier).Some? then Found(fuzzy[0], d.text(fuzzy[0].chantier).value)
    else NoMatch
  }

  lemma {:induction false} SelectedElements<T>(p: T -> bool, s: seq<T>, x: T)
    ensures multiset(Select(p, s))[x] == if p(x) then multiset(s)[x] else 0
  {
    if s != [] {
      var n := |s| - 1;
      SelectedElements(p, s[..n], x);
      assert s == s[..n] + [s[n]];
    }
  }

  lemma SelectedAlike<T(!new)>(p: T -> bool, a: seq<T>, b: seq<T>)
    requires multiset(a) == multiset(b)
    ensures multiset(Select(p, a)) == multiset(Select(p, b))
  {
    forall x: T ensures multiset(Select(p, a))[x] == multiset(Select(p, b))[x] {
      SelectedElements(p, a, x);
      SelectedElements(p, b, x);
    }
  }

  ghost predicate DistinctIds(records: seq<Entry>) {
    forall a, b :: a in records && b in records && a.id == b.id ==> a == b
  }

  lemma {:induction false} SelectedExactly<T>(p: T -> bool, s: seq<T>)
    ensures forall x :: x in Select(p, s) <==> x in s && p(x)
  {
    if s != [] {
      SelectedExactly(p, s[..|s| - 1]);
      assert s == s[..|s| - 1] + [s[|s| - 1]];
    }
  }

  /** Two lists with the same elements, and the same length, agree on their ids and, if there is only one, on it. */
  lemma SameElementsAlike(a: seq<Entry>, b: seq<Entry>)
    requires |a| == |b| && (forall e :: e in a <==> e in b) && DistinctIds(a)
    ensures Ids(a) == Ids(b)
    ensures a != [] && |Ids(a)| <= 1 ==> a[0] == b[0]
    ensures |a| == 1 ==> a[0] == b[0]
  {
    if a != [] {
      assert a[0] in a && b[0] in b;
      if |Ids(a)| <= 1 { OneElement(Ids(a), a[0].id, b[0].id); }
    }
  }

  /** Two orders of the same records select alike. */
  lemma SelectionAlike(records: seq<Entry>, other: seq<Entry>, p: Entry -> bool)
    requires multiset(records) == multiset(other) && DistinctIds(records)
    ensures var a, b := Select(p, records), Select(p, other);
            && |a| == |b| && Ids(a) == Ids(b)
            && (a != [] && |Ids(a)| <= 1 ==> a[0] == b[0])
            && (|a| == 1 ==> a[0] == b[0])
  {
    SelectedAlike(p, records, other);
    SameElements(Select(p, records), Select(p, other));
    SelectedExactly(p, records);
    SameElementsAlike(Select(p, records), Select(p, other));
  }

  /** The answer is the same for every order of the records. */
  lemma MatchIgnoresOrder(w: Words, records: seq<Entry>, other: seq<Entry>, d: Declaration)
    requires multiset(records) == multiset(other) && DistinctIds(records)
    ensures MatchActive(w, records, d) == MatchActive(w, other, d)
  {
    SelectionAlike(records, other, (e: Entry) => Primary(w, d, e));
    SelectionAlike(records, other, (e: Entry) => Fuzzy(d, e));
  }

  /** More than one id is two different ones. */
  lemma SeveralIds(s: seq<Entry>)
    ensures |Ids(s)| > 1 <==> exists a, b :: a in s && b in s && a.id != b.id
  {
    if a, b :| a in s && b in s && a.id != b.id {
      assert a.id in Ids(s) && b.id in Ids(s);
      if |Ids(s)| <= 1 { OneElement(Ids(s), a.id, b.id); }
    }
    if |Ids(s)| > 1 {
      var x :| x in Ids(s);
      assert Ids(s) - {x} != {} by { assert |Ids(s) - {x}| == |Ids(s)| - 1; }
      var y :| y in Ids(s) - {x};
      var a :| a in s && a.id == x;
      var b :| b in s && b.id == y;
    }
  }

  /** The answer names two records when two are named. */
  ghost predicate TwoNamed(w: Words, records: seq<Entry>, d: Declaration) {
    exists a, b :: a in records && b in records && Primary(w, d, a) && Primary(w, d, b) && a.id != b.id
  }

  predicate SomeNamed(w: Words, records: seq<Entry>, d: Declaration) {
    exists e :: e in records && Primary(w, d, e)
  }

  function FuzzyCount(records: seq<Entry>, d: Declaration): nat {
    |Select((e: Entry) => Fuzzy(d, e), records)|
  }

  lemma SomeNamedSelected(w: Words, records: seq<Entry>, d: Declaration)
    ensures var primary := Select((e: Entry) => Primary(w, d, e), records);
            && (|Ids(primary)| > 1 <==> TwoNamed(w, records, d))
            && (primary != [] <==> SomeNamed(w, records, d))
            && (primary != [] ==> primary[0] in records && Primary(w, d, primary[0]))
  {
    var primary := Select((e: Entry) => Primary(w, d, e), records);
    SelectedExactly((e: Entry) => Primary(w, d, e), records);
    SeveralIds(primary);
    assert primary != [] ==> primary[0] in primary;
    if e :| e in records && Primary(w, d, e) { assert e in primary; }
  }

  lemma SomeFuzzySelected(records: seq<Entry>, d: Declaration)
    ensures var fuzzy := Select((e: Entry) => Fuzzy(d, e), records);
            && (fuzzy != [] <==> exists e :: e in records && Fuzzy(d, e))
            && (fuzzy != [] ==> fuzzy[0] in records && Fuzzy(d, fuzzy[0]))
            && (|fuzzy| == 1 ==> forall e :: e in records && Fuzzy(d, e) ==> e == fuzzy[0])
  {
    var fuzzy := Select((e: Entry) => Fuzzy(d, e), records);
    SelectedExactly((e: Entry) => Fuzzy(d, e), records);
    assert fuzzy != [] ==> fuzzy[0] in fuzzy;
  }

  /** Which kind of answer a declaration gets: refused for several records named, or none named and several that fit
      the text; nothing when none fits; a record otherwise. */
  lemma MatchKind(w: Words, records: seq<Entry>, d: Declaration)
    ensures var m := MatchActive(w, records, d);
            && (m.Ambiguous? <==> TwoNamed(w, records, d) || (!SomeNamed(w, records, d) && FuzzyCount(records, d) > 1))
            && (m.NoMatch? <==> !SomeNamed(w, records, d) && FuzzyCount(records, d) == 0)
  {
    SomeNamedSelected(w, records, d);
    SomeFuzzySelected(records, d);
  }

  /** A single record that is named is found, with the evidence that names it. */
  lemma NamedRecordIsFound(w: Words, records: seq<Entry>, d: Declaration)
    requires SomeNamed(w, records, d) && !TwoNamed(w, records, d)
    ensures var m := MatchActive(w, records, d);
            && m.Found? && m.entry in records && Primary(w, d, m.entry)
            && (forall e :: e in records && Primary(w, d, e) ==> e.id == m.entry.id)
            && m.evidence == if RefMatch(w, d, m.entry) then "overlapping_refs" else "exact_slug_or_title"
  {
    SomeNamedSelected(w, records, d);
  }

  /** If none is named, the single record that fits the text is found. */
  lemma FittingRecordIsFound(w: Words, records: seq<Entry>, d: Declaration)
    requires !SomeNamed(w, records, d) && FuzzyCount(records, d) == 1
    ensures var m := MatchActive(w, records, d);
            && m.Found? && m.entry in records && Fuzzy(d, m.entry) && Some(m.evidence) == d.text(m.entry.chantier)
            && forall e :: e in records && Fuzzy(d, e) ==> e == m.entry
  {
    SomeNamedSelected(w, records, d);
    SomeFuzzySelected(records, d);
  }

  /** What a declaration resolves to, in all cases. */
  lemma MatchMeaning(w: Words, records: seq<Entry>, d: Declaration)
    ensures var m := MatchActive(w, records, d);
            && (m.Ambiguous? <==> TwoNamed(w, records, d) || (!SomeNamed(w, records, d) && FuzzyCount(records, d) > 1))
            && (m.NoMatch? <==> !SomeNamed(w, records, d) && FuzzyCount(records, d) == 0)
            && (m.Found? ==> m.entry in records && IsActive(m.entry.chantier))
            && (m.Found? && SomeNamed(w, records, d) ==>
                  Primary(w, d, m.entry) && forall e :: e in records && Primary(w, d, e) ==> e.id == m.entry.id)
            && (m.Found? && !SomeNamed(w, records, d) ==>
                  Fuzzy(d, m.entry) && forall e :: e in records && Fuzzy(d, e) ==> e == m.entry)
  {
    MatchKind(w, records, d);
    if SomeNamed(w, records, d) {
      if !TwoNamed(w, records, d) { NamedRecordIsFound(w, records, d); }
    } else if FuzzyCount(records, d) == 1 {
      FittingRecordIsFound(w, records, d);
    }
  }

  lemma OneElement(s: set<nat>, a: nat, b: nat)
    requires a in s && b in s && |s| <= 1
    ensures a == b
  {
    var pair := {a, b};
    assert |pair| == if a == b then 1 else 2;
    assert pair <= s && |s - pair| == |s| - |pair|;
  }
}

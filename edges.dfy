/** Preparation of a hunter actor's edges before its sheet is rendered:
    reconciling the stored edge map with the edge definitions and the actor's
    items (`prepareEdges`), then sorting each edge's perks and pools and
    adjusting its visibility (`prepareEdgePowers`). */
module HunterEdges {
  import opened Wrappers

  /** An item owned by the actor: its `type`, its `system.edge` and its `name`. */
  datatype Item = Item(kind: string, edge: string, name: string)

  /** A `perks` or `pools` field as stored: an array, a falsy value
      (`null`/`undefined`), or some other non-array value. */
  datatype PowerList = List(items: seq<Item>) | Absent | NonArray

  /** An edge record on the actor. `hidden` is `false` when the property is
      absent; `attrs` are the other attributes the definition copies in
      (labels and the like). */
  datatype EdgeRecord = EdgeRecord(
    id: string,
    value: int,
    description: string,
    enrichedDescription: string,
    visible: bool,
    selected: bool,
    hidden: bool,
    perks: PowerList,
    pools: PowerList,
    attrs: map<string, string>)

  /** An edge definition's own attributes; `None` is a property the definition
      does not have, so that `Object.assign` leaves the record's value. */
  datatype EdgeDefinition = EdgeDefinition(
    id: Option<string>,
    value: Option<int>,
    description: Option<string>,
    visible: Option<bool>,
    selected: Option<bool>,
    hidden: Option<bool>,
    attrs: map<string, string>)

  /** The definitions in their enumeration order, as `[id, attributes]` pairs. */
  type Definitions = seq<(string, EdgeDefinition)>

  /** The entries of an object have distinct keys. */
  predicate DistinctIds(defs: Definitions) {
    forall i, j :: 0 <= i < j < |defs| ==> defs[i].0 != defs[j].0
  }

  function DefIds(defs: Definitions): set<string> {
    set j | 0 <= j < |defs| :: defs[j].0
  }

  /** The attributes defined for `id`. */
  ghost function DefinitionOf(defs: Definitions, id: string): EdgeDefinition
    requires id in DefIds(defs)
  {
    var j :| 0 <= j < |defs| && defs[j].0 == id; defs[j].1
  }

  lemma DefinitionAt(defs: Definitions, j: int)
    requires DistinctIds(defs) && 0 <= j < |defs|
    ensures defs[j].0 in DefIds(defs) && DefinitionOf(defs, defs[j].0) == defs[j].1
  {
  }

  function Lookup(edges: map<string, EdgeRecord>, id: string): Option<EdgeRecord> {
    if id in edges then Some(edges[id]) else None
  }

  /** `list || []` */
  function OrEmpty(l: PowerList): PowerList {
    if l.Absent? then List([]) else l
  }

  /** The record built for an id the actor already has: the fields carried
      forward from the stored record. Properties the object literal does not
      have are `false`, empty, or left for later steps to set. */
  function CarriedBase(id: string, stored: EdgeRecord): EdgeRecord {
    EdgeRecord(id, stored.value, stored.description, "", stored.visible,
               stored.selected || false, false,
               OrEmpty(stored.perks), OrEmpty(stored.pools), map[])
  }

  /** The record built for an id the actor does not have yet. */
  function FreshBase(id: string): EdgeRecord {
    EdgeRecord(id, 0, "", "", false, false, false, List([]), List([]), map[])
  }

  /** `Object.assign(base, definition)`: every property the definition has wins. */
  function Overlay(base: EdgeRecord, def: EdgeDefinition): (r: EdgeRecord)
    ensures def.visible.Some? ==> r.visible == def.visible.value
    ensures def.visible.None? ==> r.visible == base.visible
    ensures r.hidden == def.hidden.GetOr(base.hidden)
    ensures r.perks == base.perks && r.pools == base.pools
  {
    base.(id := def.id.GetOr(base.id),
          value := def.value.GetOr(base.value),
          description := def.description.GetOr(base.description),
          visible := def.visible.GetOr(base.visible),
          selected := def.selected.GetOr(base.selected),
          hidden := def.hidden.GetOr(base.hidden),
          attrs := base.attrs + def.attrs)
  }

  /** The items of kind `kind` attached to edge `id`, in item order. */
  function MatchingItems(items: seq<Item>, kind: string, id: string): (r: seq<Item>)
    ensures |r| <= |items|
    ensures forall x :: x in r ==> x in items && x.kind == kind && x.edge == id
  {
    if items == [] then []
    else
      (if items[0].kind == kind && items[0].edge == id then [items[0]] else [])
      + MatchingItems(items[1..], kind, id)
  }

  /** The record `prepareEdges` leaves for definition `id`, given the stored
      record (if any), the definition, the actor's items and the rich-text
      expansion service. */
  function PreparedEdge(id: string, stored: Option<EdgeRecord>, def: EdgeDefinition,
                        items: seq<Item>, enrich: string -> string): (r: EdgeRecord)
    ensures r.id == def.id.GetOr(id)
    ensures r.value == def.value.GetOr(if stored.Some? then stored.value.value else 0)
    ensures r.description == def.description.GetOr(if stored.Some? then stored.value.description else "")
    ensures r.selected == def.selected.GetOr(stored.Some? && stored.value.selected)
    ensures r.hidden == def.hidden.GetOr(false)
    ensures r.visible == (!r.hidden && def.visible.GetOr(stored.Some? && stored.value.visible))
    ensures r.attrs == def.attrs
    ensures r.enrichedDescription == enrich(r.description)
    ensures r.perks == List(MatchingItems(items, "perk", id))
    ensures r.pools == List(MatchingItems(items, "edgepool", id))
  {
    var merged := Overlay(if stored.Some? then CarriedBase(id, stored.value) else FreshBase(id), def);
    merged.(visible := if merged.hidden then false else merged.visible,
            enrichedDescription := enrich(merged.description),
            perks := List(MatchingItems(items, "perk", id)),
            pools := List(MatchingItems(items, "edgepool", id)))
  }

  /** The edge map `prepareEdges` leaves behind. */
  ghost function ReconciledEdges(edges: map<string, EdgeRecord>, defs: Definitions,
                                 items: seq<Item>, enrich: string -> string): (r: map<string, EdgeRecord>)
    ensures r.Keys == DefIds(defs)
  {
    map id | id in DefIds(defs) :: PreparedEdge(id, Lookup(edges, id), DefinitionOf(defs, id), items, enrich)
  }

  /** The edges left by the clean-up loop of `prepareEdges`. */
  function Prune(edges: map<string, EdgeRecord>, valid: set<string>): (r: map<string, EdgeRecord>)
    ensures forall k :: k in r <==> k in edges && k in valid
    ensures forall k :: k in r ==> r[k] == edges[k]
  {
    map k | k in edges && k in valid :: edges[k]
  }

  lemma LookupPruned(edges: map<string, EdgeRecord>, valid: set<string>, k: string)
    requires k in valid
    ensures Lookup(Prune(edges, valid), k) == Lookup(edges, k)
  {
  }

  /** The main loop of `prepareEdges`, one definition after another. */
  function ApplyDefs(edges: map<string, EdgeRecord>, defs: Definitions,
                     items: seq<Item>, enrich: string -> string): (r: map<string, EdgeRecord>)
    ensures forall k :: k in r <==> k in edges || k in DefIds(defs)
    ensures forall k :: k in edges && k !in DefIds(defs) ==> r[k] == edges[k]
    decreases |defs|
  {
    if defs == [] then edges
    else
      var id := defs[0].0;
      ApplyDefs(edges[id := PreparedEdge(id, Lookup(edges, id), defs[0].1, items, enrich)],
                defs[1..], items, enrich)
  }

  /** The ids of a non-empty definition list: its first id and the rest's,
      which with distinct ids do not include the first. */
  lemma DefIdsCons(defs: Definitions)
    requires DistinctIds(defs) && defs != []
    ensures DistinctIds(defs[1..])
    ensures DefIds(defs) == {defs[0].0} + DefIds(defs[1..])
    ensures defs[0].0 !in DefIds(defs[1..])
    ensures DefinitionOf(defs, defs[0].0) == defs[0].1
    ensures forall k :: k in DefIds(defs[1..]) ==> DefinitionOf(defs[1..], k) == DefinitionOf(defs, k)
  {
    var rest := defs[1..];
    forall k | k in DefIds(defs) ensures k == defs[0].0 || k in DefIds(rest) {
      var j :| 0 <= j < |defs| && defs[j].0 == k;
      if j > 0 { assert rest[j - 1].0 == k; }
    }
    forall k | k in DefIds(rest) ensures k in DefIds(defs) && DefinitionOf(rest, k) == DefinitionOf(defs, k) {
      var j :| 0 <= j < |rest| && rest[j].0 == k;
      assert defs[j + 1] == rest[j];
      DefinitionAt(rest, j);
      DefinitionAt(defs, j + 1);
    }
    DefinitionAt(defs, 0);
  }

  /** With distinct ids, running the definitions over a map prepares exactly
      the defined ids, each from its own stored record, and keeps the rest. */
  lemma {:induction false} ApplyDefsAt(edges: map<string, EdgeRecord>, defs: Definitions,
                                       items: seq<Item>, enrich: string -> string)
    requires DistinctIds(defs)
    decreases |defs|
    ensures forall k :: k in DefIds(defs) ==>
      ApplyDefs(edges, defs, items, enrich)[k] == PreparedEdge(k, Lookup(edges, k), DefinitionOf(defs, k), items, enrich)
  {
    if defs != [] {
      var id := defs[0].0;
      var rest := defs[1..];
      var next := edges[id := PreparedEdge(id, Lookup(edges, id), defs[0].1, items, enrich)];
      var applied := ApplyDefs(next, rest, items, enrich);
      assert ApplyDefs(edges, defs, items, enrich) == applied;
      DefIdsCons(defs);
      ApplyDefsAt(next, rest, items, enrich);
      forall k | k in DefIds(defs)
        ensures applied[k] == PreparedEdge(k, Lookup(edges, k), DefinitionOf(defs, k), items, enrich)
      {
        if k == id {
          assert k in next && k !in DefIds(rest);
        } else {
          assert k in DefIds(rest);
          assert Lookup(next, k) == Lookup(edges, k);
        }
      }
    }
  }

  /** `prepareEdges` as a loop over the definitions computes `ReconciledEdges`. */
  lemma ReconciledByApplying(edges: map<string, EdgeRecord>, defs: Definitions,
                             items: seq<Item>, enrich: string -> string)
    requires DistinctIds(defs)
    ensures ApplyDefs(Prune(edges, DefIds(defs)), defs, items, enrich) == ReconciledEdges(edges, defs, items, enrich)
  {
    var pruned := Prune(edges, DefIds(defs));
    var applied := ApplyDefs(pruned, defs, items, enrich);
    var reconciled := ReconciledEdges(edges, defs, items, enrich);
    ApplyDefsAt(pruned, defs, items, enrich);
    assert pruned.Keys <= DefIds(defs);
    assert applied.Keys == reconciled.Keys;
    forall k | k in applied ensures applied[k] == reconciled[k] {
      assert k in DefIds(defs);
      LookupPruned(edges, DefIds(defs), k);
      assert applied[k] == PreparedEdge(k, Lookup(pruned, k), DefinitionOf(defs, k), items, enrich);
    }
    SameEntries(applied, reconciled);
  }

  /** Two edge maps with the same keys and the same record at each key are equal. */
  lemma SameEntries(a: map<string, EdgeRecord>, b: map<string, EdgeRecord>)
    requires a.Keys == b.Keys
    requires forall k :: k in a ==> a[k] == b[k]
    ensures a == b
  {
  }

  // ----- properties of prepareEdges -----

  /** A defined id the actor did not have gets the default record, with the
      definition's own attributes winning. */
  lemma FreshEdgeDefaults(edges: map<string, EdgeRecord>, defs: Definitions, items: seq<Item>,
                          enrich: string -> string, j: int)
    requires DistinctIds(defs) && 0 <= j < |defs| && defs[j].0 !in edges
    ensures var r := ReconciledEdges(edges, defs, items, enrich)[defs[j].0];
            var d := defs[j].1;
            && r.id == d.id.GetOr(defs[j].0)
            && r.value == d.value.GetOr(0)
            && r.description == d.description.GetOr("")
            && r.selected == d.selected.GetOr(false)
            && r.hidden == d.hidden.GetOr(false)
            && r.visible == (!r.hidden && d.visible.GetOr(false))
            && r.attrs == d.attrs
  {
    DefinitionAt(defs, j);
  }

  /** A defined id the actor already had keeps its value, description,
      visibility and selection, except where the definition supplies them;
      nothing else of the stored record survives. */
  lemma StoredEdgeCarried(edges: map<string, EdgeRecord>, defs: Definitions, items: seq<Item>,
                          enrich: string -> string, j: int)
    requires DistinctIds(defs) && 0 <= j < |defs| && defs[j].0 in edges
    ensures var r := ReconciledEdges(edges, defs, items, enrich)[defs[j].0];
            var d := defs[j].1;
            var stored := edges[defs[j].0];
            && r.id == d.id.GetOr(defs[j].0)
            && r.value == d.value.GetOr(stored.value)
            && r.description == d.description.GetOr(stored.description)
            && r.selected == d.selected.GetOr(stored.selected)
            && r.hidden == d.hidden.GetOr(false)
            && r.visible == (!r.hidden && d.visible.GetOr(stored.visible))
            && r.attrs == d.attrs
  {
    DefinitionAt(defs, j);
  }

  /** A hidden edge is never visible after `prepareEdges`. */
  lemma HiddenEdgesInvisible(edges: map<string, EdgeRecord>, defs: Definitions, items: seq<Item>,
                             enrich: string -> string)
    requires DistinctIds(defs)
    ensures forall k :: k in ReconciledEdges(edges, defs, items, enrich) ==>
      ReconciledEdges(edges, defs, items, enrich)[k].hidden ==> !ReconciledEdges(edges, defs, items, enrich)[k].visible
  {
  }

  /** Each edge's perks and pools are the actor's matching items, and its
      enriched description is the expansion of its description. */
  lemma PowersFromItems(edges: map<string, EdgeRecord>, defs: Definitions, items: seq<Item>,
                        enrich: string -> string, id: string)
    requires DistinctIds(defs) && id in DefIds(defs)
    ensures var r := ReconciledEdges(edges, defs, items, enrich)[id];
            && r.perks == List(MatchingItems(items, "perk", id))
            && r.pools == List(MatchingItems(items, "edgepool", id))
            && r.enrichedDescription == enrich(r.description)
  {
  }

  /** Filtering keeps exactly the matching items, each as often as it occurs. */
  lemma {:induction false} MatchingItemsCount(items: seq<Item>, kind: string, id: string, x: Item)
    ensures multiset(MatchingItems(items, kind, id))[x] ==
            if x.kind == kind && x.edge == id then multiset(items)[x] else 0
  {
    if items != [] {
      var head := if items[0].kind == kind && items[0].edge == id then [items[0]] else [];
      assert MatchingItems(items, kind, id) == head + MatchingItems(items[1..], kind, id);
      assert multiset(MatchingItems(items, kind, id)) == multiset(head) + multiset(MatchingItems(items[1..], kind, id));
      MatchingItemsCount(items[1..], kind, id, x);
      assert items == [items[0]] + items[1..];
      assert multiset(items) == multiset([items[0]]) + multiset(items[1..]);
    }
  }

  /** Filtering keeps item order: it distributes over concatenation. */
  lemma {:induction false} MatchingItemsAppend(a: seq<Item>, b: seq<Item>, kind: string, id: string)
    ensures MatchingItems(a + b, kind, id) == MatchingItems(a, kind, id) + MatchingItems(b, kind, id)
  {
    if a != [] {
      var head := if a[0].kind == kind && a[0].edge == id then [a[0]] else [];
      assert (a + b)[0] == a[0] && (a + b)[1..] == a[1..] + b;
      assert MatchingItems(a + b, kind, id) == head + MatchingItems(a[1..] + b, kind, id);
      MatchingItemsAppend(a[1..], b, kind, id);
      assert MatchingItems(a, kind, id) == head + MatchingItems(a[1..], kind, id);
    } else {
      assert a + b == b;
    }
  }

  /** The stored perks and pools play no part: two maps that differ only
      there reconcile to the same map. */
  lemma StoredPowersIgnored(e1: map<string, EdgeRecord>, e2: map<string, EdgeRecord>, defs: Definitions,
                            items: seq<Item>, enrich: string -> string)
    requires DistinctIds(defs)
    requires e1.Keys == e2.Keys
    requires forall k :: k in e1 ==> e1[k].(perks := Absent, pools := Absent) == e2[k].(perks := Absent, pools := Absent)
    ensures ReconciledEdges(e1, defs, items, enrich) == ReconciledEdges(e2, defs, items, enrich)
  {
    var r1 := ReconciledEdges(e1, defs, items, enrich);
    var r2 := ReconciledEdges(e2, defs, items, enrich);
    forall k | k in r1 ensures r1[k] == r2[k] {
      if k in e1 {
        var a, b := e1[k], e2[k];
        assert a.value == b.value && a.description == b.description;
        assert a.visible == b.visible && a.selected == b.selected;
      }
    }
    SameEntries(r1, r2);
  }

  /** Preparing an already prepared record again gives the same record. */
  lemma PreparedEdgeStable(id: string, stored: Option<EdgeRecord>, def: EdgeDefinition,
                           items: seq<Item>, enrich: string -> string)
    ensures var once := PreparedEdge(id, stored, def, items, enrich);
            PreparedEdge(id, Some(once), def, items, enrich) == once
  {
  }

  /** Running `prepareEdges` on its own output changes nothing. */
  lemma ReconcileIdempotent(edges: map<string, EdgeRecord>, defs: Definitions, items: seq<Item>,
                            enrich: string -> string)
    requires DistinctIds(defs)
    ensures ReconciledEdges(ReconciledEdges(edges, defs, items, enrich), defs, items, enrich)
         == ReconciledEdges(edges, defs, items, enrich)
  {
    var once := ReconciledEdges(edges, defs, items, enrich);
    var twice := ReconciledEdges(once, defs, items, enrich);
    assert twice.Keys == once.Keys;
    forall k | k in twice ensures twice[k] == once[k] {
      PreparedEdgeStable(k, Lookup(edges, k), DefinitionOf(defs, k), items, enrich);
    }
    SameEntries(twice, once);
  }

  // ----- the comparator and the sort -----

  /** A comparator in the manner of `localeCompare`: negative, zero or positive. */
  type Comparator = (string, string) -> int

  /** The comparator orders names totally, ties allowed. */
  ghost predicate TotalPreorder(cmp: Comparator) {
    && (forall a, b :: cmp(a, b) <= 0 || cmp(b, a) <= 0)
    && (forall a, b, c :: cmp(a, b) <= 0 && cmp(b, c) <= 0 ==> cmp(a, c) <= 0)
  }

  predicate NameLe(cmp: Comparator, x: Item, y: Item) {
    cmp(x.name, y.name) <= 0
  }

  ghost predicate SortedByName(cmp: Comparator, s: seq<Item>) {
    forall i, j :: 0 <= i < j < |s| ==> NameLe(cmp, s[i], s[j])
  }

  /** `Array.prototype.sort` with a name comparator, in place (insertion sort). */
  method SortInPlace(a: array<Item>, cmp: Comparator)
    requires TotalPreorder(cmp)
    modifies a
    ensures SortedByName(cmp, a[..])
    ensures multiset(a[..]) == multiset(old(a[..]))
  {
    var i := 0;
    while i < a.Length
      invariant 0 <= i <= a.Length
      invariant forall p, q :: 0 <= p < q < i ==> NameLe(cmp, a[p], a[q])
      invariant multiset(a[..]) == multiset(old(a[..]))
    {
      InsertLast(a, i, cmp);
      i := i + 1;
    }
  }

  /** Exchanges two neighbouring elements. */
  method Swap(a: array<Item>, i: int, j: int)
    requires 0 <= i < j < a.Length
    modifies a
    ensures a[i] == old(a[j]) && a[j] == old(a[i])
    ensures forall k :: 0 <= k < a.Length && k != i && k != j ==> a[k] == old(a[k])
    ensures multiset(a[..]) == multiset(old(a[..]))
  {
    a[i], a[j] := a[j], a[i];
  }

  /** Moves `a[i]` left into the sorted prefix `a[..i]`. */
  method InsertLast(a: array<Item>, i: int, cmp: Comparator)
    requires TotalPreorder(cmp)
    requires 0 <= i < a.Length
    requires forall p, q :: 0 <= p < q < i ==> NameLe(cmp, a[p], a[q])
    modifies a
    ensures forall p, q :: 0 <= p < q <= i ==> NameLe(cmp, a[p], a[q])
    ensures multiset(a[..]) == multiset(old(a[..]))
  {
    var j := i;
    while j > 0 && cmp(a[j - 1].name, a[j].name) > 0
      invariant 0 <= j <= i
      invariant forall p, q :: 0 <= p < q <= i && p != j && q != j ==> NameLe(cmp, a[p], a[q])
      invariant forall q :: j < q <= i ==> NameLe(cmp, a[j], a[q])
      invariant multiset(a[..]) == multiset(old(a[..]))
    {
      Swap(a, j - 1, j);
      j := j - 1;
    }
  }

  /** Sorts a copy of `items` by name. */
  method SortByName(items: seq<Item>, cmp: Comparator) returns (sorted: seq<Item>)
    requires TotalPreorder(cmp)
    ensures SortedByName(cmp, sorted)
    ensures multiset(sorted) == multiset(items)
  {
    var a := new Item[|items|](i requires 0 <= i < |items| => items[i]);
    assert a[..] == items;
    SortInPlace(a, cmp);
    sorted := a[..];
  }

  /** After `prepareEdgePowers`, a list field is a sorted permutation of what
      it held when it was an array, and untouched otherwise. */
  ghost predicate SortedPermutationOf(cmp: Comparator, before: PowerList, after: PowerList) {
    if before.List? then
      after.List? && SortedByName(cmp, after.items) && multiset(after.items) == multiset(before.items)
    else after == before
  }

  /** What `prepareEdgePowers` does to one edge. */
  ghost predicate PowersPrepared(cmp: Comparator, before: EdgeRecord, after: EdgeRecord) {
    && SortedPermutationOf(cmp, before.perks, after.perks)
    && SortedPermutationOf(cmp, before.pools, after.pools)
    && after.visible == (before.visible || (!before.hidden && before.perks.List? && |before.perks.items| > 0))
    && after == before.(visible := after.visible, perks := after.perks, pools := after.pools)
  }

  /** The body of the loop of `prepareEdgePowers`, for one edge. */
  method PreparePowers(before: EdgeRecord, cmp: Comparator) returns (edge: EdgeRecord)
    requires TotalPreorder(cmp)
    ensures PowersPrepared(cmp, before, edge)
  {
    edge := before;

    // Perk sorting
    if edge.perks.List? {
      if |edge.perks.items| > 0 {
        if !edge.visible && !edge.hidden {
          edge := edge.(visible := true);
        }
        var sorted := SortByName(edge.perks.items, cmp);
        edge := edge.(perks := List(sorted));
      }
    }

    // Pool sorting
    if edge.pools.List? {
      if |edge.pools.items| > 0 {
        var sorted := SortByName(edge.pools.items, cmp);
        edge := edge.(pools := List(sorted));
      }
    }
  }

  // ----- properties of prepareEdgePowers -----

  /** Sorting powers keeps a hidden edge invisible. */
  lemma PowersKeepHiddenInvisible(cmp: Comparator, before: EdgeRecord, after: EdgeRecord)
    requires PowersPrepared(cmp, before, after)
    requires before.hidden ==> !before.visible
    ensures after.hidden ==> !after.visible
  {
  }

  /** Both passes together: a defined edge ends with its matching perks and
      pools sorted by name, is invisible if hidden, and is visible if it is not
      hidden and has a perk. */
  lemma {:induction false} EdgeAfterBothPasses(cmp: Comparator, edges: map<string, EdgeRecord>, defs: Definitions,
                                               items: seq<Item>, enrich: string -> string, id: string, after: EdgeRecord)
    requires DistinctIds(defs) && id in DefIds(defs)
    requires PowersPrepared(cmp, ReconciledEdges(edges, defs, items, enrich)[id], after)
    ensures after.perks.List? && SortedByName(cmp, after.perks.items)
    ensures after.pools.List? && SortedByName(cmp, after.pools.items)
    ensures forall x :: multiset(after.perks.items)[x] ==
                        (if x.kind == "perk" && x.edge == id then multiset(items)[x] else 0)
    ensures forall x :: multiset(after.pools.items)[x] ==
                        (if x.kind == "edgepool" && x.edge == id then multiset(items)[x] else 0)
    ensures after.hidden ==> !after.visible
    ensures !after.hidden && (exists x :: x in items && x.kind == "perk" && x.edge == id) ==> after.visible
  {
    var r := ReconciledEdges(edges, defs, items, enrich)[id];
    forall x
      ensures multiset(after.perks.items)[x] == (if x.kind == "perk" && x.edge == id then multiset(items)[x] else 0)
    {
      MatchingItemsCount(items, "perk", id, x);
    }
    forall x
      ensures multiset(after.pools.items)[x] == (if x.kind == "edgepool" && x.edge == id then multiset(items)[x] else 0)
    {
      MatchingItemsCount(items, "edgepool", id, x);
    }
    if !after.hidden && (exists x :: x in items && x.kind == "perk" && x.edge == id) {
      var x :| x in items && x.kind == "perk" && x.edge == id;
      MatchingItemsCount(items, "perk", id, x);
      assert x in multiset(r.perks.items);
    }
  }

  /** The actor's edge map, `actor.system.edges`, updated in place. */
  class ActorEdges {
    var edges: map<string, EdgeRecord>

    constructor (edges: map<string, EdgeRecord>)
      ensures this.edges == edges
    {
      this.edges := edges;
    }

    /** `prepareEdges`: drops stale ids, then builds each defined edge's record. */
    method PrepareEdges(defs: Definitions, items: seq<Item>, enrich: string -> string)
      requires DistinctIds(defs)
      modifies this
      ensures edges == ReconciledEdges(old(edges), defs, items, enrich)
    {
      ghost var original := edges;
      var validEdges := DefIds(defs);
      DropStaleEdges(validEdges);
      ghost var pruned := edges;
      assert pruned == Prune(original, validEdges);

      var i := 0;
      while i < |defs|
        invariant 0 <= i <= |defs|
        invariant ApplyDefs(edges, defs[i..], items, enrich) == ApplyDefs(pruned, defs, items, enrich)
      {
        var (id, value) := defs[i];
        assert defs[i..][1..] == defs[i + 1..];
        PrepareEdge(id, value, items, enrich);
        i := i + 1;
      }
      ReconciledByApplying(original, defs, items, enrich);
    }

    /** The clean-up loop of `prepareEdges`: deletes every edge whose id has
        no definition. */
    method DropStaleEdges(validEdges: set<string>)
      modifies this
      ensures forall k :: k in edges <==> k in old(edges) && k in validEdges
      ensures forall k :: k in edges ==> edges[k] == old(edges)[k]
    {
      var pending := edges.Keys;
      while pending != {}
        invariant pending <= old(edges).Keys
        invariant edges.Keys <= old(edges).Keys
        invariant forall k :: k in edges ==> edges[k] == old(edges)[k]
        invariant forall k :: k in old(edges) ==> (k in edges <==> k in pending || k in validEdges)
        decreases pending
      {
        var id :| id in pending;
        if id !in validEdges {
          edges := edges - {id};
        }
        pending := pending - {id};
      }
    }

    /** One pass of the main loop of `prepareEdges`, for definition `id`. */
    method PrepareEdge(id: string, value: EdgeDefinition, items: seq<Item>, enrich: string -> string)
      modifies this
      ensures edges == old(edges)[id := PreparedEdge(id, Lookup(old(edges), id), value, items, enrich)]
    {
      // `edges[id]` and `edgeData` are one object in the source; the steps
      // below change it and the last line stores it.
      var edgeData: EdgeRecord;
      if id in edges {
        edgeData := Overlay(CarriedBase(id, edges[id]), value);
      } else {
        edgeData := Overlay(FreshBase(id), value);
      }
      // Forced invisible if hidden
      if edgeData.hidden {
        edgeData := edgeData.(visible := false);
      }
      // Wipe old perks and pools so they do not duplicate
      edgeData := edgeData.(perks := List([]), pools := List([]));
      edgeData := edgeData.(enrichedDescription := enrich(edgeData.description));
      edgeData := edgeData.(perks := List(MatchingItems(items, "perk", id)));
      edgeData := edgeData.(pools := List(MatchingItems(items, "edgepool", id)));
      edges := edges[id := edgeData];
    }

    /** `prepareEdgePowers`: sorts each edge's perks and pools by name and makes
        an edge with perks visible unless it is hidden. */
    method PrepareEdgePowers(cmp: Comparator)
      requires TotalPreorder(cmp)
      modifies this
      ensures edges.Keys == old(edges).Keys
      ensures forall k :: k in edges ==> PowersPrepared(cmp, old(edges)[k], edges[k])
    {
      ghost var original := edges;
      var pending := edges.Keys;
      while pending != {}
        invariant pending <= original.Keys
        invariant edges.Keys == original.Keys
        invariant forall k :: k in pending ==> edges[k] == original[k]
        invariant forall k :: k in edges && k !in pending ==> PowersPrepared(cmp, original[k], edges[k])
        decreases pending
      {
        var edgeType :| edgeType in pending;
        var edge := PreparePowers(edges[edgeType], cmp);
        edges := edges[edgeType := edge];
        pending := pending - {edgeType};
      }
    }
  }
}

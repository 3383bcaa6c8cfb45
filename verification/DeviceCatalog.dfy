/** Resolving a rule's device selector against the device catalogue. */
module DeviceCatalog {
  import opened Prelude

  datatype Entry = Entry(deviceId: string, kind: Option<string>)
  datatype Selector = Selector(ids: Option<seq<string>>, types: Option<seq<string>>)

  predicate Known(entries: seq<Entry>, id: string) {
    exists i | 0 <= i < |entries| :: entries[i].deviceId == id
  }

  predicate KnownAs(entries: seq<Entry>, id: string, kind: string) {
    exists i | 0 <= i < |entries| :: entries[i].deviceId == id && entries[i].kind == Some(kind)
  }

  function KnownIds(entries: seq<Entry>, ids: seq<string>): seq<string> {
    if ids == [] then []
    else KnownIds(entries, ids[..|ids| - 1]) + (if Known(entries, ids[|ids| - 1]) then [ids[|ids| - 1]] else [])
  }

  function IdsOfType(entries: seq<Entry>, kind: string): seq<string> {
    if entries == [] then []
    else
      var e := entries[|entries| - 1];
      IdsOfType(entries[..|entries| - 1], kind) + (if e.kind == Some(kind) then [e.deviceId] else [])
  }

  function IdsOfTypes(entries: seq<Entry>, types: seq<string>): seq<string> {
    if types == [] then []
    else IdsOfTypes(entries, types[..|types| - 1]) + IdsOfType(entries, types[|types| - 1])
  }

  /** Every id the selector names, in the order the source visits them, repetitions included. */
  function Candidates(entries: seq<Entry>, selector: Option<Selector>): seq<string> {
    match selector
    case None => seq(|entries|, i requires 0 <= i < |entries| => entries[i].deviceId)
    case Some(s) => KnownIds(entries, s.ids.GetOr([])) + IdsOfTypes(entries, s.types.GetOr([]))
  }

  /** First occurrences, in order. */
  function Distinct(ids: seq<string>): seq<string> {
    if ids == [] then [] else AddNew(Distinct(ids[..|ids| - 1]), ids[|ids| - 1])
  }

  function AddNew(ids: seq<string>, id: string): seq<string> { if id in ids then ids else ids + [id] }

  function Resolved(entries: seq<Entry>, selector: Option<Selector>): seq<string> {
    Distinct(Candidates(entries, selector))
  }

  lemma DistinctNext(ids: seq<string>, id: string)
    ensures Distinct(ids + [id]) == AddNew(Distinct(ids), id)
  {
    DropLast(ids, id);
  }

  lemma KnownIdsNext(entries: seq<Entry>, ids: seq<string>, id: string)
    ensures KnownIds(entries, ids + [id]) == if Known(entries, id) then KnownIds(entries, ids) + [id] else KnownIds(entries, ids)
  {
    DropLast(ids, id);
  }

  lemma IdsOfTypeNext(entries: seq<Entry>, e: Entry, kind: string)
    ensures IdsOfType(entries + [e], kind) ==
            if e.kind == Some(kind) then IdsOfType(entries, kind) + [e.deviceId] else IdsOfType(entries, kind)
  {
    DropLast(entries, e);
  }

  lemma IdsOfTypesNext(entries: seq<Entry>, types: seq<string>, kind: string)
    ensures IdsOfTypes(entries, types + [kind]) == IdsOfTypes(entries, types) + IdsOfType(entries, kind)
  {
    DropLast(types, kind);
  }

  class Catalog {
    const entries: seq<Entry>

    constructor (entries: seq<Entry>)
      ensures this.entries == entries
    {
      this.entries := entries;
    }

    method ResolveTargets(selector: Option<Selector>) returns (targets: seq<string>)
      ensures targets == Resolved(entries, selector)
    {
      targets := [];
      if selector.None? {
        ghost var all := Candidates(entries, selector);
        for i := 0 to |entries|
          invariant targets == Distinct(all[..i])
        {
          TakeNext(all, i + 1);
          DistinctNext(all[..i], all[i]);
          targets := Add(targets, entries[i].deviceId);
        }
        assert all[..|entries|] == all;
        return;
      }
      var ids, types := selector.value.ids.GetOr([]), selector.value.types.GetOr([]);
      for i := 0 to |ids|
        invariant targets == Distinct(KnownIds(entries, ids[..i]))
      {
        TakeNext(ids, i + 1);
        KnownIdsNext(entries, ids[..i], ids[i]);
        DistinctNext(KnownIds(entries, ids[..i]), ids[i]);
        if Known(entries, ids[i]) { targets := Add(targets, ids[i]); }
      }
      assert ids[..|ids|] == ids;
      ghost var known := KnownIds(entries, ids);
      assert known + IdsOfTypes(entries, types[..0]) == known;
      for i := 0 to |types|
        invariant targets == Distinct(known + IdsOfTypes(entries, types[..i]))
      {
        targets := AddType(targets, types[i], known + IdsOfTypes(entries, types[..i]));
        TakeNext(types, i + 1);
        IdsOfTypesNext(entries, types[..i], types[i]);
        Assoc(known, IdsOfTypes(entries, types[..i]), IdsOfType(entries, types[i]));
      }
      assert types[..|types|] == types;
    }

    method AddType(before: seq<string>, kind: string, ghost visited: seq<string>) returns (targets: seq<string>)
      requires before == Distinct(visited)
      ensures targets == Distinct(visited + IdsOfType(entries, kind))
    {
      targets := before;
      assert visited + IdsOfType(entries[..0], kind) == visited;
      for k := 0 to |entries|
        invariant targets == Distinct(visited + IdsOfType(entries[..k], kind))
      {
        TakeNext(entries, k + 1);
        IdsOfTypeNext(entries[..k], entries[k], kind);
        DistinctNext(visited + IdsOfType(entries[..k], kind), entries[k].deviceId);
        Assoc(visited, IdsOfType(entries[..k], kind), [entries[k].deviceId]);
        if entries[k].kind == Some(kind) { targets := Add(targets, entries[k].deviceId); }
      }
      assert entries[..|entries|] == entries;
    }

    static method Add(targets: seq<string>, id: string) returns (r: seq<string>)
      ensures r == AddNew(targets, id)
    {
      r := targets;
      if id !in targets { r := targets + [id]; }
    }
  }

  /** What a selector means, without regard to order: known devices named by id or by type. */
  ghost predicate Selects(entries: seq<Entry>, selector: Option<Selector>, id: string) {
    match selector
    case None => Known(entries, id)
    case Some(s) =>
      || (id in s.ids.GetOr([]) && Known(entries, id))
      || (exists kind :: kind in s.types.GetOr([]) && KnownAs(entries, id, kind))
  }

  lemma {:induction false} KnownIdsMembers(entries: seq<Entry>, ids: seq<string>, id: string)
    ensures id in KnownIds(entries, ids) <==> id in ids && Known(entries, id)
  {
    if ids != [] {
      KnownIdsMembers(entries, ids[..|ids| - 1], id);
      TakeNext(ids, |ids|);
      assert ids[..|ids|] == ids;
    }
  }

  lemma {:induction false} IdsOfTypeMembers(entries: seq<Entry>, kind: string, id: string)
    ensures id in IdsOfType(entries, kind) <==> KnownAs(entries, id, kind)
  {
    if entries != [] {
      var front, e := entries[..|entries| - 1], entries[|entries| - 1];
      IdsOfTypeMembers(front, kind, id);
      assert forall i | 0 <= i < |front| :: front[i] == entries[i];
      if KnownAs(entries, id, kind) {
        var i :| 0 <= i < |entries| && entries[i].deviceId == id && entries[i].kind == Some(kind);
        if i < |front| { assert front[i].deviceId == id; }
      }
    }
  }

  lemma {:induction false} IdsOfTypesMembers(entries: seq<Entry>, types: seq<string>, id: string)
    ensures id in IdsOfTypes(entries, types) <==> exists kind :: kind in types && KnownAs(entries, id, kind)
  {
    if types != [] {
      var front, last := types[..|types| - 1], types[|types| - 1];
      IdsOfTypesMembers(entries, front, id);
      IdsOfTypeMembers(entries, last, id);
      assert types == front + [last];
      assert forall kind :: kind in types <==> kind in front || kind == last;
    }
  }

  lemma {:induction false} DistinctKeepsMembers(ids: seq<string>)
    ensures forall id :: id in Distinct(ids) <==> id in ids
    ensures forall i, j | 0 <= i < j < |Distinct(ids)| :: Distinct(ids)[i] != Distinct(ids)[j]
  {
    if ids != [] {
      DistinctKeepsMembers(ids[..|ids| - 1]);
      assert ids == ids[..|ids| - 1] + [ids[|ids| - 1]];
    }
  }

  /** Targets are exactly the selected devices, each once. */
  lemma ResolvedIsSelection(entries: seq<Entry>, selector: Option<Selector>)
    ensures forall id :: id in Resolved(entries, selector) <==> Selects(entries, selector, id)
    ensures forall i, j | 0 <= i < j < |Resolved(entries, selector)| ::
              Resolved(entries, selector)[i] != Resolved(entries, selector)[j]
  {
    DistinctKeepsMembers(Candidates(entries, selector));
    forall id ensures id in Candidates(entries, selector) <==> Selects(entries, selector, id) {
      match selector
      case None =>
        if Known(entries, id) {
          var i :| 0 <= i < |entries| && entries[i].deviceId == id;
          assert Candidates(entries, selector)[i] == id;
        }
      case Some(s) =>
        KnownIdsMembers(entries, s.ids.GetOr([]), id);
        IdsOfTypesMembers(entries, s.types.GetOr([]), id);
    }
  }

  /** The first place of `id` in `ids`. */
  ghost function FirstAt(ids: seq<string>, id: string): (k: nat)
    requires id in ids
    ensures k < |ids| && ids[k] == id && id !in ids[..k]
  {
    if ids[0] == id then 0 else 1 + FirstAt(ids[1..], id)
  }

  lemma FirstAtIs(ids: seq<string>, id: string, k: nat)
    requires k < |ids| && ids[k] == id && forall i | 0 <= i < k :: ids[i] != id
    ensures FirstAt(ids, id) == k
  {
    var m := FirstAt(ids, id);
    assert forall i | 0 <= i < m :: ids[..m][i] == ids[i] && ids[i] != id;
  }

  lemma FirstAtStable(ids: seq<string>, last: string, id: string)
    requires id in ids
    ensures FirstAt(ids + [last], id) == FirstAt(ids, id)
  {
    var k := FirstAt(ids, id);
    assert forall i | 0 <= i < k :: ids[..k][i] == ids[i] && ids[i] != id;
    FirstAtIs(ids + [last], id, k);
  }

  /** Targets keep the order in which the source first meets them. */
  lemma {:induction false} DistinctKeepsOrder(ids: seq<string>, i: nat, j: nat)
    requires i < j < |Distinct(ids)|
    ensures Distinct(ids)[i] in ids && Distinct(ids)[j] in ids
    ensures FirstAt(ids, Distinct(ids)[i]) < FirstAt(ids, Distinct(ids)[j])
  {
    DistinctKeepsMembers(ids);
    if ids != [] {
      var front, last := ids[..|ids| - 1], ids[|ids| - 1];
      var d := Distinct(front);
      DistinctKeepsMembers(front);
      assert ids == front + [last];
      FirstAtStable(front, last, Distinct(ids)[i]);
      if j < |d| {
        DistinctKeepsOrder(front, i, j);
        FirstAtStable(front, last, d[j]);
      } else {
        assert last !in front;
        assert forall k | 0 <= k < |front| :: ids[k] == front[k];
      }
    }
  }

  lemma {:induction false} DistinctJoin(a: seq<string>, b: seq<string>)
    ensures Distinct(a) <= Distinct(a + b)
    ensures forall k | |Distinct(a)| <= k < |Distinct(a + b)| :: Distinct(a + b)[k] in b
  {
    if b == [] {
      assert a + b == a;
    } else {
      AppendedFront(a, b);
      DistinctJoin(a, b[..|b| - 1]);
      assert b == b[..|b| - 1] + [b[|b| - 1]];
    }
  }

  ghost predicate OfSomeType(entries: seq<Entry>, types: seq<string>, id: string) {
    exists kind :: kind in types && KnownAs(entries, id, kind)
  }

  /** The devices named by id come first, in the order named; those that only their type brings in come after. */
  lemma IdsComeFirst(entries: seq<Entry>, s: Selector)
    ensures var ids, targets := s.ids.GetOr([]), Resolved(entries, Some(s));
      var named := Distinct(KnownIds(entries, ids));
      && named <= targets && (forall id :: id in named <==> id in ids && Known(entries, id))
      && forall k | |named| <= k < |targets| :: OfSomeType(entries, s.types.GetOr([]), targets[k])
  {
    var ids, types := s.ids.GetOr([]), s.types.GetOr([]);
    var named, targets := Distinct(KnownIds(entries, ids)), Resolved(entries, Some(s));
    DistinctJoin(KnownIds(entries, ids), IdsOfTypes(entries, types));
    DistinctKeepsMembers(KnownIds(entries, ids));
    forall id ensures id in named <==> id in ids && Known(entries, id) { KnownIdsMembers(entries, ids, id); }
    forall k | |named| <= k < |targets| ensures OfSomeType(entries, types, targets[k]) {
      IdsOfTypesMembers(entries, types, targets[k]);
    }
  }
}

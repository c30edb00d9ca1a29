/**
  What the policy edits of raven/fedhub_partners.py guarantee: an edit changes nothing outside the
  partner's own nodes, keeps the policy well formed, sets exactly one rule per direction, and
  removing (or switching back) undoes adding (or switching).
*/
module PolicyProofs {
  import opened Wrappers
  import opened Canvas
  import opened PolicyGraph

  // --- well formed policies ---

  function IdList(es: seq<Entity>): (ids: seq<string>)
    ensures |ids| == |es|
    ensures forall i | 0 <= i < |es| :: ids[i] == es[i].id
  {
    seq(|es|, i requires 0 <= i < |es| => es[i].id)
  }

  ghost predicate Distinct<T(!new)>(s: seq<T>) {
    forall i, j | 0 <= i < j < |s| :: s[i] != s[j]
  }

  /** Entity ids are distinct and every rule runs between two entities of the policy. */
  ghost predicate WellFormed(g: Graph) {
    && Distinct(IdList(g.entities))
    && EndpointsIn(g.rules, IdList(g.entities))
  }

  ghost predicate EndpointsIn(rs: seq<Rule>, ids: seq<string>) {
    forall r | r in rs :: r.source in ids && r.destination in ids
  }

  // --- the part of a policy outside some nodes ---

  /** The policy without the nodes ids, their rules and their places on the canvas. */
  function Rest(g: Graph, ids: set<string>): Graph {
    WithoutNodes(g.(nodes := Normal(g.nodes)), ids)
  }

  lemma {:induction false} WithoutEntitiesAppend(a: seq<Entity>, b: seq<Entity>, ids: set<string>)
    ensures WithoutEntities(a + b, ids) == WithoutEntities(a, ids) + WithoutEntities(b, ids)
  {
    if a == [] {
      assert a + b == b;
    } else {
      assert (a + b)[1..] == a[1..] + b;
      WithoutEntitiesAppend(a[1..], b, ids);
    }
  }

  lemma {:induction false} WithoutEntitiesNone(es: seq<Entity>, ids: set<string>)
    requires forall e | e in es :: e.id !in ids
    ensures WithoutEntities(es, ids) == es
  {
    if es != [] {
      WithoutEntitiesNone(es[1..], ids);
    }
  }

  lemma {:induction false} WithoutRulesNone(rs: seq<Rule>, ids: set<string>)
    requires forall r | r in rs :: !Touches(r, ids)
    ensures WithoutRules(rs, ids) == rs
  {
    if rs != [] {
      WithoutRulesNone(rs[1..], ids);
    }
  }

  lemma {:induction false} WithoutPairRest(rs: seq<Rule>, s: string, d: string, ids: set<string>)
    requires s in ids || d in ids
    ensures WithoutRules(WithoutPair(rs, s, d), ids) == WithoutRules(rs, ids)
  {
    if rs != [] {
      WithoutPairRest(rs[1..], s, d, ids);
      if !Connects(rs[0], s, d) {
        assert WithoutPair(rs, s, d)[1..] == WithoutPair(rs[1..], s, d);
      }
    }
  }

  lemma {:induction false} SetRuleRest(rs: seq<Rule>, s: Entity, d: Entity, f: Filter, id: string, ids: set<string>)
    requires s.id in ids || d.id in ids
    ensures WithoutRules(AfterSetRule(rs, s, d, f, id), ids) == WithoutRules(rs, ids)
  {
    if rs == [] {
    } else if Connects(rs[0], s.id, d.id) {
      WithoutPairRest(rs[1..], s.id, d.id, ids);
      assert AfterSetRule(rs, s, d, f, id)[1..] == WithoutPair(rs[1..], s.id, d.id);
    } else {
      SetRuleRest(rs[1..], s, d, f, id, ids);
      assert AfterSetRule(rs, s, d, f, id)[1..] == AfterSetRule(rs[1..], s, d, f, id);
    }
  }

  lemma SetBothRest(rs: seq<Rule>, own: Entity, n: Entity, share: Filter, receive: Filter,
                    r1: string, r2: string, ids: set<string>)
    requires n.id in ids
    ensures WithoutRules(AfterSetBoth(rs, own, n, share, receive, r1, r2), ids) == WithoutRules(rs, ids)
  {
    SetRuleRest(rs, own, n, share, r1, ids);
    SetRuleRest(AfterSetRule(rs, own, n, share, r1), n, own, receive, r2, ids);
  }

  lemma {:induction false} EditEntityRest(es: seq<Entity>, id: string, edit: NodeEdit, ids: set<string>)
    requires id in ids
    ensures WithoutEntities(EditEntity(es, id, edit), ids) == WithoutEntities(es, ids)
  {
    if es != [] {
      if es[0].id == id {
        assert EditEntity(es, id, edit)[1..] == es[1..];
      } else {
        EditEntityRest(es[1..], id, edit, ids);
        assert EditEntity(es, id, edit)[1..] == EditEntity(es[1..], id, edit);
      }
    }
  }

  lemma {:induction false} EditAllRest(es: seq<Entity>, nodeIds: seq<string>, edit: NodeEdit, ids: set<string>)
    requires forall n | n in nodeIds :: n in ids
    ensures WithoutEntities(EditAll(es, nodeIds, edit), ids) == WithoutEntities(es, ids)
    decreases |nodeIds|
  {
    if nodeIds != [] {
      EditEntityRest(es, nodeIds[0], edit, ids);
      EditAllRest(EditEntity(es, nodeIds[0], edit), nodeIds[1..], edit, ids);
    }
  }

  lemma {:induction false} RenamedRulesRest(rs: seq<Rule>, es: seq<Entity>, n: string, display: string, ids: set<string>)
    requires n in ids
    ensures WithoutRules(RenamedRules(rs, es, n, display), ids) == WithoutRules(rs, ids)
  {
    if rs != [] {
      RenamedRulesRest(rs[1..], es, n, display, ids);
      assert RenamedRules(rs, es, n, display)[1..] == RenamedRules(rs[1..], es, n, display);
    }
  }

  lemma {:induction false} RenameNodesRest(g: Graph, nodeIds: seq<string>, name: string, ids: set<string>)
    requires forall n | n in nodeIds :: n in ids
    ensures Rest(RenameNodes(g, nodeIds, name), ids) == Rest(g, ids)
    decreases |nodeIds|
  {
    if nodeIds != [] {
      var n := nodeIds[0];
      var before := DisplayOf(g.entities, n);
      var es := EditEntity(g.entities, n, Rename(name));
      EditEntityRest(g.entities, n, Rename(name), ids);
      RenamedRulesRest(g.rules, es, n, before, ids);
      RenameNodesRest(g.(entities := es, rules := RenamedRules(g.rules, es, n, before)), nodeIds[1..], name, ids);
    }
  }

  lemma {:induction false} FindEntityFound(es: seq<Entity>, id: string)
    ensures FindEntity(es, id).Some? <==> id in IdList(es)
    ensures FindEntity(es, id).Some? ==> FindEntity(es, id).value in es && FindEntity(es, id).value.id == id
  {
    if es != [] {
      FindEntityFound(es[1..], id);
      assert IdList(es) == [es[0].id] + IdList(es[1..]);
    }
  }

  lemma {:induction false} SetSideRest(g: Graph, own: string, nodeIds: seq<string>, outbound: bool, f: Filter,
                                       r1: string, r2: string, ids: set<string>)
    requires forall n | n in nodeIds :: n in ids
    ensures Rest(SetSide(g, own, nodeIds, outbound, f, r1, r2), ids) == Rest(g, ids)
    decreases |nodeIds|
  {
    if nodeIds != [] {
      FindEntityFound(g.entities, nodeIds[0]);
      var o, n := FindEntity(g.entities, own), FindEntity(g.entities, nodeIds[0]);
      var rules :=
        if o.None? || n.None? then g.rules
        else if outbound then AfterSetRule(g.rules, o.value, n.value, f, r1)
        else AfterSetRule(g.rules, n.value, o.value, f, r1);
      if o.Some? && n.Some? {
        if outbound {
          SetRuleRest(g.rules, o.value, n.value, f, r1, ids);
        } else {
          SetRuleRest(g.rules, n.value, o.value, f, r1, ids);
        }
      }
      SetSideRest(g.(rules := rules), own, nodeIds[1..], outbound, f, r2, r2, ids);
    }
  }

  lemma {:induction false} DropItemsTwice(items: seq<Item>, few: set<string>, ids: set<string>)
    requires few <= ids
    ensures DropItems(DropItems(items, few), ids) == DropItems(items, ids)
  {
    if items != [] {
      DropItemsTwice(items[1..], few, ids);
      if !Names(items[0], few) {
        assert DropItems(items, few)[1..] == DropItems(items[1..], few);
      }
    }
  }

  lemma {:induction false} DropEntriesTwice(entries: seq<(string, Item)>, few: set<string>, ids: set<string>)
    requires few <= ids
    ensures DropEntries(DropEntries(entries, few), ids) == DropEntries(entries, ids)
  {
    if entries != [] {
      DropEntriesTwice(entries[1..], few, ids);
      if !(entries[0].0 in few || Names(entries[0].1, few)) {
        assert DropEntries(entries, few)[1..] == DropEntries(entries[1..], few);
      }
    }
  }

  lemma {:induction false} WithoutEntitiesTwice(es: seq<Entity>, few: set<string>, ids: set<string>)
    requires few <= ids
    ensures WithoutEntities(WithoutEntities(es, few), ids) == WithoutEntities(es, ids)
  {
    if es != [] {
      WithoutEntitiesTwice(es[1..], few, ids);
      if es[0].id !in few {
        assert WithoutEntities(es, few)[1..] == WithoutEntities(es[1..], few);
      }
    }
  }

  lemma {:induction false} WithoutRulesTwice(rs: seq<Rule>, few: set<string>, ids: set<string>)
    requires few <= ids
    ensures WithoutRules(WithoutRules(rs, few), ids) == WithoutRules(rs, ids)
  {
    if rs != [] {
      WithoutRulesTwice(rs[1..], few, ids);
      if !Touches(rs[0], few) {
        assert WithoutRules(rs, few)[1..] == WithoutRules(rs[1..], few);
      }
    }
  }

  /** Taking away some of the nodes first makes no difference to what is left without all of them. */
  lemma WithoutNodesRest(g: Graph, few: set<string>, ids: set<string>)
    requires few <= ids
    ensures Rest(WithoutNodes(g, few), ids) == Rest(g, ids)
  {
    WithoutEntitiesTwice(g.entities, few, ids);
    WithoutRulesTwice(g.rules, few, ids);
    match g.nodes
    case NoNodes =>
    case ListNodes(items) => DropItemsTwice(items, few, ids);
    case DictNodes(entries) => DropEntriesTwice(entries, few, ids);
  }

  lemma AddNodeRest(g: Graph, node: Entity, ids: set<string>)
    requires node.id in ids
    ensures Rest(AfterAddNode(g, node), ids) == Rest(g, ids)
  {
    WithoutEntitiesAppend(g.entities, [node], ids);
    assert WithoutEntities([node], ids) == [];
    assert WithoutEntities(g.entities, ids) + [] == WithoutEntities(g.entities, ids);
    DropUndoesAdd(g.nodes, node.id, ids);
  }

  // --- the frame of each edit ---

  function AddedIds(p: NewPartner, ids: Ids): set<string> {
    {ids.ca} + (if p.dial.Some? then {ids.out} else {})
  }

  /** add_partner changes nothing but the new nodes, beyond making sure of the own node. */
  lemma AddChangesOnlyTheNewNodes(g: Graph, own: OwnCa, p: NewPartner, ids: Ids)
    requires own.uid != ""
    ensures Rest(AfterAdd(g, own, p, ids), AddedIds(p, ids))
         == Rest(AfterEnsureOwn(g, own, ids.own), AddedIds(p, ids))
  {
    var t := AddedIds(p, ids);
    var g0 := AfterEnsureOwn(g, own, ids.own);
    EnsuredOwn(g, own, ids.own);
    var ownNode := OwnEntity(g0.entities, own.uid);
    var ca := CaNodeOf(p, ids);
    AddNodeRest(g0, ca, t);
    var g1 := AfterAddNode(g0, ca);
    var share, receive := SpecOr(p.share), SpecOr(p.receive);
    if p.dial.Some? {
      var out := OutNodeOf(p, ids);
      AddNodeRest(g1, out, t);
      var g2 := AfterAddNode(g1, out);
      SetBothRest(g2.rules, ownNode, ca, share, receive, ids.r1, ids.r2, t);
      var rules1 := AfterSetBoth(g2.rules, ownNode, ca, share, receive, ids.r1, ids.r2);
      SetBothRest(rules1, ownNode, out, share, receive, ids.r3, ids.r4, t);
    } else {
      SetBothRest(g1.rules, ownNode, ca, share, receive, ids.r1, ids.r2, t);
    }
  }

  /** The nodes an update may touch: the partner's own, and the outgoing node it may create. */
  function EntryIds(entry: Entry): set<string> {
    (if entry.caNode.Some? then {entry.caNode.value.id} else {})
    + (if entry.outgoing.Some? then {entry.outgoing.value.id} else {})
  }

  ghost predicate Within(w: Work, ids: set<string>) {
    (w.ca.Some? ==> w.ca.value in ids) && (w.out.Some? ==> w.out.value in ids)
  }

  lemma SwitchRest(w: Work, entry: Entry, c: Changes, ownNode: Entity, ids: Ids, t: set<string>)
    requires EntryIds(entry) + {ids.out} <= t && Within(w, t)
    ensures var r := SwitchDirection(w, entry, c, ownNode, ids);
            r.Success? ==> Rest(r.value.g, t) == Rest(w.g, t) && Within(r.value, t)
  {
    var r := SwitchDirection(w, entry, c, ownNode, ids);
    if r.Success? {
      if c.direction == Some(TheyDial) && entry.outgoing.Some? {
        WithoutNodesRest(w.g, {entry.outgoing.value.id}, t);
      } else if c.direction == Some(WeDial) && entry.outgoing.None? && entry.caNode.Some? {
        var ca := entry.caNode.value;
        var out := NewOutgoingNode(ids.out, ids.suffix, Display(ca), c.host.value, c.port.value,
                                   Some(KindOf(EntryNodes(entry))), entry.caUid);
        AddNodeRest(w.g, out, t);
        var g := AfterAddNode(w.g, out);
        var share := FilterOr(FindRule(g.rules, ownNode.id, ca.id));
        var receive := FilterOr(FindRule(g.rules, ca.id, ownNode.id));
        SetBothRest(g.rules, ownNode, out, share, receive, ids.r1, ids.r2, t);
      }
    }
  }

  lemma EditNodesRest(g: Graph, nodeIds: seq<string>, edit: NodeEdit, t: set<string>)
    requires forall n | n in nodeIds :: n in t
    ensures Rest(EditNodes(g, nodeIds, edit), t) == Rest(g, t)
  {
    EditAllRest(g.entities, nodeIds, edit, t);
  }

  lemma SetFieldRest(w: Work, edit: Option<NodeEdit>, t: set<string>)
    requires Within(w, t)
    ensures Rest(SetField(w, edit).g, t) == Rest(w.g, t) && Within(SetField(w, edit), t)
  {
    if edit.Some? {
      EditNodesRest(w.g, NodeIds(w), edit.value, t);
    }
  }

  lemma SetNamesRest(w: Work, c: Changes, t: set<string>)
    requires Within(w, t)
    ensures Rest(SetNames(w, c).g, t) == Rest(w.g, t) && Within(SetNames(w, c), t)
  {
    if c.name.Some? {
      RenameNodesRest(w.g, NodeIds(w), c.name.value, t);
    }
    SetFieldRest(SetName(w, c.name), KindEdit(c), t);
    SetFieldRest(SetField(SetName(w, c.name), KindEdit(c)), EnabledEdit(c), t);
  }

  lemma SetFiltersRest(w: Work, c: Changes, ids: Ids, t: set<string>)
    requires Within(w, t)
    ensures Rest(SetFilters(w, c, ids).g, t) == Rest(w.g, t)
  {
    if c.share.Some? {
      SetSideRest(w.g, w.own, NodeIds(w), true, c.share.value, ids.r3, ids.r4, t);
    }
    var w1 := if c.share.Some? then w.(g := SetSide(w.g, w.own, NodeIds(w), true, c.share.value, ids.r3, ids.r4)) else w;
    if c.receive.Some? {
      SetSideRest(w1.g, w1.own, NodeIds(w1), false, c.receive.value, ids.r5, ids.r6, t);
    }
  }

  lemma FinishedRest(w: Work, c: Changes, ids: Ids, t: set<string>)
    requires Within(w, t)
    ensures var r := Finished(w, c, ids);
            r.Success? ==> Rest(r.value.g, t) == Rest(w.g, t)
  {
    SetNamesRest(w, c, t);
    var named := SetNames(w, c);
    var r2 := SetInterconnection(named, c);
    if r2.Success? {
      if c.interconnected.Some? {
        EditNodesRest(named.g, [named.ca.value], SetInterconnected(c.interconnected.value), t);
      }
      var r3 := ChangeAddress(r2.value, c);
      if r3.Success? {
        if r3.value != r2.value {
          EditNodesRest(r2.value.g, [r2.value.out.value], SetAddress(c.host, c.port), t);
        }
        SetFiltersRest(r3.value, c, ids, t);
      }
    }
  }

  /** update_partner changes nothing but the partner's nodes (and the one it may create). */
  lemma UpdateChangesOnlyThePartner(g: Graph, own: OwnCa, partnerId: string, c: Changes, ids: Ids)
    requires own.uid != ""
    requires AfterUpdate(g, own, partnerId, c, ids).Success?
    ensures var g0 := AfterEnsureOwn(g, own, ids.own);
            var entry := FindEntry(PartnerEntries(g0.entities, own.uid), partnerId);
            && entry.Some?
            && var t := EntryIds(entry.value) + {ids.out};
               Rest(AfterUpdate(g, own, partnerId, c, ids).value.0, t) == Rest(g0, t)
  {
    var g0 := AfterEnsureOwn(g, own, ids.own);
    EnsuredOwn(g, own, ids.own);
    var ownNode := OwnEntity(g0.entities, own.uid);
    var entry := FindEntry(PartnerEntries(g0.entities, own.uid), partnerId).value;
    var t := EntryIds(entry) + {ids.out};
    SwitchRest(StartWork(g0, ownNode, entry), entry, c, ownNode, ids, t);
    FinishedRest(SwitchDirection(StartWork(g0, ownNode, entry), entry, c, ownNode, ids).value, c, ids, t);
  }

  /** remove_partner takes the partner's nodes away and leaves the rest as it was. */
  lemma RemoveChangesOnlyThePartner(g: Graph, ownUid: string, partnerId: string)
    requires AfterRemove(g, ownUid, partnerId).Success?
    ensures var entry := FindEntry(PartnerEntries(g.entities, ownUid), partnerId);
            && entry.Some?
            && var t := RemovedIdsOf(g.entities, entry.value);
               Rest(AfterRemove(g, ownUid, partnerId).value.0, t) == Rest(g, t)
  {
    var entry := FindEntry(PartnerEntries(g.entities, ownUid), partnerId).value;
    WithoutNodesRest(g, RemovedIdsOf(g.entities, entry), RemovedIdsOf(g.entities, entry));
  }
}

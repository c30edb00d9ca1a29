/**
  The main results about the policy edits of raven/fedhub_partners.py: any run of edits keeps the
  policy well formed, an edit leaves exactly one rule per direction it sets, removing a partner
  undoes adding it, and switching a partner back undoes making it dial.
*/
module PolicyTheorems {
  import opened Wrappers
  import opened Canvas
  import opened PolicyGraph
  import opened PolicyProofs
  import opened Partners

  // --- removing undoes adding ---

  /** No node, rule or canvas item of the policy mentions one of the ids. */
  ghost predicate FreshIds(g: Graph, ids: set<string>) {
    && (forall e | e in g.entities :: e.id !in ids)
    && (forall r | r in g.rules :: !Touches(r, ids))
    && Fresh(g.nodes, ids)
  }

  /** No CA node has this uid and no outgoing node is linked to it. */
  ghost predicate FreshCa(es: seq<Entity>, uid: string) {
    uid != "" && forall e | e in es :: !IsGroupOf(e, uid) && !LinkedTo(e, uid)
  }

  lemma {:induction false} FreshCaHasNoNodes(es: seq<Entity>, uid: string)
    requires FreshCa(es, uid)
    ensures FirstGroup(es, uid).None? && FirstLinked(es, uid).None?
  {
    if es != [] {
      assert forall e | e in es[..|es| - 1] :: e in es;
      FreshCaHasNoNodes(es[..|es| - 1], uid);
      assert es[|es| - 1] in es;
    }
  }

  lemma FirstOfAppend(es: seq<Entity>, e: Entity, uid: string)
    ensures FirstGroup(es + [e], uid) == (if FirstGroup(es, uid).Some? then FirstGroup(es, uid)
                                          else if IsGroupOf(e, uid) then Some(e) else None)
    ensures FirstLinked(es + [e], uid) == (if FirstLinked(es, uid).Some? then FirstLinked(es, uid)
                                           else if LinkedTo(e, uid) then Some(e) else None)
  {
  }

  /** What is left without fresh nodes is everything. */
  lemma RestOfFresh(g: Graph, ids: set<string>)
    requires FreshIds(g, ids)
    ensures Rest(g, ids) == g.(nodes := Normal(g.nodes))
  {
    WithoutEntitiesNone(g.entities, ids);
    WithoutRulesNone(g.rules, ids);
    DropFreshIsIdentity(Normal(g.nodes), ids);
  }

  function NewNodes(p: NewPartner, ids: Ids): seq<Entity> {
    [CaNodeOf(p, ids)] + (if p.dial.Some? then [OutNodeOf(p, ids)] else [])
  }

  lemma AddedEntities(g: Graph, own: OwnCa, p: NewPartner, ids: Ids)
    requires own.uid != ""
    ensures AfterAdd(g, own, p, ids).entities == AfterEnsureOwn(g, own, ids.own).entities + NewNodes(p, ids)
    ensures !AfterAdd(g, own, p, ids).nodes.NoNodes?
  {
  }

  /** The new partner is found under its CA's uid, with exactly the new nodes. */
  lemma FindNewPartner(es: seq<Entity>, ownUid: string, p: NewPartner, ids: Ids)
    requires FreshCa(es, p.caUid) && p.caUid != ownUid
    ensures FindEntry(PartnerEntries(es + NewNodes(p, ids), ownUid), p.caUid)
         == Some(Entry(p.caUid, Some(p.caUid), Some(CaNodeOf(p, ids)),
                       if p.dial.Some? then Some(OutNodeOf(p, ids)) else None))
  {
    var uid, ca, all := p.caUid, CaNodeOf(p, ids), es + NewNodes(p, ids);
    FreshCaHasNoNodes(es, uid);
    FirstOfAppend(es, ca, uid);
    if p.dial.Some? {
      FirstOfAppend(es + [ca], OutNodeOf(p, ids), uid);
      assert all == es + [ca] + [OutNodeOf(p, ids)];
    } else {
      assert all == es + [ca];
    }
    assert all[|es|] == ca;
    assert IsForeignGroup(ca, ownUid) && ca.name == uid;
    FindByUid(all, ownUid, uid);
  }

  /**
    remove_partner after add_partner gives back the policy add_partner started from (with the own
    node it made sure of): entities, rules and canvas, in order, whoever dials.
  */
  lemma RemoveUndoesAdd(g: Graph, own: OwnCa, p: NewPartner, ids: Ids)
    requires own.uid != ""
    requires FreshIds(AfterEnsureOwn(g, own, ids.own), AddedIds(p, ids))
    requires FreshCa(AfterEnsureOwn(g, own, ids.own).entities, p.caUid)
    ensures var g0 := AfterEnsureOwn(g, own, ids.own);
            AfterRemove(AfterAdd(g, own, p, ids), own.uid, p.caUid)
            == Success((g0.(nodes := Normal(g0.nodes)), Some(p.caUid)))
  {
    var g0, g1 := AfterEnsureOwn(g, own, ids.own), AfterAdd(g, own, p, ids);
    EnsuredOwn(g, own, ids.own);
    AddedEntities(g, own, p, ids);
    FindNewPartner(g0.entities, own.uid, p, ids);
    var entry := FindEntry(PartnerEntries(g1.entities, own.uid), p.caUid).value;
    RemovedIdsAreAdded(g0.entities, g1.entities, p, ids, entry);
    AddChangesOnlyTheNewNodes(g, own, p, ids);
    RestOfFresh(g0, AddedIds(p, ids));
    RemoveIsRest(g1, own.uid, p.caUid, AddedIds(p, ids));
  }

  lemma RemoveIsRest(g: Graph, ownUid: string, partnerId: string, ids: set<string>)
    requires !g.nodes.NoNodes?
    requires FindEntry(PartnerEntries(g.entities, ownUid), partnerId).Some?
    requires RemovedIdsOf(g.entities, FindEntry(PartnerEntries(g.entities, ownUid), partnerId).value) == ids
    ensures AfterRemove(g, ownUid, partnerId)
         == Success((Rest(g, ids), FindEntry(PartnerEntries(g.entities, ownUid), partnerId).value.caUid))
  {
  }

  lemma RemovedIdsAreAdded(es: seq<Entity>, all: seq<Entity>, p: NewPartner, ids: Ids, entry: Entry)
    requires FreshCa(es, p.caUid)
    requires all == es + NewNodes(p, ids)
    requires entry == Entry(p.caUid, Some(p.caUid), Some(CaNodeOf(p, ids)),
                            if p.dial.Some? then Some(OutNodeOf(p, ids)) else None)
    ensures RemovedIdsOf(all, entry) == AddedIds(p, ids)
  {
  }

  /** With the own node enabled beforehand that is the original policy itself. */
  lemma RemoveUndoesAddExactly(g: Graph, own: OwnCa, p: NewPartner, ids: Ids)
    requires OwnNodeEnabled(g.entities, own.uid)
    requires FreshIds(g, AddedIds(p, ids)) && FreshCa(g.entities, p.caUid)
    requires !g.nodes.NoNodes?
    ensures AfterRemove(AfterAdd(g, own, p, ids), own.uid, p.caUid) == Success((g, Some(p.caUid)))
  {
    RemoveUndoesAdd(g, own, p, ids);
  }

  // --- switching the dial direction back ---

  function OnlyDirection(d: Direction): Changes {
    Changes(None, None, None, None, None, None, None, Some(d), None)
  }

  /** The outgoing node update_partner creates for a partner that so far only dials us. */
  function DialNode(ca: Entity, uid: string, a: Address, ids: Ids): Entity {
    NewOutgoingNode(ids.out, ids.suffix, Display(ca), a.host, a.port, Some(KindOf([ca])), Some(uid))
  }

  /** The policy with that node, a canvas item for it and the CA node's filters on its two rules. */
  function Dialling(g: Graph, ownNode: Entity, ca: Entity, uid: string, a: Address, ids: Ids): Graph {
    var out := DialNode(ca, uid, a, ids);
    var added := AfterAddNode(g, out);
    added.(rules := AfterSetBoth(added.rules, ownNode, out,
                                 FilterOr(FindRule(added.rules, ownNode.id, ca.id)),
                                 FilterOr(FindRule(added.rules, ca.id, ownNode.id)), ids.r1, ids.r2))
  }

  lemma DiallingRest(g: Graph, ownNode: Entity, ca: Entity, uid: string, a: Address, ids: Ids)
    requires FreshIds(g, {ids.out})
    ensures WithoutNodes(Dialling(g, ownNode, ca, uid, a, ids), {ids.out}) == g.(nodes := Normal(g.nodes))
  {
    var out := DialNode(ca, uid, a, ids);
    var added := AfterAddNode(g, out);
    AddNodeRest(g, out, {ids.out});
    SetBothRest(added.rules, ownNode, out, FilterOr(FindRule(added.rules, ownNode.id, ca.id)),
                FilterOr(FindRule(added.rules, ca.id, ownNode.id)), ids.r1, ids.r2, {ids.out});
    RestOfFresh(g, {ids.out});
  }

  /** The request that makes a partner dial, and nothing else, does exactly that. */
  lemma DialUpdate(g: Graph, own: OwnCa, uid: string, a: Address, ids: Ids, entry: Entry)
    requires own.uid != "" && OwnNodeEnabled(g.entities, own.uid)
    requires FindEntry(PartnerEntries(g.entities, own.uid), uid) == Some(entry)
    requires entry.caUid == Some(uid) && entry.caNode.Some? && entry.outgoing.None?
    requires a.host != "" && a.port != 0
    ensures OwnNode(g.entities, own.uid).Some?
    ensures AfterUpdate(g, own, uid, OnlyDirection(WeDial).(host := Some(a.host), port := Some(a.port)), ids)
         == Success((Dialling(g, OwnNode(g.entities, own.uid).value, entry.caNode.value, uid, a, ids), uid))
  {
    EnsuredOwn(g, own, ids.own);
    assert EntryNodes(entry) == [entry.caNode.value];
  }

  /** The request that makes a partner stop dialling, and nothing else, does exactly that. */
  lemma StopUpdate(g: Graph, own: OwnCa, uid: string, ids: Ids, entry: Entry)
    requires own.uid != "" && OwnNodeEnabled(g.entities, own.uid)
    requires FindEntry(PartnerEntries(g.entities, own.uid), uid) == Some(entry)
    requires entry.caUid == Some(uid) && entry.caNode.Some? && entry.outgoing.Some?
    ensures AfterUpdate(g, own, uid, OnlyDirection(TheyDial), ids)
         == Success((WithoutNodes(g, {entry.outgoing.value.id}), uid))
  {
  }

  /** A partner that dials us, switched to being dialled and back, is the partner it was. */
  lemma SwitchingBackUndoesDialling(g: Graph, own: OwnCa, uid: string, a: Address, ids: Ids, again: Ids)
    requires own.uid != "" && OwnNodeEnabled(g.entities, own.uid)
    requires ForeignUid(g.entities, own.uid, uid) && FirstLinked(g.entities, uid).None?
    requires FreshIds(g, {ids.out})
    requires a.host != "" && a.port != 0
    ensures var dial := OnlyDirection(WeDial).(host := Some(a.host), port := Some(a.port));
            var first := AfterUpdate(g, own, uid, dial, ids);
            && first.Success?
            && FirstLinked(first.value.0.entities, uid).Some?
            && AfterUpdate(first.value.0, own, uid, OnlyDirection(TheyDial), again)
               == Success((g.(nodes := Normal(g.nodes)), uid))
  {
    FindByUid(g.entities, own.uid, uid);
    var entry := FindEntry(PartnerEntries(g.entities, own.uid), uid).value;
    ForeignHasGroup(g.entities, own.uid, uid);
    var ca := entry.caNode.value;
    DialUpdate(g, own, uid, a, ids, entry);
    var ownNode, out := OwnNode(g.entities, own.uid).value, DialNode(ca, uid, a, ids);
    var g1 := Dialling(g, ownNode, ca, uid, a, ids);
    assert g1.entities == g.entities + [out];
    FirstOfAppend(g.entities, out, uid);
    var x :| x in g.entities && IsForeignGroup(x, own.uid) && x.name == uid;
    assert x in g1.entities;
    var o :| o in g.entities && IsGroupOf(o, own.uid) && o.config.enabled;
    assert o in g1.entities;
    FindByUid(g1.entities, own.uid, uid);
    StopUpdate(g1, own, uid, again, FindEntry(PartnerEntries(g1.entities, own.uid), uid).value);
    DiallingRest(g, ownNode, ca, uid, a, ids);
  }

  lemma {:induction false} ForeignHasGroup(es: seq<Entity>, ownUid: string, uid: string)
    requires ForeignUid(es, ownUid, uid)
    ensures FirstGroup(es, uid).Some? && FirstGroup(es, uid).value in es && IsGroupOf(FirstGroup(es, uid).value, uid)
  {
    var front, e := es[..|es| - 1], es[|es| - 1];
    assert es == front + [e];
    if ForeignUid(front, ownUid, uid) {
      ForeignHasGroup(front, ownUid, uid);
    } else {
      NoFirstGroup(front, ownUid, uid);
    }
  }

  // --- every run keeps the policy well formed ---

  lemma AddNodeWellFormed(g: Graph, node: Entity)
    requires WellFormed(g) && node.id !in IdList(g.entities)
    ensures WellFormed(AfterAddNode(g, node))
    ensures IdList(AfterAddNode(g, node).entities) == IdList(g.entities) + [node.id]
  {
    assert IdList(g.entities + [node]) == IdList(g.entities) + [node.id];
  }

  lemma {:induction false} WithoutPairEndpoints(rs: seq<Rule>, s: string, d: string, ids: seq<string>)
    requires EndpointsIn(rs, ids)
    ensures EndpointsIn(WithoutPair(rs, s, d), ids)
  {
    if rs != [] {
      WithoutPairEndpoints(rs[1..], s, d, ids);
    }
  }

  lemma {:induction false} SetRuleEndpoints(rs: seq<Rule>, s: Entity, d: Entity, f: Filter, id: string, ids: seq<string>)
    requires EndpointsIn(rs, ids) && s.id in ids && d.id in ids
    ensures EndpointsIn(AfterSetRule(rs, s, d, f, id), ids)
  {
    if rs != [] {
      if Connects(rs[0], s.id, d.id) {
        WithoutPairEndpoints(rs[1..], s.id, d.id, ids);
      } else {
        SetRuleEndpoints(rs[1..], s, d, f, id, ids);
      }
    }
  }

  lemma {:induction false} WithoutEntitiesIds(es: seq<Entity>, ids: set<string>)
    requires Distinct(IdList(es))
    ensures Distinct(IdList(WithoutEntities(es, ids)))
    ensures forall x :: x in IdList(WithoutEntities(es, ids)) <==> x in IdList(es) && x !in ids
  {
    if es != [] {
      assert IdList(es) == [es[0].id] + IdList(es[1..]);
      assert Distinct(IdList(es[1..])) by {
        assert forall i | 0 <= i < |es| - 1 :: IdList(es[1..])[i] == IdList(es)[i + 1];
      }
      WithoutEntitiesIds(es[1..], ids);
      var rest := WithoutEntities(es[1..], ids);
      if es[0].id !in ids {
        assert IdList([es[0]] + rest) == [es[0].id] + IdList(rest);
        assert es[0].id !in IdList(es[1..]) by {
          assert forall i | 0 <= i < |es| - 1 :: IdList(es[1..])[i] == IdList(es)[i + 1];
        }
      }
    }
  }

  lemma {:induction false} WithoutRulesEndpoints(rs: seq<Rule>, ids: set<string>, before: seq<string>, after: seq<string>)
    requires EndpointsIn(rs, before)
    requires forall x | x in before && x !in ids :: x in after
    ensures EndpointsIn(WithoutRules(rs, ids), after)
  {
    if rs != [] {
      WithoutRulesEndpoints(rs[1..], ids, before, after);
    }
  }

  lemma WithoutNodesWellFormed(g: Graph, ids: set<string>)
    requires WellFormed(g)
    ensures WellFormed(WithoutNodes(g, ids))
    ensures forall x :: x in IdList(WithoutNodes(g, ids).entities) <==> x in IdList(g.entities) && x !in ids
  {
    WithoutEntitiesIds(g.entities, ids);
    WithoutRulesEndpoints(g.rules, ids, IdList(g.entities), IdList(WithoutNodes(g, ids).entities));
  }

  lemma IdListOfCons(e: Entity, rest: seq<Entity>)
    ensures IdList([e] + rest) == [e.id] + IdList(rest)
  {
  }

  lemma {:induction false} EditEntityIds(es: seq<Entity>, id: string, edit: NodeEdit)
    ensures IdList(EditEntity(es, id, edit)) == IdList(es)
  {
    if es != [] {
      if es[0].id == id {
        IdListOfCons(Edited(es[0], edit), es[1..]);
      } else {
        EditEntityIds(es[1..], id, edit);
        IdListOfCons(es[0], EditEntity(es[1..], id, edit));
      }
    }
  }

  lemma {:induction false} EditAllIds(es: seq<Entity>, nodeIds: seq<string>, edit: NodeEdit)
    ensures IdList(EditAll(es, nodeIds, edit)) == IdList(es)
    decreases |nodeIds|
  {
    if nodeIds != [] {
      EditEntityIds(es, nodeIds[0], edit);
      EditAllIds(EditEntity(es, nodeIds[0], edit), nodeIds[1..], edit);
    }
  }

  lemma {:induction false} EnableFirstIds(es: seq<Entity>, uid: string)
    ensures IdList(EnableFirst(es, uid)) == IdList(es)
  {
    if es != [] {
      if IsGroupOf(es[0], uid) {
        IdListOfCons(Edited(es[0], SetEnabled(true)), es[1..]);
      } else {
        EnableFirstIds(es[1..], uid);
        IdListOfCons(es[0], EnableFirst(es[1..], uid));
      }
    }
  }

  lemma {:induction false} RenamedRulesEndpoints(rs: seq<Rule>, es: seq<Entity>, n: string, display: string, ids: seq<string>)
    requires EndpointsIn(rs, ids)
    ensures EndpointsIn(RenamedRules(rs, es, n, display), ids)
  {
    if rs != [] {
      assert rs[0] in rs;
      RenamedRulesEndpoints(rs[1..], es, n, display, ids);
    }
  }

  lemma {:induction false} RenameNodesWellFormed(g: Graph, nodeIds: seq<string>, name: string)
    requires WellFormed(g)
    ensures WellFormed(RenameNodes(g, nodeIds, name))
    ensures IdList(RenameNodes(g, nodeIds, name).entities) == IdList(g.entities)
    decreases |nodeIds|
  {
    if nodeIds != [] {
      var before := DisplayOf(g.entities, nodeIds[0]);
      var es := EditEntity(g.entities, nodeIds[0], Rename(name));
      EditEntityIds(g.entities, nodeIds[0], Rename(name));
      RenamedRulesEndpoints(g.rules, es, nodeIds[0], before, IdList(g.entities));
      RenameNodesWellFormed(g.(entities := es, rules := RenamedRules(g.rules, es, nodeIds[0], before)), nodeIds[1..], name);
    }
  }

  lemma EditNodesWellFormed(g: Graph, nodeIds: seq<string>, edit: NodeEdit)
    requires WellFormed(g)
    ensures WellFormed(EditNodes(g, nodeIds, edit))
    ensures IdList(EditNodes(g, nodeIds, edit).entities) == IdList(g.entities)
  {
    EditAllIds(g.entities, nodeIds, edit);
  }

  lemma EnsureOwnWellFormed(g: Graph, own: OwnCa, newId: string)
    requires WellFormed(g) && newId !in IdList(g.entities)
    ensures WellFormed(AfterEnsureOwn(g, own, newId))
    ensures forall x :: x in IdList(AfterEnsureOwn(g, own, newId).entities) ==> x in IdList(g.entities) || x == newId
  {
    if !OwnNodeEnabled(g.entities, own.uid) {
      if OwnNode(g.entities, own.uid).Some? {
        EnableFirstIds(g.entities, own.uid);
      } else {
        AddNodeWellFormed(g, NewGroupNode(newId, own.uid, if own.nickname != "" then own.nickname else "This hub",
                                          false, None, None));
      }
    }
  }

  /** The ids an edit draws are new and differ from each other. */
  ghost predicate NewIds(g: Graph, ids: Ids) {
    && Distinct([ids.own, ids.ca, ids.out])
    && ids.own !in IdList(g.entities) && ids.ca !in IdList(g.entities) && ids.out !in IdList(g.entities)
  }

  lemma NewIdsDiffer(g: Graph, ids: Ids)
    requires NewIds(g, ids)
    ensures ids.own != ids.ca && ids.own != ids.out && ids.ca != ids.out
  {
    var l := [ids.own, ids.ca, ids.out];
    assert l[0] != l[1] && l[0] != l[2] && l[1] != l[2];
  }

  lemma AddWellFormed(g: Graph, own: OwnCa, p: NewPartner, ids: Ids)
    requires own.uid != "" && WellFormed(g) && NewIds(g, ids)
    ensures WellFormed(AfterAdd(g, own, p, ids))
    ensures OwnNode(AfterEnsureOwn(g, own, ids.own).entities, own.uid).Some?
    ensures OwnNode(AfterEnsureOwn(g, own, ids.own).entities, own.uid).value.id !in AddedIds(p, ids)
    ensures ids.ca != ids.out
  {
    NewIdsDiffer(g, ids);
    EnsureOwnWellFormed(g, own, ids.own);
    EnsuredOwn(g, own, ids.own);
    var g0 := AfterEnsureOwn(g, own, ids.own);
    var ownNode, ca := OwnEntity(g0.entities, own.uid), CaNodeOf(p, ids);
    InIdList(g0.entities, ownNode);
    AddNodeWellFormed(g0, ca);
    var g1 := AfterAddNode(g0, ca);
    var share, receive := SpecOr(p.share), SpecOr(p.receive);
    if p.dial.Some? {
      var out := OutNodeOf(p, ids);
      AddNodeWellFormed(g1, out);
      var g2 := AfterAddNode(g1, out);
      SetBothEndpoints(g2.rules, ownNode, ca, share, receive, ids.r1, ids.r2, IdList(g2.entities));
      SetBothEndpoints(AfterSetBoth(g2.rules, ownNode, ca, share, receive, ids.r1, ids.r2),
                       ownNode, out, share, receive, ids.r3, ids.r4, IdList(g2.entities));
    } else {
      SetBothEndpoints(g1.rules, ownNode, ca, share, receive, ids.r1, ids.r2, IdList(g1.entities));
    }
  }

  lemma InIdList(es: seq<Entity>, e: Entity)
    requires e in es
    ensures e.id in IdList(es)
  {
  }

  lemma SetBothEndpoints(rs: seq<Rule>, own: Entity, n: Entity, share: Filter, receive: Filter,
                         r1: string, r2: string, ids: seq<string>)
    requires EndpointsIn(rs, ids) && own.id in ids && n.id in ids
    ensures EndpointsIn(AfterSetBoth(rs, own, n, share, receive, r1, r2), ids)
  {
    SetRuleEndpoints(rs, own, n, share, r1, ids);
    SetRuleEndpoints(AfterSetRule(rs, own, n, share, r1), n, own, receive, r2, ids);
  }

  /** An update in progress on a well formed policy: its nodes exist and differ from each other. */
  ghost predicate GoodWork(w: Work) {
    && WellFormed(w.g)
    && w.own in IdList(w.g.entities)
    && (w.ca.Some? ==> w.ca.value in IdList(w.g.entities) && w.ca.value != w.own)
    && (w.out.Some? ==> w.out.value in IdList(w.g.entities) && w.out.value != w.own)
    && (w.ca.Some? && w.out.Some? ==> w.ca.value != w.out.value)
  }

  lemma SwitchGood(w: Work, entry: Entry, c: Changes, ownNode: Entity, ids: Ids)
    requires GoodWork(w) && ids.out !in IdList(w.g.entities) && w.own == ownNode.id
    requires w.ca == IdOf(entry.caNode) && w.out == IdOf(entry.outgoing)
    ensures var r := SwitchDirection(w, entry, c, ownNode, ids);
            r.Success? ==> GoodWork(r.value)
  {
    var r := SwitchDirection(w, entry, c, ownNode, ids);
    if r.Success? {
      if c.direction == Some(TheyDial) && entry.outgoing.Some? {
        WithoutNodesWellFormed(w.g, {entry.outgoing.value.id});
      } else if c.direction == Some(WeDial) && entry.outgoing.None? && entry.caNode.Some? {
        var ca := entry.caNode.value;
        var out := NewOutgoingNode(ids.out, ids.suffix, Display(ca), c.host.value, c.port.value,
                                   Some(KindOf(EntryNodes(entry))), entry.caUid);
        AddNodeWellFormed(w.g, out);
        var g := AfterAddNode(w.g, out);
        var share := FilterOr(FindRule(g.rules, ownNode.id, ca.id));
        var receive := FilterOr(FindRule(g.rules, ca.id, ownNode.id));
        SetBothEndpoints(g.rules, ownNode, out, share, receive, ids.r1, ids.r2, IdList(g.entities));
      }
    }
  }

  lemma SetFieldGood(w: Work, edit: Option<NodeEdit>)
    requires GoodWork(w)
    ensures GoodWork(SetField(w, edit))
  {
    if edit.Some? {
      EditNodesWellFormed(w.g, NodeIds(w), edit.value);
    }
  }

  lemma SetNameGood(w: Work, name: Option<string>)
    requires GoodWork(w)
    ensures GoodWork(SetName(w, name))
  {
    if name.Some? {
      RenameNodesWellFormed(w.g, NodeIds(w), name.value);
    }
  }

  lemma SetNamesGood(w: Work, c: Changes)
    requires GoodWork(w)
    ensures GoodWork(SetNames(w, c))
  {
    SetNameGood(w, c.name);
    SetFieldGood(SetName(w, c.name), KindEdit(c));
    SetFieldGood(SetField(SetName(w, c.name), KindEdit(c)), EnabledEdit(c));
  }

  lemma SettingsGood(w: Work, c: Changes)
    requires GoodWork(w)
    ensures SetInterconnection(w, c).Success? ==> GoodWork(SetInterconnection(w, c).value)
    ensures ChangeAddress(w, c).Success? ==> GoodWork(ChangeAddress(w, c).value)
  {
    if c.interconnected.Some? && w.ca.Some? {
      EditNodesWellFormed(w.g, [w.ca.value], SetInterconnected(c.interconnected.value));
    }
    if w.out.Some? {
      EditNodesWellFormed(w.g, [w.out.value], SetAddress(c.host, c.port));
    }
  }

  // --- exactly one rule per direction ---

  function Pairs(rs: seq<Rule>, s: string, d: string): seq<Rule> {
    if rs == [] then []
    else if Connects(rs[0], s, d) then [rs[0]] + Pairs(rs[1..], s, d)
    else Pairs(rs[1..], s, d)
  }

  /** Exactly one rule runs from s to d, and it has this filter. */
  predicate OneRule(rs: seq<Rule>, s: string, d: string, f: Filter) {
    |Pairs(rs, s, d)| == 1 && Pairs(rs, s, d)[0].filter == f
  }

  function FiltersOf(rs: seq<Rule>): (fs: seq<Filter>)
    ensures |fs| == |rs| && forall i | 0 <= i < |rs| :: fs[i] == rs[i].filter
  {
    seq(|rs|, i requires 0 <= i < |rs| => rs[i].filter)
  }

  /** The filters of the rules from s to d, in order. */
  function Filters(rs: seq<Rule>, s: string, d: string): seq<Filter> {
    FiltersOf(Pairs(rs, s, d))
  }

  lemma {:induction false} WithoutPairPairs(rs: seq<Rule>, s: string, d: string, a: string, b: string)
    ensures Pairs(WithoutPair(rs, s, d), a, b) == if a == s && b == d then [] else Pairs(rs, a, b)
  {
    if rs != [] {
      WithoutPairPairs(rs[1..], s, d, a, b);
      if !Connects(rs[0], s, d) {
        assert WithoutPair(rs, s, d)[1..] == WithoutPair(rs[1..], s, d);
      }
    }
  }

  /** set_rule leaves exactly one rule between its two nodes, keeping the first one's id and name. */
  lemma {:induction false} SetRulePairs(rs: seq<Rule>, s: Entity, d: Entity, f: Filter, id: string, a: string, b: string)
    ensures a == s.id && b == d.id ==>
              OneRule(AfterSetRule(rs, s, d, f, id), a, b, f)
              && Pairs(AfterSetRule(rs, s, d, f, id), a, b)[0]
                 == if Pairs(rs, a, b) != [] then Pairs(rs, a, b)[0].(filter := f)
                    else Rule(id, Display(s) + " -> " + Display(d), a, b, f, "")
    ensures !(a == s.id && b == d.id) ==> Pairs(AfterSetRule(rs, s, d, f, id), a, b) == Pairs(rs, a, b)
  {
    var after := AfterSetRule(rs, s, d, f, id);
    if rs == [] {
    } else if Connects(rs[0], s.id, d.id) {
      WithoutPairPairs(rs[1..], s.id, d.id, a, b);
      assert after[1..] == WithoutPair(rs[1..], s.id, d.id);
    } else {
      SetRulePairs(rs[1..], s, d, f, id, a, b);
      assert after[1..] == AfterSetRule(rs[1..], s, d, f, id);
    }
  }

  lemma SetBothPairs(rs: seq<Rule>, own: Entity, n: Entity, share: Filter, receive: Filter, r1: string, r2: string)
    requires own.id != n.id
    ensures var after := AfterSetBoth(rs, own, n, share, receive, r1, r2);
            && OneRule(after, own.id, n.id, share) && OneRule(after, n.id, own.id, receive)
            && forall a, b | a != n.id && b != n.id :: Pairs(after, a, b) == Pairs(rs, a, b)
  {
    var mid := AfterSetRule(rs, own, n, share, r1);
    SetRulePairs(rs, own, n, share, r1, own.id, n.id);
    SetRulePairs(mid, n, own, receive, r2, own.id, n.id);
    SetRulePairs(mid, n, own, receive, r2, n.id, own.id);
    forall a, b | a != n.id && b != n.id
      ensures Pairs(AfterSetBoth(rs, own, n, share, receive, r1, r2), a, b) == Pairs(rs, a, b)
    {
      SetRulePairs(rs, own, n, share, r1, a, b);
      SetRulePairs(mid, n, own, receive, r2, a, b);
    }
  }

  /** add_partner leaves exactly one rule each way between this hub and each new node. */
  lemma AddSetsOneRuleEachWay(g: Graph, own: OwnCa, p: NewPartner, ids: Ids)
    requires own.uid != "" && WellFormed(g) && NewIds(g, ids)
    ensures OwnNode(AfterEnsureOwn(g, own, ids.own).entities, own.uid).Some?
    ensures var o := OwnNode(AfterEnsureOwn(g, own, ids.own).entities, own.uid).value.id;
            var rules := AfterAdd(g, own, p, ids).rules;
            forall n | n in AddedIds(p, ids) ::
              OneRule(rules, o, n, SpecOr(p.share)) && OneRule(rules, n, o, SpecOr(p.receive))
  {
    AddWellFormed(g, own, p, ids);
    var g0 := AfterEnsureOwn(g, own, ids.own);
    var ownNode, ca := OwnEntity(g0.entities, own.uid), CaNodeOf(p, ids);
    var share, receive := SpecOr(p.share), SpecOr(p.receive);
    assert ca.id in AddedIds(p, ids);
    SetBothPairs(g0.rules, ownNode, ca, share, receive, ids.r1, ids.r2);
    if p.dial.Some? {
      assert ids.out in AddedIds(p, ids);
      var rules1 := AfterSetBoth(g0.rules, ownNode, ca, share, receive, ids.r1, ids.r2);
      SetBothPairs(rules1, ownNode, OutNodeOf(p, ids), share, receive, ids.r3, ids.r4);
    }
  }

  /** The loop of update_partner over the nodes: one rule for each, the other direction untouched. */
  lemma {:induction false} SetSideOneRule(g: Graph, own: string, nodeIds: seq<string>, outbound: bool, f: Filter,
                                          r1: string, r2: string)
    requires WellFormed(g) && own in IdList(g.entities)
    requires forall n | n in nodeIds :: n in IdList(g.entities) && n != own
    requires Distinct(nodeIds)
    ensures var after := SetSide(g, own, nodeIds, outbound, f, r1, r2);
            && WellFormed(after) && after.entities == g.entities
            && (forall n | n in nodeIds ::
                  if outbound then OneRule(after.rules, own, n, f) else OneRule(after.rules, n, own, f))
            && (forall a, b | !(a == own && b in nodeIds) && !(b == own && a in nodeIds) ::
                  Pairs(after.rules, a, b) == Pairs(g.rules, a, b))
            && (forall n | n in nodeIds ::
                  if outbound then Pairs(after.rules, n, own) == Pairs(g.rules, n, own)
                  else Pairs(after.rules, own, n) == Pairs(g.rules, own, n))
    decreases |nodeIds|
  {
    if nodeIds != [] {
      var id := nodeIds[0];
      FindEntityFound(g.entities, own);
      FindEntityFound(g.entities, id);
      var o, n := FindEntity(g.entities, own).value, FindEntity(g.entities, id).value;
      var s, d := if outbound then o else n, if outbound then n else o;
      var rules := AfterSetRule(g.rules, s, d, f, r1);
      SetRuleEndpoints(g.rules, s, d, f, r1, IdList(g.entities));
      var mid := g.(rules := rules);
      assert forall i | 0 <= i < |nodeIds| - 1 :: nodeIds[1..][i] == nodeIds[i + 1];
      assert id !in nodeIds[1..];
      SetSideOneRule(mid, own, nodeIds[1..], outbound, f, r2, r2);
      forall a, b
        ensures a == s.id && b == d.id ==> OneRule(rules, a, b, f)
        ensures !(a == s.id && b == d.id) ==> Pairs(rules, a, b) == Pairs(g.rules, a, b)
      {
        SetRulePairs(g.rules, s, d, f, r1, a, b);
      }
      assert nodeIds == [id] + nodeIds[1..];
    }
  }

  /** Each direction of each node has one rule with the requested filter, or the filters it had if none is requested. */
  ghost predicate FiltersSet(before: seq<Rule>, after: seq<Rule>, own: string, nodeIds: seq<string>, c: Changes) {
    forall n | n in nodeIds ::
      && (if c.share.Some? then OneRule(after, own, n, c.share.value) else Filters(after, own, n) == Filters(before, own, n))
      && (if c.receive.Some? then OneRule(after, n, own, c.receive.value) else Filters(after, n, own) == Filters(before, n, own))
  }

  lemma SetFiltersOneRule(w: Work, c: Changes, ids: Ids)
    requires GoodWork(w)
    ensures var after := SetFilters(w, c, ids);
            && WellFormed(after.g)
            && NodeIds(after) == NodeIds(w) && after.own == w.own
            && FiltersSet(w.g.rules, after.g.rules, w.own, NodeIds(w), c)
  {
    if c.share.Some? {
      SetSideOneRule(w.g, w.own, NodeIds(w), true, c.share.value, ids.r3, ids.r4);
    }
    var w1 := if c.share.Some? then w.(g := SetSide(w.g, w.own, NodeIds(w), true, c.share.value, ids.r3, ids.r4)) else w;
    if c.receive.Some? {
      SetSideOneRule(w1.g, w1.own, NodeIds(w1), false, c.receive.value, ids.r5, ids.r6);
    }
  }

  lemma StartGood(g: Graph, own: OwnCa, partnerId: string)
    requires WellFormed(g) && OwnNode(g.entities, own.uid).Some?
    requires FindEntry(PartnerEntries(g.entities, own.uid), partnerId).Some?
    ensures GoodWork(StartWork(g, OwnNode(g.entities, own.uid).value,
                               FindEntry(PartnerEntries(g.entities, own.uid), partnerId).value))
  {
    var es := g.entities;
    var entries := PartnerEntries(es, own.uid);
    var entry := FindEntry(entries, partnerId).value;
    var ownNode := OwnNode(es, own.uid).value;
    OwnNodeFound(es, own.uid);
    EntryFound(entries, partnerId);
    InIdList(es, ownNode);
    PartnersAreAPartition(es, own.uid);
    if entry.outgoing.Some? {
      var out := entry.outgoing.value;
      OutgoingIsListed(entries, entry);
      OutgoingIsNode(es, out);
      InIdList(es, out);
      SameIdSameNode(es, out, ownNode);
    }
    if entry.caNode.Some? {
      EntryHasUid(es, own.uid, entry);
      ForeignHasGroup(es, own.uid, entry.caUid.value);
      var ca := entry.caNode.value;
      InIdList(es, ca);
      SameIdSameNode(es, ca, ownNode);
      if entry.outgoing.Some? {
        SameIdSameNode(es, ca, entry.outgoing.value);
      }
    }
  }

  lemma {:induction false} EntryFound(entries: seq<Entry>, id: string)
    requires FindEntry(entries, id).Some?
    ensures FindEntry(entries, id).value in entries && FindEntry(entries, id).value.id == id
  {
    if entries[0].id != id {
      EntryFound(entries[1..], id);
    }
  }

  /** An entry with a CA node is the entry of a foreign CA uid. */
  lemma EntryHasUid(es: seq<Entity>, ownUid: string, entry: Entry)
    requires entry in PartnerEntries(es, ownUid) && entry.caNode.Some?
    ensures entry.caUid.Some? && ForeignUid(es, ownUid, entry.caUid.value)
    ensures entry.caNode == FirstGroup(es, entry.caUid.value) && entry.caUid.value != ownUid && entry.id == entry.caUid.value
  {
    var base, all := CaEntries(es, ownUid), PartnerEntries(es, ownUid);
    CaEntriesShape(es, ownUid);
    PlaceAllShape(base, es);
    var i :| 0 <= i < |all| && all[i] == entry;
    assert base[i] in base;
    assert base[i].caUid == Some(base[i].id);
    assert HasUid(base, base[i].id);
  }

  lemma {:induction false} OutgoingIsListed(entries: seq<Entry>, entry: Entry)
    requires entry in entries && entry.outgoing.Some?
    ensures Dialled(entries, entry.outgoing.value) > 0
  {
    var front := entries[..|entries| - 1];
    assert entries == front + [entries[|entries| - 1]];
    if entry in front {
      OutgoingIsListed(front, entry);
    }
  }

  lemma {:induction false} OutgoingIsNode(es: seq<Entity>, e: Entity)
    requires OutgoingCount(es, e) > 0
    ensures e in es && e.typ == Outgoing
  {
    var front := es[..|es| - 1];
    assert es == front + [es[|es| - 1]];
    if OutgoingCount(front, e) > 0 {
      OutgoingIsNode(front, e);
    }
  }

  lemma SameIdSameNode(es: seq<Entity>, a: Entity, b: Entity)
    requires Distinct(IdList(es)) && a in es && b in es
    ensures a.id == b.id ==> a == b
  {
  }

  lemma SettledGood(g: Graph, own: OwnCa, partnerId: string, c: Changes, ids: Ids)
    requires own.uid != "" && WellFormed(g) && NewIds(g, ids)
    ensures Settled(g, own, partnerId, c, ids).Success? ==> GoodWork(Settled(g, own, partnerId, c, ids).value)
  {
    NewIdsDiffer(g, ids);
    EnsureOwnWellFormed(g, own, ids.own);
    EnsuredOwn(g, own, ids.own);
    var g0 := AfterEnsureOwn(g, own, ids.own);
    var ownNode := OwnEntity(g0.entities, own.uid);
    var found := FindEntry(PartnerEntries(g0.entities, own.uid), partnerId);
    if found.Some? {
      StartGood(g0, own, partnerId);
      SwitchGood(StartWork(g0, ownNode, found.value), found.value, c, ownNode, ids);
    }
  }

  lemma {:induction false} RenamedRulesFilters(rs: seq<Rule>, es: seq<Entity>, n: string, display: string, a: string, b: string)
    ensures Filters(RenamedRules(rs, es, n, display), a, b) == Filters(rs, a, b)
  {
    if rs != [] {
      RenamedRulesFilters(rs[1..], es, n, display, a, b);
      var first, rest := RenamedRule(rs[0], es, n, display), RenamedRules(rs[1..], es, n, display);
      assert RenamedRules(rs, es, n, display) == [first] + rest;
      if Connects(rs[0], a, b) {
        assert FiltersOf([first] + Pairs(rest, a, b)) == [first.filter] + FiltersOf(Pairs(rest, a, b));
        assert FiltersOf([rs[0]] + Pairs(rs[1..], a, b)) == [rs[0].filter] + FiltersOf(Pairs(rs[1..], a, b));
      }
    }
  }

  lemma {:induction false} RenameNodesFilters(g: Graph, nodeIds: seq<string>, name: string, a: string, b: string)
    ensures Filters(RenameNodes(g, nodeIds, name).rules, a, b) == Filters(g.rules, a, b)
    decreases |nodeIds|
  {
    if nodeIds != [] {
      var before, es := DisplayOf(g.entities, nodeIds[0]), EditEntity(g.entities, nodeIds[0], Rename(name));
      RenamedRulesFilters(g.rules, es, nodeIds[0], before, a, b);
      RenameNodesFilters(g.(entities := es, rules := RenamedRules(g.rules, es, nodeIds[0], before)), nodeIds[1..], name, a, b);
    }
  }

  lemma SetNamesFilters(w: Work, c: Changes, a: string, b: string)
    ensures Filters(SetNames(w, c).g.rules, a, b) == Filters(w.g.rules, a, b)
  {
    assert SetNames(w, c).g.rules == SetName(w, c.name).g.rules;
    if c.name.Some? {
      RenameNodesFilters(w.g, NodeIds(w), c.name.value, a, b);
    }
  }

  lemma SetNamesKeepsFilters(w: Work, c: Changes)
    ensures forall n | n in NodeIds(w) ::
              && Filters(SetNames(w, c).g.rules, w.own, n) == Filters(w.g.rules, w.own, n)
              && Filters(SetNames(w, c).g.rules, n, w.own) == Filters(w.g.rules, n, w.own)
  {
    forall n | n in NodeIds(w)
      ensures Filters(SetNames(w, c).g.rules, w.own, n) == Filters(w.g.rules, w.own, n)
      ensures Filters(SetNames(w, c).g.rules, n, w.own) == Filters(w.g.rules, n, w.own)
    {
      SetNamesFilters(w, c, w.own, n);
      SetNamesFilters(w, c, n, w.own);
    }
  }

  lemma SetNamesKeepsWork(w: Work, c: Changes)
    ensures SetNames(w, c) == w.(g := SetNames(w, c).g) && NodeIds(SetNames(w, c)) == NodeIds(w)
  {
  }

  predicate OnlyEntities(before: Work, after: Work) {
    after == before.(g := after.g) && after.g.rules == before.g.rules
  }

  /** The stages before the filters change no rule, and keep the nodes. */
  lemma SettingsKeepRules(w: Work, c: Changes)
    ensures SetInterconnection(w, c).Success? ==> OnlyEntities(w, SetInterconnection(w, c).value)
    ensures ChangeAddress(w, c).Success? ==> OnlyEntities(w, ChangeAddress(w, c).value)
  {
  }

  /** The work as the loop over the filters finds it. */
  lemma BeforeFilters(w: Work, c: Changes, ids: Ids) returns (w3: Work)
    requires GoodWork(w) && Finished(w, c, ids).Success?
    ensures Finished(w, c, ids).value == SetFilters(w3, c, ids)
    ensures GoodWork(w3) && OnlyEntities(SetNames(w, c), w3)
  {
    var w1 := SetNames(w, c);
    SetNamesGood(w, c);
    SettingsGood(w1, c);
    SettingsKeepRules(w1, c);
    var w2 := SetInterconnection(w1, c).value;
    SettingsGood(w2, c);
    SettingsKeepRules(w2, c);
    w3 := ChangeAddress(w2, c).value;
  }

  lemma FinishedOneRule(w: Work, c: Changes, ids: Ids)
    requires GoodWork(w) && Finished(w, c, ids).Success?
    ensures var r := Finished(w, c, ids).value;
            && WellFormed(r.g) && r == w.(g := r.g)
            && FiltersSet(w.g.rules, r.g.rules, w.own, NodeIds(w), c)
  {
    var w1 := SetNames(w, c);
    var w3 := BeforeFilters(w, c, ids);
    assert NodeIds(w3) == NodeIds(w) && w3 == w.(g := w3.g) by {
      SetNamesKeepsWork(w, c);
    }
    SetFiltersOneRule(w3, c, ids);
    SetNamesKeepsFilters(w, c);
    FiltersSetSince(w.g.rules, w1.g.rules, SetFilters(w3, c, ids).g.rules, w.own, NodeIds(w), c);
  }

  lemma FiltersSetSince(start: seq<Rule>, before: seq<Rule>, after: seq<Rule>, own: string, nodeIds: seq<string>, c: Changes)
    requires FiltersSet(before, after, own, nodeIds, c)
    requires forall n | n in nodeIds ::
               Filters(before, own, n) == Filters(start, own, n) && Filters(before, n, own) == Filters(start, n, own)
    ensures FiltersSet(start, after, own, nodeIds, c)
  {
  }

  lemma {:induction false} WithoutRulesPairs(rs: seq<Rule>, ids: set<string>, a: string, b: string)
    requires a !in ids && b !in ids
    ensures Pairs(WithoutRules(rs, ids), a, b) == Pairs(rs, a, b)
  {
    if rs != [] {
      WithoutRulesPairs(rs[1..], ids, a, b);
      if !Touches(rs[0], ids) {
        assert WithoutRules(rs, ids)[1..] == WithoutRules(rs[1..], ids);
      }
    }
  }

  /** What settling who dials does to the rules: a node it makes gets the CA node's filters, other nodes keep theirs. */
  ghost predicate SwitchedRules(rs: seq<Rule>, w: Work) {
    && (w.created ==>
          && w.ca.Some? && w.out.Some?
          && OneRule(w.g.rules, w.own, w.out.value, FilterOr(FindRule(rs, w.own, w.ca.value)))
          && OneRule(w.g.rules, w.out.value, w.own, FilterOr(FindRule(rs, w.ca.value, w.own))))
    && forall n | n in NodeIds(w) && !(w.created && w.out == Some(n)) ::
         Filters(w.g.rules, w.own, n) == Filters(rs, w.own, n) && Filters(w.g.rules, n, w.own) == Filters(rs, n, w.own)
  }

  lemma SwitchSetsRules(w: Work, entry: Entry, c: Changes, ownNode: Entity, ids: Ids)
    requires GoodWork(w) && ids.out !in IdList(w.g.entities) && w.own == ownNode.id && !w.created
    requires w.ca == IdOf(entry.caNode) && w.out == IdOf(entry.outgoing)
    ensures var r := SwitchDirection(w, entry, c, ownNode, ids);
            r.Success? ==> SwitchedRules(w.g.rules, r.value)
  {
    var r := SwitchDirection(w, entry, c, ownNode, ids);
    if r.Success? {
      if c.direction == Some(TheyDial) && entry.outgoing.Some? {
        WithoutRulesPairs(w.g.rules, {entry.outgoing.value.id}, w.own, entry.caNode.value.id);
        WithoutRulesPairs(w.g.rules, {entry.outgoing.value.id}, entry.caNode.value.id, w.own);
      } else if c.direction == Some(WeDial) && entry.outgoing.None? && entry.caNode.Some? {
        var ca := entry.caNode.value;
        var out := NewOutgoingNode(ids.out, ids.suffix, Display(ca), c.host.value, c.port.value,
                                   Some(KindOf(EntryNodes(entry))), entry.caUid);
        SetBothPairs(w.g.rules, ownNode, out, FilterOr(FindRule(w.g.rules, ownNode.id, ca.id)),
                     FilterOr(FindRule(w.g.rules, ca.id, ownNode.id)), ids.r1, ids.r2);
      }
    }
  }

  lemma EnsureOwnKeepsRules(g: Graph, own: OwnCa, newId: string)
    ensures AfterEnsureOwn(g, own, newId).rules == g.rules
  {
  }

  lemma SettledRules(g: Graph, own: OwnCa, partnerId: string, c: Changes, ids: Ids)
    requires own.uid != "" && WellFormed(g) && NewIds(g, ids)
    requires Settled(g, own, partnerId, c, ids).Success?
    ensures SwitchedRules(g.rules, Settled(g, own, partnerId, c, ids).value)
  {
    NewIdsDiffer(g, ids);
    EnsureOwnWellFormed(g, own, ids.own);
    EnsuredOwn(g, own, ids.own);
    EnsureOwnKeepsRules(g, own, ids.own);
    var g0 := AfterEnsureOwn(g, own, ids.own);
    var ownNode := OwnEntity(g0.entities, own.uid);
    var entry := FindEntry(PartnerEntries(g0.entities, own.uid), partnerId).value;
    StartGood(g0, own, partnerId);
    SwitchSetsRules(StartWork(g0, ownNode, entry), entry, c, ownNode, ids);
  }

  /** The filter a direction ends with: the requested one, or else the one it had. */
  function FilterAfter(requested: Option<Filter>, before: Filter): Filter {
    if requested.Some? then requested.value else before
  }

  /**
    update_partner keeps the policy well formed and leaves exactly one rule for every direction it sets:
    with the requested filter for each node of the partner, and for an outgoing node it makes, with the
    requested filter or the one its CA node's rule had before the edit. A direction it does not set
    keeps the filters it had.
  */
  lemma UpdateKeepsOneRule(g: Graph, own: OwnCa, partnerId: string, c: Changes, ids: Ids)
    requires own.uid != "" && WellFormed(g) && NewIds(g, ids)
    requires UpdateWork(g, own, partnerId, c, ids).Success?
    ensures var w := UpdateWork(g, own, partnerId, c, ids).value;
            && WellFormed(w.g)
            && (c.share.Some? ==> forall n | n in NodeIds(w) :: OneRule(w.g.rules, w.own, n, c.share.value))
            && (c.receive.Some? ==> forall n | n in NodeIds(w) :: OneRule(w.g.rules, n, w.own, c.receive.value))
            && (w.created ==>
                  && w.ca.Some? && w.out.Some?
                  && OneRule(w.g.rules, w.own, w.out.value, FilterAfter(c.share, FilterOr(FindRule(g.rules, w.own, w.ca.value))))
                  && OneRule(w.g.rules, w.out.value, w.own, FilterAfter(c.receive, FilterOr(FindRule(g.rules, w.ca.value, w.own)))))
            && forall n | n in NodeIds(w) && !(w.created && w.out == Some(n)) ::
                 && (c.share.None? ==> Filters(w.g.rules, w.own, n) == Filters(g.rules, w.own, n))
                 && (c.receive.None? ==> Filters(w.g.rules, n, w.own) == Filters(g.rules, n, w.own))
  {
    SettledGood(g, own, partnerId, c, ids);
    SettledRules(g, own, partnerId, c, ids);
    var w0 := Settled(g, own, partnerId, c, ids).value;
    FinishedOneRule(w0, c, ids);
    if w0.created {
      assert w0.out.value in NodeIds(w0);
    }
  }

  // --- runs of edits ---

  datatype Edit =
    | Add(p: NewPartner, ids: Ids)
    | Update(partnerId: string, c: Changes, ids: Ids)
    | Remove(partnerId: string)

  /** The policy an admin's change leaves behind; a refused change leaves it as it was. */
  function AfterEdit(g: Graph, own: OwnCa, edit: Edit): Graph
    requires own.uid != ""
  {
    match edit
    case Add(p, ids) => AfterAdd(g, own, p, ids)
    case Update(partnerId, c, ids) =>
      (match AfterUpdate(g, own, partnerId, c, ids) case Success(r) => r.0 case Failure(_) => g)
    case Remove(partnerId) =>
      (match AfterRemove(g, own.uid, partnerId) case Success(r) => r.0 case Failure(_) => g)
  }

  function AfterEdits(g: Graph, own: OwnCa, edits: seq<Edit>): Graph
    requires own.uid != ""
  {
    if edits == [] then g
    else AfterEdit(AfterEdits(g, own, edits[..|edits| - 1]), own, edits[|edits| - 1])
  }

  /** Each edit of the run draws ids that are new to the policy it is applied to. */
  ghost predicate DrawsNewIds(g: Graph, own: OwnCa, edits: seq<Edit>)
    requires own.uid != ""
  {
    edits != [] ==>
      var before, edit := AfterEdits(g, own, edits[..|edits| - 1]), edits[|edits| - 1];
      && DrawsNewIds(g, own, edits[..|edits| - 1])
      && (edit.Remove? || NewIds(before, edit.ids))
  }

  /** Every run of adds, updates and removes, refused ones included, keeps the policy well formed. */
  lemma {:induction false} EditsKeepWellFormed(g: Graph, own: OwnCa, edits: seq<Edit>)
    requires own.uid != "" && WellFormed(g) && DrawsNewIds(g, own, edits)
    ensures WellFormed(AfterEdits(g, own, edits))
  {
    if edits != [] {
      var before, edit := AfterEdits(g, own, edits[..|edits| - 1]), edits[|edits| - 1];
      EditsKeepWellFormed(g, own, edits[..|edits| - 1]);
      match edit
      case Add(p, ids) => AddWellFormed(before, own, p, ids);
      case Update(partnerId, c, ids) =>
        if UpdateWork(before, own, partnerId, c, ids).Success? {
          UpdateKeepsOneRule(before, own, partnerId, c, ids);
        }
      case Remove(partnerId) =>
        var entry := FindEntry(PartnerEntries(before.entities, own.uid), partnerId);
        if entry.Some? {
          WithoutNodesWellFormed(before, RemovedIdsOf(before.entities, entry.value));
        }
    }
  }
}

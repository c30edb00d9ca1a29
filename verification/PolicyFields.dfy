/**
  What update_partner (raven/fedhub_partners.py) does to the partner's own nodes and to the names
  of its rules: each node ends with exactly the requested fields, everything else as it was, and
  a rule named after its two nodes stays named after them.
*/
module PolicyFields {
  import opened Wrappers
  import opened PolicyGraph
  import opened PolicyProofs
  import opened Partners
  import opened PolicyTheorems

  /** The node e after the request c; isCa and dials say which of the partner's nodes it is. */
  function Requested(e: Entity, c: Changes, isCa: bool, dials: bool): Entity {
    var named := if c.name.Some? then e.(displayName := c.name.value) else e;
    var kinded := if c.kind.Some? then WithMeta(named, c.kind, None, None) else named;
    var host := if dials && c.host.Some? then c.host.value else e.config.host;
    var port := if dials && c.port.Some? then c.port.value else e.config.port;
    kinded.(config := Config(
      if c.enabled.Some? then c.enabled.value else e.config.enabled,
      if isCa && c.interconnected.Some? then c.interconnected.value else e.config.interconnected,
      host, port))
  }

  lemma {:induction false} FindEdited(es: seq<Entity>, id: string, edit: NodeEdit, x: string)
    ensures FindEntity(EditEntity(es, id, edit), x)
         == if x == id && FindEntity(es, x).Some? then Some(Edited(FindEntity(es, x).value, edit))
            else FindEntity(es, x)
  {
    if es != [] {
      FindEdited(es[1..], id, edit, x);
      if es[0].id == id {
        assert EditEntity(es, id, edit)[1..] == es[1..];
      } else {
        assert EditEntity(es, id, edit)[1..] == EditEntity(es[1..], id, edit);
      }
    }
  }

  lemma {:induction false} FindEditedAll(es: seq<Entity>, ids: seq<string>, edit: NodeEdit, x: string)
    requires Distinct(ids)
    ensures FindEntity(EditAll(es, ids, edit), x)
         == if x in ids && FindEntity(es, x).Some? then Some(Edited(FindEntity(es, x).value, edit))
            else FindEntity(es, x)
    decreases |ids|
  {
    if ids != [] {
      assert forall i | 0 <= i < |ids| - 1 :: ids[1..][i] == ids[i + 1];
      assert ids == [ids[0]] + ids[1..];
      FindEdited(es, ids[0], edit, x);
      FindEditedAll(EditEntity(es, ids[0], edit), ids[1..], edit, x);
    }
  }

  lemma {:induction false} RenameNodesEntities(g: Graph, ids: seq<string>, name: string)
    ensures RenameNodes(g, ids, name).entities == EditAll(g.entities, ids, Rename(name))
    decreases |ids|
  {
    if ids != [] {
      var es := EditEntity(g.entities, ids[0], Rename(name));
      var rules := RenamedRules(g.rules, es, ids[0], DisplayOf(g.entities, ids[0]));
      RenameNodesEntities(g.(entities := es, rules := rules), ids[1..], name);
    }
  }

  lemma NodeIdsDistinct(w: Work)
    requires GoodWork(w)
    ensures Distinct(NodeIds(w))
    ensures forall n | n in NodeIds(w) :: n in IdList(w.g.entities)
  {
  }

  lemma SetFieldFields(w: Work, edit: Option<NodeEdit>, x: string)
    requires GoodWork(w) && x in NodeIds(w)
    ensures FindEntity(w.g.entities, x).Some?
    ensures FindEntity(SetField(w, edit).g.entities, x)
         == Some(var e := FindEntity(w.g.entities, x).value; if edit.Some? then Edited(e, edit.value) else e)
  {
    NodeIdsDistinct(w);
    FindEntityFound(w.g.entities, x);
    if edit.Some? {
      FindEditedAll(w.g.entities, NodeIds(w), edit.value, x);
    }
  }

  lemma SetNameFields(w: Work, name: Option<string>, x: string)
    requires GoodWork(w) && x in NodeIds(w)
    ensures FindEntity(w.g.entities, x).Some?
    ensures FindEntity(SetName(w, name).g.entities, x)
         == Some(var e := FindEntity(w.g.entities, x).value; if name.Some? then e.(displayName := name.value) else e)
  {
    NodeIdsDistinct(w);
    FindEntityFound(w.g.entities, x);
    if name.Some? {
      RenameNodesEntities(w.g, NodeIds(w), name.value);
      FindEditedAll(w.g.entities, NodeIds(w), Rename(name.value), x);
    }
  }

  lemma RequestedFirst(e: Entity, c: Changes)
    ensures var e1 := if c.name.Some? then e.(displayName := c.name.value) else e;
            var e2 := if c.kind.Some? then Edited(e1, SetKind(c.kind.value)) else e1;
            var e3 := if c.enabled.Some? then Edited(e2, SetEnabled(c.enabled.value)) else e2;
            e3 == Requested(e, c, false, false)
  {
  }

  lemma SetNamesFields(w: Work, c: Changes, x: string)
    requires GoodWork(w) && x in NodeIds(w)
    ensures FindEntity(w.g.entities, x).Some?
    ensures FindEntity(SetNames(w, c).g.entities, x)
         == Some(Requested(FindEntity(w.g.entities, x).value, c, false, false))
  {
    var w1 := SetName(w, c.name);
    SetNameGood(w, c.name);
    SetNameFields(w, c.name, x);
    SetFieldGood(w1, KindEdit(c));
    SetFieldFields(w1, KindEdit(c), x);
    var w2 := SetField(w1, KindEdit(c));
    assert x in NodeIds(w2) && FindEntity(w2.g.entities, x).Some?;
    SetFieldFields(w2, EnabledEdit(c), x);
    assert SetNames(w, c) == SetField(w2, EnabledEdit(c));
    RequestedFirst(FindEntity(w.g.entities, x).value, c);
  }

  lemma InterconnectionFields(w: Work, c: Changes, x: string)
    requires GoodWork(w) && x in NodeIds(w)
    ensures FindEntity(w.g.entities, x).Some?
    ensures var e := FindEntity(w.g.entities, x).value;
            var r := SetInterconnection(w, c);
            r.Success? ==>
              FindEntity(r.value.g.entities, x)
              == Some(if w.ca == Some(x) && c.interconnected.Some?
                      then Edited(e, SetInterconnected(c.interconnected.value)) else e)
  {
    NodeIdsDistinct(w);
    FindEntityFound(w.g.entities, x);
    if c.interconnected.Some? && w.ca.Some? {
      FindEditedAll(w.g.entities, [w.ca.value], SetInterconnected(c.interconnected.value), x);
    }
  }

  lemma AddressFields(w: Work, c: Changes, x: string)
    requires GoodWork(w) && x in NodeIds(w)
    ensures FindEntity(w.g.entities, x).Some?
    ensures var e := FindEntity(w.g.entities, x).value;
            var r := ChangeAddress(w, c);
            r.Success? ==>
              FindEntity(r.value.g.entities, x)
              == Some(if w.out == Some(x) && !w.created && c.direction != Some(TheyDial)
                      then Edited(e, SetAddress(c.host, c.port)) else e)
  {
    NodeIdsDistinct(w);
    FindEntityFound(w.g.entities, x);
    if w.out.Some? {
      FindEditedAll(w.g.entities, [w.out.value], SetAddress(c.host, c.port), x);
    }
  }

  lemma {:induction false} SetSideEntities(g: Graph, own: string, ids: seq<string>, outbound: bool, f: Filter, r1: string, r2: string)
    ensures SetSide(g, own, ids, outbound, f, r1, r2).entities == g.entities
    decreases |ids|
  {
    if ids != [] {
      var o, n := FindEntity(g.entities, own), FindEntity(g.entities, ids[0]);
      var rules :=
        if o.None? || n.None? then g.rules
        else if outbound then AfterSetRule(g.rules, o.value, n.value, f, r1)
        else AfterSetRule(g.rules, n.value, o.value, f, r1);
      SetSideEntities(g.(rules := rules), own, ids[1..], outbound, f, r2, r2);
    }
  }

  lemma SetFiltersEntities(w: Work, c: Changes, ids: Ids)
    ensures SetFilters(w, c, ids).g.entities == w.g.entities
  {
    if c.share.Some? {
      SetSideEntities(w.g, w.own, NodeIds(w), true, c.share.value, ids.r3, ids.r4);
    }
    var w1 := if c.share.Some? then w.(g := SetSide(w.g, w.own, NodeIds(w), true, c.share.value, ids.r3, ids.r4)) else w;
    if c.receive.Some? {
      SetSideEntities(w1.g, w1.own, NodeIds(w1), false, c.receive.value, ids.r5, ids.r6);
    }
  }

  /** Two stages of an update on the same nodes. */
  predicate SameNodes(a: Work, b: Work) {
    a == b.(g := a.g)
  }

  lemma StagesKeepNodes(w: Work, c: Changes, ids: Ids)
    ensures SameNodes(SetNames(w, c), w)
    ensures SetInterconnection(w, c).Success? ==> SameNodes(SetInterconnection(w, c).value, w)
    ensures ChangeAddress(w, c).Success? ==> SameNodes(ChangeAddress(w, c).value, w)
    ensures SameNodes(SetFilters(w, c, ids), w)
  {
  }

  lemma FinishKeepsNodes(w: Work, c: Changes, ids: Ids)
    ensures Finished(w, c, ids).Success? ==> SameNodes(Finished(w, c, ids).value, w)
  {
  }

  /** The three stages that change fields, one after the other on one node. */
  lemma RequestedInStages(e: Entity, c: Changes, isCa: bool, dials: bool)
    ensures var e1 := Requested(e, c, false, false);
            var e2 := if isCa && c.interconnected.Some? then Edited(e1, SetInterconnected(c.interconnected.value)) else e1;
            var e3 := if dials then Edited(e2, SetAddress(c.host, c.port)) else e2;
            e3 == Requested(e, c, isCa, dials)
  {
  }

  /** Everything after the dial direction is settled, on the nodes as they are then. */
  lemma FinishFields(w0: Work, c: Changes, ids: Ids, x: string)
    requires GoodWork(w0) && x in NodeIds(w0)
    ensures FindEntity(w0.g.entities, x).Some?
    ensures var r := Finished(w0, c, ids);
            r.Success? ==>
              FindEntity(r.value.g.entities, x)
              == Some(Requested(FindEntity(w0.g.entities, x).value, c, w0.ca == Some(x),
                                w0.out == Some(x) && !w0.created && c.direction != Some(TheyDial)))
  {
    SetNamesFields(w0, c, x);
    var e := FindEntity(w0.g.entities, x).value;
    if Finished(w0, c, ids).Success? {
      SetNamesGood(w0, c);
      StagesKeepNodes(w0, c, ids);
      var w1 := SetNames(w0, c);
      InterconnectionFields(w1, c, x);
      var w2 := SetInterconnection(w1, c).value;
      SettingsGood(w1, c);
      StagesKeepNodes(w1, c, ids);
      AddressFields(w2, c, x);
      SetFiltersEntities(ChangeAddress(w2, c).value, c, ids);
      RequestedInStages(e, c, w0.ca == Some(x), w0.out == Some(x) && !w0.created && c.direction != Some(TheyDial));
    }
  }

  /** The work once the dial direction is settled, by what the partner was and what is asked. */
  lemma SwitchedWork(g0: Graph, ownNode: Entity, entry: Entry, c: Changes, ids: Ids)
    ensures var r := SwitchDirection(StartWork(g0, ownNode, entry), entry, c, ownNode, ids);
            r.Success? ==>
              var w := r.value;
              && w.caUid == entry.caUid && w.ca == IdOf(entry.caNode)
              && (w.created <==> Makes(entry, c)) && (w.created ==> GivesAddress(c))
              && w.out == (if w.created then Some(ids.out) else if Stops(entry, c) then None else IdOf(entry.outgoing))
              && w.g.entities == if w.created then g0.entities + [MadeNode(entry, c, ids)]
                                 else if Stops(entry, c) then WithoutEntities(g0.entities, {entry.outgoing.value.id})
                                 else g0.entities
  {
  }

  /** The request makes an outgoing node, or takes the partner's away. */
  predicate Makes(entry: Entry, c: Changes) {
    c.direction == Some(WeDial) && entry.outgoing.None? && entry.caNode.Some?
  }

  predicate Stops(entry: Entry, c: Changes) {
    c.direction == Some(TheyDial) && entry.outgoing.Some?
  }

  function MadeNode(entry: Entry, c: Changes, ids: Ids): Entity
    requires entry.caNode.Some? && GivesAddress(c)
  {
    NewOutgoingNode(ids.out, ids.suffix, Display(entry.caNode.value), c.host.value, c.port.value,
                    Some(KindOf(EntryNodes(entry))), entry.caUid)
  }

  lemma FindIn(es: seq<Entity>, e: Entity)
    requires Distinct(IdList(es)) && e in es
    ensures FindEntity(es, e.id) == Some(e)
  {
    InIdList(es, e);
    FindEntityFound(es, e.id);
    SameIdSameNode(es, e, FindEntity(es, e.id).value);
  }

  lemma {:induction false} FindWithout(es: seq<Entity>, ids: set<string>, x: string)
    ensures FindEntity(WithoutEntities(es, ids), x) == if x in ids then None else FindEntity(es, x)
  {
    if es != [] {
      FindWithout(es[1..], ids, x);
      if es[0].id !in ids {
        assert WithoutEntities(es, ids)[1..] == WithoutEntities(es[1..], ids);
      }
    }
  }

  lemma {:induction false} FindAppended(es: seq<Entity>, e: Entity, x: string)
    ensures FindEntity(es + [e], x) == if FindEntity(es, x).Some? then FindEntity(es, x) else if x == e.id then Some(e) else None
  {
    if es != [] {
      assert (es + [e])[1..] == es[1..] + [e];
      FindAppended(es[1..], e, x);
    }
  }

  /** A partner's nodes are entities of the policy. */
  lemma EntryNodesFound(g: Graph, ownUid: string, partnerId: string)
    requires WellFormed(g) && FindEntry(PartnerEntries(g.entities, ownUid), partnerId).Some?
    ensures var entry := FindEntry(PartnerEntries(g.entities, ownUid), partnerId).value;
            && (entry.caNode.Some? ==> FindEntity(g.entities, entry.caNode.value.id) == entry.caNode)
            && (entry.outgoing.Some? ==> FindEntity(g.entities, entry.outgoing.value.id) == entry.outgoing)
            && (entry.caNode.Some? && entry.outgoing.Some? ==> entry.caNode.value.id != entry.outgoing.value.id)
  {
    var es, entries := g.entities, PartnerEntries(g.entities, ownUid);
    var entry := FindEntry(entries, partnerId).value;
    EntryFound(entries, partnerId);
    PartnersAreAPartition(es, ownUid);
    if entry.outgoing.Some? {
      OutgoingIsListed(entries, entry);
      OutgoingIsNode(es, entry.outgoing.value);
      FindIn(es, entry.outgoing.value);
    }
    if entry.caNode.Some? {
      EntryHasUid(es, ownUid, entry);
      ForeignHasGroup(es, ownUid, entry.caUid.value);
      FindIn(es, entry.caNode.value);
      if entry.outgoing.Some? {
        SameIdSameNode(es, entry.caNode.value, entry.outgoing.value);
      }
    }
  }

  /** The partner's nodes once the dial direction is settled. */
  lemma SettledNodes(g0: Graph, entry: Entry, c: Changes, ids: Ids, w: Work)
    requires WellFormed(g0) && ids.out !in IdList(g0.entities)
    requires entry.caNode.Some? ==> FindEntity(g0.entities, entry.caNode.value.id) == entry.caNode
    requires entry.outgoing.Some? ==> FindEntity(g0.entities, entry.outgoing.value.id) == entry.outgoing
    requires entry.caNode.Some? && entry.outgoing.Some? ==> entry.caNode.value.id != entry.outgoing.value.id
    requires (w.created <==> Makes(entry, c)) && (w.created ==> GivesAddress(c))
    requires w.g.entities == if w.created then g0.entities + [MadeNode(entry, c, ids)]
                             else if Stops(entry, c) then WithoutEntities(g0.entities, {entry.outgoing.value.id})
                             else g0.entities
    ensures entry.caNode.Some? ==> FindEntity(w.g.entities, entry.caNode.value.id) == entry.caNode
    ensures entry.outgoing.Some? ==>
              FindEntity(w.g.entities, entry.outgoing.value.id) == if Stops(entry, c) then None else entry.outgoing
    ensures w.created ==> FindEntity(w.g.entities, ids.out) == Some(MadeNode(entry, c, ids))
  {
    FindEntityFound(g0.entities, ids.out);
    if w.created {
      FindAppended(g0.entities, MadeNode(entry, c, ids), ids.out);
      FindAppended(g0.entities, MadeNode(entry, c, ids), entry.caNode.value.id);
    } else if Stops(entry, c) {
      FindWithout(g0.entities, {entry.outgoing.value.id}, entry.outgoing.value.id);
      if entry.caNode.Some? {
        FindWithout(g0.entities, {entry.outgoing.value.id}, entry.caNode.value.id);
      }
    }
  }

  /** What is not in the policy when the dial direction is settled is not in it at the end. */
  lemma FinishedKeepsAbsent(w: Work, c: Changes, ids: Ids, x: string)
    requires GoodWork(w) && FindEntity(w.g.entities, x).None? && Finished(w, c, ids).Success?
    ensures FindEntity(Finished(w, c, ids).value.g.entities, x).None?
  {
    SetNamesGood(w, c);
    NodeIdsDistinct(w);
    var w1 := SetName(w, c.name);
    if c.name.Some? {
      RenameNodesEntities(w.g, NodeIds(w), c.name.value);
      FindEditedAll(w.g.entities, NodeIds(w), Rename(c.name.value), x);
    }
    var w2 := SetField(w1, KindEdit(c));
    if c.kind.Some? {
      FindEditedAll(w1.g.entities, NodeIds(w), SetKind(c.kind.value), x);
    }
    var w3 := SetField(w2, EnabledEdit(c));
    if c.enabled.Some? {
      FindEditedAll(w2.g.entities, NodeIds(w), SetEnabled(c.enabled.value), x);
    }
    assert w3 == SetNames(w, c);
    StagesKeepAbsent(w3, c, ids, x);
  }

  lemma StagesKeepAbsent(w: Work, c: Changes, ids: Ids, x: string)
    requires FindEntity(w.g.entities, x).None?
    ensures SetInterconnection(w, c).Success? && ChangeAddress(SetInterconnection(w, c).value, c).Success? ==>
              FindEntity(SetFilters(ChangeAddress(SetInterconnection(w, c).value, c).value, c, ids).g.entities, x).None?
  {
    if c.interconnected.Some? && w.ca.Some? {
      FindEditedAll(w.g.entities, [w.ca.value], SetInterconnected(c.interconnected.value), x);
    }
    if SetInterconnection(w, c).Success? {
      var w1 := SetInterconnection(w, c).value;
      if w1.out.Some? {
        FindEditedAll(w1.g.entities, [w1.out.value], SetAddress(c.host, c.port), x);
      }
      if ChangeAddress(w1, c).Success? {
        SetFiltersEntities(ChangeAddress(w1, c).value, c, ids);
      }
    }
  }

  /** The node an update makes has the requested address, the requested kind or else its CA's, and the link to its CA. */
  predicate MadeAsRequested(node: Entity, entry: Entry, c: Changes)
    requires entry.caNode.Some? && GivesAddress(c)
  {
    && node.typ == Outgoing
    && node.config == Config(if c.enabled.Some? then c.enabled.value else true, false, c.host.value, c.port.value)
    && node.displayName == (if c.name.Some? then c.name.value else Display(entry.caNode.value))
    && NodeMeta(node) == Meta(Some(if c.kind.Some? then c.kind.value else KindOf([entry.caNode.value])), entry.caUid, None)
  }

  lemma MadeNodeIsRequested(entry: Entry, c: Changes, ids: Ids)
    requires Makes(entry, c) && GivesAddress(c)
    ensures MadeAsRequested(Requested(MadeNode(entry, c, ids), c, false, false), entry, c)
  {
    assert EntryNodes(entry) == [entry.caNode.value];
  }

  /**
    A successful update against the policy it started from (with the own node ensured): the CA node
    and an outgoing node that stays are what they were with exactly the requested fields, a node that is
    to go is gone, and one that is made has the requested address, kind and link.
  */
  lemma UpdateSetsRequestedFields(g: Graph, own: OwnCa, partnerId: string, c: Changes, ids: Ids)
    requires own.uid != "" && WellFormed(g) && NewIds(g, ids)
    requires UpdateWork(g, own, partnerId, c, ids).Success?
    ensures var g0 := AfterEnsureOwn(g, own, ids.own);
            var found := FindEntry(PartnerEntries(g0.entities, own.uid), partnerId);
            var w := UpdateWork(g, own, partnerId, c, ids).value;
            && found.Some?
            && var entry := found.value;
               && w.ca == IdOf(entry.caNode) && (w.created <==> Makes(entry, c)) && (w.created ==> GivesAddress(c))
               && w.out == (if w.created then Some(ids.out) else if Stops(entry, c) then None else IdOf(entry.outgoing))
               && (entry.caNode.Some? ==>
                     FindEntity(w.g.entities, entry.caNode.value.id) == Some(Requested(entry.caNode.value, c, true, false)))
               && (entry.outgoing.Some? ==>
                     FindEntity(w.g.entities, entry.outgoing.value.id)
                     == if Stops(entry, c) then None else Some(Requested(entry.outgoing.value, c, false, true)))
               && (w.created ==>
                     && FindEntity(w.g.entities, ids.out).Some?
                     && MadeAsRequested(FindEntity(w.g.entities, ids.out).value, entry, c))
  {
    var g0 := AfterEnsureOwn(g, own, ids.own);
    NewIdsDiffer(g, ids);
    EnsureOwnWellFormed(g, own, ids.own);
    EnsuredOwn(g, own, ids.own);
    var ownNode := OwnEntity(g0.entities, own.uid);
    var entry := FindEntry(PartnerEntries(g0.entities, own.uid), partnerId).value;
    var w0 := Settled(g, own, partnerId, c, ids).value;
    SettledGood(g, own, partnerId, c, ids);
    SwitchedWork(g0, ownNode, entry, c, ids);
    EntryNodesFound(g0, own.uid, partnerId);
    FinishKeepsNodes(w0, c, ids);
    SettledNodes(g0, entry, c, ids, w0);
    FindEntityFound(g0.entities, ids.out);
    if entry.caNode.Some? {
      FinishFields(w0, c, ids, entry.caNode.value.id);
    }
    if entry.outgoing.Some? {
      if Stops(entry, c) {
        FinishedKeepsAbsent(w0, c, ids, entry.outgoing.value.id);
      } else {
        FinishFields(w0, c, ids, entry.outgoing.value.id);
      }
    }
    if w0.created {
      FinishFields(w0, c, ids, ids.out);
      MadeNodeIsRequested(entry, c, ids);
    }
  }

  // --- that in plain fields ---

  /** What a partner's CA node shows after a successful update. */
  lemma UpdatedCaNode(g: Graph, own: OwnCa, partnerId: string, c: Changes, ids: Ids)
    requires own.uid != "" && WellFormed(g) && NewIds(g, ids) && UpdateWork(g, own, partnerId, c, ids).Success?
    ensures var found := FindEntry(PartnerEntries(AfterEnsureOwn(g, own, ids.own).entities, own.uid), partnerId);
            && found.Some?
            && (found.value.caNode.Some? ==>
                  var old' := found.value.caNode.value;
                  var new' := FindEntity(UpdateWork(g, own, partnerId, c, ids).value.g.entities, old'.id);
                  && new'.Some? && new'.value.typ == old'.typ && new'.value.name == old'.name && new'.value.other == old'.other
                  && new'.value.displayName == (if c.name.Some? then c.name.value else old'.displayName)
                  && new'.value.config.enabled == (if c.enabled.Some? then c.enabled.value else old'.config.enabled)
                  && new'.value.config.interconnected == (if c.interconnected.Some? then c.interconnected.value else old'.config.interconnected)
                  && new'.value.config.host == old'.config.host && new'.value.config.port == old'.config.port
                  && KindOnly(new'.value.description, old'.description, c.kind))
  {
    UpdateSetsRequestedFields(g, own, partnerId, c, ids);
  }

  /** What its outgoing node shows, unless it is to go. */
  lemma UpdatedOutgoingNode(g: Graph, own: OwnCa, partnerId: string, c: Changes, ids: Ids)
    requires own.uid != "" && WellFormed(g) && NewIds(g, ids) && UpdateWork(g, own, partnerId, c, ids).Success?
    ensures var found := FindEntry(PartnerEntries(AfterEnsureOwn(g, own, ids.own).entities, own.uid), partnerId);
            && found.Some?
            && (found.value.outgoing.Some? && c.direction != Some(TheyDial) ==>
                  var old' := found.value.outgoing.value;
                  var new' := FindEntity(UpdateWork(g, own, partnerId, c, ids).value.g.entities, old'.id);
                  && new'.Some? && new'.value.typ == old'.typ && new'.value.name == old'.name && new'.value.other == old'.other
                  && new'.value.displayName == (if c.name.Some? then c.name.value else old'.displayName)
                  && new'.value.config.enabled == (if c.enabled.Some? then c.enabled.value else old'.config.enabled)
                  && new'.value.config.interconnected == old'.config.interconnected
                  && new'.value.config.host == (if c.host.Some? then c.host.value else old'.config.host)
                  && new'.value.config.port == (if c.port.Some? then c.port.value else old'.config.port)
                  && KindOnly(new'.value.description, old'.description, c.kind))
  {
    UpdateSetsRequestedFields(g, own, partnerId, c, ids);
  }

  /** What an outgoing node made by the update shows. */
  lemma UpdateMakesNode(g: Graph, own: OwnCa, partnerId: string, c: Changes, ids: Ids)
    requires own.uid != "" && WellFormed(g) && NewIds(g, ids) && UpdateWork(g, own, partnerId, c, ids).Success?
    ensures var found := FindEntry(PartnerEntries(AfterEnsureOwn(g, own, ids.own).entities, own.uid), partnerId);
            && found.Some?
            && (c.direction == Some(WeDial) && found.value.outgoing.None? && found.value.caNode.Some? ==>
                  var out := FindEntity(UpdateWork(g, own, partnerId, c, ids).value.g.entities, ids.out);
                  && out.Some? && out.value.typ == Outgoing && c.host.Some? && c.port.Some?
                  && out.value.config.host == c.host.value && out.value.config.port == c.port.value
                  && out.value.config.enabled == (if c.enabled.Some? then c.enabled.value else true)
                  && out.value.displayName == (if c.name.Some? then c.name.value else Display(found.value.caNode.value))
                  && out.value.description.Raven? && out.value.description.meta.ca == found.value.caUid
                  && out.value.description.meta.kind == Some(if c.kind.Some? then c.kind.value else KindOf([found.value.caNode.value])))
  {
    UpdateSetsRequestedFields(g, own, partnerId, c, ids);
  }

  /** A node's kind is the one Raven noted in its description, if that is a known one. */
  lemma KindOfOne(e: Entity)
    ensures KindOf([e])
            == if e.description.Raven? && e.description.meta.kind.Some?
                  && e.description.meta.kind.value in {"raven_hub", "tak_server", "other"}
               then e.description.meta.kind.value else "other"
  {
    assert [e][1..] == [] && KindOf([e][1..]) == "other";
  }

  lemma {:induction false} FirstPair(rs: seq<Rule>, a: string, b: string)
    ensures FindRule(rs, a, b) == if Pairs(rs, a, b) == [] then None else Some(Pairs(rs, a, b)[0])
  {
    if rs != [] {
      FirstPair(rs[1..], a, b);
    }
  }

  /**
    The rules of an outgoing node that an update makes have the requested filters, or those of the first rule
    its CA node had that way before, where no type means all groups, or let all groups through if it had none.
  */
  lemma MadeNodeTakesCaFilters(g: Graph, own: OwnCa, partnerId: string, c: Changes, ids: Ids)
    requires own.uid != "" && WellFormed(g) && NewIds(g, ids)
    requires UpdateWork(g, own, partnerId, c, ids).Success? && UpdateWork(g, own, partnerId, c, ids).value.created
    ensures var w := UpdateWork(g, own, partnerId, c, ids).value;
            && w.ca.Some? && w.out.Some?
            && var out, back := Pairs(g.rules, w.own, w.ca.value), Pairs(g.rules, w.ca.value, w.own);
               && OneRule(w.g.rules, w.own, w.out.value,
                          if c.share.Some? then c.share.value
                          else if out == [] then Filter("allGroups", [], [])
                          else if out[0].filter.typ == "" then Filter("allGroups", out[0].filter.allowed, out[0].filter.disallowed)
                          else out[0].filter)
               && OneRule(w.g.rules, w.out.value, w.own,
                          if c.receive.Some? then c.receive.value
                          else if back == [] then Filter("allGroups", [], [])
                          else if back[0].filter.typ == "" then Filter("allGroups", back[0].filter.allowed, back[0].filter.disallowed)
                          else back[0].filter)
  {
    UpdateKeepsOneRule(g, own, partnerId, c, ids);
    var w := UpdateWork(g, own, partnerId, c, ids).value;
    FirstPair(g.rules, w.own, w.ca.value);
    FirstPair(g.rules, w.ca.value, w.own);
  }

  /** Of a description nothing but the kind has changed, and that only if one was requested. */
  predicate KindOnly(new': Description, old': Description, kind: Option<string>) {
    if kind.None? then new' == old'
    else
      && new'.Raven? && new'.meta.kind == kind
      && (old'.Raven? ==> new' == Raven(old'.note, old'.meta.(kind := kind)))
      && (old'.Note? ==> new' == Raven(Some(old'.text), Meta(kind, None, None)))
      && (old'.NoDescription? ==> new' == Raven(None, Meta(kind, None, None)))
  }

  /** What ensuring the own node does: nothing, or the first one is switched on, or a new one is made, switched on. */
  lemma EnsureMakesOwnNode(g: Graph, own: OwnCa, newId: string)
    requires own.uid != ""
    ensures var before, after := g.entities, AfterEnsureOwn(g, own, newId).entities;
            if exists e | e in before :: e.typ == Group && e.name == own.uid && e.config.enabled then
              AfterEnsureOwn(g, own, newId) == g
            else if exists e | e in before :: e.typ == Group && e.name == own.uid then
              exists k | 0 <= k < |before| ::
                && before[k].typ == Group && before[k].name == own.uid
                && (forall i | 0 <= i < k :: !(before[i].typ == Group && before[i].name == own.uid))
                && after == before[k := before[k].(config := before[k].config.(enabled := true))]
            else
              after == before + [Entity(newId, Group, if own.nickname != "" then own.nickname else "This hub", own.uid,
                                        NoDescription, Config(true, false, "", 0), "")]
  {
    if !OwnNodeEnabled(g.entities, own.uid) {
      if e :| e in g.entities && IsGroupOf(e, own.uid) {
        var k := 0;
        while !IsGroupOf(g.entities[k], own.uid)
          invariant 0 <= k < |g.entities| && exists j :: k <= j < |g.entities| && IsGroupOf(g.entities[j], own.uid)
          invariant forall i | 0 <= i < k :: !IsGroupOf(g.entities[i], own.uid)
          decreases |g.entities| - k
        {
          k := k + 1;
        }
        OwnNodeExists(g.entities, own.uid);
        EnableFirstAt(g.entities, own.uid, k);
      } else if OwnNode(g.entities, own.uid).Some? {
        OwnNodeFound(g.entities, own.uid);
      }
    }
  }

  // --- the nodes of a new partner ---

  /**
    The nodes an add makes: an enabled CA node named after the CA, with the requested name, kind, expiry
    and interconnection; and exactly if we dial, an enabled outgoing node with the requested address,
    linked to the CA.
  */
  lemma AddMakesRequestedNodes(g: Graph, own: OwnCa, p: NewPartner, ids: Ids)
    requires own.uid != "" && WellFormed(g) && NewIds(g, ids)
    ensures var ca := FindEntity(AfterAdd(g, own, p, ids).entities, ids.ca);
            && ca.Some? && ca.value.typ == Group && ca.value.name == p.caUid && ca.value.displayName == p.name
            && ca.value.config.enabled && ca.value.config.interconnected == p.interconnected
            && ca.value.description == if p.kind.None? && p.expires.None? then NoDescription else Raven(None, Meta(p.kind, None, p.expires))
    ensures var out := FindEntity(AfterAdd(g, own, p, ids).entities, ids.out);
            && (p.dial.Some? <==> out.Some?)
            && (p.dial.Some? ==>
                  && out.value.typ == Outgoing && out.value.displayName == p.name && out.value.name == p.name + "_" + ids.suffix
                  && out.value.config.enabled && out.value.config.host == p.dial.value.host && out.value.config.port == p.dial.value.port
                  && out.value.description == Raven(None, Meta(p.kind, Some(p.caUid), None)))
  {
    NewIdsDiffer(g, ids);
    var g0 := AfterEnsureOwn(g, own, ids.own);
    EnsuredOwn(g, own, ids.own);
    EnsureOwnWellFormed(g, own, ids.own);
    FindEntityFound(g0.entities, ids.ca);
    FindEntityFound(g0.entities, ids.out);
    var es := g0.entities + [CaNodeOf(p, ids)];
    FindAppended(g0.entities, CaNodeOf(p, ids), ids.ca);
    FindAppended(g0.entities, CaNodeOf(p, ids), ids.out);
    if p.dial.Some? {
      FindAppended(es, OutNodeOf(p, ids), ids.ca);
      FindAppended(es, OutNodeOf(p, ids), ids.out);
    }
  }

  /** The one rule each way between two nodes, named after them. */
  ghost predicate NamedPair(rs: seq<Rule>, own: Entity, n: Entity, share: Filter, receive: Filter) {
    var out, back := Pairs(rs, own.id, n.id), Pairs(rs, n.id, own.id);
    && |out| == 1 && out[0].name == Display(own) + " -> " + Display(n) && out[0].filter == share
    && |back| == 1 && back[0].name == Display(n) + " -> " + Display(own) && back[0].filter == receive
  }

  lemma AddedPairs(g0: Graph, ownNode: Entity, p: NewPartner, ids: Ids)
    requires WellFormed(g0) && ids.ca !in IdList(g0.entities) && ids.out !in IdList(g0.entities)
    requires ids.ca != ids.out && ownNode.id != ids.ca && ownNode.id != ids.out
    ensures var rules1 := AfterSetBoth(g0.rules, ownNode, CaNodeOf(p, ids), SpecOr(p.share), SpecOr(p.receive), ids.r1, ids.r2);
            && NamedPair(rules1, ownNode, CaNodeOf(p, ids), SpecOr(p.share), SpecOr(p.receive))
            && (p.dial.Some? ==>
                  var rules2 := AfterSetBoth(rules1, ownNode, OutNodeOf(p, ids), SpecOr(p.share), SpecOr(p.receive), ids.r3, ids.r4);
                  && NamedPair(rules2, ownNode, CaNodeOf(p, ids), SpecOr(p.share), SpecOr(p.receive))
                  && NamedPair(rules2, ownNode, OutNodeOf(p, ids), SpecOr(p.share), SpecOr(p.receive)))
  {
    var ca, share, receive := CaNodeOf(p, ids), SpecOr(p.share), SpecOr(p.receive);
    NoPairsOfNewNode(g0, ids.ca);
    NoPairsOfNewNode(g0, ids.out);
    NamedPairs(g0.rules, ownNode, ca, share, receive, ids.r1, ids.r2);
    if p.dial.Some? {
      var rules1 := AfterSetBoth(g0.rules, ownNode, ca, share, receive, ids.r1, ids.r2);
      SetBothPairs(g0.rules, ownNode, ca, share, receive, ids.r1, ids.r2);
      NamedPairs(rules1, ownNode, OutNodeOf(p, ids), share, receive, ids.r3, ids.r4);
      SetBothPairs(rules1, ownNode, OutNodeOf(p, ids), share, receive, ids.r3, ids.r4);
    }
  }

  /** The rules an add makes are named after their two nodes and carry the requested filters, or let all groups through. */
  lemma AddMakesRequestedRules(g: Graph, own: OwnCa, p: NewPartner, ids: Ids, n: string)
    requires own.uid != "" && WellFormed(g) && NewIds(g, ids) && p.name != "" && n in AddedIds(p, ids)
    ensures OwnNode(AfterEnsureOwn(g, own, ids.own).entities, own.uid).Some?
    ensures var o := OwnNode(AfterEnsureOwn(g, own, ids.own).entities, own.uid).value;
            var shown := if o.displayName != "" then o.displayName else o.name;
            var out, back := Pairs(AfterAdd(g, own, p, ids).rules, o.id, n), Pairs(AfterAdd(g, own, p, ids).rules, n, o.id);
            && |out| == 1 && out[0].name == shown + " -> " + p.name
            && out[0].filter == (if p.share.Some? then p.share.value else Filter("allGroups", [], []))
            && |back| == 1 && back[0].name == p.name + " -> " + shown
            && back[0].filter == (if p.receive.Some? then p.receive.value else Filter("allGroups", [], []))
  {
    NewIdsDiffer(g, ids);
    AddWellFormed(g, own, p, ids);
    EnsureOwnWellFormed(g, own, ids.own);
    EnsuredOwn(g, own, ids.own);
    var g0 := AfterEnsureOwn(g, own, ids.own);
    var ownNode := OwnEntity(g0.entities, own.uid);
    InIdList(g0.entities, ownNode);
    AddedPairs(g0, ownNode, p, ids);
    var node := if n == ids.ca then CaNodeOf(p, ids) else OutNodeOf(p, ids);
    assert NamedPair(AfterAdd(g, own, p, ids).rules, ownNode, node, SpecOr(p.share), SpecOr(p.receive));
    assert Display(node) == p.name && node.id == n;
  }

  lemma NamedPairs(rs: seq<Rule>, own: Entity, n: Entity, share: Filter, receive: Filter, r1: string, r2: string)
    requires own.id != n.id && Pairs(rs, own.id, n.id) == [] && Pairs(rs, n.id, own.id) == []
    ensures var after := AfterSetBoth(rs, own, n, share, receive, r1, r2);
            && Pairs(after, own.id, n.id) == [Rule(r1, Display(own) + " -> " + Display(n), own.id, n.id, share, "")]
            && Pairs(after, n.id, own.id) == [Rule(r2, Display(n) + " -> " + Display(own), n.id, own.id, receive, "")]
  {
    var mid := AfterSetRule(rs, own, n, share, r1);
    SetRulePairs(rs, own, n, share, r1, own.id, n.id);
    SetRulePairs(rs, own, n, share, r1, n.id, own.id);
    SetRulePairs(mid, n, own, receive, r2, own.id, n.id);
    SetRulePairs(mid, n, own, receive, r2, n.id, own.id);
  }

  lemma {:induction false} NoPairs(rs: seq<Rule>, ids: seq<string>, n: string, a: string)
    requires EndpointsIn(rs, ids) && n !in ids
    ensures Pairs(rs, a, n) == [] && Pairs(rs, n, a) == []
  {
    if rs != [] {
      assert rs[0] in rs && forall r | r in rs[1..] :: r in rs;
      NoPairs(rs[1..], ids, n, a);
    }
  }

  lemma NoPairsOfNewNode(g: Graph, n: string)
    requires WellFormed(g) && n !in IdList(g.entities)
    ensures forall a :: Pairs(g.rules, a, n) == [] && Pairs(g.rules, n, a) == []
  {
    forall a ensures Pairs(g.rules, a, n) == [] && Pairs(g.rules, n, a) == [] {
      NoPairs(g.rules, IdList(g.entities), n, a);
    }
  }

  // --- rule names ---

  /** The rule is named "<source> -> <destination>" after the display names of its nodes. */
  predicate NamedAfterNodes(r: Rule, es: seq<Entity>) {
    var s, d := FindEntity(es, r.source), FindEntity(es, r.destination);
    s.Some? && d.Some? && r.name == RuleName(s.value, d.value)
  }

  lemma {:induction false} RenamedRulesAt(rs: seq<Rule>, es: seq<Entity>, n: string, display: string, i: nat)
    requires i < |rs|
    ensures |RenamedRules(rs, es, n, display)| == |rs|
    ensures RenamedRules(rs, es, n, display)[i] == RenamedRule(rs[i], es, n, display)
  {
    if i > 0 {
      RenamedRulesAt(rs[1..], es, n, display, i - 1);
    } else if |rs| > 1 {
      RenamedRulesAt(rs[1..], es, n, display, 0);
    }
  }

  /** A rename keeps every rule that was named after its nodes named after them. */
  lemma {:induction false} RenameKeepsRuleNames(g: Graph, ids: seq<string>, name: string, i: nat)
    requires i < |g.rules| && NamedAfterNodes(g.rules[i], g.entities)
    ensures var after := RenameNodes(g, ids, name);
            i < |after.rules| && NamedAfterNodes(after.rules[i], after.entities)
            && after.rules[i].(name := g.rules[i].name) == g.rules[i]
    decreases |ids|
  {
    if ids != [] {
      var r, display := g.rules[i], DisplayOf(g.entities, ids[0]);
      var es := EditEntity(g.entities, ids[0], Rename(name));
      FindEdited(g.entities, ids[0], Rename(name), r.source);
      FindEdited(g.entities, ids[0], Rename(name), r.destination);
      FindEntityFound(g.entities, r.source);
      FindEntityFound(g.entities, r.destination);
      RenamedRulesAt(g.rules, es, ids[0], display, i);
      RenameKeepsRuleNames(g.(entities := es, rules := RenamedRules(g.rules, es, ids[0], display)), ids[1..], name, i);
    }
  }

  /**
    Renaming one node rebuilds the name of exactly those of its rules that have none or are named after their
    two nodes as they were called before; a rule with a name of its own keeps it.
  */
  lemma RenameRebuildsIff(g: Graph, id: string, name: string, i: nat)
    requires i < |g.rules|
    ensures var after, r := RenameNodes(g, [id], name), g.rules[i];
            var s, d := FindEntity(g.entities, r.source), FindEntity(g.entities, r.destination);
            var s', d' := FindEntity(after.entities, r.source), FindEntity(after.entities, r.destination);
            && i < |after.rules| && (s.Some? <==> s'.Some?) && (d.Some? <==> d'.Some?)
            && after.rules[i] == if (r.source == id || r.destination == id) && s.Some? && d.Some?
                                    && (r.name == "" || r.name == Display(s.value) + " -> " + Display(d.value))
                                 then r.(name := Display(s'.value) + " -> " + Display(d'.value)) else r
  {
    var r, display := g.rules[i], DisplayOf(g.entities, id);
    var es := EditEntity(g.entities, id, Rename(name));
    assert RenameNodes(g, [id], name) == g.(entities := es, rules := RenamedRules(g.rules, es, id, display));
    FindEdited(g.entities, id, Rename(name), r.source);
    FindEdited(g.entities, id, Rename(name), r.destination);
    RenamedRulesAt(g.rules, es, id, display, i);
  }

  // --- what a removal takes ---

  lemma {:induction false} WithoutEntitiesMembers(es: seq<Entity>, ids: set<string>)
    ensures forall e :: e in WithoutEntities(es, ids) <==> e in es && e.id !in ids
  {
    if es != [] {
      WithoutEntitiesMembers(es[1..], ids);
      assert es == [es[0]] + es[1..];
    }
  }

  lemma {:induction false} WithoutRulesMembers(rs: seq<Rule>, ids: set<string>)
    ensures forall r :: r in WithoutRules(rs, ids) <==> r in rs && r.source !in ids && r.destination !in ids
  {
    if rs != [] {
      WithoutRulesMembers(rs[1..], ids);
      assert rs == [rs[0]] + rs[1..];
    }
  }

  /** Exactly the partner's outgoing node and every CA node with its uid go, with every rule that starts or ends at one of them. */
  lemma RemoveTakesExactly(g: Graph, ownUid: string, partnerId: string)
    requires WellFormed(g) && AfterRemove(g, ownUid, partnerId).Success?
    ensures var found := FindEntry(PartnerEntries(g.entities, ownUid), partnerId);
            && found.Some?
            && var entry, after := found.value, AfterRemove(g, ownUid, partnerId).value.0;
               && AfterRemove(g, ownUid, partnerId).value.1 == entry.caUid
               && (forall e :: e in after.entities <==>
                     e in g.entities && entry.outgoing != Some(e) && !(e.typ == Group && entry.caUid == Some(e.name)))
               && forall r :: r in after.rules <==>
                    r in g.rules && !exists e | e in g.entities ::
                      && (entry.outgoing == Some(e) || (e.typ == Group && entry.caUid == Some(e.name)))
                      && (r.source == e.id || r.destination == e.id)
  {
    var entry := FindEntry(PartnerEntries(g.entities, ownUid), partnerId).value;
    var ids := RemovedIdsOf(g.entities, entry);
    PartnerNodesAreThere(g, ownUid, partnerId);
    forall e | e in g.entities ensures e.id in ids <==> Goes(e, entry) {
      RemovedIff(g.entities, entry, e);
    }
    forall id | id in ids ensures exists e | e in g.entities :: e.id == id && Goes(e, entry) {
    }
    WithoutEntitiesMembers(g.entities, ids);
    WithoutRulesMembers(g.rules, ids);
  }

  predicate Goes(e: Entity, entry: Entry) {
    entry.outgoing == Some(e) || (e.typ == Group && entry.caUid == Some(e.name))
  }

  lemma PartnerNodesAreThere(g: Graph, ownUid: string, partnerId: string)
    requires WellFormed(g) && FindEntry(PartnerEntries(g.entities, ownUid), partnerId).Some?
    ensures var entry := FindEntry(PartnerEntries(g.entities, ownUid), partnerId).value;
            && (entry.outgoing.Some? ==> entry.outgoing.value in g.entities)
            && (entry.caNode.Some? ==>
                  entry.caNode.value in g.entities && entry.caNode.value.typ == Group && entry.caUid == Some(entry.caNode.value.name))
  {
    var entries := PartnerEntries(g.entities, ownUid);
    var entry := FindEntry(entries, partnerId).value;
    EntryFound(entries, partnerId);
    EntryNodesFound(g, ownUid, partnerId);
    if entry.outgoing.Some? {
      FindEntityFound(g.entities, entry.outgoing.value.id);
    }
    if entry.caNode.Some? {
      EntryHasUid(g.entities, ownUid, entry);
      ForeignHasGroup(g.entities, ownUid, entry.caUid.value);
    }
  }

  lemma RemovedIff(es: seq<Entity>, entry: Entry, e: Entity)
    requires Distinct(IdList(es)) && e in es
    requires entry.outgoing.Some? ==> entry.outgoing.value in es
    requires entry.caNode.Some? ==>
               entry.caNode.value in es && entry.caNode.value.typ == Group && entry.caUid == Some(entry.caNode.value.name)
    ensures e.id in RemovedIdsOf(es, entry) <==> entry.outgoing == Some(e) || (e.typ == Group && entry.caUid == Some(e.name))
  {
    forall n | n in es && n.id == e.id ensures n == e {
      SameIdSameNode(es, n, e);
    }
    assert entry.outgoing == Some(e) ==> e in EntryNodes(entry);
  }
}

/**
  The partner id update_partner (raven/fedhub_partners.py) returns: whether looking it up in the new
  policy finds the partner again.
*/
module PolicyIds {
  import opened Wrappers
  import opened PolicyGraph
  import opened PolicyProofs
  import opened Partners
  import opened PolicyTheorems
  import opened PolicyFields

  // --- entities that group into the same partners ---

  predicate AlikeNode(a: Entity, b: Entity) {
    a.id == b.id && a.typ == b.typ && a.name == b.name && NodeMeta(a).ca == NodeMeta(b).ca
  }

  ghost predicate Alike(a: seq<Entity>, b: seq<Entity>) {
    |a| == |b| && forall i | 0 <= i < |a| :: AlikeNode(a[i], b[i])
  }

  predicate AlikeEntry(a: Entry, b: Entry) {
    a.id == b.id && a.caUid == b.caUid && IdOf(a.caNode) == IdOf(b.caNode) && IdOf(a.outgoing) == IdOf(b.outgoing)
  }

  ghost predicate AlikeEntries(a: seq<Entry>, b: seq<Entry>) {
    |a| == |b| && forall i | 0 <= i < |a| :: AlikeEntry(a[i], b[i])
  }

  lemma SameUids(a: seq<Entry>, b: seq<Entry>, uid: string)
    requires AlikeEntries(a, b)
    ensures HasUid(a, uid) <==> HasUid(b, uid)
    ensures HasUid(a, uid) ==> IndexOfUid(a, uid) == IndexOfUid(b, uid)
  {
    if HasUid(a, uid) {
      var i := IndexOfUid(a, uid);
      assert b[i].caUid == Some(uid);
    }
    if HasUid(b, uid) {
      var i := IndexOfUid(b, uid);
      assert a[i].caUid == Some(uid);
    }
  }

  lemma {:induction false} AlikeCaEntries(a: seq<Entity>, b: seq<Entity>, ownUid: string)
    requires Alike(a, b)
    ensures AlikeEntries(CaEntries(a, ownUid), CaEntries(b, ownUid))
  {
    if a != [] {
      var n := |a| - 1;
      AlikeCaEntries(a[..n], b[..n], ownUid);
      assert AlikeNode(a[n], b[n]);
      SameUids(CaEntries(a[..n], ownUid), CaEntries(b[..n], ownUid), a[n].name);
    }
  }

  lemma AlikePlaced(a: seq<Entry>, b: seq<Entry>, e: Entity, f: Entity)
    requires AlikeEntries(a, b) && AlikeNode(e, f)
    ensures AlikeEntries(PlaceOutgoing(a, e), PlaceOutgoing(b, f))
  {
    if NodeMeta(e).ca.Some? {
      SameUids(a, b, NodeMeta(e).ca.value);
    }
  }

  lemma {:induction false} AlikePlaceAll(base: seq<Entry>, base': seq<Entry>, a: seq<Entity>, b: seq<Entity>)
    requires AlikeEntries(base, base') && Alike(a, b)
    ensures AlikeEntries(PlaceAll(base, a), PlaceAll(base', b))
  {
    if a != [] {
      var n := |a| - 1;
      AlikePlaceAll(base, base', a[..n], b[..n]);
      assert AlikeNode(a[n], b[n]);
      if a[n].typ == Outgoing {
        AlikePlaced(PlaceAll(base, a[..n]), PlaceAll(base', b[..n]), a[n], b[n]);
      }
    }
  }

  lemma {:induction false} AlikeFound(a: seq<Entry>, b: seq<Entry>, id: string)
    requires AlikeEntries(a, b)
    ensures FindEntry(a, id).Some? <==> FindEntry(b, id).Some?
    ensures FindEntry(a, id).Some? ==> AlikeEntry(FindEntry(a, id).value, FindEntry(b, id).value)
  {
    if a != [] {
      assert AlikeEntry(a[0], b[0]);
      assert forall i | 0 <= i < |a| - 1 :: a[1..][i] == a[i + 1] && b[1..][i] == b[i + 1];
      AlikeFound(a[1..], b[1..], id);
    }
  }

  /** Entities that are alike make partners that are alike. */
  lemma AlikePartners(a: seq<Entity>, b: seq<Entity>, ownUid: string, id: string)
    requires Alike(a, b)
    ensures var x, y := FindEntry(PartnerEntries(a, ownUid), id), FindEntry(PartnerEntries(b, ownUid), id);
            (x.Some? <==> y.Some?) && (x.Some? ==> AlikeEntry(x.value, y.value))
  {
    AlikeCaEntries(a, b, ownUid);
    AlikePlaceAll(CaEntries(a, ownUid), CaEntries(b, ownUid), a, b);
    AlikeFound(PartnerEntries(a, ownUid), PartnerEntries(b, ownUid), id);
  }

  // --- the edits of an update keep entities alike ---

  lemma AlikeChain(a: seq<Entity>, b: seq<Entity>, c: seq<Entity>)
    requires Alike(a, b) && Alike(b, c)
    ensures Alike(a, c)
  {
    forall i | 0 <= i < |a| ensures AlikeNode(a[i], c[i]) {
      assert AlikeNode(a[i], b[i]) && AlikeNode(b[i], c[i]);
    }
  }

  lemma {:induction false} EditedAlike(es: seq<Entity>, id: string, edit: NodeEdit)
    ensures Alike(es, EditEntity(es, id, edit))
  {
    if es != [] && es[0].id != id {
      EditedAlike(es[1..], id, edit);
      var after := EditEntity(es, id, edit);
      assert after[1..] == EditEntity(es[1..], id, edit);
      forall i | 0 < i < |es| ensures AlikeNode(es[i], after[i]) {
        assert AlikeNode(es[1..][i - 1], after[1..][i - 1]);
      }
    }
  }

  lemma {:induction false} EditedAllAlike(es: seq<Entity>, ids: seq<string>, edit: NodeEdit)
    ensures Alike(es, EditAll(es, ids, edit))
    decreases |ids|
  {
    if ids != [] {
      EditedAlike(es, ids[0], edit);
      EditedAllAlike(EditEntity(es, ids[0], edit), ids[1..], edit);
      AlikeChain(es, EditEntity(es, ids[0], edit), EditAll(es, ids, edit));
    }
  }

  lemma SetFieldAlike(w: Work, edit: Option<NodeEdit>)
    ensures Alike(w.g.entities, SetField(w, edit).g.entities)
  {
    if edit.Some? {
      EditedAllAlike(w.g.entities, NodeIds(w), edit.value);
    }
  }

  lemma SetNamesAlike(w: Work, c: Changes)
    ensures Alike(w.g.entities, SetNames(w, c).g.entities)
  {
    var w1 := SetName(w, c.name);
    if c.name.Some? {
      RenameNodesEntities(w.g, NodeIds(w), c.name.value);
      EditedAllAlike(w.g.entities, NodeIds(w), Rename(c.name.value));
    }
    var w2 := SetField(w1, KindEdit(c));
    SetFieldAlike(w1, KindEdit(c));
    SetFieldAlike(w2, EnabledEdit(c));
    AlikeChain(w.g.entities, w1.g.entities, w2.g.entities);
    AlikeChain(w.g.entities, w2.g.entities, SetNames(w, c).g.entities);
  }

  /** Once it is settled who dials, an update changes nothing the grouping into partners looks at. */
  lemma FinishedAlike(w: Work, c: Changes, ids: Ids)
    requires Finished(w, c, ids).Success?
    ensures Alike(w.g.entities, Finished(w, c, ids).value.g.entities)
  {
    var w1 := SetNames(w, c);
    SetNamesAlike(w, c);
    var w2 := SetInterconnection(w1, c).value;
    if c.interconnected.Some? {
      EditedAllAlike(w1.g.entities, [w1.ca.value], SetInterconnected(c.interconnected.value));
    }
    AlikeChain(w.g.entities, w1.g.entities, w2.g.entities);
    var w3 := ChangeAddress(w2, c).value;
    if w2.out.Some? {
      EditedAllAlike(w2.g.entities, [w2.out.value], SetAddress(c.host, c.port));
    }
    assert Alike(w2.g.entities, w3.g.entities);
    AlikeChain(w.g.entities, w2.g.entities, w3.g.entities);
    SetFiltersEntities(w3, c, ids);
  }

  // --- settling who dials ---

  lemma {:induction false} FirstGroupWithout(es: seq<Entity>, ids: set<string>, uid: string)
    requires forall e | e in es && e.id in ids :: e.typ != Group
    ensures FirstGroup(WithoutEntities(es, ids), uid) == FirstGroup(es, uid)
  {
    if es != [] {
      var front, last := es[..|es| - 1], es[|es| - 1];
      assert es == front + [last];
      WithoutEntitiesAppend(front, [last], ids);
      FirstGroupWithout(front, ids, uid);
      FirstOfAppend(front, last, uid);
      if last.id !in ids {
        assert WithoutEntities([last], ids) == [last];
        FirstOfAppend(WithoutEntities(front, ids), last, uid);
      } else {
        assert last in es && WithoutEntities([last], ids) == [];
        assert WithoutEntities(es, ids) == WithoutEntities(front, ids);
      }
    }
  }

  lemma GroupStaysForeign(es: seq<Entity>, ownUid: string, uid: string)
    requires uid != "" && uid != ownUid && FirstGroup(es, uid).Some?
    ensures ForeignUid(es, ownUid, uid)
  {
    if !ForeignUid(es, ownUid, uid) {
      NoFirstGroup(es, ownUid, uid);
    }
  }

  /** Once it is settled who dials, a CA partner is found by its CA's uid, with its nodes. */
  lemma SettledFindsCa(g0: Graph, ownNode: Entity, ownUid: string, entry: Entry, uid: string, c: Changes, ids: Ids)
    requires WellFormed(g0) && ForeignUid(g0.entities, ownUid, uid)
    requires entry == Entry(uid, Some(uid), FirstGroup(g0.entities, uid), FirstLinked(g0.entities, uid))
    requires entry.caNode.Some? && (entry.outgoing.Some? ==> entry.outgoing.value in g0.entities && entry.outgoing.value.typ == Outgoing)
    requires SwitchDirection(StartWork(g0, ownNode, entry), entry, c, ownNode, ids).Success?
    ensures var w := SwitchDirection(StartWork(g0, ownNode, entry), entry, c, ownNode, ids).value;
            var again := FindEntry(PartnerEntries(w.g.entities, ownUid), uid);
            && again.Some? && again.value.caUid == Some(uid) && IdOf(again.value.caNode) == w.ca
            && (w.out.Some? ==> IdOf(again.value.outgoing) == w.out)
  {
    SwitchedWork(g0, ownNode, entry, c, ids);
    var w := SwitchDirection(StartWork(g0, ownNode, entry), entry, c, ownNode, ids).value;
    if w.created {
      FirstOfAppend(g0.entities, MadeNode(entry, c, ids), uid);
    } else if Stops(entry, c) {
      var out := entry.outgoing.value;
      forall e | e in g0.entities && e.id in {out.id} ensures e.typ != Group {
        SameIdSameNode(g0.entities, e, out);
      }
      FirstGroupWithout(g0.entities, {out.id}, uid);
    }
    GroupStaysForeign(w.g.entities, ownUid, uid);
    FindByUid(w.g.entities, ownUid, uid);
  }

  lemma CaPartnerIsFound(g0: Graph, ownNode: Entity, ownUid: string, partnerId: string, c: Changes, ids: Ids)
    requires WellFormed(g0) && FindEntry(PartnerEntries(g0.entities, ownUid), partnerId).Some?
    requires FindEntry(PartnerEntries(g0.entities, ownUid), partnerId).value.caNode.Some?
    requires var entry := FindEntry(PartnerEntries(g0.entities, ownUid), partnerId).value;
             SwitchDirection(StartWork(g0, ownNode, entry), entry, c, ownNode, ids).Success?
    ensures var entry := FindEntry(PartnerEntries(g0.entities, ownUid), partnerId).value;
            var w := SwitchDirection(StartWork(g0, ownNode, entry), entry, c, ownNode, ids).value;
            var again := FindEntry(PartnerEntries(w.g.entities, ownUid), partnerId);
            && entry.caUid == Some(partnerId) && again.Some? && again.value.caUid == Some(partnerId)
            && IdOf(again.value.caNode) == w.ca && (w.out.Some? ==> IdOf(again.value.outgoing) == w.out)
  {
    var entries := PartnerEntries(g0.entities, ownUid);
    var entry := FindEntry(entries, partnerId).value;
    EntryFound(entries, partnerId);
    EntryHasUid(g0.entities, ownUid, entry);
    FindByUid(g0.entities, ownUid, partnerId);
    if entry.outgoing.Some? {
      PartnersAreAPartition(g0.entities, ownUid);
      OutgoingIsListed(entries, entry);
      OutgoingIsNode(g0.entities, entry.outgoing.value);
    }
    SettledFindsCa(g0, ownNode, ownUid, entry, partnerId, c, ids);
  }

  /** An entry without a CA node is its outgoing node, and has its name for an id. */
  lemma OutgoingOnly(es: seq<Entity>, ownUid: string, entry: Entry)
    requires entry in PartnerEntries(es, ownUid)
    ensures entry.caNode.None? ==> entry.caUid.None? && entry.outgoing.Some? && entry == OutgoingEntry(entry.outgoing.value)
    ensures (forall e | e in es :: e.id != "") ==> entry.id != ""
  {
    var base, all := CaEntries(es, ownUid), PartnerEntries(es, ownUid);
    CaEntriesShape(es, ownUid);
    PlaceAllShape(base, es);
    PartnersAreAPartition(es, ownUid);
    var i :| 0 <= i < |all| && all[i] == entry;
    if i < |base| {
      assert base[i].caUid == Some(base[i].id) && HasUid(base, base[i].id);
    } else {
      OutgoingIsListed(all, entry);
      OutgoingIsNode(es, entry.outgoing.value);
    }
  }

  lemma OutgoingPartnerIsFound(g0: Graph, ownNode: Entity, ownUid: string, partnerId: string, c: Changes, ids: Ids)
    requires WellFormed(g0) && FindEntry(PartnerEntries(g0.entities, ownUid), partnerId).Some?
    requires FindEntry(PartnerEntries(g0.entities, ownUid), partnerId).value.caNode.None?
    requires var entry := FindEntry(PartnerEntries(g0.entities, ownUid), partnerId).value;
             var w := SwitchDirection(StartWork(g0, ownNode, entry), entry, c, ownNode, ids);
             w.Success? && GoodWork(w.value) && Finished(w.value, c, ids).Success?
    ensures var entry := FindEntry(PartnerEntries(g0.entities, ownUid), partnerId).value;
            var w := SwitchDirection(StartWork(g0, ownNode, entry), entry, c, ownNode, ids).value;
            var r := Finished(w, c, ids).value;
            var again := FindEntry(PartnerEntries(r.g.entities, ownUid), NewId(r));
            && entry.outgoing.Some? && entry.caUid.None?
            && if entry.outgoing.value.name != "" then
                 NewId(r) == partnerId && again.Some? && AlikeEntry(entry, again.value)
               else NewId(r) == "" && ((forall e | e in r.g.entities :: e.id != "") ==> again.None?)
  {
    var entries := PartnerEntries(g0.entities, ownUid);
    var entry := FindEntry(entries, partnerId).value;
    EntryFound(entries, partnerId);
    OutgoingOnly(g0.entities, ownUid, entry);
    EntryNodesFound(g0, ownUid, partnerId);
    var w := SwitchDirection(StartWork(g0, ownNode, entry), entry, c, ownNode, ids).value;
    assert w == StartWork(g0, ownNode, entry);
    var r := Finished(w, c, ids).value;
    FinishKeepsNodes(w, c, ids);
    FinishFields(w, c, ids, entry.outgoing.value.id);
    FinishedAlike(w, c, ids);
    AlikePartners(g0.entities, r.g.entities, ownUid, partnerId);
    var again := FindEntry(PartnerEntries(r.g.entities, ownUid), NewId(r));
    if entry.outgoing.value.name == "" && again.Some? {
      EntryFound(PartnerEntries(r.g.entities, ownUid), NewId(r));
      OutgoingOnly(r.g.entities, ownUid, again.value);
    }
  }

  // --- the result ---

  /**
    A successful update returns an id that finds the partner again, with its CA node and, if it has one
    then, its outgoing node; the id is the one it was updated by. The exception is a partner that is only
    an outgoing node without a name: it is known by its node's id, and the empty id returned finds nothing.
  */
  lemma UpdateFindsPartnerAgain(g: Graph, own: OwnCa, partnerId: string, c: Changes, ids: Ids)
    requires own.uid != "" && WellFormed(g) && NewIds(g, ids) && AfterUpdate(g, own, partnerId, c, ids).Success?
    ensures var found := FindEntry(PartnerEntries(AfterEnsureOwn(g, own, ids.own).entities, own.uid), partnerId);
            var (after, newId) := AfterUpdate(g, own, partnerId, c, ids).value;
            var again := FindEntry(PartnerEntries(after.entities, own.uid), newId);
            && found.Some?
            && var entry := found.value;
               if entry.caNode.Some? || (entry.outgoing.Some? && entry.outgoing.value.name != "") then
                 && newId == partnerId && again.Some? && again.value.caUid == entry.caUid
                 && IdOf(again.value.caNode) == IdOf(entry.caNode)
                 && (c.direction == Some(WeDial) && entry.outgoing.None? ==> IdOf(again.value.outgoing) == Some(ids.out))
                 && (c.direction != Some(TheyDial) && entry.outgoing.Some? ==> IdOf(again.value.outgoing) == IdOf(entry.outgoing))
               else
                 newId == "" && ((forall e | e in after.entities :: e.id != "") ==> again.None?)
  {
    var g0 := AfterEnsureOwn(g, own, ids.own);
    NewIdsDiffer(g, ids);
    EnsuredOwn(g, own, ids.own);
    EnsureOwnWellFormed(g, own, ids.own);
    var ownNode := OwnEntity(g0.entities, own.uid);
    var entry := FindEntry(PartnerEntries(g0.entities, own.uid), partnerId).value;
    var w0 := Settled(g, own, partnerId, c, ids).value;
    SettledGood(g, own, partnerId, c, ids);
    SwitchedWork(g0, ownNode, entry, c, ids);
    FinishKeepsNodes(w0, c, ids);
    FinishedAlike(w0, c, ids);
    if entry.caNode.Some? {
      CaPartnerIsFound(g0, ownNode, own.uid, partnerId, c, ids);
      AlikePartners(w0.g.entities, Finished(w0, c, ids).value.g.entities, own.uid, partnerId);
    } else {
      OutgoingPartnerIsFound(g0, ownNode, own.uid, partnerId, c, ids);
    }
  }
}

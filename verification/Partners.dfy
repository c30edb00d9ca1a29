/**
  Partner discovery (raven/fedhub_partners.py): which nodes of the active policy make up a
  partner, and which live connection belongs to which partner.
*/
module Partners {
  import opened Wrappers
  import opened PolicyGraph

  predicate LinkedTo(e: Entity, uid: string) {
    e.typ == Outgoing && NodeMeta(e).ca == Some(uid)
  }

  /** The first outgoing node whose metadata names this CA. */
  function FirstLinked(es: seq<Entity>, uid: string): Option<Entity> {
    if es == [] then None
    else
      var before, e := FirstLinked(es[..|es| - 1], uid), es[|es| - 1];
      if before.Some? then before else if LinkedTo(e, uid) then Some(e) else None
  }

  /** The first CA node with this uid. */
  function FirstGroup(es: seq<Entity>, uid: string): Option<Entity> {
    if es == [] then None
    else
      var before, e := FirstGroup(es[..|es| - 1], uid), es[|es| - 1];
      if before.Some? then before else if IsGroupOf(e, uid) then Some(e) else None
  }

  ghost predicate ForeignUid(es: seq<Entity>, ownUid: string, uid: string) {
    exists e | e in es :: IsForeignGroup(e, ownUid) && e.name == uid
  }

  /** Entries of the first loop: CA partners only, no uid twice, nothing dialling yet. */
  ghost predicate CaOnly(entries: seq<Entry>) {
    && (forall i | 0 <= i < |entries| ::
          && entries[i].caUid == Some(entries[i].id)
          && entries[i].caNode.Some?
          && entries[i].outgoing.None?)
    && (forall i, j | 0 <= i < j < |entries| :: entries[i].id != entries[j].id)
  }

  /** The first loop gives every foreign CA uid exactly one entry, built on its first node. */
  lemma {:induction false} CaEntriesShape(es: seq<Entity>, ownUid: string)
    ensures CaOnly(CaEntries(es, ownUid))
    ensures forall uid :: HasUid(CaEntries(es, ownUid), uid) <==> ForeignUid(es, ownUid, uid)
    ensures forall c | c in CaEntries(es, ownUid) :: c.caNode == FirstGroup(es, c.id)
  {
    if es == [] {
      assert CaEntries(es, ownUid) == [];
    } else {
      var front, e := es[..|es| - 1], es[|es| - 1];
      assert es == front + [e];
      CaEntriesShape(front, ownUid);
      var before, after := CaEntries(front, ownUid), CaEntries(es, ownUid);
      forall uid
        ensures HasUid(after, uid) <==> ForeignUid(es, ownUid, uid)
      {
        if HasUid(before, uid) {
          var k :| 0 <= k < |before| && before[k].caUid == Some(uid);
          assert after[k].caUid == Some(uid);
        }
        if ForeignUid(es, ownUid, uid) && !ForeignUid(front, ownUid, uid) {
          assert IsForeignGroup(e, ownUid) && e.name == uid;
          assert after[|before|].caUid == Some(uid);
        }
        if ForeignUid(front, ownUid, uid) {
          var x :| x in front && IsForeignGroup(x, ownUid) && x.name == uid;
          assert x in es;
        }
        if IsForeignGroup(e, ownUid) && e.name == uid {
          assert e in es;
        }
      }
      forall c | c in after
        ensures c.caNode == FirstGroup(es, c.id)
      {
        if c in before {
          assert c.caNode.Some?;
        } else {
          NoFirstGroup(front, ownUid, e.name);
        }
      }
      forall i, j | 0 <= i < j < |after|
        ensures after[i].id != after[j].id
      {
        if j == |before| {
          assert before[i].caUid == Some(before[i].id);
        }
      }
    }
  }

  lemma {:induction false} NoFirstGroup(es: seq<Entity>, ownUid: string, uid: string)
    requires uid != "" && uid != ownUid && !ForeignUid(es, ownUid, uid)
    ensures FirstGroup(es, uid).None?
  {
    if es != [] {
      var front := es[..|es| - 1];
      assert forall e | e in front :: e in es;
      NoFirstGroup(front, ownUid, uid);
      assert es[|es| - 1] in es;
    }
  }

  /** entries after the second loop over es, seen from the CA entries the first loop made. */
  ghost predicate Placed(base: seq<Entry>, es: seq<Entity>, entries: seq<Entry>) {
    && |base| <= |entries|
    && (forall i | 0 <= i < |base| :: entries[i] == base[i].(outgoing := FirstLinked(es, base[i].id)))
    && (forall i | |base| <= i < |entries| ::
          entries[i].caUid.None? && entries[i].caNode.None? && entries[i].outgoing.Some?
          && entries[i] == OutgoingEntry(entries[i].outgoing.value))
  }

  /** A CA's entry gets the first outgoing node linked to it; all others stand on their own. */
  lemma {:induction false} PlaceAllShape(base: seq<Entry>, es: seq<Entity>)
    requires CaOnly(base)
    ensures Placed(base, es, PlaceAll(base, es))
  {
    if es != [] {
      var front, e := es[..|es| - 1], es[|es| - 1];
      PlaceAllShape(base, front);
      var before := PlaceAll(base, front);
      forall uid | HasUid(before, uid)
        ensures IndexOfUid(before, uid) < |base| && base[IndexOfUid(before, uid)].id == uid
      {
        var k := IndexOfUid(before, uid);
        assert k < |base|;
        assert before[k].caUid == base[k].caUid;
      }
      forall i | 0 <= i < |base|
        ensures PlaceAll(base, es)[i] == base[i].(outgoing := FirstLinked(es, base[i].id))
      {
        if LinkedTo(e, base[i].id) {
          assert before[i].caUid == Some(base[i].id);
          assert HasUid(before, base[i].id);
          assert base[IndexOfUid(before, base[i].id)].id == base[i].id;
          assert IndexOfUid(before, base[i].id) == i;
        }
      }
    }
  }

  /** How many entries dial through this node. */
  function Dialled(entries: seq<Entry>, node: Entity): nat {
    if entries == [] then 0
    else Dialled(entries[..|entries| - 1], node) + if entries[|entries| - 1].outgoing == Some(node) then 1 else 0
  }

  /** How often this node is among the entities as an outgoing one. */
  function OutgoingCount(es: seq<Entity>, node: Entity): nat {
    if es == [] then 0
    else OutgoingCount(es[..|es| - 1], node) + if es[|es| - 1] == node && node.typ == Outgoing then 1 else 0
  }

  lemma {:induction false} JoinAddsOne(entries: seq<Entry>, i: nat, e: Entity, node: Entity)
    requires i < |entries| && entries[i].outgoing.None?
    ensures Dialled(entries[i := entries[i].(outgoing := Some(e))], node) == Dialled(entries, node) + if e == node then 1 else 0
  {
    var after := entries[i := entries[i].(outgoing := Some(e))];
    var n := |entries| - 1;
    if i == n {
      assert after[..n] == entries[..n];
    } else {
      assert after[..n] == entries[..n][i := entries[i].(outgoing := Some(e))];
      JoinAddsOne(entries[..n], i, e, node);
    }
  }

  /** No outgoing node is lost or listed twice by the second loop. */
  lemma {:induction false} PlaceAllKeepsOutgoing(base: seq<Entry>, es: seq<Entity>, node: Entity)
    ensures Dialled(PlaceAll(base, es), node) == Dialled(base, node) + OutgoingCount(es, node)
  {
    if es != [] {
      var front, e := es[..|es| - 1], es[|es| - 1];
      PlaceAllKeepsOutgoing(base, front, node);
      var before := PlaceAll(base, front);
      if e.typ == Outgoing {
        var join := JoinIndex(before, e);
        if join.Some? {
          JoinAddsOne(before, join.value, e, node);
        } else {
          assert (before + [OutgoingEntry(e)])[..|before|] == before;
        }
      }
    }
  }

  lemma {:induction false} CaOnlyDialsNobody(entries: seq<Entry>, node: Entity)
    requires forall i | 0 <= i < |entries| :: entries[i].outgoing.None?
    ensures Dialled(entries, node) == 0
  {
    if entries != [] {
      CaOnlyDialsNobody(entries[..|entries| - 1], node);
    }
  }

  /** Every outgoing node is in exactly one partner, every foreign CA uid names exactly one. */
  lemma PartnersAreAPartition(es: seq<Entity>, ownUid: string)
    ensures forall node :: Dialled(PartnerEntries(es, ownUid), node) == OutgoingCount(es, node)
    ensures forall uid :: HasUid(PartnerEntries(es, ownUid), uid) <==> ForeignUid(es, ownUid, uid)
    ensures forall i, j | 0 <= i < j < |PartnerEntries(es, ownUid)| ::
              PartnerEntries(es, ownUid)[i].caUid.Some? ==>
              PartnerEntries(es, ownUid)[i].caUid != PartnerEntries(es, ownUid)[j].caUid
    ensures forall c | c in PartnerEntries(es, ownUid) && c.caUid.Some? ::
              c.caNode == FirstGroup(es, c.caUid.value) && c.outgoing == FirstLinked(es, c.caUid.value)
  {
    var base, all := CaEntries(es, ownUid), PartnerEntries(es, ownUid);
    CaEntriesShape(es, ownUid);
    PlaceAllShape(base, es);
    forall node ensures Dialled(all, node) == OutgoingCount(es, node) {
      PlaceAllKeepsOutgoing(base, es, node);
      CaOnlyDialsNobody(base, node);
    }
    PlacedKeepsUids(base, es, all);
    forall c | c in all && c.caUid.Some?
      ensures c.caNode == FirstGroup(es, c.caUid.value) && c.outgoing == FirstLinked(es, c.caUid.value)
    {
      var i :| 0 <= i < |base| && all[i] == c;
      assert base[i] in base;
    }
  }

  lemma PlacedKeepsUids(base: seq<Entry>, es: seq<Entity>, all: seq<Entry>)
    requires CaOnly(base) && Placed(base, es, all)
    ensures forall uid :: HasUid(all, uid) <==> HasUid(base, uid)
    ensures forall i, j | 0 <= i < j < |all| :: all[i].caUid.Some? ==> all[i].caUid != all[j].caUid
    ensures forall c | c in all && c.caUid.Some? :: exists i :: 0 <= i < |base| && all[i] == c
  {
  }

  lemma {:induction false} FindEntryAt(entries: seq<Entry>, i: nat)
    requires i < |entries|
    requires forall j | 0 <= j < i :: entries[j].id != entries[i].id
    ensures FindEntry(entries, entries[i].id) == Some(entries[i])
  {
    if i > 0 {
      FindEntryAt(entries[1..], i - 1);
    }
  }

  /** Looking a partner up by a foreign CA's uid finds that CA's entry, whatever other nodes are called. */
  lemma FindByUid(es: seq<Entity>, ownUid: string, uid: string)
    requires ForeignUid(es, ownUid, uid)
    ensures FindEntry(PartnerEntries(es, ownUid), uid)
         == Some(Entry(uid, Some(uid), FirstGroup(es, uid), FirstLinked(es, uid)))
  {
    var base, all := CaEntries(es, ownUid), PartnerEntries(es, ownUid);
    CaEntriesShape(es, ownUid);
    PlaceAllShape(base, es);
    assert HasUid(base, uid);
    var i := IndexOfUid(base, uid);
    assert base[i] in base;
    FindEntryAt(all, i);
  }

  /** partner_entries: two loops over the entities sharing the dict by_uid and the list order. */
  method ListPartners(es: seq<Entity>, ownUid: string) returns (order: seq<Entry>)
    ensures order == PartnerEntries(es, ownUid)
  {
    order := [];
    var byUid: map<string, nat> := map[];
    for i := 0 to |es|
      invariant order == CaEntries(es[..i], ownUid)
      invariant Indexes(byUid, order)
    {
      var e := es[i];
      assert es[..i + 1][..i] == es[..i];
      if IsForeignGroup(e, ownUid) && e.name !in byUid {
        IndexGrows(byUid, order, CaEntry(e));
        byUid := byUid[e.name := |order|];
        order := order + [CaEntry(e)];
      }
    }
    assert es[..|es|] == es;
    order := PlaceOutgoingNodes(es, order, byUid);
  }

  /** The second loop: each outgoing node joins the entry of the CA it is linked to, or stands on its own. */
  method PlaceOutgoingNodes(es: seq<Entity>, base: seq<Entry>, byUid: map<string, nat>) returns (order: seq<Entry>)
    requires Indexes(byUid, base)
    ensures order == PlaceAll(base, es)
  {
    order := base;
    for i := 0 to |es|
      invariant order == PlaceAll(base, es[..i])
      invariant Indexes(byUid, order)
    {
      var e := es[i];
      assert es[..i + 1][..i] == es[..i];
      if e.typ == Outgoing {
        var linked := NodeMeta(e).ca;
        if linked.Some? && linked.value in byUid && order[byUid[linked.value]].outgoing.None? {
          var k := byUid[linked.value];
          IndexStays(byUid, order, order[k := order[k].(outgoing := Some(e))]);
          order := order[k := order[k].(outgoing := Some(e))];
        } else {
          IndexGrows(byUid, order, OutgoingEntry(e));
          order := order + [OutgoingEntry(e)];
        }
      }
    }
    assert es[..|es|] == es;
  }

  /** The dict by_uid: where the entry of each foreign uid is. */
  ghost predicate Indexes(byUid: map<string, nat>, order: seq<Entry>) {
    && (forall uid :: uid in byUid <==> HasUid(order, uid))
    && forall uid | uid in byUid :: byUid[uid] == IndexOfUid(order, uid)
  }

  lemma IndexGrows(byUid: map<string, nat>, order: seq<Entry>, entry: Entry)
    requires Indexes(byUid, order) && (entry.caUid.Some? ==> entry.caUid.value !in byUid)
    ensures Indexes(if entry.caUid.Some? then byUid[entry.caUid.value := |order|] else byUid, order + [entry])
  {
    GrowIndex(order, entry);
  }

  lemma IndexStays(byUid: map<string, nat>, a: seq<Entry>, b: seq<Entry>)
    requires Indexes(byUid, a) && |a| == |b| && forall i | 0 <= i < |a| :: a[i].caUid == b[i].caUid
    ensures Indexes(byUid, b)
  {
  }

  lemma GrowIndex(order: seq<Entry>, entry: Entry)
    ensures forall uid :: HasUid(order + [entry], uid) <==> HasUid(order, uid) || entry.caUid == Some(uid)
    ensures forall uid | HasUid(order, uid) :: IndexOfUid(order + [entry], uid) == IndexOfUid(order, uid)
    ensures forall uid | !HasUid(order, uid) && entry.caUid == Some(uid) :: IndexOfUid(order + [entry], uid) == |order|
  {
    var grown := order + [entry];
    assert grown[|order|] == entry;
    forall uid
      ensures HasUid(grown, uid) <==> HasUid(order, uid) || entry.caUid == Some(uid)
    {
      if HasUid(order, uid) {
        var k :| 0 <= k < |order| && order[k].caUid == Some(uid);
        assert grown[k].caUid == Some(uid);
      }
    }
    forall uid | HasUid(order, uid)
      ensures IndexOfUid(grown, uid) == IndexOfUid(order, uid)
    {
      var i, k := IndexOfUid(grown, uid), IndexOfUid(order, uid);
      assert forall j | 0 <= j < |order| :: grown[j] == order[j];
    }
    forall uid | !HasUid(order, uid) && entry.caUid == Some(uid)
      ensures IndexOfUid(grown, uid) == |order|
    {
      assert forall j | 0 <= j < |order| :: grown[j] == order[j];
    }
  }

  // --- live connections ---

  datatype Connection = Connection(id: string, groups: seq<string>, other: string)

  /** connection_is: the id is the name, or the name followed by "-". */
  predicate ConnectionIs(cid: string, name: string) {
    cid != "" && name != "" && (cid == name || name + "-" <= cid)
  }

  predicate DialledBy(entry: Entry, conn: Connection) {
    entry.outgoing.Some? && ConnectionIs(conn.id, entry.outgoing.value.name)
  }

  predicate PresentsCaOf(entry: Entry, conn: Connection) {
    entry.caUid.Some? && entry.caUid.value != "" && entry.caUid.value in conn.groups
  }

  function FirstDialler(entries: seq<Entry>, conn: Connection): Option<Entry> {
    if entries == [] then None
    else if DialledBy(entries[0], conn) then Some(entries[0])
    else FirstDialler(entries[1..], conn)
  }

  function FirstPresenter(entries: seq<Entry>, conn: Connection): Option<Entry> {
    if entries == [] then None
    else if PresentsCaOf(entries[0], conn) then Some(entries[0])
    else FirstPresenter(entries[1..], conn)
  }

  function Owner(entries: seq<Entry>, conn: Connection): Option<Entry> {
    var dialler := FirstDialler(entries, conn);
    if dialler.Some? then dialler else FirstPresenter(entries, conn)
  }

  datatype Destination = ToPartner(id: string) | ToBridge | ToRest

  function DestinationOf(entries: seq<Entry>, conn: Connection, ownUid: string, bridgeUid: string): Destination {
    var owner := Owner(entries, conn);
    if owner.Some? then ToPartner(owner.value.id)
    else if ConnectionIs(conn.id, bridgeUid) && (ownUid == "" || ownUid in conn.groups) then ToBridge
    else ToRest
  }

  /** The connections that go to one destination, in the order they came. */
  function Going(entries: seq<Entry>, conns: seq<Connection>, ownUid: string, bridgeUid: string,
                 where: Destination): seq<Connection>
  {
    if conns == [] then []
    else
      var before := Going(entries, conns[..|conns| - 1], ownUid, bridgeUid, where);
      var conn := conns[|conns| - 1];
      if DestinationOf(entries, conn, ownUid, bridgeUid) == where then before + [conn] else before
  }

  lemma {:induction false} OwnerIsAnEntry(entries: seq<Entry>, conn: Connection)
    ensures FirstDialler(entries, conn).Some? ==> FirstDialler(entries, conn).value in entries
    ensures FirstPresenter(entries, conn).Some? ==> FirstPresenter(entries, conn).value in entries
  {
    if entries != [] {
      OwnerIsAnEntry(entries[1..], conn);
    }
  }

  /** The first entry that satisfies a condition, as a search from the front finds it. */
  lemma {:induction false} FirstDiallerIff(entries: seq<Entry>, conn: Connection, i: nat)
    requires i < |entries|
    ensures FirstDialler(entries, conn).None? ==> !DialledBy(entries[i], conn)
    ensures DialledBy(entries[i], conn) && (forall j | 0 <= j < i :: !DialledBy(entries[j], conn)) ==>
              FirstDialler(entries, conn) == Some(entries[i])
  {
    if i > 0 {
      FirstDiallerIff(entries[1..], conn, i - 1);
      assert !DialledBy(entries[0], conn) ==> forall j | 0 <= j < i - 1 :: entries[1..][j] == entries[j + 1];
    }
  }

  lemma {:induction false} FirstPresenterIff(entries: seq<Entry>, conn: Connection, i: nat)
    requires i < |entries|
    ensures FirstPresenter(entries, conn).None? ==> !PresentsCaOf(entries[i], conn)
    ensures PresentsCaOf(entries[i], conn) && (forall j | 0 <= j < i :: !PresentsCaOf(entries[j], conn)) ==>
              FirstPresenter(entries, conn) == Some(entries[i])
  {
    if i > 0 {
      FirstPresenterIff(entries[1..], conn, i - 1);
      assert !PresentsCaOf(entries[0], conn) ==> forall j | 0 <= j < i - 1 :: entries[1..][j] == entries[j + 1];
    }
  }

  /** A connection goes by its id: that of an outgoing node, alone or followed by a dash and more. */
  lemma DialledByIff(entry: Entry, conn: Connection)
    ensures DialledBy(entry, conn) <==>
              && entry.outgoing.Some? && entry.outgoing.value.name != ""
              && var name := entry.outgoing.value.name;
                 conn.id == name || (|conn.id| > |name| && conn.id[..|name|] == name && conn.id[|name|] == '-')
  {
    if entry.outgoing.Some? {
      var name := entry.outgoing.value.name;
      if name + "-" <= conn.id {
        assert conn.id[..|name| + 1] == name + "-" && conn.id[..|name| + 1][..|name|] == conn.id[..|name|];
        assert conn.id[|name|] == (name + "-")[|name|];
      }
      if |conn.id| > |name| && conn.id[..|name|] == name && conn.id[|name|] == '-' {
        assert conn.id[..|name| + 1] == name + "-";
      }
    }
  }

  /**
    Where a connection goes: to the first partner whose outgoing node it is, failing that to the first whose CA
    it presents, failing that to this hub's bridge if it is that and presents this hub's CA where that is known.
  */
  lemma ConnectionGoesTo(entries: seq<Entry>, conn: Connection, ownUid: string, bridgeUid: string, i: nat)
    requires i < |entries|
    ensures DialledBy(entries[i], conn) && (forall j | 0 <= j < i :: !DialledBy(entries[j], conn)) ==>
              DestinationOf(entries, conn, ownUid, bridgeUid) == ToPartner(entries[i].id)
    ensures && (forall j | 0 <= j < |entries| :: !DialledBy(entries[j], conn))
            && entries[i].caUid.Some? && entries[i].caUid.value != "" && entries[i].caUid.value in conn.groups
            && (forall j | 0 <= j < i ::
                  !(entries[j].caUid.Some? && entries[j].caUid.value != "" && entries[j].caUid.value in conn.groups)) ==>
              DestinationOf(entries, conn, ownUid, bridgeUid) == ToPartner(entries[i].id)
  {
    FirstDiallerIff(entries, conn, i);
    FirstPresenterIff(entries, conn, i);
    OwnerIsAnEntry(entries, conn);
    NoDialler(entries, conn);
  }

  lemma {:induction false} NoDialler(entries: seq<Entry>, conn: Connection)
    ensures FirstDialler(entries, conn).Some? ==> DialledBy(FirstDialler(entries, conn).value, conn)
    ensures FirstPresenter(entries, conn).Some? ==> PresentsCaOf(FirstPresenter(entries, conn).value, conn)
  {
    if entries != [] {
      NoDialler(entries[1..], conn);
    }
  }

  /** A connection of no partner goes to the bridge or to the rest. */
  lemma StrayGoesTo(entries: seq<Entry>, conn: Connection, ownUid: string, bridgeUid: string)
    requires forall e | e in entries ::
               !DialledBy(e, conn) && !(e.caUid.Some? && e.caUid.value != "" && e.caUid.value in conn.groups)
    ensures DestinationOf(entries, conn, ownUid, bridgeUid)
            == if bridgeUid != "" && (ownUid == "" || ownUid in conn.groups)
                  && (conn.id == bridgeUid
                      || (|conn.id| > |bridgeUid| && conn.id[..|bridgeUid|] == bridgeUid && conn.id[|bridgeUid|] == '-'))
               then ToBridge else ToRest
  {
    OwnerIsAnEntry(entries, conn);
    NoDialler(entries, conn);
    if bridgeUid != "" {
      var bridge := OutgoingEntry(Entity("", Outgoing, "", bridgeUid, NoDescription, Config(true, false, "", 0), ""));
      DialledByIff(bridge, conn);
      assert DialledBy(bridge, conn) <==> ConnectionIs(conn.id, bridgeUid);
    }
  }

  /** attribute_connections */
  method AttributeConnections(entries: seq<Entry>, conns: seq<Connection>, ownUid: string, bridgeUid: string)
    returns (byPartner: map<string, seq<Connection>>, ownBridge: seq<Connection>, rest: seq<Connection>)
    ensures byPartner.Keys == set e | e in entries :: e.id
    ensures forall id | id in byPartner :: byPartner[id] == Going(entries, conns, ownUid, bridgeUid, ToPartner(id))
    ensures ownBridge == Going(entries, conns, ownUid, bridgeUid, ToBridge)
    ensures rest == Going(entries, conns, ownUid, bridgeUid, ToRest)
  {
    byPartner, ownBridge, rest := map e | e in entries :: e.id := [], [], [];
    for k := 0 to |conns|
      invariant byPartner.Keys == set e | e in entries :: e.id
      invariant forall id | id in byPartner :: byPartner[id] == Going(entries, conns[..k], ownUid, bridgeUid, ToPartner(id))
      invariant ownBridge == Going(entries, conns[..k], ownUid, bridgeUid, ToBridge)
      invariant rest == Going(entries, conns[..k], ownUid, bridgeUid, ToRest)
    {
      var conn := conns[k];
      assert conns[..k + 1][..k] == conns[..k];
      var owner := FindOwner(entries, conn);
      OwnerIsAnEntry(entries, conn);
      if owner.Some? {
        byPartner := byPartner[owner.value.id := byPartner[owner.value.id] + [conn]];
      } else if ConnectionIs(conn.id, bridgeUid) && (ownUid == "" || ownUid in conn.groups) {
        ownBridge := ownBridge + [conn];
      } else {
        rest := rest + [conn];
      }
    }
    assert conns[..|conns|] == conns;
  }

  /** The two inner loops of attribute_connections: diallers first, then CA groups. */
  method FindOwner(entries: seq<Entry>, conn: Connection) returns (owner: Option<Entry>)
    ensures owner == Owner(entries, conn)
  {
    owner := None;
    var i := 0;
    while i < |entries|
      invariant 0 <= i <= |entries|
      invariant FirstDialler(entries, conn) == FirstDialler(entries[i..], conn)
    {
      if DialledBy(entries[i], conn) {
        return Some(entries[i]);
      }
      i := i + 1;
    }
    i := 0;
    while i < |entries|
      invariant 0 <= i <= |entries|
      invariant FirstPresenter(entries, conn) == FirstPresenter(entries[i..], conn)
    {
      if PresentsCaOf(entries[i], conn) {
        return Some(entries[i]);
      }
      i := i + 1;
    }
  }

  /**
    Every connection lands, as often as it was given, in exactly one list; a partner's list
    exists for every partner a connection can be attributed to.
  */
  lemma {:induction false} NothingLostOrDuplicated(entries: seq<Entry>, conns: seq<Connection>, ownUid: string,
                                  bridgeUid: string, conn: Connection, where: Destination)
    ensures multiset(Going(entries, conns, ownUid, bridgeUid, where))[conn]
         == if where == DestinationOf(entries, conn, ownUid, bridgeUid) then multiset(conns)[conn] else 0
    ensures DestinationOf(entries, conn, ownUid, bridgeUid).ToPartner? ==>
            exists e | e in entries :: e.id == DestinationOf(entries, conn, ownUid, bridgeUid).id
  {
    OwnerIsAnEntry(entries, conn);
    if conns != [] {
      var front, last := conns[..|conns| - 1], conns[|conns| - 1];
      NothingLostOrDuplicated(entries, front, ownUid, bridgeUid, conn, where);
      assert conns == front + [last];
    }
  }
}

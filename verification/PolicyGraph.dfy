/**
  The federation policy as raven/fedhub_partners.py sees it: a directed graph of entities and
  rules plus the editor's canvas. This module holds the data and what each edit makes of it;
  Policy.dfy edits a policy in place, PolicyProofs.dfy proves what the edits guarantee.
  A missing JSON string is the empty string: the source only ever tests these for truth.
*/
module PolicyGraph {
  import opened Wrappers
  import opened Canvas

  datatype NodeType = Group | Outgoing | OtherType(name: string)

  /** Raven's bookkeeping, kept as JSON in an entity's description. */
  datatype Meta = Meta(kind: Option<string>, ca: Option<string>, expires: Option<string>)

  /** A description: none, text from the native console, or Raven's JSON with that text alongside. */
  datatype Description = NoDescription | Note(text: string) | Raven(note: Option<string>, meta: Meta)

  datatype Config = Config(enabled: bool, interconnected: bool, host: string, port: int)

  /** other: every field this code carries through as is. */
  datatype Entity = Entity(
    id: string, typ: NodeType, displayName: string, name: string,
    description: Description, config: Config, other: string)

  /** share/receive as the page shows it; the hub's filter has the same three parts. */
  datatype Filter = Filter(typ: string, allowed: seq<string>, disallowed: seq<string>)

  datatype Rule = Rule(
    id: string, name: string, source: string, destination: string, filter: Filter, other: string)

  datatype Graph = Graph(entities: seq<Entity>, rules: seq<Rule>, nodes: Nodes)

  datatype OwnCa = OwnCa(uid: string, nickname: string)

  datatype EditError = NotFound | NeedsCa | InvalidHost | NotDialing

  const ALL_GROUPS := Filter("allGroups", [], [])
  const NO_META := Meta(None, None, None)

  // --- lookups ---

  function NodeMeta(e: Entity): Meta {
    if e.description.Raven? then e.description.meta else NO_META
  }

  function Or<T>(given: Option<T>, kept: Option<T>): Option<T> {
    if given.Some? then given else kept
  }

  /** set_node_meta: given values overwrite, absent ones and a typed note are kept. */
  function WithMeta(e: Entity, kind: Option<string>, ca: Option<string>, expires: Option<string>): Entity {
    var kept := NodeMeta(e);
    var note := match e.description
      case NoDescription => None
      case Note(text) => Some(text)
      case Raven(note, _) => note;
    e.(description := Raven(note, Meta(Or(kind, kept.kind), Or(ca, kept.ca), Or(expires, kept.expires))))
  }

  function Display(e: Entity): string {
    if e.displayName != "" then e.displayName else if e.name != "" then e.name else e.id
  }

  predicate IsGroupOf(e: Entity, uid: string) {
    e.typ == Group && e.name == uid
  }

  function FindEntity(es: seq<Entity>, id: string): Option<Entity> {
    if es == [] then None
    else if es[0].id == id then Some(es[0])
    else FindEntity(es[1..], id)
  }

  /** own_node: the first CA node of this hub, enabled or not. */
  function OwnNode(es: seq<Entity>, uid: string): Option<Entity> {
    if es == [] || uid == "" then None
    else if IsGroupOf(es[0], uid) then Some(es[0])
    else OwnNode(es[1..], uid)
  }

  /** own_node_enabled(...) is not None */
  predicate OwnNodeEnabled(es: seq<Entity>, uid: string) {
    uid != "" && exists e | e in es :: IsGroupOf(e, uid) && e.config.enabled
  }

  function IdsOf(es: seq<Entity>): set<string> {
    set e | e in es :: e.id
  }

  /** _rule: the first rule source -> destination. */
  function FindRule(rs: seq<Rule>, source: string, destination: string): Option<Rule> {
    if rs == [] then None
    else if Connects(rs[0], source, destination) then Some(rs[0])
    else FindRule(rs[1..], source, destination)
  }

  predicate Connects(r: Rule, source: string, destination: string) {
    r.source == source && r.destination == destination
  }

  predicate Touches(r: Rule, ids: set<string>) {
    r.source in ids || r.destination in ids
  }

  /** filter_from_rule: a rule without a filter type lets all groups through. */
  function FilterFromRule(r: Rule): Filter {
    if r.filter.typ == "" then r.filter.(typ := "allGroups") else r.filter
  }

  function FilterOr(r: Option<Rule>): Filter {
    if r.Some? then FilterFromRule(r.value) else ALL_GROUPS
  }

  // --- partners ---

  /** One card of the guided page: a partner's CA node, its outgoing node, or both. */
  datatype Entry = Entry(id: string, caUid: Option<string>, caNode: Option<Entity>, outgoing: Option<Entity>)

  function CaEntry(e: Entity): Entry {
    Entry(e.name, Some(e.name), Some(e), None)
  }

  function OutgoingEntry(e: Entity): Entry {
    Entry(if e.name != "" then e.name else e.id, None, None, Some(e))
  }

  predicate IsForeignGroup(e: Entity, ownUid: string) {
    e.typ == Group && e.name != "" && e.name != ownUid
  }

  predicate HasUid(entries: seq<Entry>, uid: string) {
    exists i | 0 <= i < |entries| :: entries[i].caUid == Some(uid)
  }

  /** The first loop of partner_entries: one entry per foreign CA uid, in order of appearance. */
  function CaEntries(es: seq<Entity>, ownUid: string): seq<Entry> {
    if es == [] then []
    else
      var before := CaEntries(es[..|es| - 1], ownUid);
      var e := es[|es| - 1];
      if IsForeignGroup(e, ownUid) && !HasUid(before, e.name) then before + [CaEntry(e)] else before
  }

  /** Position of the entry an outgoing node joins: its CA's, if that has no outgoing node yet. */
  function JoinIndex(entries: seq<Entry>, e: Entity): Option<nat> {
    var ca := NodeMeta(e).ca;
    if ca.Some? && HasUid(entries, ca.value) then
      var i := IndexOfUid(entries, ca.value);
      if entries[i].outgoing.None? then Some(i) else None
    else None
  }

  function IndexOfUid(entries: seq<Entry>, uid: string): (i: nat)
    requires HasUid(entries, uid)
    ensures i < |entries| && entries[i].caUid == Some(uid)
    ensures forall j | 0 <= j < i :: entries[j].caUid != Some(uid)
  {
    if entries[0].caUid == Some(uid) then 0
    else
      assert HasUid(entries[1..], uid) by {
        var k :| 0 <= k < |entries| && entries[k].caUid == Some(uid);
        assert entries[1..][k - 1].caUid == Some(uid);
      }
      1 + IndexOfUid(entries[1..], uid)
  }

  function PlaceOutgoing(entries: seq<Entry>, e: Entity): seq<Entry> {
    match JoinIndex(entries, e)
    case Some(i) => entries[i := entries[i].(outgoing := Some(e))]
    case None => entries + [OutgoingEntry(e)]
  }

  /** The second loop of partner_entries over the entities es, starting from some entries. */
  function PlaceAll(entries: seq<Entry>, es: seq<Entity>): seq<Entry> {
    if es == [] then entries
    else
      var before := PlaceAll(entries, es[..|es| - 1]);
      var e := es[|es| - 1];
      if e.typ == Outgoing then PlaceOutgoing(before, e) else before
  }

  function PartnerEntries(es: seq<Entity>, ownUid: string): seq<Entry> {
    PlaceAll(CaEntries(es, ownUid), es)
  }

  function FindEntry(entries: seq<Entry>, id: string): Option<Entry> {
    if entries == [] then None
    else if entries[0].id == id then Some(entries[0])
    else FindEntry(entries[1..], id)
  }

  function EntryNodes(entry: Entry): seq<Entity> {
    (if entry.caNode.Some? then [entry.caNode.value] else [])
    + (if entry.outgoing.Some? then [entry.outgoing.value] else [])
  }

  const KINDS: set<string> := {"raven_hub", "tak_server", "other"}

  /** _kind: the first known kind among the entry's nodes. */
  function KindOf(nodes: seq<Entity>): string {
    if nodes == [] then "other"
    else
      var kind := NodeMeta(nodes[0]).kind;
      if kind.Some? && kind.value in KINDS then kind.value else KindOf(nodes[1..])
  }

  // --- what the elementary edits make of the lists ---

  function WithoutEntities(es: seq<Entity>, ids: set<string>): seq<Entity> {
    if es == [] then []
    else if es[0].id in ids then WithoutEntities(es[1..], ids)
    else [es[0]] + WithoutEntities(es[1..], ids)
  }

  function WithoutRules(rs: seq<Rule>, ids: set<string>): seq<Rule> {
    if rs == [] then []
    else if Touches(rs[0], ids) then WithoutRules(rs[1..], ids)
    else [rs[0]] + WithoutRules(rs[1..], ids)
  }

  function WithoutPair(rs: seq<Rule>, source: string, destination: string): seq<Rule> {
    if rs == [] then []
    else if Connects(rs[0], source, destination) then WithoutPair(rs[1..], source, destination)
    else [rs[0]] + WithoutPair(rs[1..], source, destination)
  }

  function RuleName(source: Entity, destination: Entity): string {
    Display(source) + " -> " + Display(destination)
  }

  /** The rules after set_rule: the first match takes the filter, later matches go. */
  function AfterSetRule(rs: seq<Rule>, source: Entity, destination: Entity, filter: Filter, newId: string): seq<Rule> {
    if rs == [] then [Rule(newId, RuleName(source, destination), source.id, destination.id, filter, "")]
    else if Connects(rs[0], source.id, destination.id) then
      [rs[0].(filter := filter)] + WithoutPair(rs[1..], source.id, destination.id)
    else [rs[0]] + AfterSetRule(rs[1..], source, destination, filter, newId)
  }

  /** One in-place change to a partner's node. */
  datatype NodeEdit =
    | Rename(name: string)
    | SetKind(kind: string)
    | SetEnabled(enabled: bool)
    | SetInterconnected(interconnected: bool)
    | SetAddress(host: Option<string>, port: Option<int>)

  function Edited(e: Entity, edit: NodeEdit): (r: Entity)
    ensures r.id == e.id && r.typ == e.typ && r.name == e.name
  {
    match edit
    case Rename(name) => e.(displayName := name)
    case SetKind(kind) => WithMeta(e, Some(kind), None, None)
    case SetEnabled(enabled) => e.(config := e.config.(enabled := enabled))
    case SetInterconnected(on) => e.(config := e.config.(interconnected := on))
    case SetAddress(host, port) =>
      e.(config := e.config.(host := if host.Some? then host.value else e.config.host,
                             port := if port.Some? then port.value else e.config.port))
  }

  /** The entities after editing the one with this id (ids are distinct in a hub policy). */
  function EditEntity(es: seq<Entity>, id: string, edit: NodeEdit): seq<Entity> {
    if es == [] then []
    else if es[0].id == id then [Edited(es[0], edit)] + es[1..]
    else [es[0]] + EditEntity(es[1..], id, edit)
  }

  function EditAll(es: seq<Entity>, ids: seq<string>, edit: NodeEdit): seq<Entity>
    decreases |ids|
  {
    if ids == [] then es else EditAll(EditEntity(es, ids[0], edit), ids[1..], edit)
  }

  /** One step of _rename_rules: a name built from the old display names, or none, is rebuilt. */
  function RenamedRule(r: Rule, es: seq<Entity>, nodeId: string, oldDisplay: string): (renamed: Rule)
    ensures renamed.(name := r.name) == r
  {
    var source, destination := FindEntity(es, r.source), FindEntity(es, r.destination);
    if !Touches(r, {nodeId}) || source.None? || destination.None? then r
    else
      var oldSource := if r.source == nodeId then oldDisplay else Display(source.value);
      var oldDestination := if r.destination == nodeId then oldDisplay else Display(destination.value);
      if r.name == "" || r.name == oldSource + " -> " + oldDestination
      then r.(name := RuleName(source.value, destination.value))
      else r
  }

  function RenamedRules(rs: seq<Rule>, es: seq<Entity>, nodeId: string, oldDisplay: string): seq<Rule> {
    if rs == [] then []
    else [RenamedRule(rs[0], es, nodeId, oldDisplay)] + RenamedRules(rs[1..], es, nodeId, oldDisplay)
  }

  function NewGroupNode(id: string, uid: string, displayName: string, interconnected: bool,
                        kind: Option<string>, expires: Option<string>): Entity
  {
    var node := Entity(id, Group, displayName, uid, NoDescription, Config(true, interconnected, "", 0), "");
    if kind.Some? || expires.Some? then WithMeta(node, kind, None, expires) else node
  }

  function NewOutgoingNode(id: string, suffix: string, displayName: string, host: string, port: int,
                           kind: Option<string>, ca: Option<string>): Entity
  {
    WithMeta(Entity(id, Outgoing, displayName, displayName + "_" + suffix, NoDescription,
                    Config(true, false, host, port), ""), kind, ca, None)
  }

  /** Appends a node and gives it a place on the canvas. */
  function AfterAddNode(g: Graph, node: Entity): Graph {
    g.(entities := g.entities + [node], nodes := AfterAddItem(g.nodes, node.id))
  }

  // --- the edits ---

  /** The uuid4 values one edit draws. */
  datatype Ids = Ids(own: string, ca: string, out: string, suffix: string,
                     r1: string, r2: string, r3: string, r4: string, r5: string, r6: string)

  /** ensure_own_node */
  function AfterEnsureOwn(g: Graph, own: OwnCa, newId: string): Graph {
    if OwnNodeEnabled(g.entities, own.uid) then g
    else
      match OwnNode(g.entities, own.uid)
      case Some(node) => g.(entities := EnableFirst(g.entities, own.uid))
      case None =>
        AfterAddNode(g, NewGroupNode(newId, own.uid, if own.nickname != "" then own.nickname else "This hub",
                                     false, None, None))
  }

  /** The first CA node of this hub switched on. */
  function EnableFirst(es: seq<Entity>, uid: string): seq<Entity> {
    if es == [] then []
    else if IsGroupOf(es[0], uid) then [Edited(es[0], SetEnabled(true))] + es[1..]
    else [es[0]] + EnableFirst(es[1..], uid)
  }

  lemma {:induction false} EnableFirstAt(es: seq<Entity>, uid: string, i: nat)
    requires i < |es| && IsGroupOf(es[i], uid) && forall j | 0 <= j < i :: !IsGroupOf(es[j], uid)
    ensures EnableFirst(es, uid) == es[i := Edited(es[i], SetEnabled(true))]
  {
    if i > 0 {
      EnableFirstAt(es[1..], uid, i - 1);
    }
  }

  /** Rules both ways between this hub and one node of a partner. */
  function AfterSetBoth(rs: seq<Rule>, own: Entity, node: Entity, share: Filter, receive: Filter,
                        r1: string, r2: string): seq<Rule>
  {
    AfterSetRule(AfterSetRule(rs, own, node, share, r1), node, own, receive, r2)
  }

  datatype Address = Address(host: string, port: int)

  /** What the caller validated; dial is present when we dial them. */
  datatype NewPartner = NewPartner(
    name: string, kind: Option<string>, dial: Option<Address>, caUid: string, interconnected: bool,
    share: Option<Filter>, receive: Option<Filter>, expires: Option<string>)

  function CaNodeOf(p: NewPartner, ids: Ids): Entity {
    NewGroupNode(ids.ca, p.caUid, p.name, p.interconnected, p.kind, p.expires)
  }

  function OutNodeOf(p: NewPartner, ids: Ids): Entity
    requires p.dial.Some?
  {
    NewOutgoingNode(ids.out, ids.suffix, p.name, p.dial.value.host, p.dial.value.port, p.kind, Some(p.caUid))
  }

  function SpecOr(f: Option<Filter>): Filter {
    if f.Some? then f.value else ALL_GROUPS
  }

  /** own_node after ensure_own_node; own["uid"] is never empty. */
  function OwnEntity(es: seq<Entity>, uid: string): Entity
    requires OwnNode(es, uid).Some?
  {
    OwnNode(es, uid).value
  }

  lemma {:induction false} OwnNodeExists(es: seq<Entity>, uid: string)
    requires uid != ""
    requires exists e | e in es :: IsGroupOf(e, uid)
    ensures OwnNode(es, uid).Some?
    ensures OwnNode(es, uid).value in es && IsGroupOf(OwnNode(es, uid).value, uid)
  {
    if !IsGroupOf(es[0], uid) {
      OwnNodeExists(es[1..], uid);
    }
  }

  lemma {:induction false} OwnNodeFound(es: seq<Entity>, uid: string)
    requires OwnNode(es, uid).Some?
    ensures OwnNode(es, uid).value in es && IsGroupOf(OwnNode(es, uid).value, uid)
  {
    if !IsGroupOf(es[0], uid) {
      OwnNodeFound(es[1..], uid);
    }
  }

  lemma {:induction false} EnableFirstKeepsOwn(es: seq<Entity>, uid: string)
    requires OwnNode(es, uid).Some?
    ensures OwnNode(EnableFirst(es, uid), uid) == Some(Edited(OwnNode(es, uid).value, SetEnabled(true)))
  {
    if !IsGroupOf(es[0], uid) {
      EnableFirstKeepsOwn(es[1..], uid);
      assert EnableFirst(es, uid)[1..] == EnableFirst(es[1..], uid);
    }
  }

  /** After ensure_own_node the hub has an own node, and one of its own nodes is enabled. */
  lemma EnsuredOwn(g: Graph, own: OwnCa, newId: string)
    requires own.uid != ""
    ensures var es := AfterEnsureOwn(g, own, newId).entities;
            && OwnNode(es, own.uid).Some?
            && OwnNode(es, own.uid).value in es
            && IsGroupOf(OwnNode(es, own.uid).value, own.uid)
            && OwnNodeEnabled(es, own.uid)
  {
    var es := AfterEnsureOwn(g, own, newId).entities;
    if OwnNodeEnabled(g.entities, own.uid) {
      OwnNodeExists(es, own.uid);
    } else if OwnNode(g.entities, own.uid).Some? {
      EnableFirstKeepsOwn(g.entities, own.uid);
      OwnNodeFound(es, own.uid);
    } else {
      var node := es[|es| - 1];
      assert node in es && IsGroupOf(node, own.uid);
      OwnNodeExists(es, own.uid);
    }
  }

  function AfterAdd(g: Graph, own: OwnCa, p: NewPartner, ids: Ids): Graph
    requires own.uid != ""
  {
    var g0 := AfterEnsureOwn(g, own, ids.own);
    EnsuredOwn(g, own, ids.own);
    var ownNode := OwnEntity(g0.entities, own.uid);
    var ca := CaNodeOf(p, ids);
    var g1 := AfterAddNode(g0, ca);
    var g2 := if p.dial.Some? then AfterAddNode(g1, OutNodeOf(p, ids)) else g1;
    var share, receive := SpecOr(p.share), SpecOr(p.receive);
    var rules1 := AfterSetBoth(g2.rules, ownNode, ca, share, receive, ids.r1, ids.r2);
    var rules2 := if p.dial.Some?
      then AfterSetBoth(rules1, ownNode, OutNodeOf(p, ids), share, receive, ids.r3, ids.r4)
      else rules1;
    g2.(rules := rules2)
  }

  function RemovedIdsOf(es: seq<Entity>, entry: Entry): set<string> {
    (set n | n in EntryNodes(entry) :: n.id)
    + (if entry.caUid.Some? then set e | e in es && IsGroupOf(e, entry.caUid.value) :: e.id else {})
  }

  function WithoutNodes(g: Graph, ids: set<string>): Graph {
    Graph(WithoutEntities(g.entities, ids), WithoutRules(g.rules, ids), AfterDropItems(g.nodes, ids))
  }

  /** remove_partner: the new policy and the partner's CA uid. */
  function AfterRemove(g: Graph, ownUid: string, partnerId: string): Result<(Graph, Option<string>), EditError> {
    match FindEntry(PartnerEntries(g.entities, ownUid), partnerId)
    case None => Failure(NotFound)
    case Some(entry) => Success((WithoutNodes(g, RemovedIdsOf(g.entities, entry)), entry.caUid))
  }

  datatype Direction = WeDial | TheyDial

  /** The validated fields of an update; None for a key that is not in the request. */
  datatype Changes = Changes(
    name: Option<string>, enabled: Option<bool>, host: Option<string>, port: Option<int>,
    interconnected: Option<bool>, share: Option<Filter>, receive: Option<Filter>,
    direction: Option<Direction>, kind: Option<string>)

  /** An update in progress: the policy, the partner's nodes by id, and whether we just made one dial. */
  datatype Work = Work(g: Graph, own: string, caUid: Option<string>, ca: Option<string>, out: Option<string>, created: bool)

  function NodeIds(w: Work): seq<string> {
    (if w.ca.Some? then [w.ca.value] else []) + (if w.out.Some? then [w.out.value] else [])
  }

  function IdOf(e: Option<Entity>): Option<string> {
    if e.Some? then Some(e.value.id) else None
  }

  predicate GivesAddress(c: Changes) {
    c.host.Some? && c.host.value != "" && c.port.Some? && c.port.value != 0
  }

  function SwitchDirection(w: Work, entry: Entry, c: Changes, ownNode: Entity, ids: Ids): Result<Work, EditError> {
    if c.direction == Some(TheyDial) && entry.outgoing.Some? then
      if entry.caNode.None? then Failure(NeedsCa)
      else Success(w.(g := WithoutNodes(w.g, {entry.outgoing.value.id}), out := None))
    else if c.direction == Some(WeDial) && entry.outgoing.None? && entry.caNode.Some? then
      if !GivesAddress(c) then Failure(InvalidHost)
      else
        var ca := entry.caNode.value;
        var out := NewOutgoingNode(ids.out, ids.suffix, Display(ca), c.host.value, c.port.value,
                                   Some(KindOf(EntryNodes(entry))), entry.caUid);
        var g := AfterAddNode(w.g, out);
        var share := FilterOr(FindRule(g.rules, ownNode.id, ca.id));
        var receive := FilterOr(FindRule(g.rules, ca.id, ownNode.id));
        var rules := AfterSetBoth(g.rules, ownNode, out, share, receive, ids.r1, ids.r2);
        Success(w.(g := g.(rules := rules), out := Some(out.id), created := true))
    else Success(w)
  }

  /** The display name of the node with this id, "" if there is none. */
  function DisplayOf(es: seq<Entity>, id: string): string {
    var e := FindEntity(es, id);
    if e.Some? then Display(e.value) else ""
  }

  function RenameNodes(g: Graph, nodeIds: seq<string>, name: string): Graph
    decreases |nodeIds|
  {
    if nodeIds == [] then g
    else
      var before := DisplayOf(g.entities, nodeIds[0]);
      var es := EditEntity(g.entities, nodeIds[0], Rename(name));
      RenameNodes(g.(entities := es, rules := RenamedRules(g.rules, es, nodeIds[0], before)), nodeIds[1..], name)
  }

  function EditNodes(g: Graph, nodeIds: seq<string>, edit: NodeEdit): Graph {
    g.(entities := EditAll(g.entities, nodeIds, edit))
  }

  function SetName(w: Work, name: Option<string>): Work {
    if name.Some? then w.(g := RenameNodes(w.g, NodeIds(w), name.value)) else w
  }

  /** One field of the request set on every node of the partner, if the request has it. */
  function SetField(w: Work, edit: Option<NodeEdit>): Work {
    if edit.Some? then w.(g := EditNodes(w.g, NodeIds(w), edit.value)) else w
  }

  function KindEdit(c: Changes): Option<NodeEdit> {
    if c.kind.Some? then Some(SetKind(c.kind.value)) else None
  }

  function EnabledEdit(c: Changes): Option<NodeEdit> {
    if c.enabled.Some? then Some(SetEnabled(c.enabled.value)) else None
  }

  function SetNames(w: Work, c: Changes): Work {
    SetField(SetField(SetName(w, c.name), KindEdit(c)), EnabledEdit(c))
  }

  function SetInterconnection(w: Work, c: Changes): Result<Work, EditError> {
    if c.interconnected.None? then Success(w)
    else if w.ca.None? then Failure(NeedsCa)
    else Success(w.(g := EditNodes(w.g, [w.ca.value], SetInterconnected(c.interconnected.value))))
  }

  function ChangeAddress(w: Work, c: Changes): Result<Work, EditError> {
    if (c.host.None? && c.port.None?) || c.direction == Some(TheyDial) then Success(w)
    else if w.out.None? then Failure(NotDialing)
    else if w.created then Success(w)
    else Success(w.(g := EditNodes(w.g, [w.out.value], SetAddress(c.host, c.port))))
  }

  /** The loop over the partner's nodes that sets one direction of rules. */
  function SetSide(g: Graph, own: string, nodeIds: seq<string>, outbound: bool, f: Filter, r1: string, r2: string): Graph
    decreases |nodeIds|
  {
    if nodeIds == [] then g
    else
      var o, n := FindEntity(g.entities, own), FindEntity(g.entities, nodeIds[0]);
      var rules :=
        if o.None? || n.None? then g.rules
        else if outbound then AfterSetRule(g.rules, o.value, n.value, f, r1)
        else AfterSetRule(g.rules, n.value, o.value, f, r1);
      SetSide(g.(rules := rules), own, nodeIds[1..], outbound, f, r2, r2)
  }

  function SetFilters(w: Work, c: Changes, ids: Ids): Work {
    var w1 := if c.share.Some? then w.(g := SetSide(w.g, w.own, NodeIds(w), true, c.share.value, ids.r3, ids.r4)) else w;
    if c.receive.Some? then w1.(g := SetSide(w1.g, w1.own, NodeIds(w1), false, c.receive.value, ids.r5, ids.r6)) else w1
  }

  /** The work update_partner starts with: the ensured policy and the entry's nodes. */
  function StartWork(g: Graph, ownNode: Entity, entry: Entry): Work {
    Work(g, ownNode.id, entry.caUid, IdOf(entry.caNode), IdOf(entry.outgoing), false)
  }

  /** Everything update_partner does once it is settled who dials. */
  function Finished(w: Work, c: Changes, ids: Ids): Result<Work, EditError> {
    match SetInterconnection(SetNames(w, c), c)
    case Failure(e) => Failure(e)
    case Success(w1) =>
      match ChangeAddress(w1, c)
      case Failure(e) => Failure(e)
      case Success(w2) => Success(SetFilters(w2, c, ids))
  }

  /** The partner's id afterwards: its CA's uid, or the name of its outgoing node. */
  function NewId(w: Work): string {
    if w.caUid.Some? then w.caUid.value
    else if w.out.Some? && FindEntity(w.g.entities, w.out.value).Some?
    then FindEntity(w.g.entities, w.out.value).value.name
    else ""
  }

  /** update_partner up to the point where it is settled who dials. */
  function Settled(g: Graph, own: OwnCa, partnerId: string, c: Changes, ids: Ids): Result<Work, EditError>
    requires own.uid != ""
  {
    var g0 := AfterEnsureOwn(g, own, ids.own);
    EnsuredOwn(g, own, ids.own);
    var ownNode := OwnEntity(g0.entities, own.uid);
    match FindEntry(PartnerEntries(g0.entities, own.uid), partnerId)
    case None => Failure(NotFound)
    case Some(entry) => SwitchDirection(StartWork(g0, ownNode, entry), entry, c, ownNode, ids)
  }

  /** update_partner up to its return: the finished work on the ensured policy. */
  function UpdateWork(g: Graph, own: OwnCa, partnerId: string, c: Changes, ids: Ids): Result<Work, EditError>
    requires own.uid != ""
  {
    match Settled(g, own, partnerId, c, ids)
    case Failure(e) => Failure(e)
    case Success(w) => Finished(w, c, ids)
  }

  /** update_partner: the new policy and the partner's new id. */
  function AfterUpdate(g: Graph, own: OwnCa, partnerId: string, c: Changes, ids: Ids): Result<(Graph, string), EditError>
    requires own.uid != ""
  {
    match UpdateWork(g, own, partnerId, c, ids)
    case Failure(e) => Failure(e)
    case Success(w) => Success((w.g, NewId(w)))
  }
}

/**
  The policy edits of raven/fedhub_partners.py as they happen: methods that change the lists of a
  policy in place, on a copy of the caller's policy. Each is proved against PolicyGraph.dfy.
*/
module PolicyEdits {
  import opened Wrappers
  import opened Canvas
  import opened PolicyGraph
  import opened Partners

  /** Editing a node changes the first one with the id, at its place; without one nothing. */
  lemma {:induction false} EditEntityAt(es: seq<Entity>, id: string, edit: NodeEdit, i: nat)
    requires i <= |es| && (forall j | 0 <= j < i :: es[j].id != id) && (i < |es| ==> es[i].id == id)
    ensures EditEntity(es, id, edit) == if i < |es| then es[i := Edited(es[i], edit)] else es
  {
    if i > 0 {
      EditEntityAt(es[1..], id, edit, i - 1);
    }
  }

  /** What set_rule still has to keep of the rules it has not looked at. */
  function SetRuleFrom(rs: seq<Rule>, s: Entity, d: Entity, f: Filter, id: string, found: bool): seq<Rule> {
    if found then WithoutPair(rs, s.id, d.id) else AfterSetRule(rs, s, d, f, id)
  }

  lemma Regroup<T>(a: seq<T>, x: T, b: seq<T>)
    ensures a + [x] + b == a + ([x] + b)
  {
  }

  class Policy {
    var entities: seq<Entity>
    var rules: seq<Rule>
    var nodes: Nodes

    function Data(): Graph
      reads this
    {
      Graph(entities, rules, nodes)
    }

    /** copy.deepcopy */
    constructor Copy(g: Graph)
      ensures Data() == g
    {
      entities, rules, nodes := g.entities, g.rules, g.nodes;
    }

    method AddViewNode(id: string)
      modifies this`nodes
      ensures nodes == AfterAddItem(old(nodes), id)
    {
      var index, spot := FindFreeCell(Taken(Values(nodes)));
      var item := NewItem(id, spot);
      match nodes
      case NoNodes => nodes := ListNodes([item]);
      case ListNodes(items) => nodes := ListNodes(items + [item]);
      case DictNodes(entries) =>
        var i := 0;
        while i < |entries| && entries[i].0 != id
          invariant i <= |entries| && forall j | 0 <= j < i :: entries[j].0 != id
        {
          i := i + 1;
        }
        PutEntryAt(entries, id, item, i);
        nodes := DictNodes(if i < |entries| then entries[i := (id, item)] else entries + [(id, item)]);
    }

    method RemoveViewNodes(ids: set<string>)
      modifies this`nodes
      ensures nodes == AfterDropItems(old(nodes), ids)
    {
      match nodes
      case NoNodes =>
      case ListNodes(items) =>
        var kept := [];
        for i := 0 to |items|
          invariant kept + DropItems(items[i..], ids) == DropItems(items, ids)
        {
          assert items[i..] == [items[i]] + items[i + 1..];
          if !Names(items[i], ids) { kept := kept + [items[i]]; }
        }
        nodes := ListNodes(kept);
      case DictNodes(entries) =>
        var kept := [];
        for i := 0 to |entries|
          invariant kept + DropEntries(entries[i..], ids) == DropEntries(entries, ids)
        {
          assert entries[i..] == [entries[i]] + entries[i + 1..];
          if !(entries[i].0 in ids || Names(entries[i].1, ids)) { kept := kept + [entries[i]]; }
        }
        nodes := DictNodes(kept);
    }

    /** set_rule: the first match keeps its place and id, the others are dropped. */
    method SetRule(source: Entity, destination: Entity, filter: Filter, newId: string)
      modifies this`rules
      ensures rules == AfterSetRule(old(rules), source, destination, filter, newId)
    {
      var all, kept, found := rules, [], false;
      for i := 0 to |all|
        invariant rules == all
        invariant kept + SetRuleFrom(all[i..], source, destination, filter, newId, found)
               == AfterSetRule(all, source, destination, filter, newId)
      {
        var rest := all[i + 1..];
        assert all[i..] == [all[i]] + rest;
        if !Connects(all[i], source.id, destination.id) {
          Regroup(kept, all[i], SetRuleFrom(rest, source, destination, filter, newId, found));
          kept := kept + [all[i]];
        } else if !found {
          Regroup(kept, all[i].(filter := filter), SetRuleFrom(rest, source, destination, filter, newId, true));
          kept, found := kept + [all[i].(filter := filter)], true;
        }
      }
      if !found {
        kept := kept + [Rule(newId, RuleName(source, destination), source.id, destination.id, filter, "")];
      }
      rules := kept;
    }

    method AddNode(node: Entity)
      modifies this`entities, this`nodes
      ensures Data() == AfterAddNode(old(Data()), node)
    {
      entities := entities + [node];
      AddViewNode(node.id);
    }

    /** Drops nodes with their rules and canvas items. */
    method DropNodes(ids: set<string>)
      modifies this
      ensures Data() == WithoutNodes(old(Data()), ids)
    {
      var keptEntities, keptRules := [], [];
      for i := 0 to |entities|
        invariant Data() == old(Data())
        invariant keptEntities + WithoutEntities(entities[i..], ids) == WithoutEntities(entities, ids)
      {
        assert entities[i..] == [entities[i]] + entities[i + 1..];
        if entities[i].id !in ids { keptEntities := keptEntities + [entities[i]]; }
      }
      for i := 0 to |rules|
        invariant Data() == old(Data())
        invariant keptRules + WithoutRules(rules[i..], ids) == WithoutRules(rules, ids)
      {
        assert rules[i..] == [rules[i]] + rules[i + 1..];
        if !Touches(rules[i], ids) { keptRules := keptRules + [rules[i]]; }
      }
      entities, rules := keptEntities, keptRules;
      RemoveViewNodes(ids);
    }

    method EditNode(id: string, edit: NodeEdit)
      modifies this`entities
      ensures entities == EditEntity(old(entities), id, edit)
    {
      var i := 0;
      while i < |entities| && entities[i].id != id
        invariant i <= |entities| && forall j | 0 <= j < i :: entities[j].id != id
      {
        i := i + 1;
      }
      EditEntityAt(entities, id, edit, i);
      if i < |entities| {
        entities := entities[i := Edited(entities[i], edit)];
      }
    }

    method RenameRules(id: string, oldDisplay: string)
      modifies this`rules
      ensures rules == RenamedRules(old(rules), entities, id, oldDisplay)
    {
      var all, named := rules, [];
      for i := 0 to |all|
        invariant rules == all
        invariant named + RenamedRules(all[i..], entities, id, oldDisplay) == RenamedRules(all, entities, id, oldDisplay)
      {
        assert all[i..] == [all[i]] + all[i + 1..];
        named := named + [RenamedRule(all[i], entities, id, oldDisplay)];
      }
      rules := named;
    }

    method RenameAll(ids: seq<string>, name: string)
      modifies this`entities, this`rules
      ensures Data() == RenameNodes(old(Data()), ids, name)
    {
      for i := 0 to |ids|
        invariant nodes == old(nodes)
        invariant RenameNodes(Data(), ids[i..], name) == RenameNodes(old(Data()), ids, name)
      {
        assert ids[i..][1..] == ids[i + 1..];
        var before := DisplayOf(entities, ids[i]);
        EditNode(ids[i], Rename(name));
        RenameRules(ids[i], before);
      }
    }

    method EditEach(ids: seq<string>, edit: NodeEdit)
      modifies this`entities
      ensures Data() == EditNodes(old(Data()), ids, edit)
    {
      for i := 0 to |ids|
        invariant EditAll(entities, ids[i..], edit) == EditAll(old(entities), ids, edit)
      {
        assert ids[i..][1..] == ids[i + 1..];
        EditNode(ids[i], edit);
      }
    }

    /** The loop of update_partner that sets one direction of rules. */
    method SetSideRules(own: string, ids: seq<string>, outbound: bool, filter: Filter, r1: string, r2: string)
      modifies this`rules
      ensures Data() == SetSide(old(Data()), own, ids, outbound, filter, r1, r2)
    {
      for i := 0 to |ids|
        invariant SetSide(Data(), own, ids[i..], outbound, filter, if i == 0 then r1 else r2, r2)
               == SetSide(old(Data()), own, ids, outbound, filter, r1, r2)
      {
        assert ids[i..][1..] == ids[i + 1..];
        var o, n := FindEntity(entities, own), FindEntity(entities, ids[i]);
        if o.Some? && n.Some? {
          if outbound {
            SetRule(o.value, n.value, filter, if i == 0 then r1 else r2);
          } else {
            SetRule(n.value, o.value, filter, if i == 0 then r1 else r2);
          }
        }
      }
    }

    /** existing.setdefault("config", {})["enabled"] = True */
    method EnableOwn(uid: string)
      requires OwnNode(entities, uid).Some?
      modifies this`entities
      ensures entities == EnableFirst(old(entities), uid)
    {
      var i := 0;
      OwnNodeFound(entities, uid);
      while !IsGroupOf(entities[i], uid)
        invariant i < |entities| && forall j | 0 <= j < i :: !IsGroupOf(entities[j], uid)
        invariant exists j | i <= j < |entities| :: IsGroupOf(entities[j], uid)
        decreases |entities| - i
      {
        i := i + 1;
      }
      EnableFirstAt(entities, uid, i);
      entities := entities[i := Edited(entities[i], SetEnabled(true))];
    }

    method EnsureOwnNode(own: OwnCa, newId: string) returns (changed: bool)
      modifies this
      ensures Data() == AfterEnsureOwn(old(Data()), own, newId)
      ensures changed == !OwnNodeEnabled(old(entities), own.uid)
    {
      if OwnNodeEnabled(entities, own.uid) {
        return false;
      }
      var existing := OwnNode(entities, own.uid);
      if existing.Some? {
        EnableOwn(own.uid);
      } else {
        AddNode(NewGroupNode(newId, own.uid, if own.nickname != "" then own.nickname else "This hub", false, None, None));
      }
      return true;
    }
  }

  /** add_partner: the caller's policy is left alone. */
  method AddPartner(policy: Policy, own: OwnCa, p: NewPartner, ids: Ids) returns (copy: Policy, partnerId: string)
    requires own.uid != ""
    ensures fresh(copy) && copy.Data() == AfterAdd(policy.Data(), own, p, ids)
    ensures partnerId == p.caUid
  {
    copy := new Policy.Copy(policy.Data());
    var _ := copy.EnsureOwnNode(own, ids.own);
    EnsuredOwn(policy.Data(), own, ids.own);
    var ownEntity := OwnEntity(copy.entities, own.uid);
    var share, receive := SpecOr(p.share), SpecOr(p.receive);
    var caNode := CaNodeOf(p, ids);
    copy.AddNode(caNode);
    if p.dial.Some? {
      copy.AddNode(OutNodeOf(p, ids));
    }
    ghost var g := copy.Data();
    copy.SetRule(ownEntity, caNode, share, ids.r1);
    copy.SetRule(caNode, ownEntity, receive, ids.r2);
    assert copy.Data() == g.(rules := AfterSetBoth(g.rules, ownEntity, caNode, share, receive, ids.r1, ids.r2));
    if p.dial.Some? {
      copy.SetRule(ownEntity, OutNodeOf(p, ids), share, ids.r3);
      copy.SetRule(OutNodeOf(p, ids), ownEntity, receive, ids.r4);
    }
    partnerId := p.caUid;
  }

  /** remove_partner: the caller's policy is left alone. */
  method RemovePartner(policy: Policy, ownUid: string, partnerId: string)
    returns (copy: Policy, caUid: Result<Option<string>, EditError>)
    ensures fresh(copy)
    ensures match AfterRemove(policy.Data(), ownUid, partnerId)
            case Failure(e) => caUid == Failure(e)
            case Success(r) => copy.Data() == r.0 && caUid == Success(r.1)
  {
    copy := new Policy.Copy(policy.Data());
    var entries := ListPartners(copy.entities, ownUid);
    var entry := FindEntry(entries, partnerId);
    if entry.None? {
      return copy, Failure(NotFound);
    }
    copy.DropNodes(RemovedIdsOf(copy.entities, entry.value));
    caUid := Success(entry.value.caUid);
  }

  /** The part of update_partner that settles who dials. */
  method SetDirection(policy: Policy, entry: Entry, c: Changes, ownEntity: Entity, ids: Ids)
    returns (out: Option<string>, created: bool, error: Option<EditError>)
    modifies policy
    ensures var w := StartWork(old(policy.Data()), ownEntity, entry);
            match SwitchDirection(w, entry, c, ownEntity, ids)
            case Failure(e) => error == Some(e)
            case Success(w1) => error == None && w1 == w.(g := policy.Data(), out := out, created := created)
  {
    out, created, error := IdOf(entry.outgoing), false, None;
    if c.direction == Some(TheyDial) && entry.outgoing.Some? {
      if entry.caNode.None? {
        error := Some(NeedsCa);
        return;
      }
      policy.DropNodes({entry.outgoing.value.id});
      out := None;
    } else if c.direction == Some(WeDial) && entry.outgoing.None? && entry.caNode.Some? {
      if !GivesAddress(c) {
        error := Some(InvalidHost);
        return;
      }
      var ca := entry.caNode.value;
      var node := NewOutgoingNode(ids.out, ids.suffix, Display(ca), c.host.value, c.port.value,
                                  Some(KindOf(EntryNodes(entry))), entry.caUid);
      policy.AddNode(node);
      var share := FilterOr(FindRule(policy.rules, ownEntity.id, ca.id));
      var receive := FilterOr(FindRule(policy.rules, ca.id, ownEntity.id));
      policy.SetRule(ownEntity, node, share, ids.r1);
      policy.SetRule(node, ownEntity, receive, ids.r2);
      out, created := Some(node.id), true;
    }
  }

  /** name, kind and enabled: w stands for where the update is when this starts. */
  method SetNodeFields(policy: Policy, ghost w: Work, nodeIds: seq<string>, c: Changes)
    requires w.g == policy.Data() && nodeIds == NodeIds(w)
    modifies policy
    ensures SetNames(w, c) == w.(g := policy.Data())
  {
    if c.name.Some? { policy.RenameAll(nodeIds, c.name.value); }
    if c.kind.Some? { policy.EditEach(nodeIds, SetKind(c.kind.value)); }
    if c.enabled.Some? { policy.EditEach(nodeIds, SetEnabled(c.enabled.value)); }
  }

  /** From the first field to the filters; the refusals come in the source's order. */
  method FinishUpdate(policy: Policy, ghost w: Work, ca: Option<string>, out: Option<string>, created: bool,
                      own: string, c: Changes, ids: Ids) returns (error: Option<EditError>)
    requires w.g == policy.Data() && w.ca == ca && w.out == out && w.created == created && w.own == own
    modifies policy
    ensures match Finished(w, c, ids)
            case Failure(e) => error == Some(e)
            case Success(r) => error == None && r == w.(g := policy.Data())
  {
    var nodeIds := (if ca.Some? then [ca.value] else []) + (if out.Some? then [out.value] else []);
    SetNodeFields(policy, w, nodeIds, c);
    if c.interconnected.Some? {
      if ca.None? {
        return Some(NeedsCa);
      }
      policy.EditEach([ca.value], SetInterconnected(c.interconnected.value));
    }
    ghost var w1 := w.(g := policy.Data());
    assert SetInterconnection(SetNames(w, c), c) == Success(w1);
    if (c.host.Some? || c.port.Some?) && c.direction != Some(TheyDial) {
      if out.None? {
        return Some(NotDialing);
      }
      if !created {
        policy.EditEach([out.value], SetAddress(c.host, c.port));
      }
    }
    assert ChangeAddress(w1, c) == Success(w.(g := policy.Data()));
    if c.share.Some? { policy.SetSideRules(own, nodeIds, true, c.share.value, ids.r3, ids.r4); }
    if c.receive.Some? { policy.SetSideRules(own, nodeIds, false, c.receive.value, ids.r5, ids.r6); }
    return None;
  }

  /** update_partner: the caller's policy is left alone, also when the request is refused. */
  method UpdatePartner(policy: Policy, own: OwnCa, partnerId: string, c: Changes, ids: Ids)
    returns (copy: Policy, newId: Result<string, EditError>)
    requires own.uid != ""
    ensures fresh(copy)
    ensures match AfterUpdate(policy.Data(), own, partnerId, c, ids)
            case Failure(e) => newId == Failure(e)
            case Success(r) => copy.Data() == r.0 && newId == Success(r.1)
  {
    copy := new Policy.Copy(policy.Data());
    var _ := copy.EnsureOwnNode(own, ids.own);
    EnsuredOwn(policy.Data(), own, ids.own);
    var ownEntity := OwnEntity(copy.entities, own.uid);
    var entries := ListPartners(copy.entities, own.uid);
    var found := FindEntry(entries, partnerId);
    if found.None? {
      return copy, Failure(NotFound);
    }
    var entry := found.value;
    ghost var w0 := StartWork(copy.Data(), ownEntity, entry);
    var out, created, error := SetDirection(copy, entry, c, ownEntity, ids);
    if error.Some? {
      return copy, Failure(error.value);
    }
    ghost var w1 := w0.(g := copy.Data(), out := out, created := created);
    assert Settled(policy.Data(), own, partnerId, c, ids) == Success(w1);
    error := FinishUpdate(copy, w1, IdOf(entry.caNode), out, created, ownEntity.id, c, ids);
    if error.Some? {
      return copy, Failure(error.value);
    }
    if entry.caUid.Some? {
      newId := Success(entry.caUid.value);
    } else {
      var node := if out.Some? then FindEntity(copy.entities, out.value) else None;
      newId := Success(if node.Some? then node.value.name else "");
    }
  }
}

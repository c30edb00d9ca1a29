/**
  Who a chat message is queued for and who the live routing reaches: _addressing in
  raven/offline_chat.py, route_cot in raven/cot_parser/cot_parser.py, and the bindings
  parse_device_info makes in raven/eud_handler/EudHandler.py.
*/
module ChatRouting {
  import opened Wrappers
  import OfflineChat

  type Membership = OfflineChat.Membership
  type Device = OfflineChat.Device

  const ALL_CHAT_ROOMS := "All Chat Rooms"
  const ANON := "__ANON__.OUT"

  datatype Dest = Dest(mission: bool, callsign: Option<string>, uid: Option<string>)

  /** A parsed event; isChat says that it has both <__chat> and <remarks>. */
  datatype Event = Event(isChat: bool, chatroom: Option<string>, chatId: Option<string>, dests: seq<Dest>)

  datatype Group = Group(id: int, name: string)

  /** groups is in id order. */
  datatype World = World(devices: seq<Device>, teams: map<string, int>, groups: seq<Group>, members: set<Membership>)

  /** The event, who sent it, as which user, and the groups a federated event names. */
  datatype Request = Request(event: Event, sender: string, user: Option<int>, targets: seq<string>)

  /** An exchange and a routing key; a device's queues are bound to some of these. */
  datatype Address = Dm(key: string) | ToGroup(key: string)

  /** Unique device uids and callsigns, and memberships of existing groups. */
  ghost predicate Sound(w: World) {
    && (forall i, j | 0 <= i < j < |w.devices| ::
          && w.devices[i].uid != w.devices[j].uid
          && (w.devices[i].callsign.Some? ==> w.devices[i].callsign != w.devices[j].callsign))
    && (forall m | m in w.members :: exists g | g in w.groups :: g.id == m.group)
    && (forall g, h | g in w.groups && h in w.groups && g.id == h.id :: g == h)
  }

  predicate Given(text: Option<string>) {
    text.Some? && text.value != ""
  }

  function Select(groups: seq<Group>, keep: Group -> bool): (ids: seq<int>)
    ensures forall id :: id in ids <==> exists g | g in groups :: g.id == id && keep(g)
  {
    if groups == [] then []
    else
      assert groups == [groups[0]] + groups[1..];
      if keep(groups[0]) then [groups[0].id] + Select(groups[1..], keep) else Select(groups[1..], keep)
  }

  function NamedGroups(groups: seq<Group>, names: seq<string>): (ids: seq<int>)
    ensures forall id :: id in ids <==> exists g | g in groups :: g.id == id && g.name in names
  {
    Select(groups, (g: Group) => g.name in names)
  }

  predicate Writes(ms: set<Membership>, user: int, group: int) {
    exists m | m in ms :: m.user == user && m.group == group && !m.outbound && m.enabled
  }

  /** _read_groups: [] is __ANON__, None is nobody. */
  function ReadGroups(w: World, user: Option<int>, targets: seq<string>): Option<seq<int>> {
    if targets != [] then
      var ids := NamedGroups(w.groups, targets);
      if ids == [] then None else Some(ids)
    else if user.None? then Some([])
    else Some(Select(w.groups, (g: Group) => Writes(w.members, user.value, g.id)))
  }

  /** _readers_where: the check as a condition on the device's row. */
  predicate ReadersWhere(ms: set<Membership>, user: Option<int>, groups: seq<int>) {
    if groups != [] then
      user.Some? && user.value in set m | m in ms && m.group in groups && m.outbound && m.enabled :: m.user
    else
      user.None? || user.value !in set m | m in ms && m.outbound :: m.user
  }

  /** The query that picks devices and the check at delivery agree on every user and every group list. */
  lemma QueryAgreesWithCheck(ms: set<Membership>, user: Option<int>, groups: seq<int>)
    ensures ReadersWhere(ms, user, groups) <==> OfflineChat.UserReads(ms, user, groups)
  {
  }

  // --- _addressing ---

  /** The destination names a device by callsign, or by a uid other than the sender's; missions do not. */
  predicate Addresses(dest: Dest, sender: string) {
    !dest.mission && (Given(dest.callsign) || (Given(dest.uid) && dest.uid.value != sender))
  }

  predicate Names(dest: Dest, device: Device) {
    if Given(dest.callsign) then device.callsign == dest.callsign else Some(device.uid) == dest.uid
  }

  predicate HasAddress(r: Request) {
    exists dest | dest in r.event.dests :: Addresses(dest, r.sender)
  }

  predicate NotForEveryone(event: Event) {
    event.isChat && event.chatId != Some(ALL_CHAT_ROOMS) && event.chatroom != Some(ALL_CHAT_ROOMS)
  }

  predicate OnTeam(w: World, r: Request, device: Device) {
    && Given(r.event.chatroom) && r.event.chatroom.value in w.teams
    && device.team == Some(w.teams[r.event.chatroom.value])
    && var groups := ReadGroups(w, r.user, r.targets);
       groups.Some? && ReadersWhere(w.members, device.user, groups.value)
  }

  /** The devices a copy is queued for. */
  predicate Picked(w: World, r: Request, device: Device) {
    && device in w.devices && device.uid != r.sender && NotForEveryone(r.event)
    && if HasAddress(r) then exists dest | dest in r.event.dests :: Addresses(dest, r.sender) && Names(dest, device)
       else OnTeam(w, r, device)
  }

  method FindNamed(w: World, dest: Dest) returns (found: Option<Device>)
    requires Sound(w) && (Given(dest.callsign) || Given(dest.uid))
    ensures forall d | d in w.devices :: Names(dest, d) <==> found == Some(d)
    ensures found.Some? ==> found.value in w.devices
  {
    found := None;
    for i := 0 to |w.devices|
      invariant forall j | 0 <= j < i :: Names(dest, w.devices[j]) <==> found == Some(w.devices[j])
      invariant found.Some? ==> exists j :: 0 <= j < i && found.value == w.devices[j]
    {
      if Names(dest, w.devices[i]) {
        found := Some(w.devices[i]);
      }
    }
  }

  /** _addressing: the recipients by uid, and for team chat the groups that may read it. */
  method Addressing(w: World, r: Request) returns (recipients: map<string, Device>, groups: Option<seq<int>>)
    requires Sound(w)
    ensures forall uid | uid in recipients :: recipients[uid].uid == uid && Picked(w, r, recipients[uid])
    ensures forall d | Picked(w, r, d) :: d.uid in recipients && recipients[d.uid] == d
    ensures groups == if NotForEveryone(r.event) && !HasAddress(r) && Given(r.event.chatroom)
                      then ReadGroups(w, r.user, r.targets) else None
  {
    recipients, groups := map[], None;
    if !NotForEveryone(r.event) {
      return;
    }
    var hasDest;
    hasDest, recipients := AddressedByDest(w, r);
    if !hasDest && Given(r.event.chatroom) {
      groups := ReadGroups(w, r.user, r.targets);
      recipients := Team(w, r);
    }
    recipients := recipients - {r.sender};
  }

  /** The loop over the destinations. */
  method AddressedByDest(w: World, r: Request) returns (hasDest: bool, recipients: map<string, Device>)
    requires Sound(w)
    ensures hasDest == HasAddress(r)
    ensures forall uid | uid in recipients :: recipients[uid].uid == uid && recipients[uid] in w.devices
              && exists dest | dest in r.event.dests :: Addresses(dest, r.sender) && Names(dest, recipients[uid])
    ensures forall d, dest | d in w.devices && dest in r.event.dests && Addresses(dest, r.sender) && Names(dest, d) ::
              d.uid in recipients && recipients[d.uid] == d
  {
    hasDest, recipients := false, map[];
    for i := 0 to |r.event.dests|
      invariant hasDest <==> exists j | 0 <= j < i :: Addresses(r.event.dests[j], r.sender)
      invariant forall uid | uid in recipients :: recipients[uid].uid == uid && recipients[uid] in w.devices
                  && exists j | 0 <= j < i :: Addresses(r.event.dests[j], r.sender) && Names(r.event.dests[j], recipients[uid])
      invariant forall d, j | d in w.devices && 0 <= j < i && Addresses(r.event.dests[j], r.sender) && Names(r.event.dests[j], d) ::
                  d.uid in recipients && recipients[d.uid] == d
    {
      var dest := r.event.dests[i];
      if Addresses(dest, r.sender) {
        hasDest := true;
        var device := FindNamed(w, dest);
        if device.Some? {
          UidsAreUnique(w);
          recipients := recipients[device.value.uid := device.value];
        }
      }
    }
  }

  lemma UidsAreUnique(w: World)
    requires Sound(w)
    ensures forall d, e | d in w.devices && e in w.devices && d.uid == e.uid :: d == e
  {
  }

  /** _team_chat_recipients */
  function Team(w: World, r: Request): (team: map<string, Device>)
    requires Sound(w)
    ensures forall uid | uid in team :: team[uid].uid == uid && team[uid] in w.devices && OnTeam(w, r, team[uid])
    ensures forall d | d in w.devices && OnTeam(w, r, d) :: d.uid in team && team[d.uid] == d
  {
    UidsAreUnique(w);
    var on := set d | d in w.devices && OnTeam(w, r, d);
    map d | d in on :: d.uid := d
  }

  // --- route_cot ---

  /** Where a <dest> sends an event: nowhere for one without a callsign naming the sender or no uid. */
  function DmOf(dest: Dest, sender: string): Option<Address> {
    if Given(dest.callsign) then Some(Dm(dest.callsign.value))
    else if dest.uid.Some? && dest.uid.value != sender then Some(Dm(dest.uid.value))
    else None
  }

  /** What the event is published to. */
  predicate RoutedTo(w: World, r: Request, node: string, to: Address) {
    && r.sender != "" && r.sender != node
    && if r.event.dests != [] then exists dest | dest in r.event.dests :: DmOf(dest, r.sender) == Some(to)
       else if r.targets != [] then exists name | name in r.targets :: to == ToGroup(name + ".OUT")
       else if r.user.Some? && exists g | g in w.groups :: Writes(w.members, r.user.value, g.id) then
         exists g | g in w.groups :: Writes(w.members, r.user.value, g.id) && to == ToGroup(g.name + ".OUT")
       else to == ToGroup(ANON)
  }

  /** route_cot, publishing as it goes. */
  method RouteCot(w: World, r: Request, node: string) returns (published: seq<Address>)
    ensures forall to :: to in published <==> RoutedTo(w, r, node, to)
  {
    published := [];
    if r.sender == "" || r.sender == node {
      return;
    }
    if r.event.dests == [] && r.targets != [] {
      for i := 0 to |r.targets|
        invariant forall to :: to in published <==> exists j | 0 <= j < i :: to == ToGroup(r.targets[j] + ".OUT")
      {
        published := published + [ToGroup(r.targets[i] + ".OUT")];
      }
      return;
    }
    for i := 0 to |r.event.dests|
      invariant forall to :: to in published <==> exists j | 0 <= j < i :: DmOf(r.event.dests[j], r.sender) == Some(to)
    {
      var to := DmOf(r.event.dests[i], r.sender);
      if to.Some? {
        published := published + [to.value];
      }
    }
    if r.event.dests == [] && r.user.None? {
      published := published + [ToGroup(ANON)];
      return;
    }
    if r.event.dests == [] {
      var any := false;
      for i := 0 to |w.groups|
        invariant any <==> exists j | 0 <= j < i :: Writes(w.members, r.user.value, w.groups[j].id)
        invariant forall to :: to in published <==>
                    exists j | 0 <= j < i :: Writes(w.members, r.user.value, w.groups[j].id) && to == ToGroup(w.groups[j].name + ".OUT")
      {
        if Writes(w.members, r.user.value, w.groups[i].id) {
          any := true;
          published := published + [ToGroup(w.groups[i].name + ".OUT")];
        }
      }
      if !any {
        published := published + [ToGroup(ANON)];
      }
    }
  }

  // --- parse_device_info ---

  predicate TakesQueue(device: Device) {
    device.platform !in OfflineChat.NO_QUEUE_PLATFORMS && device.callsign.Some?
  }

  /** The group keys of a connection: an SSL one belongs to a user, a plain one does not. */
  predicate BoundToGroup(w: World, user: Option<int>, key: string) {
    if user.Some? && exists m | m in w.members :: m.user == user.value && m.outbound then
      exists m, g | m in w.members && g in w.groups ::
        m.user == user.value && m.outbound && m.enabled && g.id == m.group && key == g.name + ".OUT"
    else key == ANON
  }

  /** The addresses the queues of a connected device are bound to. */
  predicate BoundTo(w: World, device: Device, to: Address) {
    TakesQueue(device) &&
    match to
    case Dm(key) => key == device.uid || Some(key) == device.callsign
    case ToGroup(key) => BoundToGroup(w, device.user, key)
  }

  /**
    The binding part of parse_device_info. bindings is what the broker has; listed is bound_queues,
    what closing unbinds, which also names the groups whose membership is switched off.
  */
  method BindQueues(w: World, device: Device) returns (bindings: seq<Address>, listed: seq<Address>)
    requires Sound(w)
    ensures forall to :: to in bindings <==> BoundTo(w, device, to)
    ensures forall to | to in bindings :: to in listed
    ensures forall to | to in listed && to !in bindings ::
              exists m, g | m in w.members && g in w.groups ::
                Some(m.user) == device.user && m.outbound && !m.enabled && g.id == m.group && to == ToGroup(g.name + ".OUT")
  {
    bindings, listed := [], [];
    if !TakesQueue(device) {
      return;
    }
    if device.user.Some? {
      var todo := set m | m in w.members && m.user == device.user.value && m.outbound;
      if todo == {} {
        bindings, listed := [ToGroup(ANON)], [ToGroup(ANON)];
        forall m | m in w.members ensures !(m.user == device.user.value && m.outbound) {
          assert m !in todo;
        }
      } else {
        bindings, listed := BindGroups(w, device.user.value, todo);
        assert exists m | m in w.members :: m.user == device.user.value && m.outbound;
      }
    }
    bindings := bindings + [Dm(device.uid), Dm(device.callsign.value)];
    listed := listed + [Dm(device.uid), Dm(device.callsign.value)];
    if device.user.None? {
      bindings, listed := bindings + [ToGroup(ANON)], listed + [ToGroup(ANON)];
    }
  }

  /** The loop over a user's OUT memberships. */
  method BindGroups(w: World, user: int, mine: set<Membership>) returns (bindings: seq<Address>, listed: seq<Address>)
    requires Sound(w) && mine == set m | m in w.members && m.user == user && m.outbound
    ensures forall to :: to in bindings <==>
              exists m, g | m in w.members && g in w.groups ::
                m.user == user && m.outbound && m.enabled && g.id == m.group && to == ToGroup(g.name + ".OUT")
    ensures forall to :: to in listed <==>
              exists m, g | m in w.members && g in w.groups ::
                m.user == user && m.outbound && g.id == m.group && to == ToGroup(g.name + ".OUT")
  {
    bindings, listed := [], [];
    var todo := mine;
    while todo != {}
      invariant todo <= mine
      invariant forall to :: to in bindings <==>
                  exists m, g | m in mine - todo && g in w.groups :: m.enabled && g.id == m.group && to == ToGroup(g.name + ".OUT")
      invariant forall to :: to in listed <==>
                  exists m, g | m in mine - todo && g in w.groups :: g.id == m.group && to == ToGroup(g.name + ".OUT")
      decreases |todo|
    {
      var m :| m in todo;
      var g := GroupOf(w, m);
      if m.enabled {
        bindings := bindings + [ToGroup(g.name + ".OUT")];
      }
      listed := listed + [ToGroup(g.name + ".OUT")];
      todo := todo - {m};
    }
  }

  /** membership.group */
  function GroupOf(w: World, m: Membership): (g: Group)
    requires Sound(w) && m in w.members
    ensures g in w.groups && g.id == m.group
  {
    var g :| g in w.groups && g.id == m.group;
    g
  }

  ghost predicate Reached(w: World, r: Request, node: string, device: Device) {
    exists to :: RoutedTo(w, r, node, to) && BoundTo(w, device, to)
  }

  /** The <dest>'s callsign, or without one its uid if that is not the sender's, is one of the device's two names. */
  predicate Carries(dest: Dest, sender: string, device: Device) {
    if Given(dest.callsign) then dest.callsign in {Some(device.uid), device.callsign}
    else dest.uid.Some? && dest.uid != Some(sender) && dest.uid in {Some(device.uid), device.callsign}
  }

  lemma NamedIsReached(w: World, r: Request, node: string, device: Device, dest: Dest)
    requires r.sender != "" && r.sender != node && TakesQueue(device)
    requires dest in r.event.dests && Addresses(dest, r.sender) && Names(dest, device)
    ensures Reached(w, r, node, device)
  {
    var to := DmOf(dest, r.sender).value;
    assert RoutedTo(w, r, node, to) && BoundTo(w, device, to);
  }

  lemma AnonIsReached(w: World, r: Request, node: string, device: Device)
    requires r.sender != "" && r.sender != node && TakesQueue(device) && r.event.dests == []
    requires ReadGroups(w, r.user, r.targets) == Some([]) && OfflineChat.UserReads(w.members, device.user, [])
    ensures Reached(w, r, node, device)
  {
    if r.user.Some? {
      forall g | g in w.groups ensures !Writes(w.members, r.user.value, g.id) {
        assert g.id !in ReadGroups(w, r.user, r.targets).value;
      }
    }
    assert RoutedTo(w, r, node, ToGroup(ANON));
    assert BoundTo(w, device, ToGroup(ANON));
  }

  /** A user who reads one of some groups is bound to the key of one of them. */
  lemma ReaderIsBound(w: World, device: Device, groups: seq<int>) returns (g: Group)
    requires Sound(w) && TakesQueue(device) && groups != [] && OfflineChat.UserReads(w.members, device.user, groups)
    ensures g in w.groups && g.id in groups && BoundTo(w, device, ToGroup(g.name + ".OUT"))
  {
    var m :| m in w.members && m.user == device.user.value && m.group in groups && m.outbound && m.enabled;
    g :| g in w.groups && g.id == m.group;
    assert BoundToGroup(w, device.user, g.name + ".OUT");
  }

  lemma TeamIsReached(w: World, r: Request, node: string, device: Device)
    requires Sound(w) && r.sender != "" && r.sender != node && TakesQueue(device)
    requires r.event.dests == [] && OnTeam(w, r, device)
    ensures Reached(w, r, node, device)
  {
    var groups := ReadGroups(w, r.user, r.targets).value;
    QueryAgreesWithCheck(w.members, device.user, groups);
    if groups == [] {
      AnonIsReached(w, r, node, device);
    } else {
      var g := ReaderIsBound(w, device, groups);
      ReadGroupIsRouted(w, r, node, g);
    }
  }

  /** An event without <dest> is published to every group _read_groups lists. */
  lemma ReadGroupIsRouted(w: World, r: Request, node: string, g: Group)
    requires Sound(w) && r.sender != "" && r.sender != node && r.event.dests == [] && g in w.groups
    requires ReadGroups(w, r.user, r.targets).Some? && g.id in ReadGroups(w, r.user, r.targets).value
    ensures RoutedTo(w, r, node, ToGroup(g.name + ".OUT"))
  {
  }

  /**
    Every device a copy is queued for is one the live routing reaches, if the event has no <dest>
    or some <dest> counts as an address; otherwise only those whose uid or callsign a <dest> carries.
  */
  lemma PickedIsReachedIff(w: World, r: Request, node: string, device: Device)
    requires Sound(w) && r.sender != "" && r.sender != node
    requires Picked(w, r, device) && TakesQueue(device)
    ensures Reached(w, r, node, device) <==>
              || r.event.dests == []
              || HasAddress(r)
              || exists dest | dest in r.event.dests :: Carries(dest, r.sender, device)
  {
    if HasAddress(r) {
      var dest :| dest in r.event.dests && Addresses(dest, r.sender) && Names(dest, device);
      NamedIsReached(w, r, node, device, dest);
    } else if r.event.dests == [] {
      TeamIsReached(w, r, node, device);
    } else if dest :| dest in r.event.dests && Carries(dest, r.sender, device) {
      var to := DmOf(dest, r.sender).value;
      assert RoutedTo(w, r, node, to) && BoundTo(w, device, to);
    }
  }

  // --- exactly who is reached ---

  lemma ReachedIff(w: World, r: Request, node: string, device: Device, to: Address)
    requires RoutedTo(w, r, node, to) && BoundTo(w, device, to)
    ensures Reached(w, r, node, device)
  {
  }

  /** An event from nobody or from the server itself reaches nobody, and a device without a queue is not reached. */
  lemma SilentReachesNobody(w: World, r: Request, node: string, device: Device)
    requires r.sender == "" || r.sender == node || device.callsign.None?
             || device.platform in {"OpenTAK ICU", "Meshtastic", "DMRCOT"}
    ensures !Reached(w, r, node, device)
  {
  }

  /** An event with a <dest> reaches exactly the devices one of whose two names a <dest> carries: the callsign it gives, or else a uid other than the sender's. */
  lemma DestReachesIff(w: World, r: Request, node: string, device: Device)
    requires r.sender != "" && r.sender != node
    requires device.callsign.Some? && device.platform !in {"OpenTAK ICU", "Meshtastic", "DMRCOT"}
    requires r.event.dests != []
    ensures Reached(w, r, node, device) <==>
              exists dest | dest in r.event.dests ::
                if dest.callsign.Some? && dest.callsign.value != "" then
                  dest.callsign == Some(device.uid) || dest.callsign == device.callsign
                else
                  && dest.uid.Some? && dest.uid != Some(r.sender)
                  && (dest.uid == Some(device.uid) || dest.uid == device.callsign)
  {
    if dest :| dest in r.event.dests && Carries(dest, r.sender, device) {
      ReachedIff(w, r, node, device, DmOf(dest, r.sender).value);
    }
    if Reached(w, r, node, device) {
      var to :| RoutedTo(w, r, node, to) && BoundTo(w, device, to);
      var dest :| dest in r.event.dests && DmOf(dest, r.sender) == Some(to);
      assert Carries(dest, r.sender, device);
    }
  }

  lemma SuffixIsInjective(a: string, b: string)
    requires a + ".OUT" == b + ".OUT"
    ensures a == b
  {
    assert (a + ".OUT")[..|a|] == a && (b + ".OUT")[..|b|] == b && |a| == |b|;
  }

  /** A device hears a group's key exactly if its user reads a group of that name or, for __ANON__, has no OUT membership at all. */
  lemma HearsGroupIff(w: World, device: Device, name: string)
    ensures BoundToGroup(w, device.user, name + ".OUT") <==>
              || (exists m, g | m in w.members && g in w.groups ::
                    device.user == Some(m.user) && m.outbound && m.enabled && g.id == m.group && g.name == name)
              || (name == "__ANON__" && !exists m | m in w.members :: device.user == Some(m.user) && m.outbound)
  {
    assert ANON == "__ANON__" + ".OUT";
    if name + ".OUT" == ANON {
      SuffixIsInjective(name, "__ANON__");
    }
    forall g | g in w.groups && g.name + ".OUT" == name + ".OUT" ensures g.name == name {
      SuffixIsInjective(g.name, name);
    }
  }

  /** An event without <dest> that names groups reaches exactly the devices that hear one of them. */
  lemma TargetsReachIff(w: World, r: Request, node: string, device: Device)
    requires r.sender != "" && r.sender != node
    requires device.callsign.Some? && device.platform !in {"OpenTAK ICU", "Meshtastic", "DMRCOT"}
    requires r.event.dests == [] && r.targets != []
    ensures Reached(w, r, node, device) <==>
              || (exists m, g | m in w.members && g in w.groups ::
                    device.user == Some(m.user) && m.outbound && m.enabled && g.id == m.group && g.name in r.targets)
              || ("__ANON__" in r.targets && !exists m | m in w.members :: device.user == Some(m.user) && m.outbound)
  {
    forall name | name in r.targets
      ensures BoundToGroup(w, device.user, name + ".OUT") ==> Reached(w, r, node, device)
    {
      if BoundToGroup(w, device.user, name + ".OUT") {
        ReachedIff(w, r, node, device, ToGroup(name + ".OUT"));
      }
    }
    if Reached(w, r, node, device) {
      var to :| RoutedTo(w, r, node, to) && BoundTo(w, device, to);
      var name :| name in r.targets && to == ToGroup(name + ".OUT");
      HearsGroupIff(w, device, name);
    }
    if m, g :| m in w.members && g in w.groups && device.user == Some(m.user) && m.outbound && m.enabled
               && g.id == m.group && g.name in r.targets {
      HearsGroupIff(w, device, g.name);
    }
    HearsGroupIff(w, device, "__ANON__");
  }

  /**
    An event without <dest> and targets from a user who writes to some group reaches exactly the devices whose
    user reads a group of the name of one the sender writes to; a group called __ANON__ is heard as well by
    those without any OUT membership.
  */
  lemma MembersReachIff(w: World, r: Request, node: string, device: Device)
    requires r.sender != "" && r.sender != node
    requires device.callsign.Some? && device.platform !in {"OpenTAK ICU", "Meshtastic", "DMRCOT"}
    requires r.event.dests == [] && r.targets == []
    requires exists m, g | m in w.members && g in w.groups ::
               r.user == Some(m.user) && !m.outbound && m.enabled && g.id == m.group
    ensures Reached(w, r, node, device) <==>
              exists n, h | n in w.members && h in w.groups ::
                && r.user == Some(n.user) && !n.outbound && n.enabled && h.id == n.group
                && ((exists m, g | m in w.members && g in w.groups ::
                       device.user == Some(m.user) && m.outbound && m.enabled && g.id == m.group && g.name == h.name)
                    || (h.name == "__ANON__" && !exists m | m in w.members :: device.user == Some(m.user) && m.outbound))
  {
    var m, g :| m in w.members && g in w.groups && r.user == Some(m.user) && !m.outbound && m.enabled && g.id == m.group;
    assert Writes(w.members, r.user.value, g.id);
    if Reached(w, r, node, device) {
      var to :| RoutedTo(w, r, node, to) && BoundTo(w, device, to);
      var h :| h in w.groups && Writes(w.members, r.user.value, h.id) && to == ToGroup(h.name + ".OUT");
      HearsGroupIff(w, device, h.name);
    }
    forall n, h | n in w.members && h in w.groups && r.user == Some(n.user) && !n.outbound && n.enabled && h.id == n.group
      ensures BoundToGroup(w, device.user, h.name + ".OUT") ==> Reached(w, r, node, device)
      ensures BoundToGroup(w, device.user, h.name + ".OUT") <==>
              (exists m, g | m in w.members && g in w.groups ::
                 device.user == Some(m.user) && m.outbound && m.enabled && g.id == m.group && g.name == h.name)
              || (h.name == "__ANON__" && !exists m | m in w.members :: device.user == Some(m.user) && m.outbound)
    {
      HearsGroupIff(w, device, h.name);
      if BoundToGroup(w, device.user, h.name + ".OUT") {
        assert Writes(w.members, r.user.value, h.id);
        ReachedIff(w, r, node, device, ToGroup(h.name + ".OUT"));
      }
    }
  }

  /** An event without <dest> and targets from a sender who writes to no group reaches exactly those who hear __ANON__. */
  lemma OthersReachIff(w: World, r: Request, node: string, device: Device)
    requires r.sender != "" && r.sender != node
    requires device.callsign.Some? && device.platform !in {"OpenTAK ICU", "Meshtastic", "DMRCOT"}
    requires r.event.dests == [] && r.targets == []
    requires !exists m, g | m in w.members && g in w.groups ::
               r.user == Some(m.user) && !m.outbound && m.enabled && g.id == m.group
    ensures Reached(w, r, node, device) <==>
              || (exists m, g | m in w.members && g in w.groups ::
                    device.user == Some(m.user) && m.outbound && m.enabled && g.id == m.group && g.name == "__ANON__")
              || !exists m | m in w.members :: device.user == Some(m.user) && m.outbound
  {
    HearsGroupIff(w, device, "__ANON__");
    assert ANON == "__ANON__" + ".OUT";
    if BoundToGroup(w, device.user, ANON) {
      ReachedIff(w, r, node, device, ToGroup(ANON));
    }
  }

  // --- exactly who is picked ---

  /** A copy is queued by <dest> exactly for the device it names: by callsign if it gives one, or else by a uid that is not the sender's. */
  lemma DestPicksIff(w: World, r: Request, device: Device)
    requires device in w.devices && exists dest | dest in r.event.dests :: Addresses(dest, r.sender)
    ensures Picked(w, r, device) <==>
              && device.uid != r.sender && r.event.isChat
              && r.event.chatId != Some("All Chat Rooms") && r.event.chatroom != Some("All Chat Rooms")
              && exists dest | dest in r.event.dests ::
                   && !dest.mission
                   && if dest.callsign.Some? && dest.callsign.value != "" then dest.callsign == device.callsign
                      else dest.uid.Some? && dest.uid.value != "" && dest.uid.value != r.sender && dest.uid.value == device.uid
  {
  }

  /**
    Team chat without such a <dest> picks exactly the devices on the team named by the chat room whose user
    reads a group the event names, or without any a group the sender writes to, or, if the sender writes to
    none, has no OUT membership.
  */
  lemma TeamPicksIff(w: World, r: Request, device: Device)
    requires Sound(w) && device in w.devices
    requires forall dest | dest in r.event.dests ::
               dest.mission || ((dest.callsign.None? || dest.callsign.value == "")
                                && (dest.uid.None? || dest.uid.value == "" || dest.uid.value == r.sender))
    ensures Picked(w, r, device) <==>
              && device.uid != r.sender && r.event.isChat
              && r.event.chatId != Some("All Chat Rooms") && r.event.chatroom != Some("All Chat Rooms")
              && r.event.chatroom.Some? && r.event.chatroom.value != "" && r.event.chatroom.value in w.teams
              && device.team == Some(w.teams[r.event.chatroom.value])
              && if r.targets != [] then
                   exists m, g | m in w.members && g in w.groups ::
                     device.user == Some(m.user) && m.outbound && m.enabled && g.id == m.group && g.name in r.targets
                 else if exists n | n in w.members :: r.user == Some(n.user) && !n.outbound && n.enabled then
                   exists m, n | m in w.members && n in w.members ::
                     && device.user == Some(m.user) && m.outbound && m.enabled
                     && r.user == Some(n.user) && !n.outbound && n.enabled && n.group == m.group
                 else !exists m | m in w.members :: device.user == Some(m.user) && m.outbound
  {
    assert !HasAddress(r);
    if r.targets != [] {
      TargetReaders(w, r, device);
    } else {
      SenderReaders(w, r, device);
    }
  }

  lemma TargetReaders(w: World, r: Request, device: Device)
    requires Sound(w) && r.targets != []
    ensures var groups := ReadGroups(w, r.user, r.targets);
            (groups.Some? && ReadersWhere(w.members, device.user, groups.value)) <==>
              exists m, g | m in w.members && g in w.groups ::
                device.user == Some(m.user) && m.outbound && m.enabled && g.id == m.group && g.name in r.targets
  {
    var groups := ReadGroups(w, r.user, r.targets);
    if m, g :| m in w.members && g in w.groups && device.user == Some(m.user) && m.outbound && m.enabled
               && g.id == m.group && g.name in r.targets {
      assert m.group in NamedGroups(w.groups, r.targets);
    }
    if groups.Some? && ReadersWhere(w.members, device.user, groups.value) {
      var m :| m in w.members && m.group in groups.value && m.outbound && m.enabled && m.user == device.user.value;
      var g :| g in w.groups && g.id == m.group && g.name in r.targets;
    }
  }

  lemma SenderReaders(w: World, r: Request, device: Device)
    requires Sound(w) && r.targets == []
    ensures var groups := ReadGroups(w, r.user, r.targets);
            && groups.Some?
            && (ReadersWhere(w.members, device.user, groups.value) <==>
                  if exists n | n in w.members :: r.user == Some(n.user) && !n.outbound && n.enabled then
                    exists m, n | m in w.members && n in w.members ::
                      && device.user == Some(m.user) && m.outbound && m.enabled
                      && r.user == Some(n.user) && !n.outbound && n.enabled && n.group == m.group
                  else !exists m | m in w.members :: device.user == Some(m.user) && m.outbound)
  {
    var groups := ReadGroups(w, r.user, r.targets).value;
    forall n | n in w.members && r.user == Some(n.user) && !n.outbound && n.enabled ensures n.group in groups {
      var g :| g in w.groups && g.id == n.group;
      assert Writes(w.members, r.user.value, g.id);
    }
    forall id | id in groups
      ensures exists n | n in w.members :: r.user == Some(n.user) && !n.outbound && n.enabled && n.group == id
    {
      assert r.user.Some? && Writes(w.members, r.user.value, id);
    }
    if groups != [] {
      assert groups[0] in groups;
    }
  }

  // --- queue_offline_chat, from the event on ---

  /** The row a picked device gets may be delivered on a connection of its user while the memberships stay as they are. */
  lemma PickedPassesDelivery(w: World, r: Request, device: Device, row: OfflineChat.Row)
    requires Picked(w, r, device) && row.owner == device.user
    requires row.groups == if !HasAddress(r) && Given(r.event.chatroom) then ReadGroups(w, r.user, r.targets) else None
    ensures OfflineChat.Entitled(w.members, row, device.user)
  {
    if !HasAddress(r) {
      QueryAgreesWithCheck(w.members, device.user, ReadGroups(w, r.user, r.targets).value);
    }
  }

  /** recipients.values() */
  method Values(recipients: map<string, Device>) returns (devices: seq<Device>)
    requires forall uid | uid in recipients :: recipients[uid].uid == uid
    ensures OfflineChat.DistinctUids(devices)
    ensures forall d :: d in devices <==> d.uid in recipients && recipients[d.uid] == d
  {
    devices := [];
    var todo := recipients.Keys;
    while todo != {}
      invariant todo <= recipients.Keys && OfflineChat.DistinctUids(devices)
      invariant forall d :: d in devices <==> d.uid in recipients.Keys - todo && recipients[d.uid] == d
      decreases |todo|
    {
      var uid :| uid in todo;
      assert forall i | 0 <= i < |devices| :: devices[i] in devices;
      devices, todo := devices + [recipients[uid]], todo - {uid};
    }
  }

  /**
    queue_offline_chat. A device holds a copy afterwards exactly if it did before or it was picked and
    takes a queue, and each new row is one its device's user is entitled to on reconnecting.
  */
  method QueueOfflineChat(store: OfflineChat.Store, w: World, r: Request, messageUid: string, xml: string, now: int)
    returns (queued: nat)
    requires Sound(w) && store.Valid()
    modifies store`rows, store`nextId
    ensures store.Valid() && |store.rows| == |old(store.rows)| + queued && store.rows[..|old(store.rows)|] == old(store.rows)
    ensures forall u :: OfflineChat.HasCopy(store.rows, u, messageUid) <==>
              OfflineChat.HasCopy(old(store.rows), u, messageUid)
              || (messageUid != "" && r.sender != ""
                  && exists d :: Picked(w, r, d) && d.platform !in {"OpenTAK ICU", "Meshtastic", "DMRCOT"} && !d.federated && d.uid == u)
    ensures forall i | |old(store.rows)| <= i < |store.rows| ::
              exists d :: Picked(w, r, d) && store.rows[i].recipient == d.uid && store.rows[i].owner == d.user
                          && OfflineChat.Entitled(w.members, store.rows[i], d.user)
  {
    if messageUid == "" || r.sender == "" {
      return 0;
    }
    var recipients, groups := Addressing(w, r);
    var devices := Values(recipients);
    assert forall d :: d in devices <==> Picked(w, r, d);
    var message := OfflineChat.Message(messageUid, xml, groups, now);
    ghost var before, next := store.rows, store.nextId;
    ghost var already := OfflineChat.Holders(before, messageUid);
    queued := store.Queue(message, devices);
    NewRowsAreDeliverable(w, r, devices, message, already, next);
    CopiesForPicked(w, r, before, devices, message, next);
    ghost var made := OfflineChat.Copies(devices, message, already, next);
    assert store.rows == before + made;
    assert forall i | |before| <= i < |store.rows| :: store.rows[i] in made && Deliverable(w, r, store.rows[i]);
  }

  /** Afterwards a device holds a copy exactly if it did before or was picked and takes a queue. */
  lemma CopiesForPicked(w: World, r: Request, before: seq<OfflineChat.Row>, devices: seq<Device>, message: OfflineChat.Message, next: nat)
    requires OfflineChat.SoundTable(before, next) && OfflineChat.DistinctUids(devices)
    requires forall d :: d in devices <==> Picked(w, r, d)
    ensures var made := OfflineChat.Copies(devices, message, OfflineChat.Holders(before, message.uid), next);
            forall u :: OfflineChat.HasCopy(before + made, u, message.uid) <==>
              OfflineChat.HasCopy(before, u, message.uid)
              || exists d :: Picked(w, r, d) && d.platform !in {"OpenTAK ICU", "Meshtastic", "DMRCOT"} && !d.federated && d.uid == u
  {
    OfflineChat.QueueingIsExact(before, devices, message, next);
  }

  ghost predicate Deliverable(w: World, r: Request, row: OfflineChat.Row) {
    exists d :: Picked(w, r, d) && row.recipient == d.uid && row.owner == d.user && OfflineChat.Entitled(w.members, row, d.user)
  }

  lemma NewRowsAreDeliverable(w: World, r: Request, devices: seq<Device>, message: OfflineChat.Message, already: set<string>, next: nat)
    requires forall d | d in devices :: Picked(w, r, d)
    requires message.groups == if NotForEveryone(r.event) && !HasAddress(r) && Given(r.event.chatroom)
                               then ReadGroups(w, r.user, r.targets) else None
    ensures forall row | row in OfflineChat.Copies(devices, message, already, next) :: Deliverable(w, r, row)
  {
    var made := OfflineChat.Copies(devices, message, already, next);
    forall k | 0 <= k < |made| ensures Deliverable(w, r, made[k]) {
      OfflineChat.CopiesAreForRecipients(devices, message, already, next, k);
      var d :| d in devices && OfflineChat.IsCopyFor(made[k], d, message);
      PickedPassesDelivery(w, r, d, made[k]);
    }
  }

  /** A team message that also names a mission: queued for the team, but routed to nobody on it. */
  lemma MissionChatReachesNobody()
    ensures var mate := OfflineChat.Device("MATE", Some("Mate"), None, Some(1), "ATAK", false);
            var w := World([mate], map["Cyan" := 1], [], {});
            var r := Request(Event(true, Some("Cyan"), Some("Cyan"), [Dest(true, None, None)]), "ME", None, []);
            Sound(w) && Picked(w, r, mate) && TakesQueue(mate) && !Reached(w, r, "NODE", mate)
  {
  }
}

/** The channel list: one entry a channel, in an order that leaves nothing to map iteration. */
module Snapshot {
  import opened Prelude
  import opened ChannelText
  import opened HubModel
  import opened HubInvariant
  import opened MemberLists
  import opened Interleaving
  import opened HubRuns
  import HubObject

  /** The instant an unset time stands for: January 1 of year 1. */
  const ZERO_TIME: Time := -62_135_596_800 * SECOND

  datatype Entry = Entry(
    name: Room, visibility: Visibility, private: bool, userCount: int, members: seq<RoomMember>,
    ownerName: string, hasPin: bool, createdAt: Time, lastActive: Time,
    emptySince: Option<Time>, expiresAt: Option<Time>, ttlRemaining: int)

  function Remaining(expiry: Time, now: Time): int {
    if expiry < now then 0 else (expiry - now) / SECOND
  }

  ghost function Listed(cfg: Config, h: Core, room: Room, now: Time): Entry
    requires room in h.channels
  {
    var ch := h.channels[room];
    var visibility := if ch.visibility == Unset then Public else ch.visibility;
    var idle := |Members(h, room)| == 0 && ch.emptySince.Some?;
    var expiry := if idle then ch.emptySince.value + cfg.emptyTtl else 0;
    var created := if ch.createdAt == ZERO_TIME then now else ch.createdAt;
    Entry(room, visibility, visibility == Private, |Members(h, room)|, MemberList(h, room),
          ch.ownerName, ch.hasPin, created, if ch.lastActive == ZERO_TIME then created else ch.lastActive,
          if idle then ch.emptySince else None, if idle then Some(expiry) else None,
          if idle then Remaining(expiry, now) else 0)
  }

  /** Fuller channels first, then the more recently active, then by name. */
  predicate Before(a: Entry, b: Entry) {
    if a.userCount != b.userCount then a.userCount > b.userCount
    else if a.lastActive != b.lastActive then a.lastActive > b.lastActive
    else StringLeq(a.name, b.name)
  }

  lemma BeforeIsOrder()
    ensures TotalPreorder(Before)
    ensures forall a, b :: Before(a, b) && Before(b, a) ==> a.name == b.name
  {
    StringLeqIsOrder();
    hide StringLeq;
  }

  ghost function Entries(cfg: Config, h: Core, rooms: set<Room>, now: Time): set<Entry>
    requires rooms <= h.channels.Keys
  {
    set room | room in rooms :: Listed(cfg, h, room, now)
  }

  /** `list` holds the entry of every channel once, best first. */
  ghost predicate IsSnapshot(cfg: Config, h: Core, now: Time, list: seq<Entry>) {
    Ascending(Before, list) && multiset(list) == multiset(Entries(cfg, h, h.channels.Keys, now))
  }

  // ---- What the list promises, field by field

  /** Fuller channels come first, among them the more recently active, among these the lower name; no name twice. */
  ghost predicate BestFirst(list: seq<Entry>) {
    forall i, j :: 0 <= i < j < |list| ==>
      && list[i].userCount >= list[j].userCount
      && (list[i].userCount == list[j].userCount ==> list[i].lastActive >= list[j].lastActive)
      && (list[i].userCount == list[j].userCount && list[i].lastActive == list[j].lastActive ==>
            Precedes(list[i].name, list[j].name))
  }

  /** The entry shows what the maps hold of its channel. */
  ghost predicate ReadOff(cfg: Config, h: Core, now: Time, e: Entry) {
    && e.name in h.channels
    && var ch := h.channels[e.name];
       var created := if ch.createdAt == ZERO_TIME then now else ch.createdAt;
       var idle := e.userCount == 0 && ch.emptySince != None;
       && e.userCount == (if e.name in h.rooms then |h.rooms[e.name]| else 0)
       && e.members == MemberList(h, e.name)
       && e.visibility == (if ch.visibility == Unset then Public else ch.visibility)
       && (e.private <==> ch.visibility == Private)
       && e.ownerName == ch.ownerName && e.hasPin == ch.hasPin
       && e.createdAt == created && e.lastActive == (if ch.lastActive == ZERO_TIME then created else ch.lastActive)
       && (!idle ==> e.emptySince == None && e.expiresAt == None && e.ttlRemaining == 0)
       && (idle ==>
             && e.emptySince == ch.emptySince && e.expiresAt == Some(ch.emptySince.value + cfg.emptyTtl)
             && WholeSecondsLeft(e.ttlRemaining, e.expiresAt.value, now))
  }

  /** Whole seconds from now to the expiry, and none once that is past. */
  ghost predicate WholeSecondsLeft(seconds: int, expiry: Time, now: Time) {
    if expiry < now then seconds == 0 else seconds * SECOND <= expiry - now < seconds * SECOND + SECOND
  }

  lemma ListedReadsOff(cfg: Config, h: Core, room: Room, now: Time)
    requires room in h.channels
    ensures ReadOff(cfg, h, now, Listed(cfg, h, room, now))
  {
    hide MemberList;
  }

  /** Whatever is a snapshot lists every channel once, best first, and shows what the maps hold. */
  lemma SnapshotLaw(cfg: Config, h: Core, now: Time, list: seq<Entry>)
    requires IsSnapshot(cfg, h, now, list)
    ensures BestFirst(list)
    ensures forall i :: 0 <= i < |list| ==> ReadOff(cfg, h, now, list[i])
    ensures forall room :: room in h.channels ==> exists i :: 0 <= i < |list| && list[i].name == room
  {
    hide StringLeq, Listed, ReadOff;
    forall i | 0 <= i < |list| ensures ReadOff(cfg, h, now, list[i]) {
      EntryOfName(cfg, h, now, list, i);
      ListedReadsOff(cfg, h, list[i].name, now);
    }
    forall i, j | 0 <= i < j < |list|
      ensures Before(list[i], list[j])
      ensures StringLeq(list[i].name, list[j].name) ==> Precedes(list[i].name, list[j].name)
    {
      EntryOfName(cfg, h, now, list, i);
      EntryOfName(cfg, h, now, list, j);
      NoRepeat(list, Entries(cfg, h, h.channels.Keys, now), i, j);
      StringLeqMeans(list[i].name, list[j].name);
    }
    forall room | room in h.channels ensures exists i :: 0 <= i < |list| && list[i].name == room {
      ListedName(cfg, h, room, now);
      assert Listed(cfg, h, room, now) in multiset(list);
      var i :| 0 <= i < |list| && list[i] == Listed(cfg, h, room, now);
    }
  }

  lemma ListedName(cfg: Config, h: Core, room: Room, now: Time)
    requires room in h.channels
    ensures Listed(cfg, h, room, now).name == room
  {
  }

  /** Two snapshots of one state are the same list, whatever order the map was walked in. */
  lemma SnapshotIsDeterministic(cfg: Config, h: Core, now: Time, a: seq<Entry>, b: seq<Entry>)
    requires IsSnapshot(cfg, h, now, a) && IsSnapshot(cfg, h, now, b)
    ensures a == b
  {
    hide StringLeq, Before, Listed;
    BeforeIsOrder();
    forall i, j | 0 <= i < |a| && 0 <= j < |a| && Before(a[i], a[j]) && Before(a[j], a[i]) ensures a[i] == a[j] {
      EntryOfName(cfg, h, now, a, i);
      EntryOfName(cfg, h, now, a, j);
    }
    AscendingIsUnique(Before, a, b);
  }

  lemma EntryOfName(cfg: Config, h: Core, now: Time, list: seq<Entry>, i: nat)
    requires IsSnapshot(cfg, h, now, list) && i < |list|
    ensures list[i].name in h.channels && list[i] == Listed(cfg, h, list[i].name, now)
  {
    assert list[i] in multiset(list);
    var room :| room in h.channels.Keys && list[i] == Listed(cfg, h, room, now);
  }

  lemma EntryCountsMembers(cfg: Config, h: Core, room: Room, now: Time)
    requires MembershipOk(cfg, h) && room in h.channels
    ensures var e := Listed(cfg, h, room, now);
      && e.userCount == |e.members|
      && AsMap(e.members) == (map sid | sid in Members(h, room) && sid in h.users :: h.users[sid].name)
  {
    ListLength(h, room);
    MemberListAsMap(h, room);
    hide MemberList, AsMap, MembershipOk;
  }

  /** In every entry the count shown is the number of members shown, each a current member under its current name. */
  lemma CountsMatchMembers(cfg: Config, ws: seq<World>, steps: seq<Step>, n: nat, now: Time, list: seq<Entry>, i: nat)
    requires IsRun(cfg, ws, steps) && n < |ws| && IsSnapshot(cfg, ws[n].core, now, list) && i < |list|
    ensures list[i].userCount == |list[i].members|
    ensures var h := ws[n].core;
      AsMap(list[i].members) == map sid | sid in Members(h, list[i].name) && sid in h.users :: h.users[sid].name
  {
    hide IsRun, Listed, MemberList, AsMap, Members, MembershipOk, BookkeepingOk;
    EntryOfName(cfg, ws[n].core, now, list, i);
    EveryStateOk(cfg, ws, steps, n);
    EntryCountsMembers(cfg, ws[n].core, list[i].name, now);
  }

  /**
   * The empty time and the expiry shown are the ones the hub keeps for the
   * channel, although the list computes its own; an entry without members
   * and without expiry belongs to a join that is under way.
   */
  lemma ExpiryIsTheHubs(cfg: Config, ws: seq<World>, steps: seq<Step>, n: nat, now: Time, list: seq<Entry>, i: nat)
    requires IsRun(cfg, ws, steps) && n < |ws| && IsSnapshot(cfg, ws[n].core, now, list) && i < |list|
    ensures list[i].name in ws[n].core.channels
    ensures var ch := ws[n].core.channels[list[i].name];
      && list[i].emptySince == ch.emptySince && list[i].expiresAt == ch.expiresAt
      && (ch.expiresAt.Some? ==> list[i].userCount == 0)
    ensures list[i].userCount == 0 && list[i].expiresAt == None ==> JoinUnderWay(ws[n], list[i].name)
    ensures if list[i].expiresAt == None then list[i].ttlRemaining == 0
            else WholeSecondsLeft(list[i].ttlRemaining, list[i].expiresAt.value, now)
  {
    hide IsRun, MembershipOk, IsSnapshot, JoinUnderWay, Listed;
    var h, room := ws[n].core, list[i].name;
    EntryOfName(cfg, h, now, list, i);
    EveryStateOk(cfg, ws, steps, n);
    EntryTimes(cfg, h, room, now);
    if list[i].userCount == 0 && list[i].expiresAt == None { assert Members(h, room) == {}; }
    if room in h.rooms { RoomIsOccupied(cfg, h, room); }
  }

  lemma RoomIsOccupied(cfg: Config, h: Core, room: Room)
    requires MembershipOk(cfg, h) && room in h.rooms
    ensures |Members(h, room)| > 0
  {
  }

  lemma EntryTimes(cfg: Config, h: Core, room: Room, now: Time)
    requires HubOk(cfg, h) && room in h.channels
    ensures var e, ch := Listed(cfg, h, room, now), h.channels[room];
      && e.emptySince == ch.emptySince && e.expiresAt == ch.expiresAt && e.userCount == |Members(h, room)|
      && (ch.expiresAt.Some? ==> e.userCount == 0)
      && if e.expiresAt == None then e.ttlRemaining == 0 else WholeSecondsLeft(e.ttlRemaining, e.expiresAt.value, now)
  {
    hide MemberList;
    assert EntryOk(cfg, h.channels[room]);
    if h.channels[room].emptySince.Some? { assert room !in h.rooms; }
  }

  /** The snapshot of the hub, its entries taken from the map in any order. */
  method ChannelsSnapshot(hub: HubObject.Hub, now: Time) returns (list: seq<Entry>)
    ensures IsSnapshot(hub.cfg, hub.State(), now, list)
    ensures BestFirst(list) && forall i :: 0 <= i < |list| ==> ReadOff(hub.cfg, hub.State(), now, list[i])
    ensures forall room :: room in hub.channels ==> exists i :: 0 <= i < |list| && list[i].name == room
  {
    hide Before, StringLeq, BestFirst, ReadOff;
    list := [];
    var todo := hub.channels.Keys;
    while todo != {}
      invariant todo <= hub.channels.Keys
      invariant multiset(list) == multiset(Entries(hub.cfg, hub.State(), hub.channels.Keys - todo, now))
      decreases todo
    {
      var room :| room in todo;
      var entry := CopyEntry(hub, room, now);
      AddEntry(hub.cfg, hub.State(), hub.channels.Keys - todo, room, now);
      assert hub.channels.Keys - (todo - {room}) == (hub.channels.Keys - todo) + {room};
      list, todo := list + [entry], todo - {room};
    }
    assert hub.channels.Keys - todo == hub.State().channels.Keys;
    BeforeIsOrder();
    list := SortBy(Before, list);
    SnapshotLaw(hub.cfg, hub.State(), now, list);
  }

  lemma AddEntry(cfg: Config, h: Core, done: set<Room>, room: Room, now: Time)
    requires done <= h.channels.Keys && room in h.channels && room !in done
    ensures multiset(Entries(cfg, h, done + {room}, now))
      == multiset(Entries(cfg, h, done, now)) + multiset{Listed(cfg, h, room, now)}
  {
    assert Entries(cfg, h, done + {room}, now) == Entries(cfg, h, done, now) + {Listed(cfg, h, room, now)};
    assert Listed(cfg, h, room, now) !in Entries(cfg, h, done, now);
  }

  method CopyEntry(hub: HubObject.Hub, room: Room, now: Time) returns (entry: Entry)
    requires room in hub.channels
    ensures entry == Listed(hub.cfg, hub.State(), room, now)
  {
    hide MemberList;
    var state := hub.channels[room];
    var visibility := if state.visibility == Unset then Public else state.visibility;
    var count := |hub.MembersOf(room)|;
    var members := hub.MembersLocked(room);
    var emptySince, expiresAt, remaining := None, None, 0;
    if count == 0 && state.emptySince.Some? {
      var expiry := state.emptySince.value + hub.cfg.emptyTtl;
      emptySince, expiresAt := state.emptySince, Some(expiry);
      remaining := if expiry < now then 0 else (expiry - now) / SECOND;
    }
    var createdAt := if state.createdAt == ZERO_TIME then now else state.createdAt;
    var lastActive := if state.lastActive == ZERO_TIME then createdAt else state.lastActive;
    entry := Entry(room, visibility, visibility == Private, count, members, state.ownerName, state.hasPin,
                   createdAt, lastActive, emptySince, expiresAt, remaining);
  }
}

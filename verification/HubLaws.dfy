/**
 * What each region and each reply of the hub does, field by field: the maps
 * afterwards are given by the maps before, without the functions that compute
 * them.
 */
module HubLaws {
  import opened Prelude
  import opened ChannelText
  import opened HubModel
  import opened HubInvariant
  import opened MemberLists
  import opened Handlers
  import opened Interleaving
  import opened HubRuns

  // ---- Touching and marking

  /** A touched channel counts its members now and is not empty; a new one is public and nobody's. */
  lemma TouchLaw(h: Core, room: Room, now: Time)
    requires room != ""
    ensures var h' := Touch(h, room, now);
      && h'.users == h.users && h'.rooms == h.rooms && h'.channels.Keys == h.channels.Keys + {room}
      && (forall r :: r in h.channels && r != room ==> h'.channels[r] == h.channels[r])
    ensures var ch := Touch(h, room, now).channels[room];
      && ch.userCount == (if room in h.rooms then |h.rooms[room]| else 0)
      && ch.lastActive == now && ch.emptySince == None && ch.expiresAt == None
      && (room in h.channels ==> SameIdentity(h.channels[room], ch))
      && (room !in h.channels ==>
            && ch.visibility == Public && !ch.private && ch.ownerSid == "" && ch.ownerName == ""
            && !ch.hasPin && ch.pinHash == NoDigest && ch.inviteCode == "" && ch.createdAt == now)
  {
  }

  /** A channel marked empty counts nobody and keeps an earlier empty time; it expires a TTL after that time. */
  lemma MarkEmptyLaw(cfg: Config, h: Core, room: Room, now: Time)
    requires room != ""
    ensures var h' := MarkEmpty(cfg, h, room, now);
      && h'.users == h.users && h'.rooms == h.rooms && h'.channels.Keys == h.channels.Keys + {room}
      && (forall r :: r in h.channels && r != room ==> h'.channels[r] == h.channels[r])
    ensures var ch := MarkEmpty(cfg, h, room, now).channels[room];
      && ch.userCount == 0 && ch.lastActive == now && ch.emptySince.Some?
      && ch.emptySince.value
         == (if room in h.channels && h.channels[room].emptySince.Some? then h.channels[room].emptySince.value else now)
      && ch.expiresAt == Some(ch.emptySince.value + cfg.emptyTtl)
      && (room in h.channels ==> SameIdentity(h.channels[room], ch))
      && (room !in h.channels ==> ch.visibility == Public && ch.ownerSid == "" && ch.createdAt == now)
  {
  }

  // ---- Leaving

  /** Leaving takes out one member; its room's entry counts the others, and gets an empty time if there is none. */
  lemma LeaveLaw(cfg: Config, h: Core, sid: Sid, now: Time)
    requires HubOk(cfg, h) && sid in h.users
    ensures var room, h' := h.users[sid].room, Leave(cfg, h, sid, now);
      && h'.users == h.users - {sid}
      && (forall r :: r in h.rooms && r != room ==> r in h'.rooms && h'.rooms[r] == h.rooms[r])
      && (forall r :: r in h'.rooms ==> r in h.rooms)
      && (room in h'.rooms <==> h.rooms[room] != {sid})
      && (room in h'.rooms ==> h'.rooms[room] == h.rooms[room] - {sid})
    ensures var room, h' := h.users[sid].room, Leave(cfg, h, sid, now);
      && h'.channels.Keys == h.channels.Keys && room in h.channels
      && (forall r :: r in h.channels && r != room ==> h'.channels[r] == h.channels[r])
      && SameIdentity(h.channels[room], h'.channels[room])
      && h'.channels[room].userCount == |h.rooms[room]| - 1 && h'.channels[room].lastActive == now
      && h'.channels[room].emptySince == (if h.rooms[room] == {sid} then Some(now) else None)
      && h'.channels[room].expiresAt == (if h.rooms[room] == {sid} then Some(now + cfg.emptyTtl) else None)
  {
    var room := h.users[sid].room;
    assert room in h.rooms && sid in h.rooms[room] && room in h.channels && h.channels[room].emptySince == None;
    hide EntryOk, MembershipOk, BookkeepingOk;
    LeaveUsers(cfg, h, sid, now);
    LeaveRoomLaw(cfg, h, sid, now, room);
    hide Leave;
  }

  lemma LeaveUsers(cfg: Config, h: Core, sid: Sid, now: Time)
    requires sid in h.users
    ensures Leave(cfg, h, sid, now).users == h.users - {sid}
  {
  }

  lemma LeaveRoomLaw(cfg: Config, h: Core, sid: Sid, now: Time, room: Room)
    requires sid in h.users && h.users[sid].room == room && room != ""
    requires room in h.rooms && sid in h.rooms[room] && room in h.channels && h.channels[room].emptySince == None
    ensures var h' := Leave(cfg, h, sid, now);
      if h.rooms[room] == {sid} then
        && h'.rooms == h.rooms - {room}
        && h'.channels == h.channels[room := h.channels[room].(
             userCount := 0, lastActive := now, emptySince := Some(now), expiresAt := Some(now + cfg.emptyTtl))]
      else
        && h'.rooms == h.rooms[room := h.rooms[room] - {sid}]
        && h'.channels == h.channels[room := h.channels[room].(
             userCount := |h.rooms[room]| - 1, lastActive := now, emptySince := None, expiresAt := None)]
  {
    if h.rooms[room] - {sid} == {} { assert h.rooms[room] == {sid}; }
  }

  // ---- The gate

  /** Nothing but the entry of the room asked for changes. */
  lemma GateFrame(cfg: Config, h: Core, room: Room, sid: Sid, name: string, offer: Offer, code: string, now: Time)
    ensures var h' := Gate(cfg, h, room, sid, name, offer, code, now).0;
      && h'.users == h.users && h'.rooms == h.rooms && h'.channels.Keys == h.channels.Keys + {room}
      && forall r :: r in h.channels && r != room ==> h'.channels[r] == h.channels[r]
  {
    hide Screened;
  }

  /** The first join to a room creates its channel as asked for: private with a code, and with the PIN if any. */
  lemma GateCreates(cfg: Config, h: Core, room: Room, sid: Sid, name: string, offer: Offer, code: string, now: Time)
    requires room !in h.channels
    ensures room in Gate(cfg, h, room, sid, name, offer, code, now).0.channels
    ensures var ch := Gate(cfg, h, room, sid, name, offer, code, now).0.channels[room];
      && ch.visibility == offer.wanted && (ch.private <==> offer.wanted == Private)
      && ch.ownerSid == sid && ch.ownerName == name && ch.createdAt == now && ch.lastActive == now
      && ch.userCount == 0 && ch.emptySince == None && ch.expiresAt == None
      && ch.inviteCode == (if offer.wanted == Private then code else "")
      && ch.pinHash == (if offer.wanted == Private && offer.pin != "" then Digest(offer.pin) else NoDigest)
      && (ch.hasPin <==> offer.wanted == Private && offer.pin != "")
    ensures Gate(cfg, h, room, sid, name, offer, code, now).1 != PrivateChannel
  {
  }

  /** Whoever owns the channel, or finds it ownerless, may turn it private and set its PIN; nobody else changes it. */
  lemma GateMeets(cfg: Config, h: Core, room: Room, sid: Sid, name: string, offer: Offer, code: string, now: Time)
    requires room in h.channels && EntryOk(cfg, h.channels[room])
    ensures room in Gate(cfg, h, room, sid, name, offer, code, now).0.channels
    ensures var was, ch := h.channels[room], Gate(cfg, h, room, sid, name, offer, code, now).0.channels[room];
      var owns := was.ownerSid == sid || was.ownerSid == "";
      && ch.ownerSid == (if was.ownerSid == "" then sid else was.ownerSid)
      && ch.ownerName == (if was.ownerName == "" then name else was.ownerName)
      && (ch.private <==> was.private || (owns && offer.wanted == Private))
      && ch.visibility == (if ch.private then Private else Public)
      && ch.inviteCode == (if was.private then was.inviteCode else if ch.private then code else "")
      && ch.pinHash == (if owns && ch.private && offer.pin != "" then Digest(offer.pin) else was.pinHash)
      && (ch.hasPin <==> ch.pinHash != NoDigest)
      && ch.userCount == was.userCount && ch.createdAt == was.createdAt && ch.lastActive == was.lastActive
      && ch.emptySince == was.emptySince && ch.expiresAt == was.expiresAt
  {
    hide IsInviteCode, IsPin;
  }

  /** The two refusals of the gate: without a secret at a private channel, and without a seat at a full one. */
  lemma GateRefuses(cfg: Config, h: Core, room: Room, sid: Sid, name: string, offer: Offer, code: string, now: Time)
    requires room in h.channels ==> EntryOk(cfg, h.channels[room])
    ensures var member := room in h.rooms && sid in h.rooms[room];
      var size := if room in h.rooms then |h.rooms[room]| else 0;
      var barred :=
        && room in h.channels && h.channels[room].private && !member
        && h.channels[room].ownerSid != sid && h.channels[room].ownerSid != ""
        && !EqualFold(offer.secret, h.channels[room].inviteCode)
        && !(offer.pin != "" && h.channels[room].pinHash == Digest(offer.pin));
      Gate(cfg, h, room, sid, name, offer, code, now).1
      == if barred then PrivateChannel else if !member && size >= cfg.maxRoomSize then RoomFull else Admitted
  {
    hide IsPin;
    if room in h.channels && h.channels[room].private {
      assert h.channels[room].inviteCode != "";
      assert Adopted(h.channels[room], sid, name).ownerSid == h.channels[room].ownerSid;
    }
    hide EqualFold, IsInviteCode;
  }

  // ---- Committing and renaming

  /** A commit without a free seat changes no user and no entry. */
  lemma CommitRefused(cfg: Config, h: Core, room: Room, sid: Sid, name: string, now: Time)
    requires (if room in h.rooms then |h.rooms[room]| else 0) >= cfg.maxRoomSize
    ensures var (h', verdict) := Commit(cfg, h, room, sid, name, now);
      verdict == RoomFull && h'.users == h.users && h'.channels == h.channels
  {
  }

  /** A commit with a free seat adds the sid under its name. */
  lemma CommitLaw(cfg: Config, h: Core, room: Room, sid: Sid, name: string, now: Time)
    requires room != "" && (if room in h.rooms then |h.rooms[room]| else 0) < cfg.maxRoomSize
    ensures Commit(cfg, h, room, sid, name, now).1 == Admitted
    ensures var h' := Commit(cfg, h, room, sid, name, now).0;
      && sid in h'.users && h'.users[sid].name == name && h'.users[sid].room == room && h'.users[sid].joinedAt == now
      && h'.users - {sid} == h.users - {sid}
      && room in h'.rooms && h'.rooms[room] == (if room in h.rooms then h.rooms[room] else {}) + {sid}
      && h'.rooms - {room} == h.rooms - {room}
      && room in h'.channels && h'.channels - {room} == h.channels - {room}
  {
    var seated := h.(rooms := h.rooms[room := Members(h, room) + {sid}],
                     users := h.users[sid := User(name, room, now)]);
    SeatedThenTouched(cfg, h, room, sid, name, now);
    TouchLaw(seated, room, now);
    hide Commit, Touch;
    SameRest(seated.channels, Touch(seated, room, now).channels, room);
    SameRest(h.rooms, seated.rooms, room);
    SameRest(h.users, seated.users, sid);
  }

  /** It touches the entry of the room, and makes a public one without owner if there is none. */
  lemma CommitTouches(cfg: Config, h: Core, room: Room, sid: Sid, name: string, now: Time)
    requires room != "" && (if room in h.rooms then |h.rooms[room]| else 0) < cfg.maxRoomSize
    ensures var h' := Commit(cfg, h, room, sid, name, now).0;
      && room in h'.channels && room in h'.rooms
      && var ch := h'.channels[room];
         && ch.userCount == |h'.rooms[room]| && ch.lastActive == now && ch.emptySince == None && ch.expiresAt == None
         && (room in h.channels ==> SameIdentity(h.channels[room], ch))
         && (room !in h.channels ==>
               && ch.visibility == Public && !ch.private && ch.ownerSid == "" && ch.inviteCode == ""
               && ch.createdAt == now)
  {
    var seated := h.(rooms := h.rooms[room := Members(h, room) + {sid}],
                     users := h.users[sid := User(name, room, now)]);
    SeatedThenTouched(cfg, h, room, sid, name, now);
    TouchLaw(seated, room, now);
    hide Commit, Touch, SameIdentity;
  }

  lemma SeatedThenTouched(cfg: Config, h: Core, room: Room, sid: Sid, name: string, now: Time)
    requires |Members(h, room)| < cfg.maxRoomSize
    ensures var seats := Members(h, room) + {sid};
      var seated := h.(rooms := h.rooms[room := seats], users := h.users[sid := User(name, room, now)]);
      Commit(cfg, h, room, sid, name, now) == (Touch(seated, room, now), Admitted)
  {
    assert h.rooms[room := Members(h, room)][room := Members(h, room) + {sid}]
      == h.rooms[room := Members(h, room) + {sid}];
    hide Touch;
  }

  lemma SameRest<K, V>(a: map<K, V>, b: map<K, V>, key: K)
    requires b.Keys == a.Keys + {key} && forall k :: k in a && k != key ==> b[k] == a[k]
    ensures b - {key} == a - {key}
  {
  }

  /** A rename changes one name and nothing else. */
  lemma RenameLaw(h: Core, sid: Sid, newName: string)
    ensures var h' := Rename(h, sid, newName);
      && h'.rooms == h.rooms && h'.channels == h.channels && h'.users.Keys == h.users.Keys
      && (forall s :: s in h.users && s != sid ==> h'.users[s] == h.users[s])
      && (sid in h.users ==>
            && h'.users[sid].room == h.users[sid].room && h'.users[sid].joinedAt == h.users[sid].joinedAt
            && h'.users[sid].name == if newName == "" then h.users[sid].name else newName)
  {
  }

  // ---- What the replies say

  /** The joiner's room_state, field by field: the owner of a private channel is told its code, everyone else is not. */
  lemma RoomStateLaw(cfg: Config, h: Core, room: Room, sid: Sid)
    requires HubOk(cfg, h) && room in h.channels
    ensures var e, ch := RoomStateFor(h, room, sid), h.channels[room];
      && e.RoomState? && e.room == room
      && e.members == MemberList(h, room) && e.userCount == (if room in h.rooms then |h.rooms[room]| else 0)
      && e.visibility == ch.visibility && (e.private <==> ch.private)
      && (e.owner <==> ch.ownerSid == sid) && (e.hasPin <==> ch.hasPin)
      && e.inviteCode == (if ch.private && ch.ownerSid == sid then ch.inviteCode else "")
  {
    assert EntryOk(cfg, h.channels[room]);
    ListLength(h, room);
    hide MemberList;
  }

  /** What one event adds to each inbox. */
  lemma PushLaw(inbox: map<Sid, seq<Event>>, targets: set<Sid>, event: Event)
    ensures var inbox' := Push(inbox, targets, event);
      && inbox'.Keys == inbox.Keys
      && forall me :: me in inbox ==> inbox'[me] == inbox[me] + if me in targets then [event] else []
  {
    forall me | me in inbox ensures inbox[me] + [] == inbox[me] {}
  }

  /** A refused joiner is told why, and nobody else hears of it. */
  lemma RefusalTells(cfg: Config, s: Session, sid: Sid, room: Room, name: string, offer: Offer, code: string,
                     now: Time, at: Time)
    requires room == "" || Gate(cfg, s.core, room, sid, name, offer, code, now).1 != Admitted
    ensures var s' := HandleJoin(cfg, s, sid, room, name, offer, code, now, at);
      var verdict := Gate(cfg, s.core, room, sid, name, offer, code, now).1;
      var reason :=
        if room == "" then "BAD_CHANNEL" else if verdict == RoomFull then "ROOM_FULL" else "PRIVATE_CHANNEL";
      && s'.inbox.Keys == s.inbox.Keys
      && forall me :: me in s.inbox ==> s'.inbox[me] == s.inbox[me] + if me == sid then [ErrorEvent(reason)] else []
  {
    hide Gate, Push;
    var verdict := Gate(cfg, s.core, room, sid, name, offer, code, now).1;
    var reason := if room == "" then "BAD_CHANNEL" else if verdict == RoomFull then "ROOM_FULL" else "PRIVATE_CHANNEL";
    PushLaw(s.inbox, {sid}, ErrorEvent(reason));
  }

  /** A joiner refused by the second capacity check is told so last. */
  lemma SecondRefusalTells(cfg: Config, s: Session, sid: Sid, room: Room, name: string, offer: Offer, code: string,
                           now: Time, at: Time)
    requires room != "" && sid in s.inbox && Gate(cfg, s.core, room, sid, name, offer, code, now).1 == Admitted
    requires Joined(cfg, s.core, room, sid, name, offer, code, now, at).1 != Admitted
    ensures var s' := HandleJoin(cfg, s, sid, room, name, offer, code, now, at);
      && s'.core == Joined(cfg, s.core, room, sid, name, offer, code, now, at).0
      && sid in s'.inbox && s'.inbox[sid] != [] && s'.inbox[sid][|s'.inbox[sid]| - 1] == ErrorEvent("ROOM_FULL")
  {
    var left := Leave(cfg, Gate(cfg, s.core, room, sid, name, offer, code, now).0, sid, at);
    CommitVerdict(cfg, left, room, sid, name, now);
    hide Gate, Leave, Commit;
  }

  /** The others of the room are told who left, under the name it had, and nobody else hears of it. */
  lemma LeaveTells(cfg: Config, s: Session, sid: Sid, at: Time)
    requires HubOk(cfg, s.core)
    ensures var s' := HandleLeave(cfg, s, sid, at);
      && s'.inbox.Keys == s.inbox.Keys
      && forall me :: me in s.inbox ==> s'.inbox[me] == s.inbox[me] + LeftEvents(s.core, sid, me)
    ensures var s' := RemoveClient(cfg, s, sid, at);
      && s'.inbox.Keys == s.inbox.Keys - {sid}
      && forall me :: me in s.inbox && me != sid ==> s'.inbox[me] == s.inbox[me] + LeftEvents(s.core, sid, me)
  {
    hide Leave, Push, BookkeepingOk;
    LeaveMembers(cfg, s.core, sid, at);
    if sid in s.core.users {
      var room, event := s.core.users[sid].room, PeerLeft(sid, s.core.users[sid].name);
      var targets := Members(Leave(cfg, s.core, sid, at), room) - {sid};
      PushLaw(s.inbox, targets, event);
      PushLaw(s.inbox - {sid}, targets, event);
      forall me ensures me in targets <==> me != sid && me in s.core.users && s.core.users[me].room == room {
        if me in s.core.users && s.core.users[me].room == room { assert me in s.core.rooms[room]; }
      }
    } else {
      forall me | me in s.inbox ensures s.inbox[me] + [] == s.inbox[me] {}
    }
  }

  /** What a member's leaving puts into the inbox of `me`. */
  function LeftEvents(h: Core, sid: Sid, me: Sid): seq<Event> {
    if sid in h.users && me in h.users && me != sid && h.users[me].room == h.users[sid].room
    then [PeerLeft(sid, h.users[sid].name)] else []
  }

  /** The others of the room are told the new name, and nobody else; a rename to nothing is not told at all. */
  lemma RenameTells(cfg: Config, s: Session, sid: Sid, newName: string)
    requires HubOk(cfg, s.core)
    ensures var s', h := HandleUpdateName(s, sid, newName), s.core;
      && s'.inbox.Keys == s.inbox.Keys
      && forall me :: me in s.inbox ==>
           var peer := sid in h.users && me in h.users && me != sid && h.users[me].room == h.users[sid].room;
           s'.inbox[me] == s.inbox[me] + if newName != "" && peer then [PeerRenamed(sid, newName)] else []
  {
    hide Push, BookkeepingOk;
    if newName != "" && sid in s.core.users {
      var room := s.core.users[sid].room;
      var targets := Members(s.core, room) - {sid};
      PushLaw(s.inbox, targets, PeerRenamed(sid, newName));
      forall me ensures me in targets <==> me != sid && me in s.core.users && s.core.users[me].room == room {
        if me in s.core.users && s.core.users[me].room == room { assert me in s.core.rooms[room]; }
      }
    } else {
      forall me | me in s.inbox ensures s.inbox[me] + [] == s.inbox[me] {}
    }
  }
}

/** The invariant of the room and channel maps, and its preservation by every lock region. */
module HubInvariant {
  import opened Prelude
  import opened ChannelText
  import opened HubModel

  /** `users` and `rooms` describe one relation; no room set is empty or over the cap. */
  ghost predicate MembershipOk(cfg: Config, h: Core) {
    && (forall sid :: sid in h.users ==>
          h.users[sid].room != "" && h.users[sid].room in h.rooms && sid in h.rooms[h.users[sid].room])
    && (forall room :: room in h.rooms ==> room != "" && 0 < |h.rooms[room]| <= cfg.maxRoomSize)
    && (forall room, sid :: room in h.rooms && sid in h.rooms[room] ==> sid in h.users && h.users[sid].room == room)
  }

  ghost predicate EntryOk(cfg: Config, ch: Channel) {
    && ch.visibility != Unset
    && ch.private == (ch.visibility == Private)
    && (ch.private ==> IsInviteCode(ch.inviteCode) && ch.ownerSid != "" && ch.ownerName != "")
    && (!ch.private ==> ch.inviteCode == "")
    && ch.hasPin == ch.pinHash.Digest?
    && (ch.hasPin ==> ch.private && ch.pinHash.pin != "" && IsPin(ch.pinHash.pin))
    && ch.expiresAt == (if ch.emptySince.Some? then Some(ch.emptySince.value + cfg.emptyTtl) else None)
  }

  ghost predicate BookkeepingOk(cfg: Config, h: Core) {
    && (forall room :: room in h.rooms ==> room in h.channels && h.channels[room].emptySince == None)
    && (forall room :: room in h.channels ==> room != "" && h.channels[room].userCount == |Members(h, room)|)
    && (forall room :: room in h.channels ==> EntryOk(cfg, h.channels[room]))
  }

  ghost predicate HubOk(cfg: Config, h: Core) {
    MembershipOk(cfg, h) && BookkeepingOk(cfg, h)
  }

  lemma EmptyOk(cfg: Config)
    ensures HubOk(cfg, EMPTY_CORE)
  {
  }

  /** Writing one well-formed entry keeps the books. */
  lemma SetEntryKeeps(cfg: Config, h: Core, room: Room, ch: Channel)
    requires HubOk(cfg, h) && room != "" && EntryOk(cfg, ch)
    requires ch.userCount == |Members(h, room)| && (room in h.rooms ==> ch.emptySince == None)
    ensures HubOk(cfg, h.(channels := h.channels[room := ch]))
  {
    hide EntryOk;
  }

  lemma DropMembership(cfg: Config, h: Core, sid: Sid, room: Room, channels: map<Room, Channel>)
    requires MembershipOk(cfg, h) && room in h.rooms && h.rooms[room] == {sid}
    ensures MembershipOk(cfg, Core(h.users - {sid}, h.rooms - {room}, channels))
  {
    assert h.users[sid].room == room;
  }

  /** The books without a room, once its entry counts nobody. */
  lemma DropBooks(cfg: Config, h: Core, h1: Core, room: Room, ch: Channel)
    requires BookkeepingOk(cfg, h) && room != "" && EntryOk(cfg, ch) && ch.userCount == 0
    requires h1.rooms == h.rooms - {room} && h1.channels == h.channels[room := ch]
    ensures BookkeepingOk(cfg, h1)
  {
    hide EntryOk;
    forall r | r in h1.channels && r != room
      ensures h1.channels[r].userCount == |Members(h1, r)| && EntryOk(cfg, h1.channels[r])
    {
      assert r in h.channels && Members(h1, r) == Members(h, r);
    }
  }

  /** A room of one loses its last member. */
  lemma DropRoomKeeps(cfg: Config, h: Core, sid: Sid, room: Room, now: Time)
    requires HubOk(cfg, h) && room in h.rooms && h.rooms[room] == {sid}
    ensures HubOk(cfg, MarkEmpty(cfg, Core(h.users - {sid}, h.rooms - {room}, h.channels), room, now))
  {
    var ch := Emptied(cfg, h.channels[room], now);
    assert EntryOk(cfg, ch) by {
      hide MembershipOk, IsInviteCode, IsPin;
      assert EntryOk(cfg, h.channels[room]);
    }
    hide EntryOk;
    DropMembership(cfg, h, sid, room, h.channels[room := ch]);
    DropBooks(cfg, h, Core(h.users - {sid}, h.rooms - {room}, h.channels[room := ch]), room, ch);
    hide BookkeepingOk, MembershipOk;
  }

  lemma ShrinkMembership(cfg: Config, h: Core, sid: Sid, room: Room)
    requires MembershipOk(cfg, h) && room in h.rooms && sid in h.rooms[room] && h.rooms[room] != {sid}
    ensures MembershipOk(cfg, Core(h.users - {sid}, h.rooms[room := h.rooms[room] - {sid}], h.channels))
  {
    var rest := h.rooms[room] - {sid};
    assert h.rooms[room] == rest + {sid};
    assert rest != {} && |rest| == |h.rooms[room]| - 1;
    var h1 := Core(h.users - {sid}, h.rooms[room := rest], h.channels);
    assert forall r :: r in h1.rooms ==> r != "" && 0 < |h1.rooms[r]| <= cfg.maxRoomSize;
    forall r, s | r in h1.rooms && s in h1.rooms[r] ensures s in h1.users && h1.users[s].room == r {
      assert s in h.rooms[r] && h.users[s].room == r;
      assert h.users[sid].room == room;
      assert s != sid;
    }
    assert forall s :: s in h1.users ==>
        h1.users[s].room != "" && h1.users[s].room in h1.rooms && s in h1.rooms[h1.users[s].room];
  }

  lemma AddMembership(cfg: Config, h: Core, sid: Sid, user: User)
    requires MembershipOk(cfg, h) && sid !in h.users && user.room != "" && |Members(h, user.room)| < cfg.maxRoomSize
    ensures var members := Members(h, user.room) + {sid};
      MembershipOk(cfg, Core(h.users[sid := user], h.rooms[user.room := members], h.channels))
  {
    var members := Members(h, user.room) + {sid};
    assert sid !in Members(h, user.room);
    assert 0 < |members| == |Members(h, user.room)| + 1;
  }

  /** Once the members of an occupied room are settled, touching the room restores its books. */
  lemma TouchKeeps(cfg: Config, h: Core, room: Room, now: Time)
    requires MembershipOk(cfg, h) && room in h.rooms
    requires forall r :: r in h.rooms && r != room ==> r in h.channels && h.channels[r].emptySince == None
    requires forall r :: r in h.channels ==> r != "" && EntryOk(cfg, h.channels[r])
    requires forall r :: r in h.channels && r != room ==> h.channels[r].userCount == |Members(h, r)|
    ensures HubOk(cfg, Touch(h, room, now))
  {
    var ch := Touched(ChannelOr(h.channels, room, now), |Members(h, room)|, now);
    assert EntryOk(cfg, ch);
    assert Touch(h, room, now) == h.(channels := h.channels[room := ch]);
  }

  /** A larger room shrinks by one. */
  lemma ShrinkRoomKeeps(cfg: Config, h: Core, sid: Sid, room: Room, now: Time)
    requires HubOk(cfg, h) && room in h.rooms && sid in h.rooms[room] && h.rooms[room] != {sid}
    ensures HubOk(cfg, Touch(Core(h.users - {sid}, h.rooms[room := h.rooms[room] - {sid}], h.channels), room, now))
  {
    ShrinkMembership(cfg, h, sid, room);
    TouchKeeps(cfg, Core(h.users - {sid}, h.rooms[room := h.rooms[room] - {sid}], h.channels), room, now);
  }

  lemma LeaveKeeps(cfg: Config, h: Core, sid: Sid, now: Time)
    requires HubOk(cfg, h)
    ensures HubOk(cfg, Leave(cfg, h, sid, now))
  {
    if sid in h.users {
      var room := h.users[sid].room;
      if h.rooms[room] - {sid} == {} {
        assert h.rooms[room] == {sid};
        DropRoomKeeps(cfg, h, sid, room, now);
      } else {
        ShrinkRoomKeeps(cfg, h, sid, room, now);
      }
    }
  }

  lemma CreatedEntryOk(cfg: Config, sid: Sid, name: string, offer: Offer, code: string, now: Time)
    requires sid != "" && name != "" && IsInviteCode(code) && offer.Clean()
    ensures EntryOk(cfg, Created(sid, name, offer, code, now))
  {
  }

  lemma OwnerEntryOk(cfg: Config, ch: Channel, offer: Offer, code: string)
    requires EntryOk(cfg, ch) && ch.ownerSid != "" && ch.ownerName != ""
    requires IsInviteCode(code) && offer.Clean()
    ensures EntryOk(cfg, OwnerUpdate(ch, offer, code))
  {
  }

  /** The gate writes a well-formed entry, whoever calls it. */
  lemma ScreenedEntryOk(cfg: Config, h: Core, room: Room, sid: Sid, name: string, offer: Offer, code: string, now: Time)
    requires room in h.channels ==> EntryOk(cfg, h.channels[room])
    requires sid != "" && name != "" && IsInviteCode(code) && offer.Clean()
    ensures EntryOk(cfg, Screened(h, room, sid, name, offer, code, now).0)
  {
    if room !in h.channels {
      CreatedEntryOk(cfg, sid, name, offer, code, now);
    } else {
      var ch := Adopted(h.channels[room], sid, name);
      assert EntryOk(cfg, ch);
      OwnerEntryOk(cfg, ch, offer, code);
    }
  }

  /** The gate never sets or clears an empty time. */
  lemma ScreenedTimes(h: Core, room: Room, sid: Sid, name: string, offer: Offer, code: string, now: Time)
    ensures Screened(h, room, sid, name, offer, code, now).0.emptySince
      == if room in h.channels then h.channels[room].emptySince else None
  {
  }

  lemma GateKeeps(cfg: Config, h: Core, room: Room, sid: Sid, name: string, offer: Offer, code: string, now: Time)
    requires HubOk(cfg, h) && room != "" && sid != "" && name != "" && IsInviteCode(code) && offer.Clean()
    ensures HubOk(cfg, Gate(cfg, h, room, sid, name, offer, code, now).0)
  {
    var ch := Screened(h, room, sid, name, offer, code, now).0;
    ScreenedEntryOk(cfg, h, room, sid, name, offer, code, now);
    SetEntryKeeps(cfg, h, room, ch);
  }

  lemma CommitKeeps(cfg: Config, h: Core, room: Room, sid: Sid, name: string, now: Time)
    requires cfg.Valid() && HubOk(cfg, h) && room != "" && sid !in h.users
    ensures HubOk(cfg, Commit(cfg, h, room, sid, name, now).0)
    ensures Commit(cfg, h, room, sid, name, now).1 == RoomFull ==>
      room in h.rooms && Commit(cfg, h, room, sid, name, now).0 == h
  {
    if |Members(h, room)| >= cfg.maxRoomSize {
      assert h.rooms[room := h.rooms[room]] == h.rooms;
    } else {
      var user := User(name, room, now);
      AddMembership(cfg, h, sid, user);
      var members := Members(h, room);
      assert h.rooms[room := members][room := members + {sid}] == h.rooms[room := members + {sid}];
      TouchKeeps(cfg, Core(h.users[sid := user], h.rooms[room := Members(h, room) + {sid}], h.channels), room, now);
    }
  }

  lemma RenameKeeps(cfg: Config, h: Core, sid: Sid, newName: string)
    requires HubOk(cfg, h)
    ensures HubOk(cfg, Rename(h, sid, newName))
  {
  }

  lemma SweepKeeps(cfg: Config, h: Core, now: Time)
    requires HubOk(cfg, h)
    ensures HubOk(cfg, Sweep(cfg, h, now))
  {
    hide EntryOk;
  }

  // ---- What one region does to one entry

  /** Same visibility, owner, secrets and creation time. */
  ghost predicate SameIdentity(a: Channel, b: Channel) {
    && a.visibility == b.visibility && a.private == b.private
    && a.ownerSid == b.ownerSid && a.ownerName == b.ownerName
    && a.hasPin == b.hasPin && a.pinHash == b.pinHash
    && a.inviteCode == b.inviteCode && a.createdAt == b.createdAt
  }

  /** Leaving keeps every entry's identity; the one room left gets an empty time exactly when nobody stays. */
  lemma LeaveEntry(cfg: Config, h: Core, sid: Sid, now: Time, room: Room)
    requires HubOk(cfg, h)
    ensures var h' := Leave(cfg, h, sid, now);
      && h'.channels.Keys == h.channels.Keys
      && h'.rooms.Keys <= h.rooms.Keys
      && (room in h.channels ==> SameIdentity(h.channels[room], h'.channels[room]))
      && (room in h.channels && room !in h.rooms ==> h'.channels[room] == h.channels[room])
      && (room in h.rooms && room !in h'.rooms ==> h'.channels[room].emptySince == Some(now))
  {
    if sid in h.users {
      var left := h.users[sid].room;
      assert left in h.rooms && left in h.channels && h.channels[left].emptySince == None;
    }
  }

  /** A commit leaves its room occupied with an entry that is not marked empty, and every other entry alone. */
  lemma CommitEntry(cfg: Config, h: Core, room: Room, sid: Sid, name: string, now: Time, r: Room)
    requires cfg.Valid() && HubOk(cfg, h) && room != "" && sid !in h.users
    ensures var h' := Commit(cfg, h, room, sid, name, now).0;
      && room in h'.rooms && room in h'.channels
      && h'.rooms.Keys == h.rooms.Keys + {room}
      && h'.channels.Keys == h.channels.Keys + {room}
      && (r != room && r in h.channels ==> h'.channels[r] == h.channels[r])
      && SameIdentity(ChannelOr(h.channels, room, now), h'.channels[room])
      && h'.channels[room].emptySince == None
  {
    if |Members(h, room)| >= cfg.maxRoomSize {
      CommitKeeps(cfg, h, room, sid, name, now);
      assert room in h.channels && h.channels[room].emptySince == None;
    } else {
      AdmittedEntry(cfg, h, room, sid, name, now);
    }
  }

  lemma AdmittedEntry(cfg: Config, h: Core, room: Room, sid: Sid, name: string, now: Time)
    requires room != "" && |Members(h, room)| < cfg.maxRoomSize
    ensures var h' := Commit(cfg, h, room, sid, name, now).0;
      && h'.rooms == h.rooms[room := Members(h, room) + {sid}]
      && h'.channels == h.channels[room := Touched(ChannelOr(h.channels, room, now), |Members(h, room) + {sid}|, now)]
  {
  }

  /** The sweep removes exactly the entries that are memberless and old enough, and nothing else. */
  lemma SweepEntry(cfg: Config, h: Core, now: Time, room: Room)
    requires HubOk(cfg, h)
    ensures var h' := Sweep(cfg, h, now);
      && h'.users == h.users && h'.rooms == h.rooms
      && (room in h.channels && room !in h'.channels <==>
            && room in h.channels && room !in h.rooms
            && h.channels[room].emptySince.Some? && h.channels[room].emptySince.value <= now - cfg.emptyTtl)
      && (room in h'.channels ==> room in h.channels && h'.channels[room] == h.channels[room])
  {
    var h' := Sweep(cfg, h, now);
    assert forall r :: r in h.rooms ==> r !in ExpiredRooms(cfg, h, now);
    assert h'.rooms == h.rooms;
  }
}

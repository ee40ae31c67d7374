/**
 * The handlers run to completion one at a time: what they do to the room maps
 * and what each registered client is sent. A client's inbox is the log of the
 * envelopes its Send queue accepted; no queue is full here.
 */
module Handlers {
  import opened Prelude
  import opened ChannelText
  import opened HubModel
  import opened HubInvariant
  import opened MemberLists

  datatype Event =
    | RoomState(room: Room, members: seq<RoomMember>, userCount: int, visibility: Visibility,
                private: bool, owner: bool, inviteCode: string, hasPin: bool)
    | PeerJoined(sid: Sid, name: string)
    | PeerLeft(sid: Sid, name: string)
    | PeerRenamed(sid: Sid, name: string)
    | ErrorEvent(code: string)

  /** The keys of `inbox` are the registered clients. */
  datatype Session = Session(core: Core, inbox: map<Sid, seq<Event>>)

  function Push(inbox: map<Sid, seq<Event>>, targets: set<Sid>, event: Event): map<Sid, seq<Event>> {
    map sid | sid in inbox :: if sid in targets then inbox[sid] + [event] else inbox[sid]
  }

  function Send(s: Session, sid: Sid, event: Event): Session {
    s.(inbox := Push(s.inbox, {sid}, event))
  }

  function Broadcast(s: Session, room: Room, event: Event, skip: Sid): Session {
    s.(inbox := Push(s.inbox, Members(s.core, room) - {skip}, event))
  }

  ghost function RoomStateFor(h: Core, room: Room, sid: Sid): Event {
    var members := MemberList(h, room);
    if room !in h.channels then RoomState(room, members, |members|, Public, false, false, "", false)
    else
      var ch := h.channels[room];
      var visibility := if ch.visibility == Unset then Public else ch.visibility;
      var owner := ch.ownerSid == sid;
      RoomState(room, members, |members|, visibility, visibility == Private, owner,
                if owner && visibility == Private then ch.inviteCode else "", ch.hasPin)
  }

  function Refusal(verdict: Verdict): Event
    requires verdict != Admitted
  {
    ErrorEvent(if verdict == RoomFull then "ROOM_FULL" else "PRIVATE_CHANNEL")
  }

  function OldRoom(h: Core, sid: Sid): Room {
    if sid in h.users then h.users[sid].room else ""
  }

  /** `now` is read before the gate, `at` inside the leave region. */
  ghost function HandleJoin(cfg: Config, s: Session, sid: Sid, room: Room, name: string, offer: Offer,
                            code: string, now: Time, at: Time): Session
  {
    if room == "" then Send(s, sid, ErrorEvent("BAD_CHANNEL"))
    else
      var (gated, verdict) := Gate(cfg, s.core, room, sid, name, offer, code, now);
      if verdict != Admitted then Send(s.(core := gated), sid, Refusal(verdict))
      else
        var prev := OldRoom(gated, sid);
        var s1 := s.(core := Leave(cfg, gated, sid, at));
        var moved := prev != "" && prev != room;
        var s2 := if moved then Broadcast(s1, prev, PeerLeft(sid, gated.users[sid].name), sid) else s1;
        var (joined, second) := Commit(cfg, s2.core, room, sid, name, now);
        if second != Admitted then Send(s2.(core := joined), sid, Refusal(second))
        else
          Send(Broadcast(s2.(core := joined), room, PeerJoined(sid, name), sid), sid, RoomStateFor(joined, room, sid))
  }

  function HandleLeave(cfg: Config, s: Session, sid: Sid, at: Time): Session {
    var prev := OldRoom(s.core, sid);
    var s1 := s.(core := Leave(cfg, s.core, sid, at));
    if prev != "" then Broadcast(s1, prev, PeerLeft(sid, s.core.users[sid].name), sid) else s1
  }

  function HandleUpdateName(s: Session, sid: Sid, newName: string): Session {
    if newName == "" then s
    else
      var s1 := s.(core := Rename(s.core, sid, newName));
      if OldRoom(s.core, sid) != "" then Broadcast(s1, OldRoom(s.core, sid), PeerRenamed(sid, newName), sid) else s1
  }

  /** A whole removal; the client leaves the map before its peers are told. */
  function RemoveClient(cfg: Config, s: Session, sid: Sid, at: Time): Session {
    var prev := OldRoom(s.core, sid);
    var s1 := Session(Leave(cfg, s.core, sid, at), s.inbox - {sid});
    if prev != "" then Broadcast(s1, prev, PeerLeft(sid, s.core.users[sid].name), sid) else s1
  }

  // ---- Membership effects

  lemma GateMembers(cfg: Config, h: Core, room: Room, sid: Sid, name: string, offer: Offer, code: string, now: Time)
    ensures var h' := Gate(cfg, h, room, sid, name, offer, code, now).0; h'.users == h.users && h'.rooms == h.rooms
  {
  }

  lemma LeaveMembers(cfg: Config, h: Core, sid: Sid, at: Time)
    requires MembershipOk(cfg, h)
    ensures var h' := Leave(cfg, h, sid, at);
      && h'.users == h.users - {sid}
      && forall room :: Members(h', room) == Members(h, room) - {sid}
  {
    var h' := Leave(cfg, h, sid, at);
    forall room ensures Members(h', room) == Members(h, room) - {sid} {
      LeaveOneRoom(cfg, h, sid, at, room);
    }
    if sid !in h.users { assert h.users - {sid} == h.users; }
  }

  lemma LeaveOneRoom(cfg: Config, h: Core, sid: Sid, at: Time, room: Room)
    requires MembershipOk(cfg, h)
    ensures Members(Leave(cfg, h, sid, at), room) == Members(h, room) - {sid}
  {
    if sid in Members(h, room) {
      assert h.users[sid].room == room;
    } else {
      assert Members(h, room) - {sid} == Members(h, room);
    }
  }

  lemma CommitMembers(cfg: Config, h: Core, room: Room, sid: Sid, name: string, now: Time)
    requires room != "" && Commit(cfg, h, room, sid, name, now).1 == Admitted
    ensures var h' := Commit(cfg, h, room, sid, name, now).0;
      && h'.users == h.users[sid := User(name, room, now)]
      && forall r :: Members(h', r) == if r == room then Members(h, r) + {sid} else Members(h, r)
  {
  }

  // ---- All or nothing

  /** The core after the three regions of a join ran with nothing in between. */
  function Joined(cfg: Config, h: Core, room: Room, sid: Sid, name: string, offer: Offer, code: string,
                  now: Time, at: Time): (Core, Verdict)
  {
    Commit(cfg, Leave(cfg, Gate(cfg, h, room, sid, name, offer, code, now).0, sid, at), room, sid, name, now)
  }

  /** An uninterrupted join past the gate is never refused by the second capacity check, and it moves exactly sid. */
  lemma JoinSwitchesRooms(cfg: Config, h: Core, room: Room, sid: Sid, name: string, offer: Offer, code: string,
                          now: Time, at: Time)
    requires cfg.Valid() && HubOk(cfg, h) && room != "" && sid != "" && name != ""
    requires offer.Clean() && IsInviteCode(code)
    requires Gate(cfg, h, room, sid, name, offer, code, now).1 == Admitted
    ensures Joined(cfg, h, room, sid, name, offer, code, now, at).1 == Admitted
    ensures var h' := Joined(cfg, h, room, sid, name, offer, code, now, at).0;
      && HubOk(cfg, h')
      && h'.users == h.users[sid := User(name, room, now)]
      && forall r :: Members(h', r) == if r == room then Members(h, r) + {sid} else Members(h, r) - {sid}
  {
    hide Gate, Leave, Commit, MembershipOk, BookkeepingOk;
    var gated := Gate(cfg, h, room, sid, name, offer, code, now).0;
    GateKeeps(cfg, h, room, sid, name, offer, code, now);
    GateMembers(cfg, h, room, sid, name, offer, code, now);
    LeaveMembers(cfg, gated, sid, at);
    LeaveKeeps(cfg, gated, sid, at);
    RoomForOneMore(cfg, h, room, sid, name, offer, code, now);
    var left := Leave(cfg, gated, sid, at);
    assert Members(left, room) == Members(h, room) - {sid};
    assert Commit(cfg, left, room, sid, name, now).1 == Admitted by {
      CommitVerdict(cfg, left, room, sid, name, now);
    }
    CommitMembers(cfg, left, room, sid, name, now);
    CommitKeeps(cfg, left, room, sid, name, now);
    OneUserReplaced(h.users, sid, User(name, room, now));
  }

  lemma OneUserReplaced(users: map<Sid, User>, sid: Sid, user: User)
    ensures (users - {sid})[sid := user] == users[sid := user]
  {
  }

  lemma CommitVerdict(cfg: Config, h: Core, room: Room, sid: Sid, name: string, now: Time)
    ensures Commit(cfg, h, room, sid, name, now).1
      == if |Members(h, room)| >= cfg.maxRoomSize then RoomFull else Admitted
  {
  }

  /** Past the gate, the room without sid is below the cap. */
  lemma RoomForOneMore(cfg: Config, h: Core, room: Room, sid: Sid, name: string, offer: Offer, code: string, now: Time)
    requires cfg.Valid() && HubOk(cfg, h) && Gate(cfg, h, room, sid, name, offer, code, now).1 == Admitted
    ensures |Members(h, room) - {sid}| < cfg.maxRoomSize
  {
    GateMembers(cfg, h, room, sid, name, offer, code, now);
    var members := Members(h, room);
    if sid in members {
      assert |members - {sid}| == |members| - 1;
    } else {
      assert members - {sid} == members;
    }
  }

  /** A refused join leaves `users` and `rooms` alone; a private channel's refusal leaves everything alone. */
  lemma RefusedJoinChangesNothing(cfg: Config, s: Session, sid: Sid, room: Room, name: string, offer: Offer,
                                  code: string, now: Time, at: Time)
    requires cfg.Valid() && HubOk(cfg, s.core) && room != ""
    requires Gate(cfg, s.core, room, sid, name, offer, code, now).1 != Admitted
    ensures var s' := HandleJoin(cfg, s, sid, room, name, offer, code, now, at);
      && s'.core.users == s.core.users && s'.core.rooms == s.core.rooms
      && (Gate(cfg, s.core, room, sid, name, offer, code, now).1 == PrivateChannel ==> s'.core == s.core)
  {
    GateMembers(cfg, s.core, room, sid, name, offer, code, now);
    if Gate(cfg, s.core, room, sid, name, offer, code, now).1 == PrivateChannel {
      var ch := s.core.channels[room];
      assert EntryOk(cfg, ch);
      assert Adopted(ch, sid, name) == ch;
      assert s.core.channels[room := ch] == s.core.channels;
    }
  }

  /** The request would change this entry: it is the owner's, and asks for privacy or brings another PIN. */
  predicate OwnerChanges(ch: Channel, sid: Sid, offer: Offer) {
    && ch.ownerSid == sid
    && ((offer.wanted == Private && !ch.private) || (ch.private && offer.pin != "" && ch.pinHash != Digest(offer.pin)))
  }

  /**
   * A join refused as ROOM_FULL leaves the hub as it was exactly when the
   * channel has an owner and the caller is not one whose request changes it.
   */
  lemma FullRefusalKeepsIff(cfg: Config, s: Session, sid: Sid, room: Room, name: string, offer: Offer, code: string,
                            now: Time, at: Time)
    requires cfg.Valid() && HubOk(cfg, s.core) && room != "" && sid != "" && name != ""
    requires Gate(cfg, s.core, room, sid, name, offer, code, now).1 == RoomFull
    ensures room in s.core.channels
    ensures var ch := s.core.channels[room];
      HandleJoin(cfg, s, sid, room, name, offer, code, now, at).core == s.core <==>
        ch.ownerSid != "" && ch.ownerName != "" && !OwnerChanges(ch, sid, offer)
  {
    GateMembers(cfg, s.core, room, sid, name, offer, code, now);
    assert room in s.core.rooms;
    assert EntryOk(cfg, s.core.channels[room]);
    EntryKeptIff(cfg, s.core, room, sid, name, offer, code, now);
    var entry := Screened(s.core, room, sid, name, offer, code, now).0;
    hide Screened, HubOk, EntryOk;
    assert HandleJoin(cfg, s, sid, room, name, offer, code, now, at).core
      == s.core.(channels := s.core.channels[room := entry]);
    assert s.core.channels[room := entry][room] == entry;
    if entry == s.core.channels[room] { assert s.core.channels[room := entry] == s.core.channels; }
  }

  lemma EntryKeptIff(cfg: Config, h: Core, room: Room, sid: Sid, name: string, offer: Offer, code: string, now: Time)
    requires room in h.channels && EntryOk(cfg, h.channels[room]) && sid != "" && name != ""
    ensures var ch := h.channels[room];
      Screened(h, room, sid, name, offer, code, now).0 == ch <==>
        ch.ownerSid != "" && ch.ownerName != "" && !OwnerChanges(ch, sid, offer)
  {
    hide IsInviteCode, IsPin;
  }
}

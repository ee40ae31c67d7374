/**
 * The hub as an object whose maps are updated step by step. Every method is
 * proved to compute the region or handler of the same name in HubModel and
 * Handlers, so what is proved about those holds of the object.
 */
module HubObject {
  import opened Prelude
  import opened ChannelText
  import opened HubModel
  import opened HubInvariant
  import opened MemberLists
  import opened Handlers
  import Interleaving
  import Pings

  function SidPrefix(sid: Sid): string {
    if |sid| <= 6 then sid else sid[..6]
  }

  /** The text of a request as the gate uses it. */
  method CleanRequest(req: Request) returns (offer: Offer)
    ensures offer == OfferOf(req)
  {
    hide CleanVisibility, CleanPin, CleanSecret, FirstNonEmpty;
    var wanted := CleanVisibility(req.visibility);
    if wanted == Unset {
      wanted := CleanVisibility(req.channelType);
    }
    if wanted == Unset {
      wanted := Public;
    }
    var typedPin := FirstNonEmptyString([req.pin, req.channelPin]);
    var pin := CleanChannelPin(typedPin);
    var typedSecret := FirstNonEmptyString([req.inviteCode, req.channelCode, req.code, req.secret]);
    var secret := CleanChannelSecret(typedSecret);
    offer := Offer(wanted, pin, secret);
  }

  /** The elements of a set, taken in any order and then sorted. */
  method SortedElements(all: set<Sid>) returns (sids: seq<Sid>)
    ensures sids == SortedSids(all)
  {
    hide StringLeq;
    var rest := all;
    sids := [];
    while rest != {}
      invariant rest <= all
      invariant multiset(sids) == multiset(all - rest)
      decreases rest
    {
      var sid :| sid in rest;
      assert all - (rest - {sid}) == (all - rest) + {sid};
      rest, sids := rest - {sid}, sids + [sid];
    }
    assert all - rest == all;
    StringLeqIsOrder();
    sids := SortBy(StringLeq, sids);
    SortedSidsUnique(all, sids);
  }

  class Hub {
    const cfg: Config
    var users: map<Sid, User>
    var rooms: map<Room, set<Sid>>
    var channels: map<Room, Channel>
    /** Per registered client, the envelopes its Send queue accepted. */
    var inbox: map<Sid, seq<Event>>
    var quality: map<Sid, Pings.QualityState>
    var closed: bool

    constructor (cfg: Config)
      ensures this.cfg == cfg && Contents() == Session(EMPTY_CORE, map[]) && quality == map[] && !closed
    {
      this.cfg := cfg;
      users, rooms, channels, inbox, quality, closed := map[], map[], map[], map[], map[], false;
    }

    function State(): Core
      reads this
    {
      Core(users, rooms, channels)
    }

    function Contents(): Session
      reads this
    {
      Session(State(), inbox)
    }

    /** The registration side of the interleaved system, as far as the object holds it. */
    predicate Shows(c: Interleaving.Conn)
      reads `inbox, `quality, `closed
    {
      c.clients == inbox.Keys && c.quality == quality.Keys && c.closed == closed
    }

    function MembersOf(room: Room): set<Sid>
      reads `rooms
    {
      if room in rooms then rooms[room] else {}
    }

    method TouchChannelLocked(room: Room, now: Time)
      modifies `channels
      ensures State() == Touch(old(State()), room, now)
    {
      if room == "" {
        return;
      }
      var state := if room in channels then channels[room] else FreshChannel(now);
      state := state.(userCount := |MembersOf(room)|);
      state := state.(lastActive := now);
      state := state.(emptySince := None, expiresAt := None);
      channels := channels[room := state];
    }

    method MarkChannelEmptyLocked(room: Room, now: Time)
      modifies `channels
      ensures State() == MarkEmpty(cfg, old(State()), room, now)
    {
      if room == "" {
        return;
      }
      var state := if room in channels then channels[room] else FreshChannel(now);
      state := state.(userCount := 0, lastActive := now);
      if state.emptySince == None {
        state := state.(emptySince := Some(now));
      }
      state := state.(expiresAt := Some(state.emptySince.value + cfg.emptyTtl));
      channels := channels[room := state];
    }

    method LeaveNoBroadcast(sid: Sid, now: Time) returns (room: Room, name: string)
      modifies `users, `rooms, `channels
      ensures State() == Leave(cfg, old(State()), sid, now)
      ensures room == OldRoom(old(State()), sid)
      ensures name == if sid in old(users) then old(users)[sid].name else SidPrefix(sid)
    {
      if sid !in users {
        return "", SidPrefix(sid);
      }
      room, name := users[sid].room, users[sid].name;
      if room in rooms {
        rooms := rooms[room := rooms[room] - {sid}];
        if |rooms[room]| == 0 {
          rooms := rooms - {room};
          assert rooms == old(rooms) - {room};
          MarkChannelEmptyLocked(room, now);
        } else {
          TouchChannelLocked(room, now);
        }
      }
      users := users - {sid};
    }

    method PrepareChannelJoinLocked(room: Room, sid: Sid, name: string, req: Request, code: string, now: Time)
      returns (verdict: Verdict)
      modifies `channels
      ensures (State(), verdict) == Prepare(old(State()), room, sid, name, OfferOf(req), code, now)
    {
      hide OfferOf, EqualFold;
      var offer := CleanRequest(req);
      var wanted, pin := offer.wanted, offer.pin;

      if room !in channels {
        var state := Channel(wanted, wanted == Private, 0, sid, name, false, now, now, None, None, "", NoDigest);
        if state.private {
          state := state.(inviteCode := code);
          if pin != "" {
            state := state.(pinHash := Digest(pin), hasPin := true);
          }
        }
        channels := channels[room := state];
        return Admitted;
      }

      var state := channels[room];
      if state.visibility == Unset {
        state := state.(visibility := Public);
      }
      state := state.(private := state.visibility == Private);
      if state.ownerSid == "" {
        state := state.(ownerSid := sid);
      }
      if state.ownerName == "" {
        state := state.(ownerName := name);
      }
      if state.ownerSid == sid {
        if wanted == Private && !state.private {
          state := state.(visibility := Private, private := true, inviteCode := code);
        }
        if state.private && pin != "" {
          state := state.(pinHash := Digest(pin), hasPin := true);
        }
        channels := channels[room := state];
        return Admitted;
      }
      channels := channels[room := state];
      if state.private && sid !in MembersOf(room) {
        var validInvite := state.inviteCode != "" && EqualFold(offer.secret, state.inviteCode);
        var validPin := state.pinHash != NoDigest && pin != "" && Digest(pin) == state.pinHash;
        if !validInvite && !validPin {
          return PrivateChannel;
        }
      }
      return Admitted;
    }

    /** The sids of a room in ascending order, each known one with its name. */
    method MembersLocked(room: Room) returns (list: seq<RoomMember>)
      ensures list == MemberList(State(), room)
      ensures GoesUp(list)
      ensures forall e :: e in list <==>
        room in rooms && e.sid in rooms[room] && e.sid in users && e.name == users[e.sid].name
    {
      var sids := SortedElements(MembersOf(room));
      list := [];
      for i := 0 to |sids|
        invariant list == NamesOf(users, sids[..i])
      {
        assert sids[..i + 1] == sids[..i] + [sids[i]];
        NamesOfAppend(users, sids[..i], [sids[i]]);
        if sids[i] in users {
          list := list + [RoomMember(sids[i], users[sids[i]].name)];
        }
      }
      assert sids[..|sids|] == sids;
      MemberListLaw(State(), room);
    }

    method SendTo(sid: Sid, event: Event)
      modifies `inbox
      ensures Contents() == Send(old(Contents()), sid, event)
      ensures inbox == if sid in old(inbox) then old(inbox)[sid := old(inbox)[sid] + [event]] else old(inbox)
    {
      if sid in inbox {
        inbox := inbox[sid := inbox[sid] + [event]];
      }
      assert inbox == Push(old(inbox), {sid}, event);
    }

    /** The room's registered clients except one are collected first and then served one by one. */
    method BroadcastTo(room: Room, event: Event, skip: Sid)
      modifies `inbox
      ensures Contents() == Broadcast(old(Contents()), room, event, skip)
      ensures inbox.Keys == old(inbox).Keys
      ensures forall sid :: sid in inbox ==>
        var told := room in rooms && sid in rooms[room] && sid != skip;
        inbox[sid] == if told then old(inbox)[sid] + [event] else old(inbox)[sid]
    {
      var all := MembersOf(room);
      var clients := set sid | sid in all && sid != skip && sid in inbox;
      var rest := clients;
      while rest != {}
        invariant rest <= clients
        invariant inbox == Push(old(inbox), clients - rest, event)
        decreases rest
      {
        var sid :| sid in rest;
        inbox := inbox[sid := inbox[sid] + [event]];
        rest := rest - {sid};
      }
      assert inbox == Push(old(inbox), all - {skip}, event);
    }

    /** First region of a join: the entry is screened, then the room's capacity is checked for newcomers. */
    method GateJoin(room: Room, sid: Sid, name: string, req: Request, code: string, now: Time)
      returns (verdict: Verdict)
      modifies `channels
      ensures (State(), verdict) == Gate(cfg, old(State()), room, sid, name, OfferOf(req), code, now)
    {
      hide Prepare, OfferOf;
      verdict := PrepareChannelJoinLocked(room, sid, name, req, code, now);
      if verdict != Admitted {
        return verdict;
      }
      var alreadyMember := sid in MembersOf(room);
      if !alreadyMember && |MembersOf(room)| >= cfg.maxRoomSize {
        return RoomFull;
      }
    }

    /** Third region of a join; the reply is the joiner's room_state. */
    method CommitJoin(room: Room, sid: Sid, name: string, now: Time) returns (verdict: Verdict, reply: Event)
      modifies `users, `rooms, `channels
      ensures (State(), verdict) == Commit(cfg, old(State()), room, sid, name, now)
      ensures verdict == Admitted ==> reply == RoomStateFor(State(), room, sid)
      ensures verdict == Admitted ==>
        reply.RoomState? && reply.room == room && reply.members == MemberList(State(), room)
      ensures verdict == Admitted && room in channels ==>
        var ch := channels[room];
        && reply.visibility == (if ch.visibility == Unset then Public else ch.visibility)
        && (reply.private <==> ch.visibility == Private)
        && (reply.owner <==> ch.ownerSid == sid) && (reply.hasPin <==> ch.hasPin)
        && reply.inviteCode == (if ch.visibility == Private && ch.ownerSid == sid then ch.inviteCode else "")
      ensures verdict == Admitted ==> reply.userCount == |reply.members|
      ensures verdict == Admitted && MembershipOk(cfg, State()) ==> reply.userCount == |rooms[room]|
      ensures verdict != Admitted ==> reply == Refusal(verdict) == ErrorEvent("ROOM_FULL")
    {
      if room !in rooms {
        rooms := rooms[room := {}];
      }
      if |rooms[room]| >= cfg.maxRoomSize {
        assert rooms == old(rooms)[room := Members(old(State()), room)];
        return RoomFull, Refusal(RoomFull);
      }
      rooms := rooms[room := rooms[room] + {sid}];
      users := users[sid := User(name, room, now)];
      ghost var before := Members(old(State()), room);
      assert State() == Core(old(users)[sid := User(name, room, now)],
                             old(rooms)[room := before][room := before + {sid}], channels);
      TouchChannelLocked(room, now);
      var members := MembersLocked(room);
      var visibility, private, owner, inviteCode, hasPin := Public, false, false, "", false;
      if room in channels {
        var state := channels[room];
        visibility := if state.visibility == Unset then Public else state.visibility;
        private := visibility == Private;
        hasPin := state.hasPin;
        owner := state.ownerSid == sid;
        if owner && private {
          inviteCode := state.inviteCode;
        }
      }
      verdict, reply := Admitted, RoomState(room, members, |members|, visibility, private, owner, inviteCode, hasPin);
      if MembershipOk(cfg, State()) { ListLength(State(), room); }
    }

    /** A join whose three regions run with nothing in between; `at` is the clock inside the second one. */
    method JoinRoom(sid: Sid, room: Room, name: string, req: Request, code: string, now: Time, at: Time)
      modifies `users, `rooms, `channels, `inbox
      ensures Contents() == HandleJoin(cfg, old(Contents()), sid, room, name, OfferOf(req), code, now, at)
    {
      hide Gate, Leave, Commit, OfferOf, RoomStateFor;
      if room == "" {
        SendTo(sid, ErrorEvent("BAD_CHANNEL"));
        return;
      }
      var verdict := GateJoin(room, sid, name, req, code, now);
      if verdict != Admitted {
        SendTo(sid, Refusal(verdict));
        return;
      }
      var oldRoom, oldName := LeaveNoBroadcast(sid, at);
      if oldRoom != "" && oldRoom != room {
        BroadcastTo(oldRoom, PeerLeft(sid, oldName), sid);
      }
      var second, reply := CommitJoin(room, sid, name, now);
      if second != Admitted {
        SendTo(sid, reply);
        return;
      }
      BroadcastTo(room, PeerJoined(sid, name), sid);
      SendTo(sid, reply);
    }

    method LeaveChannel(sid: Sid, at: Time)
      modifies `users, `rooms, `channels, `inbox
      ensures Contents() == HandleLeave(cfg, old(Contents()), sid, at)
    {
      var room, name := LeaveNoBroadcast(sid, at);
      if room != "" {
        BroadcastTo(room, PeerLeft(sid, name), sid);
      }
    }

    method UpdateName(sid: Sid, newName: string)
      modifies `users, `inbox
      ensures Contents() == HandleUpdateName(old(Contents()), sid, newName)
    {
      if newName == "" {
        return;
      }
      var room := "";
      if sid in users {
        users := users[sid := users[sid].(name := newName)];
        room := users[sid].room;
      }
      if room != "" {
        BroadcastTo(room, PeerRenamed(sid, newName), sid);
      }
    }

    /** A refused client has its Send channel closed at once; another starts with an empty one and an empty record. */
    method AddClient(sid: Sid, ghost c: Interleaving.Conn) returns (refused: bool)
      requires Shows(c)
      modifies `inbox, `quality
      ensures Shows(Interleaving.NextConn(c, Interleaving.AddClient(sid))) && refused == closed
      ensures Contents() == if closed then old(Contents()) else old(Contents()).(inbox := old(inbox)[sid := []])
      ensures closed ==> quality == old(quality)
      ensures !closed ==> sid in quality && quality == old(quality)[sid := quality[sid]]
      ensures !closed ==> fresh(quality[sid]) && quality[sid].View() == Pings.State(map[], [], [])
    {
      if closed {
        return true;
      }
      inbox := inbox[sid := []];
      var q := new Pings.QualityState();
      quality := quality[sid := q];
      refused := false;
    }

    /** The Send channel of a client that was still registered is closed afterwards, and only then. */
    method Remove(sid: Sid, at: Time, ghost c: Interleaving.Conn) returns (closing: bool)
      requires Shows(c)
      modifies `users, `rooms, `channels, `inbox, `quality
      ensures Contents() == RemoveClient(cfg, old(Contents()), sid, at)
      ensures quality == old(quality) - {sid} && closing == (sid in old(inbox))
      ensures Shows(Interleaving.NextConn(c, Interleaving.RemoveTake(sid)))
    {
      var room, name := LeaveNoBroadcast(sid, at);
      closing := sid in inbox;
      inbox := inbox - {sid};
      quality := quality - {sid};
      if room != "" {
        BroadcastTo(room, PeerLeft(sid, name), sid);
      }
    }

    /** The first call empties every map and yields the clients whose Send channels it closes; later ones do nothing. */
    method Close(ghost c: Interleaving.Conn) returns (closing: set<Sid>)
      requires Shows(c)
      modifies this
      ensures closed && Shows(Interleaving.NextConn(c, Interleaving.CloseHub))
      ensures closing == if old(closed) then {} else old(inbox.Keys)
      ensures Contents() == if old(closed) then old(Contents()) else Session(EMPTY_CORE, map[])
      ensures quality == if old(closed) then old(quality) else map[]
    {
      if closed {
        return {};
      }
      closed := true;
      closing := inbox.Keys;
      inbox, users, rooms, channels, quality := map[], map[], map[], map[], map[];
    }

    /** The sweep visits the entries in any order and deletes while it goes. */
    method CleanupExpiredChannels(now: Time) returns (expired: set<Room>)
      modifies `channels, `rooms
      ensures State() == Sweep(cfg, old(State()), now)
      ensures expired == ExpiredRooms(cfg, old(State()), now)
    {
      expired := {};
      var todo := channels.Keys;
      while todo != {}
        invariant todo <= old(channels).Keys
        invariant expired == ExpiredRooms(cfg, old(State()), now) - todo
        invariant channels == old(channels) - expired && rooms == old(rooms) - expired
        decreases todo
      {
        var room :| room in todo;
        todo := todo - {room};
        var state := channels[room];
        if state.emptySince != None && |MembersOf(room)| == 0 && now - state.emptySince.value >= cfg.emptyTtl {
          channels := channels - {room};
          rooms := rooms - {room};
          expired := expired + {room};
        }
      }
    }
  }
}

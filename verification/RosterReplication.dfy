/**
 * A client that folds what it is sent knows exactly who else is in its room,
 * and under which name, after any run of whole handlers.
 */
module RosterReplication {
  import opened Prelude
  import opened ChannelText
  import opened HubModel
  import opened HubInvariant
  import opened MemberLists
  import opened Handlers

  type Names = map<Sid, string>

  /** How a client updates its list of peers on one event. */
  function Learn(known: Names, me: Sid, event: Event): Names {
    match event
    case RoomState(_, members, _, _, _, _, _, _) => AsMap(members) - {me}
    case PeerJoined(sid, name) => known[sid := name]
    case PeerLeft(sid, _) => known - {sid}
    case PeerRenamed(sid, name) => known[sid := name]
    case ErrorEvent(_) => known
  }

  function Roster(me: Sid, log: seq<Event>): Names {
    if log == [] then map[] else Learn(Roster(me, log[..|log| - 1]), me, log[|log| - 1])
  }

  lemma RosterAppend(me: Sid, log: seq<Event>, event: Event)
    ensures Roster(me, log + [event]) == Learn(Roster(me, log), me, event)
  {
    assert (log + [event])[..|log|] == log;
  }

  /** The truth: the other members of my room with their current names. */
  function Others(h: Core, me: Sid): Names
    requires me in h.users
  {
    map sid | sid in Members(h, h.users[me].room) && sid != me && sid in h.users :: h.users[sid].name
  }

  ghost predicate UpToDate(s: Session, me: Sid) {
    me in s.core.users ==> me in s.inbox && Roster(me, s.inbox[me]) == Others(s.core, me)
  }

  ghost predicate Replicated(s: Session) {
    forall me :: UpToDate(s, me)
  }

  /** `me` received `events` on top of its log. */
  ghost predicate Received(s: Session, s': Session, me: Sid, events: seq<Event>) {
    me in s.inbox && me in s'.inbox && s'.inbox[me] == s.inbox[me] + events
  }

  // ---- One handler

  /** What each client is sent by an admitted, uninterrupted join. */
  lemma JoinSends(cfg: Config, s: Session, sid: Sid, room: Room, name: string, offer: Offer, code: string,
                  now: Time, at: Time, me: Sid)
    requires cfg.Valid() && HubOk(cfg, s.core) && room != "" && sid != "" && name != ""
    requires offer.Clean() && IsInviteCode(code)
    requires Gate(cfg, s.core, room, sid, name, offer, code, now).1 == Admitted && sid in s.inbox && me in s.inbox
    ensures var s' := HandleJoin(cfg, s, sid, room, name, offer, code, now, at);
      && s'.core == Joined(cfg, s.core, room, sid, name, offer, code, now, at).0
      && Received(s, s', me,
           if me == sid then [RoomStateFor(s'.core, room, sid)]
           else if me in Members(s.core, room) then [PeerJoined(sid, name)]
           else if OldRoom(s.core, sid) != "" && me in Members(s.core, OldRoom(s.core, sid))
           then [PeerLeft(sid, s.core.users[sid].name)]
           else [])
  {
    hide Gate, Leave, Commit, MembershipOk, BookkeepingOk, RoomStateFor;
    JoinSwitchesRooms(cfg, s.core, room, sid, name, offer, code, now, at);
    GateMembers(cfg, s.core, room, sid, name, offer, code, now);
    GateKeeps(cfg, s.core, room, sid, name, offer, code, now);
    LeaveMembers(cfg, Gate(cfg, s.core, room, sid, name, offer, code, now).0, sid, at);
    if me in Members(s.core, room) && me in Members(s.core, OldRoom(s.core, sid)) {
      OneRoom(cfg, s.core, me, room, OldRoom(s.core, sid));
    }
  }

  lemma OneRoom(cfg: Config, h: Core, me: Sid, r1: Room, r2: Room)
    requires HubOk(cfg, h) && me in Members(h, r1) && me in Members(h, r2)
    ensures r1 == r2
  {
    assert h.users[me].room == r1 && h.users[me].room == r2;
  }

  /** The joiner learns the whole room from its room_state. */
  lemma JoinerLearns(h: Core, room: Room, sid: Sid, log: seq<Event>)
    requires sid in h.users && h.users[sid].room == room
    ensures Roster(sid, log + [RoomStateFor(h, room, sid)]) == Others(h, sid)
  {
    RosterAppend(sid, log, RoomStateFor(h, room, sid));
    MemberListAsMap(h, room);
  }

  /** A client that receives the one event that tells what changed stays up to date. */
  lemma HearsOne(s: Session, s': Session, me: Sid, event: Event)
    requires me in s.core.users && me in s'.core.users && UpToDate(s, me) && Received(s, s', me, [event])
    requires Learn(Others(s.core, me), me, event) == Others(s'.core, me)
    ensures UpToDate(s', me)
  {
    RosterAppend(me, s.inbox[me], event);
  }

  lemma HearsNothing(s: Session, s': Session, me: Sid)
    requires me in s.core.users && me in s'.core.users && UpToDate(s, me) && Received(s, s', me, [])
    requires Others(s.core, me) == Others(s'.core, me)
    ensures UpToDate(s', me)
  {
    assert s.inbox[me] + [] == s.inbox[me];
  }

  /** A peer of either room, or of neither, follows the move of sid. */
  lemma PeerFollows(cfg: Config, s: Session, s': Session, sid: Sid, room: Room, name: string, now: Time, me: Sid)
    requires HubOk(cfg, s.core) && UpToDate(s, me) && me != sid && me in s.core.users
    requires s'.core.users == s.core.users[sid := User(name, room, now)]
    requires forall r :: r != room ==> Members(s'.core, r) == Members(s.core, r) - {sid}
    requires Members(s'.core, room) == Members(s.core, room) + {sid}
    requires Received(s, s', me,
               if me in Members(s.core, room) then [PeerJoined(sid, name)]
               else if OldRoom(s.core, sid) != "" && me in Members(s.core, OldRoom(s.core, sid))
           then [PeerLeft(sid, s.core.users[sid].name)]
               else [])
    ensures UpToDate(s', me)
  {
    hide Roster, UpToDate, Received, HubOk, Others, Members;
    var peer := s.core.users[me].room;
    PeerPlace(cfg, s.core, me, sid, room);
    PeerLearns(s.core, s'.core, me, sid, name);
    if peer == room {
      HearsOne(s, s', me, PeerJoined(sid, name));
    } else if peer == OldRoom(s.core, sid) {
      HearsOne(s, s', me, PeerLeft(sid, s.core.users[sid].name));
    } else {
      NotAmongOthers(s.core, me, sid);
      HearsNothing(s, s', me);
    }
  }

  /** Where a client stands when another one moves. */
  lemma PeerPlace(cfg: Config, h: Core, me: Sid, sid: Sid, room: Room)
    requires HubOk(cfg, h) && me in h.users
    ensures var peer, prev := h.users[me].room, OldRoom(h, sid);
      && (me in Members(h, room) <==> peer == room)
      && (prev != "" && me in Members(h, prev) <==> peer == prev)
      && (sid in Members(h, peer) <==> peer == prev)
      && (peer == prev ==> sid in h.users)
  {
  }

  lemma NotAmongOthers(h: Core, me: Sid, sid: Sid)
    requires me in h.users && sid !in Members(h, h.users[me].room)
    ensures Others(h, me) - {sid} == Others(h, me)
  {
  }

  lemma JoinReplicates(cfg: Config, s: Session, sid: Sid, room: Room, name: string, offer: Offer, code: string,
                       now: Time, at: Time, me: Sid)
    requires cfg.Valid() && HubOk(cfg, s.core) && Replicated(s) && sid in s.inbox
    requires room != "" && sid != "" && name != "" && offer.Clean() && IsInviteCode(code)
    requires Gate(cfg, s.core, room, sid, name, offer, code, now).1 == Admitted
    ensures UpToDate(HandleJoin(cfg, s, sid, room, name, offer, code, now, at), me)
  {
    hide Gate, Joined, HandleJoin, MembershipOk, BookkeepingOk, RoomStateFor, Roster;
    var s' := HandleJoin(cfg, s, sid, room, name, offer, code, now, at);
    JoinSwitchesRooms(cfg, s.core, room, sid, name, offer, code, now, at);
    JoinSends(cfg, s, sid, room, name, offer, code, now, at, sid);
    assert UpToDate(s, me);
    if me == sid {
      JoinerLearns(s'.core, room, sid, s.inbox[sid]);
    } else if me in s.core.users {
      JoinSends(cfg, s, sid, room, name, offer, code, now, at, me);
      PeerFollows(cfg, s, s', sid, room, name, now, me);
    }
  }

  /** What changes for a peer when only sid moved: sid appears, disappears, or neither. */
  lemma PeerLearns(h: Core, h': Core, me: Sid, sid: Sid, name: string)
    requires me != sid && me in h.users && me in h'.users && h'.users[me] == h.users[me]
    requires forall x :: x != sid ==> (x in h.users <==> x in h'.users) && (x in h.users ==> h'.users[x] == h.users[x])
    requires forall x :: x != sid ==> (x in Members(h, h.users[me].room) <==> x in Members(h', h.users[me].room))
    ensures sid in Members(h', h.users[me].room) && sid in h'.users ==>
      Others(h', me) == Others(h, me)[sid := h'.users[sid].name]
    ensures sid !in Members(h', h.users[me].room) ==> Others(h', me) == Others(h, me) - {sid}
  {
  }

  lemma LeaveReplicates(cfg: Config, s: Session, sid: Sid, at: Time, me: Sid)
    requires HubOk(cfg, s.core) && Replicated(s)
    ensures UpToDate(HandleLeave(cfg, s, sid, at), me)
    ensures UpToDate(RemoveClient(cfg, s, sid, at), me)
  {
    hide Leave, BookkeepingOk, Roster;
    LeaveMembers(cfg, s.core, sid, at);
    assert UpToDate(s, me);
    if me in s.core.users && me != sid {
      var h' := Leave(cfg, s.core, sid, at);
      PeerLearns(s.core, h', me, sid, "");
      if sid in s.core.users {
        RosterAppend(me, s.inbox[me], PeerLeft(sid, s.core.users[sid].name));
      }
    }
  }

  lemma RenameReplicates(cfg: Config, s: Session, sid: Sid, newName: string, me: Sid)
    requires HubOk(cfg, s.core) && Replicated(s)
    ensures UpToDate(HandleUpdateName(s, sid, newName), me)
  {
    assert UpToDate(s, me);
    if me in s.core.users && newName != "" && sid in s.core.users {
      RenameSends(cfg, s, sid, newName, me);
      RenamedOthers(s.core, me, sid, newName);
      hide HubOk, Replicated, Roster, HandleUpdateName, Received, Others, Members;
      var s' := HandleUpdateName(s, sid, newName);
      assert me in s'.core.users;
      hide UpToDate, Rename;
      if sid in Members(s.core, s.core.users[me].room) && me != sid {
        HearsOne(s, s', me, PeerRenamed(sid, newName));
      } else {
        HearsNothing(s, s', me);
      }
    } else {
      hide HubOk, Roster;
    }
  }

  lemma RenamedOthers(h: Core, me: Sid, sid: Sid, newName: string)
    requires me in h.users && newName != "" && sid in h.users
    ensures var h' := Rename(h, sid, newName);
      && me in h'.users && h'.users[me].room == h.users[me].room
      && var peer := me != sid && sid in Members(h, h.users[me].room);
         Others(h', me) == if peer then Others(h, me)[sid := newName] else Others(h, me)
  {
  }

  /** A rename reaches exactly the other members of the room. */
  lemma RenameSends(cfg: Config, s: Session, sid: Sid, newName: string, me: Sid)
    requires HubOk(cfg, s.core) && newName != "" && sid in s.core.users && me in s.core.users && me in s.inbox
    ensures var s' := HandleUpdateName(s, sid, newName);
      && s'.core == Rename(s.core, sid, newName)
      && var peer := me != sid && sid in Members(s.core, s.core.users[me].room);
         Received(s, s', me, if peer then [PeerRenamed(sid, newName)] else [])
  {
    PeerPlace(cfg, s.core, me, sid, "");
    assert OldRoom(s.core, sid) != "";
    hide HubOk;
  }

  // ---- Every run

  datatype Call =
    | Connect(sid: Sid)
    | Join(sid: Sid, room: Room, name: string, req: Request, code: string, now: Time, at: Time)
    | LeaveRoom(sid: Sid, at: Time)
    | UpdateName(sid: Sid, name: string)
    | Disconnect(sid: Sid, at: Time)
    | CleanUp(now: Time)

  predicate Callable(s: Session, call: Call) {
    match call
    case Connect(sid) => sid !in s.inbox && sid != ""
    case Join(sid, room, name, req, code, now, at) =>
      sid in s.inbox && sid != "" && name != "" && IsInviteCode(code)
    case _ => true
  }

  ghost function After(cfg: Config, s: Session, call: Call): Session {
    match call
    case Connect(sid) => s.(inbox := s.inbox[sid := []])
    case Join(sid, room, name, req, code, now, at) =>
      HandleJoin(cfg, s, sid, room, name, OfferOf(req), code, now, at)
    case LeaveRoom(sid, at) => HandleLeave(cfg, s, sid, at)
    case UpdateName(sid, name) => HandleUpdateName(s, sid, name)
    case Disconnect(sid, at) => RemoveClient(cfg, s, sid, at)
    case CleanUp(now) => s.(core := Sweep(cfg, s.core, now))
  }

  lemma RefusedJoinReplicates(cfg: Config, s: Session, sid: Sid, room: Room, name: string, offer: Offer,
                              code: string, now: Time, at: Time, me: Sid)
    requires cfg.Valid() && HubOk(cfg, s.core) && Replicated(s)
    requires room == "" || Gate(cfg, s.core, room, sid, name, offer, code, now).1 != Admitted
    ensures UpToDate(HandleJoin(cfg, s, sid, room, name, offer, code, now, at), me)
  {
    hide BookkeepingOk, Roster, Leave, Commit;
    assert UpToDate(s, me);
    if room == "" {
      if me in s.inbox { RosterAppend(me, s.inbox[me], ErrorEvent("BAD_CHANNEL")); }
    } else {
      var verdict := Gate(cfg, s.core, room, sid, name, offer, code, now).1;
      GateMembers(cfg, s.core, room, sid, name, offer, code, now);
      if me in s.inbox { RosterAppend(me, s.inbox[me], Refusal(verdict)); }
    }
  }

  lemma AfterReplicates(cfg: Config, s: Session, call: Call)
    requires cfg.Valid() && HubOk(cfg, s.core) && Replicated(s) && Callable(s, call)
    ensures Replicated(After(cfg, s, call))
  {
    hide OfferOf, HandleJoin, HandleLeave, HandleUpdateName, RemoveClient, Sweep, Gate, HubOk;
    forall me ensures UpToDate(After(cfg, s, call), me) {
      match call
      case Connect(sid) => assert UpToDate(s, me) && UpToDate(s, sid);
      case Join(sid, room, name, req, code, now, at) =>
        OfferIsClean(req);
        var offer := OfferOf(req);
        if room != "" && Gate(cfg, s.core, room, sid, name, offer, code, now).1 == Admitted {
          JoinReplicates(cfg, s, sid, room, name, offer, code, now, at, me);
        } else {
          RefusedJoinReplicates(cfg, s, sid, room, name, offer, code, now, at, me);
        }
      case LeaveRoom(sid, at) => LeaveReplicates(cfg, s, sid, at, me);
      case UpdateName(sid, name) => RenameReplicates(cfg, s, sid, name, me);
      case Disconnect(sid, at) => LeaveReplicates(cfg, s, sid, at, me);
      case CleanUp(now) =>
        SweepEntry(cfg, s.core, now, "");
        assert UpToDate(s, me);
    }
  }

  lemma AfterKeeps(cfg: Config, s: Session, call: Call)
    requires cfg.Valid() && HubOk(cfg, s.core) && Callable(s, call)
    ensures HubOk(cfg, After(cfg, s, call).core)
  {
    hide OfferOf, Gate, Leave, Commit, Rename, Sweep, HubOk, RoomStateFor;
    match call
    case Connect(sid) =>
    case Join(sid, room, name, req, code, now, at) =>
      OfferIsClean(req);
      var offer := OfferOf(req);
      if room != "" {
        GateKeeps(cfg, s.core, room, sid, name, offer, code, now);
        if Gate(cfg, s.core, room, sid, name, offer, code, now).1 == Admitted {
          JoinSwitchesRooms(cfg, s.core, room, sid, name, offer, code, now, at);
        }
      }
    case LeaveRoom(sid, at) => LeaveKeeps(cfg, s.core, sid, at);
    case UpdateName(sid, name) => RenameKeeps(cfg, s.core, sid, name);
    case Disconnect(sid, at) => LeaveKeeps(cfg, s.core, sid, at);
    case CleanUp(now) => SweepKeeps(cfg, s.core, now);
  }

  ghost predicate IsHistory(cfg: Config, ss: seq<Session>, calls: seq<Call>) {
    && cfg.Valid() && |ss| == |calls| + 1 && ss[0] == Session(EMPTY_CORE, map[])
    && forall i :: 0 <= i < |calls| ==> Callable(ss[i], calls[i]) && ss[i + 1] == After(cfg, ss[i], calls[i])
  }

  /** After any run of whole handlers every member's fold is the hub's current truth. */
  lemma {:induction false} EveryRosterIsTrue(cfg: Config, ss: seq<Session>, calls: seq<Call>, n: nat)
    requires IsHistory(cfg, ss, calls) && n < |ss|
    ensures HubOk(cfg, ss[n].core) && Replicated(ss[n])
  {
    hide After, HubOk;
    if n == 0 {
      EmptyOk(cfg);
    } else {
      EveryRosterIsTrue(cfg, ss, calls, n - 1);
      AfterReplicates(cfg, ss[n - 1], calls[n - 1]);
      AfterKeeps(cfg, ss[n - 1], calls[n - 1]);
    }
  }
}

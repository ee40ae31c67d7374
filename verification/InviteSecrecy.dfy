/**
 * The invite code of a private channel is shown to its owner only: over every
 * run of whole handlers no client ever received it without owning the channel
 * at that moment, and under every interleaving the replies of one life of a
 * channel show it to one sid only.
 */
module InviteSecrecy {
  import opened Prelude
  import opened ChannelText
  import opened HubModel
  import opened HubInvariant
  import opened Handlers
  import opened RosterReplication
  import Interleaving
  import HubRuns
  import HubLaws

  predicate BearsCode(event: Event) {
    event.RoomState? && event.inviteCode != ""
  }

  /** The channel is private, `me` owns it, and the event carries its code. */
  predicate OwnersCode(h: Core, me: Sid, event: Event)
    requires event.RoomState?
  {
    && event.room in h.channels
    && var ch := h.channels[event.room];
       ch.private && ch.ownerSid == me && ch.inviteCode == event.inviteCode
  }

  /** The i-th event of the log was there before. */
  predicate IsOld(inbox: map<Sid, seq<Event>>, inbox': map<Sid, seq<Event>>, me: Sid, i: nat)
    requires me in inbox' && i < |inbox'[me]|
  {
    me in inbox && i < |inbox[me]| && inbox[me][i] == inbox'[me][i]
  }

  lemma PushTells(inbox: map<Sid, seq<Event>>, targets: set<Sid>, event: Event, me: Sid, i: nat)
    requires me in inbox && i < |Push(inbox, targets, event)[me]|
    ensures var inbox' := Push(inbox, targets, event);
      IsOld(inbox, inbox', me, i) || (me in targets && inbox'[me][i] == event)
  {
  }

  /** The room_state of a room with well-formed books bears a code only for the owner. */
  lemma RoomStateTells(cfg: Config, h: Core, room: Room, sid: Sid)
    requires HubOk(cfg, h) && BearsCode(RoomStateFor(h, room, sid))
    ensures OwnersCode(h, sid, RoomStateFor(h, room, sid))
  {
    if room in h.channels { assert EntryOk(cfg, h.channels[room]); }
  }

  /** A code that a join sends goes to the joiner, who owns the channel. */
  lemma JoinTells(cfg: Config, s: Session, sid: Sid, room: Room, name: string, offer: Offer, code: string,
                  now: Time, at: Time, me: Sid, i: nat)
    requires var s' := HandleJoin(cfg, s, sid, room, name, offer, code, now, at);
      HubOk(cfg, s'.core) && me in s'.inbox && i < |s'.inbox[me]| && BearsCode(s'.inbox[me][i])
    ensures var s' := HandleJoin(cfg, s, sid, room, name, offer, code, now, at);
      || IsOld(s.inbox, s'.inbox, me, i)
      || (me == sid && s'.inbox[me][i].room == room && OwnersCode(s'.core, me, s'.inbox[me][i]))
  {
    hide Gate, Leave, Commit, HubOk, RoomStateFor, OwnersCode, Members;
    if room == "" {
      PushTells(s.inbox, {sid}, ErrorEvent("BAD_CHANNEL"), me, i);
      return;
    }
    var (gated, verdict) := Gate(cfg, s.core, room, sid, name, offer, code, now);
    if verdict != Admitted {
      PushTells(s.inbox, {sid}, Refusal(verdict), me, i);
      return;
    }
    var prev := OldRoom(gated, sid);
    var s1 := s.(core := Leave(cfg, gated, sid, at));
    var s2 := if prev != "" && prev != room then Broadcast(s1, prev, PeerLeft(sid, gated.users[sid].name), sid) else s1;
    var (joined, second) := Commit(cfg, s2.core, room, sid, name, now);
    if second != Admitted {
      PushTells(s2.inbox, {sid}, Refusal(second), me, i);
    } else {
      var s3 := Broadcast(s2.(core := joined), room, PeerJoined(sid, name), sid);
      PushTells(s3.inbox, {sid}, RoomStateFor(joined, room, sid), me, i);
      if IsOld(s3.inbox, Send(s3, sid, RoomStateFor(joined, room, sid)).inbox, me, i) {
        PushTells(s2.inbox, Members(joined, room) - {sid}, PeerJoined(sid, name), me, i);
      } else {
        RoomStateTells(cfg, joined, room, sid);
        RoomStateRoom(joined, room, sid);
      }
    }
    if prev != "" && prev != room && i < |s2.inbox[me]| {
      PushTells(s.inbox, Members(s1.core, prev) - {sid}, PeerLeft(sid, gated.users[sid].name), me, i);
    }
  }

  lemma RoomStateRoom(h: Core, room: Room, sid: Sid)
    ensures RoomStateFor(h, room, sid).RoomState? && RoomStateFor(h, room, sid).room == room
  {
  }

  /** The other handlers send no code at all. */
  lemma OthersTellNothing(cfg: Config, s: Session, call: Call, me: Sid, i: nat)
    requires !call.Join?
    requires var s' := After(cfg, s, call); me in s'.inbox && i < |s'.inbox[me]| && BearsCode(s'.inbox[me][i])
    ensures IsOld(s.inbox, After(cfg, s, call).inbox, me, i)
  {
    hide HandleJoin, Leave, Sweep, Rename, OfferOf, Members;
  }

  /** At step k `me` joined the event's room and was sent its code as the owner. */
  ghost predicate SentAsOwner(ss: seq<Session>, calls: seq<Call>, k: nat, me: Sid, event: Event)
    requires k < |calls| < |ss| && event.RoomState?
  {
    calls[k].Join? && calls[k].sid == me && calls[k].room == event.room && OwnersCode(ss[k + 1].core, me, event)
  }

  /** Every invite code in any client's log was sent to it when it owned the private channel of that code. */
  lemma {:induction false} CodeGoesToOwner(cfg: Config, ss: seq<Session>, calls: seq<Call>, n: nat, me: Sid, i: nat)
    requires IsHistory(cfg, ss, calls) && n < |ss| && me in ss[n].inbox && i < |ss[n].inbox[me]|
    requires BearsCode(ss[n].inbox[me][i])
    ensures exists k: nat :: k < n && SentAsOwner(ss, calls, k, me, ss[n].inbox[me][i])
  {
    hide After, HandleJoin, HubOk, OwnersCode, OfferOf;
    if n == 0 {
      assert false;
    } else {
      var s, call := ss[n - 1], calls[n - 1];
      EveryRosterIsTrue(cfg, ss, calls, n);
      if call.Join? {
        JoinStep(cfg, s, call);
        JoinTells(cfg, s, call.sid, call.room, call.name, OfferOf(call.req), call.code, call.now, call.at, me, i);
      } else {
        OthersTellNothing(cfg, s, call, me, i);
      }
      if IsOld(s.inbox, ss[n].inbox, me, i) {
        CodeGoesToOwner(cfg, ss, calls, n - 1, me, i);
      } else {
        assert SentAsOwner(ss, calls, n - 1, me, ss[n].inbox[me][i]);
      }
    }
  }

  lemma JoinStep(cfg: Config, s: Session, call: Call)
    requires call.Join?
    ensures After(cfg, s, call)
      == HandleJoin(cfg, s, call.sid, call.room, call.name, OfferOf(call.req), call.code, call.now, call.at)
  {
    hide HandleJoin, OfferOf;
  }

  // ---- Under every interleaving

  /** The reply that the commit at step n builds for the joiner, still under the lock. */
  ghost function ReplyAt(ws: seq<Interleaving.World>, n: nat, sid: Sid): Event
    requires n + 1 < |ws| && Interleaving.PcOf(ws[n], sid).Left?
  {
    RoomStateFor(ws[n + 1].core, Interleaving.PcOf(ws[n], sid).room, sid)
  }

  /** Step n is a commit of sid that builds a reply with an invite code in it. */
  ghost predicate RepliesWithCode(ws: seq<Interleaving.World>, steps: seq<Interleaving.Step>, n: nat, sid: Sid,
                                  room: Room)
    requires |ws| == |steps| + 1 && n < |steps|
  {
    && steps[n].act == Interleaving.JoinCommit(sid) && Interleaving.PcOf(ws[n], sid).Left?
    && Interleaving.PcOf(ws[n], sid).room == room && BearsCode(ReplyAt(ws, n, sid))
  }

  /** Whatever runs between the regions of a join, its reply bears a code only for the owner of the private channel. */
  lemma ReplyGoesToOwner(cfg: Config, ws: seq<Interleaving.World>, steps: seq<Interleaving.Step>, n: nat, sid: Sid,
                         room: Room)
    requires Interleaving.IsRun(cfg, ws, steps) && n < |steps| && RepliesWithCode(ws, steps, n, sid, room)
    ensures ReplyAt(ws, n, sid).room == room && OwnersCode(ws[n + 1].core, sid, ReplyAt(ws, n, sid))
  {
    HubRuns.EveryStateOk(cfg, ws, steps, n + 1);
    hide RoomStateFor, HubOk, OwnersCode;
    RoomStateTells(cfg, ws[n + 1].core, room, sid);
    RoomStateRoom(ws[n + 1].core, room, sid);
  }

  /** Within one life of a channel all replies with a code go to one sid and show one code. */
  lemma OneReaderPerLife(cfg: Config, ws: seq<Interleaving.World>, steps: seq<Interleaving.Step>, i: nat, k: nat,
                         room: Room, first: Sid, second: Sid)
    requires Interleaving.IsRun(cfg, ws, steps) && i <= k < |steps| && HubRuns.Alive(ws, room, i + 1, k + 1)
    requires RepliesWithCode(ws, steps, i, first, room) && RepliesWithCode(ws, steps, k, second, room)
    ensures first == second && ReplyAt(ws, i, first).inviteCode == ReplyAt(ws, k, second).inviteCode
  {
    ReplyGoesToOwner(cfg, ws, steps, i, first, room);
    ReplyGoesToOwner(cfg, ws, steps, k, second, room);
    HubRuns.PrivateForLife(cfg, ws, steps, i + 1, k + 1, room);
    hide RoomStateFor;
  }

  // ---- From the creating join to the typed code

  /**
   * In every run the reply of a commit that finds a seat carries the code of
   * the channel if that is private and the joiner's own, and nothing otherwise.
   */
  lemma OwnerIsSentTheCode(cfg: Config, ws: seq<Interleaving.World>, steps: seq<Interleaving.Step>, n: nat, sid: Sid)
    requires Interleaving.IsRun(cfg, ws, steps) && n < |steps| && steps[n].act == Interleaving.JoinCommit(sid)
    requires |Members(ws[n].core, Interleaving.PcOf(ws[n], sid).room)| < cfg.maxRoomSize
    ensures Interleaving.PcOf(ws[n], sid).room in ws[n + 1].core.channels
    ensures var room := Interleaving.PcOf(ws[n], sid).room;
      var ch, reply := ws[n + 1].core.channels[room], ReplyAt(ws, n, sid);
      && reply.RoomState? && reply.room == room && reply.userCount == |ws[n + 1].core.rooms[room]|
      && (reply.owner <==> ch.ownerSid == sid) && (reply.private <==> ch.private) && (reply.hasPin <==> ch.hasPin)
      && reply.inviteCode == (if ch.private && ch.ownerSid == sid then ch.inviteCode else "")
      && (reply.inviteCode != "" <==> ch.private && ch.ownerSid == sid)
  {
    var room := Interleaving.PcOf(ws[n], sid).room;
    HubRuns.CommitSeatsIff(cfg, ws, steps, n, sid);
    HubRuns.EveryStateOk(cfg, ws, steps, n + 1);
    assert sid in Members(ws[n + 1].core, room);
    HubLaws.RoomStateLaw(cfg, ws[n + 1].core, room, sid);
    assert EntryOk(cfg, ws[n + 1].core.channels[room]);
    hide RoomStateFor;
  }

  /** Step i is the join that creates the channel, and it asks for a private one. */
  predicate CreatesPrivate(ws: seq<Interleaving.World>, steps: seq<Interleaving.Step>, i: nat, room: Room, sid: Sid)
    requires |ws| == |steps| + 1 && i < |steps|
  {
    && steps[i].act.JoinGate? && steps[i].act.room == room && steps[i].act.sid == sid
    && room !in ws[i].core.channels && Wanted(steps[i].act.req) == Private
  }

  lemma OfferWants(req: Request)
    ensures OfferOf(req).wanted == Wanted(req)
  {
    hide Wanted, TypedPin, TypedSecret, CleanPin, CleanSecret;
  }

  lemma CreatedPrivate(cfg: Config, ws: seq<Interleaving.World>, steps: seq<Interleaving.Step>, i: nat, room: Room,
                       sid: Sid)
    requires Interleaving.IsRun(cfg, ws, steps) && i < |steps| && CreatesPrivate(ws, steps, i, room, sid)
    ensures room in ws[i + 1].core.channels
    ensures var ch := ws[i + 1].core.channels[room];
      ch.private && ch.ownerSid == sid && ch.inviteCode == steps[i].act.code
  {
    hide Gate, Wanted, OfferOf;
    var a := steps[i].act;
    assert ws[i + 1].core == Gate(cfg, ws[i].core, room, sid, a.name, OfferOf(a.req), a.code, a.now).0;
    OfferWants(a.req);
    HubLaws.GateCreates(cfg, ws[i].core, room, sid, a.name, OfferOf(a.req), a.code, a.now);
  }

  /**
   * While a channel lives that was created by a join asking for privacy, an
   * outsider gets past the screening exactly as its creator, with the code of
   * the creating step, or with the last PIN that the creator brought.
   */
  lemma CreatedHistory(cfg: Config, ws: seq<Interleaving.World>, steps: seq<Interleaving.Step>, i: nat, k: nat,
                       room: Room, sid: Sid)
    requires Interleaving.IsRun(cfg, ws, steps) && i < k < |steps| && CreatesPrivate(ws, steps, i, room, sid)
    requires HubRuns.Alive(ws, room, i + 1, k)
    requires steps[k].act.JoinGate? && steps[k].act.room == room && steps[k].act.sid !in Members(ws[k].core, room)
    ensures var a := steps[k].act;
      Gate(cfg, ws[k].core, room, a.sid, a.name, OfferOf(a.req), a.code, a.now).1 != PrivateChannel <==>
        || a.sid == sid
        || HubRuns.ShowsCode(a.req, steps[i].act.code)
        || (var pin := CleanPin(TypedPin(a.req)); pin != "" && HubRuns.IsLatestPin(ws, steps, k, room, sid, pin))
  {
    hide Gate, OfferOf, Wanted, TypedPin, CleanPin, HubRuns.ShowsCode, HubRuns.IsLatestPin;
    CreatedPrivate(cfg, ws, steps, i, room, sid);
    HubRuns.PrivateChannelHistory(cfg, ws, steps, i + 1, k, room);
  }

  /** The creator learns the code of its private channel from the reply to its join. */
  lemma CreatorLearnsTheCode(cfg: Config, ws: seq<Interleaving.World>, steps: seq<Interleaving.Step>, i: nat, n: nat,
                             room: Room, sid: Sid)
    requires Interleaving.IsRun(cfg, ws, steps) && i < n < |steps| && CreatesPrivate(ws, steps, i, room, sid)
    requires HubRuns.Alive(ws, room, i + 1, n + 1)
    requires steps[n].act == Interleaving.JoinCommit(sid) && Interleaving.PcOf(ws[n], sid).Left?
    requires Interleaving.PcOf(ws[n], sid).room == room && |Members(ws[n].core, room)| < cfg.maxRoomSize
    ensures RepliesWithCode(ws, steps, n, sid, room) && ReplyAt(ws, n, sid).inviteCode == steps[i].act.code
  {
    hide Wanted;
    CreatedPrivate(cfg, ws, steps, i, room, sid);
    HubRuns.PrivateForLife(cfg, ws, steps, i + 1, n + 1, room);
    OwnerIsSentTheCode(cfg, ws, steps, n, sid);
    hide RoomStateFor;
  }

  /** A code that was sent in a reply, typed by anyone while the channel lives, gets past the screening. */
  lemma SentCodeOpens(cfg: Config, ws: seq<Interleaving.World>, steps: seq<Interleaving.Step>, n: nat, k: nat,
                      room: Room, owner: Sid, sid: Sid, name: string, req: Request, code: string, now: Time)
    requires Interleaving.IsRun(cfg, ws, steps) && n < k < |ws| && RepliesWithCode(ws, steps, n, owner, room)
    requires HubRuns.Alive(ws, room, n + 1, k)
    requires Upper(TrimSpace(TypedSecret(req))) == ReplyAt(ws, n, owner).inviteCode
    ensures Gate(cfg, ws[k].core, room, sid, name, OfferOf(req), code, now).1 != PrivateChannel
  {
    hide Gate, OfferOf, Upper, TypedSecret, TrimSpace, RoomStateFor;
    ReplyGoesToOwner(cfg, ws, steps, n, owner, room);
    HubRuns.PrivateForLife(cfg, ws, steps, n + 1, k, room);
    HubRuns.ShownCodeOpens(cfg, ws, steps, k, room, sid, name, req, code, now);
  }
}

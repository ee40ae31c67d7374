/**
 * What a ROOM_FULL refusal leaves behind, shown on reachable states: for every
 * cap on rooms, runs that end with a full room whose owner is not in it, with
 * a full room that has no owner at all, and with a member who re-joins and
 * loses the seat.
 */
module FullRooms {
  import opened Prelude
  import opened ChannelText
  import opened HubModel
  import opened HubInvariant
  import opened Handlers
  import opened Interleaving
  import opened HubRuns

  ghost predicate Reachable(cfg: Config, w: World) {
    exists ws, steps :: IsRun(cfg, ws, steps) && w == ws[|ws| - 1]
  }

  lemma ReachableOk(cfg: Config, w: World)
    requires Reachable(cfg, w)
    ensures cfg.Valid() && WorldOk(cfg, w)
  {
    var ws, steps :| IsRun(cfg, ws, steps) && w == ws[|ws| - 1];
    EveryStateOk(cfg, ws, steps, |ws| - 1);
  }

  lemma StartReachable(cfg: Config)
    requires cfg.Valid()
    ensures Reachable(cfg, Start(0))
  {
    assert IsRun(cfg, [Start(0)], []);
    assert Start(0) == [Start(0)][|[Start(0)]| - 1];
  }

  lemma OneMoreStep(cfg: Config, w: World, step: Step)
    requires Reachable(cfg, w) && Enabled(w, step)
    ensures Reachable(cfg, Next(cfg, w, step))
  {
    hide Next, Enabled;
    var ws, steps :| IsRun(cfg, ws, steps) && w == ws[|ws| - 1];
    var ws', steps' := ws + [Next(cfg, w, step)], steps + [step];
    assert ws'[0] == ws[0];
    forall i | 0 <= i < |steps'| ensures Enabled(ws'[i], steps'[i]) && ws'[i + 1] == Next(cfg, ws'[i], steps'[i]) {
      if i < |steps| { assert ws'[i] == ws[i] && ws'[i + 1] == ws[i + 1]; }
    }
    assert IsRun(cfg, ws', steps');
    assert Next(cfg, w, step) == ws'[|ws'| - 1];
  }

  // ---- The cast

  const ROOM: Room := "R"
  const OWNER: Sid := "o"
  const CODE := "AIKOM-FALLBACK"
  const OPEN := Request("", "", "", "", "", "", "", "")
  const LOCK := Request("private", "", "12", "", "", "", "", "")

  lemma OpenIsPublic()
    ensures OfferOf(OPEN).wanted == Public && IsInviteCode(CODE)
  {
    hide CleanVisibility, TypedPin, TypedSecret, CleanPin, CleanSecret, IsInviteCode;
    BlankIsUnset();
    CodeIsCode();
  }

  lemma BlankIsUnset()
    ensures CleanVisibility("") == Unset
  {
    hide IsSpace, LowerChar;
    assert |Lower(TrimSpace(""))| == 0;
  }

  /** There are requests that ask for a private channel and bring a PIN. */
  lemma LockIsPrivate()
    ensures OfferOf(LOCK).wanted == Private && OfferOf(LOCK).pin == "12"
  {
    LowerPrivate();
    TwelveIsPin();
    hide TrimSpace, Lower, CleanPin, CleanSecret, TypedSecret;
    TrimNoSpace("private");
    assert FirstNonEmpty(["12", ""]) == "12";
  }

  lemma LowerPrivate()
    ensures Lower("private") == "private"
  {
    var word := "private";
    assert |word| == 7 && forall i :: 0 <= i < 7 ==> 'a' <= word[i] <= 'z';
  }

  lemma TwelveIsPin()
    ensures TrimSpace("12") == "12" && CleanPin("12") == "12"
  {
    TrimNoSpace("12");
    KeepAll(IsDigit, "12");
  }

  lemma CodeIsCode()
    ensures IsInviteCode(CODE)
  {
    assert CODE[..6] == "AIKOM-";
  }

  function Guest(n: nat): Sid {
    seq(n + 1, _ => 'g')
  }

  function Guests(n: nat): set<Sid> {
    if n == 0 then {} else Guests(n - 1) + {Guest(n - 1)}
  }

  lemma {:induction false} GuestsCount(n: nat)
    ensures |Guests(n)| == n && OWNER !in Guests(n)
    ensures forall sid :: sid in Guests(n) ==> |sid| <= n
  {
    if n > 0 {
      GuestsCount(n - 1);
      assert Guest(n - 1)[0] == 'g' != OWNER[0];
    }
  }

  // ---- The owner opens the room and leaves it

  /** Nobody is anywhere; the room's entry is public, owned and empty since 0. */
  ghost predicate Opened(cfg: Config, w: World) {
    && Reachable(cfg, w) && w.clock == 0 && w.core.users == map[] && w.core.rooms == map[]
    && ROOM in w.core.channels
    && var ch := w.core.channels[ROOM];
       ch.visibility == Public && ch.ownerSid == OWNER && ch.ownerName == "o" && ch.emptySince == Some(0)
  }

  lemma OwnerGates(cfg: Config) returns (w: World)
    requires cfg.Valid()
    ensures Reachable(cfg, w) && w.clock == 0 && PcOf(w, OWNER) == Prepared(ROOM, "o", 0)
    ensures w.pcs.Keys == {OWNER} && w.core.users == map[] && w.core.rooms == map[]
    ensures ROOM in w.core.channels
    ensures var ch := w.core.channels[ROOM]; ch.visibility == Public && ch.ownerSid == OWNER && ch.ownerName == "o"
  {
    hide Reachable, OfferOf, IsInviteCode;
    StartReachable(cfg);
    OpenIsPublic();
    var step := Step(0, JoinGate(OWNER, ROOM, "o", OPEN, CODE, 0));
    OneMoreStep(cfg, Start(0), step);
    w := Next(cfg, Start(0), step);
  }

  lemma OwnerComesAndGoes(cfg: Config) returns (w: World)
    requires cfg.Valid()
    ensures Opened(cfg, w) && w.pcs == map[OWNER := Idle]
  {
    hide Reachable, Leave, Commit, SameIdentity;
    var w0 := OwnerGates(cfg);
    OneMoreStep(cfg, w0, Step(0, JoinLeave(OWNER)));
    var w1 := Next(cfg, w0, Step(0, JoinLeave(OWNER)));
    LeaveNobody(cfg, w0.core, OWNER, 0);
    OneMoreStep(cfg, w1, Step(0, JoinCommit(OWNER)));
    var w2 := Next(cfg, w1, Step(0, JoinCommit(OWNER)));
    ReachableOk(cfg, w1);
    OneMoreStep(cfg, w2, Step(0, LeaveRoom(OWNER)));
    w := Next(cfg, w2, Step(0, LeaveRoom(OWNER)));
    OneVisit(cfg, w1.core);
    assert w.pcs == map[OWNER := Idle];
  }

  lemma LeaveNobody(cfg: Config, h: Core, sid: Sid, at: Time)
    requires sid !in h.users
    ensures Leave(cfg, h, sid, at) == h
  {
  }

  /** The owner enters an empty room and leaves it at once. */
  lemma OneVisit(cfg: Config, h: Core)
    requires cfg.Valid() && HubOk(cfg, h) && h.users == map[] && h.rooms == map[] && ROOM in h.channels
    ensures var h' := Leave(cfg, Commit(cfg, h, ROOM, OWNER, "o", 0).0, OWNER, 0);
      && h'.users == map[] && h'.rooms == map[] && ROOM in h'.channels
      && SameIdentity(h.channels[ROOM], h'.channels[ROOM]) && h'.channels[ROOM].emptySince == Some(0)
  {
    var h1 := Commit(cfg, h, ROOM, OWNER, "o", 0).0;
    assert h1.users == map[OWNER := User("o", ROOM, 0)] && h1.rooms == map[ROOM := {OWNER}];
    assert h1.rooms[ROOM] - {OWNER} == {};
  }

  // ---- Guests pass the gate one after the other

  /** The guests from the first number to before the second are past the gate; nobody else is under way. */
  ghost predicate Waiting(w: World, from: nat, k: nat) {
    && (forall i: nat :: from <= i < k ==> PcOf(w, Guest(i)) == Prepared(ROOM, "g", 0))
    && (forall i: nat :: i < from || i >= k ==> PcOf(w, Guest(i)) == Idle)
    && PcOf(w, OWNER) == Idle
  }

  lemma GuestPasses(cfg: Config, h: Core, sid: Sid, now: Time)
    requires cfg.Valid() && HubOk(cfg, h) && ROOM in h.channels && sid != OWNER
    requires sid in Members(h, ROOM) || |Members(h, ROOM)| < cfg.maxRoomSize
    requires var ch := h.channels[ROOM]; ch.visibility == Public && ch.ownerSid == OWNER && ch.ownerName == "o"
    ensures Gate(cfg, h, ROOM, sid, "g", OfferOf(OPEN), CODE, now) == (h, Admitted)
  {
    hide OfferOf, MembershipOk;
    var ch := h.channels[ROOM];
    assert EntryOk(cfg, ch);
    assert Adopted(ch, sid, "g") == ch;
    assert h.channels[ROOM := ch] == h.channels;
  }

  lemma {:induction false} GuestsGate(cfg: Config, k: nat) returns (w: World)
    requires cfg.Valid()
    ensures Opened(cfg, w) && Waiting(w, 0, k)
  {
    hide Reachable, OfferOf, Gate, IsInviteCode;
    if k == 0 {
      w := OwnerComesAndGoes(cfg);
      NoGuestIsOwner();
    } else {
      var w0 := GuestsGate(cfg, k - 1);
      ReachableOk(cfg, w0);
      NoGuestIsOwner();
      OpenIsPublic();
      GuestPasses(cfg, w0.core, Guest(k - 1), 0);
      var step := Step(0, JoinGate(Guest(k - 1), ROOM, "g", OPEN, CODE, 0));
      OneMoreStep(cfg, w0, step);
      w := Next(cfg, w0, step);
      GuestMoves(w0, w, k - 1, Prepared(ROOM, "g", 0));
    }
  }

  lemma NoGuestIsOwner()
    ensures forall i: nat :: Guest(i) != OWNER && Guest(i) != ""
    ensures forall i: nat, j: nat :: Guest(i) == Guest(j) ==> i == j
  {
    forall i: nat ensures Guest(i) != OWNER && |Guest(i)| == i + 1 { assert Guest(i)[0] == 'g' != OWNER[0]; }
  }

  lemma GuestMoves(w: World, w': World, k: nat, pc: Pc)
    requires w'.pcs == w.pcs[Guest(k) := pc]
    ensures PcOf(w', Guest(k)) == pc && PcOf(w', OWNER) == PcOf(w, OWNER)
    ensures forall i: nat :: i != k ==> PcOf(w', Guest(i)) == PcOf(w, Guest(i))
  {
    NoGuestIsOwner();
    hide Guest;
  }

  /** Meanwhile the sweep removes the entry that nobody is in. */
  lemma EntryExpires(cfg: Config, w: World, n: nat) returns (w': World)
    requires Opened(cfg, w) && Waiting(w, 0, n)
    ensures Reachable(cfg, w') && Waiting(w', 0, n)
    ensures w'.core.users == map[] && w'.core.rooms == map[] && ROOM !in w'.core.channels
  {
    hide Reachable;
    ReachableOk(cfg, w);
    var step := Step(cfg.emptyTtl, CleanUp(cfg.emptyTtl));
    OneMoreStep(cfg, w, step);
    w' := Next(cfg, w, step);
  }

  // ---- Guests take their seats

  /** k guests are in, the next up to n are about to enter; the entry still is what it was at `base`. */
  ghost predicate Seated(cfg: Config, w: World, k: nat, n: nat, base: Channel) {
    && Reachable(cfg, w) && Waiting(w, k, n) && Members(w.core, ROOM) == Guests(k) && OWNER !in w.core.users
    && (forall i: nat :: i >= k ==> Guest(i) !in w.core.users)
    && SameIdentity(base, ChannelOr(w.core.channels, ROOM, 0))
  }

  lemma {:induction false} GuestsEnter(cfg: Config, start: World, k: nat, n: nat, base: Channel) returns (w: World)
    requires Reachable(cfg, start) && cfg.Valid() && k <= cfg.maxRoomSize && k <= n && Waiting(start, 0, n)
    requires start.core.users == map[] && start.core.rooms == map[] && base == ChannelOr(start.core.channels, ROOM, 0)
    ensures Seated(cfg, w, k, n, base)
    ensures k > 0 ==> ROOM in w.core.channels
  {
    if k == 0 {
      w := start;
    } else {
      var w0 := GuestsEnter(cfg, start, k - 1, n, base);
      w := GuestEnters(cfg, w0, k - 1, n, base);
    }
  }

  lemma GuestEnters(cfg: Config, w: World, k: nat, n: nat, base: Channel) returns (w': World)
    requires cfg.Valid() && k < cfg.maxRoomSize && k < n && Seated(cfg, w, k, n, base)
    ensures Seated(cfg, w', k + 1, n, base) && ROOM in w'.core.channels
  {
    hide Reachable, Leave, Commit, SameIdentity, Guest, HubOk;
    var sid := Guest(k);
    OneMoreStep(cfg, w, Step(w.clock, JoinLeave(sid)));
    var w1 := Next(cfg, w, Step(w.clock, JoinLeave(sid)));
    LeaveNobody(cfg, w.core, sid, w.clock);
    GuestMoves(w, w1, k, Left(ROOM, "g", 0));
    OneMoreStep(cfg, w1, Step(w.clock, JoinCommit(sid)));
    w' := Next(cfg, w1, Step(w.clock, JoinCommit(sid)));
    GuestMoves(w1, w', k, Idle);
    ReachableOk(cfg, w1);
    GuestsCount(k);
    NoGuestIsOwner();
    CommitVerdict(cfg, w1.core, ROOM, sid, "g", 0);
    CommitMembers(cfg, w1.core, ROOM, sid, "g", 0);
    CommitEntry(cfg, w1.core, ROOM, sid, "g", 0, ROOM);
    SameThrough(base, ChannelOr(w1.core.channels, ROOM, 0), w'.core.channels[ROOM]);
  }

  lemma SameThrough(a: Channel, b: Channel, c: Channel)
    requires SameIdentity(a, b) && SameIdentity(b, c)
    ensures SameIdentity(a, c)
  {
  }

  // ---- Full rooms

  /** A room at its cap that sid is not in; sid is between two handlers. */
  ghost predicate FullWithout(cfg: Config, w: World, sid: Sid) {
    && Reachable(cfg, w) && |Members(w.core, ROOM)| == cfg.maxRoomSize && sid !in Members(w.core, ROOM)
    && ROOM in w.core.channels && PcOf(w, sid) == Idle
  }

  lemma FullOwned(cfg: Config) returns (w: World)
    requires cfg.Valid()
    ensures FullWithout(cfg, w, OWNER)
    ensures var ch := w.core.channels[ROOM]; ch.visibility == Public && ch.ownerSid == OWNER && ch.ownerName == "o"
  {
    hide Reachable, Guests;
    var w0 := GuestsGate(cfg, cfg.maxRoomSize);
    w := GuestsEnter(cfg, w0, cfg.maxRoomSize, cfg.maxRoomSize, w0.core.channels[ROOM]);
    GuestsCount(cfg.maxRoomSize);
  }

  lemma FullOwnerless(cfg: Config) returns (w: World)
    requires cfg.Valid()
    ensures FullWithout(cfg, w, OWNER)
    ensures var ch := w.core.channels[ROOM]; ch.visibility == Public && ch.ownerSid == "" && ch.ownerName == ""
  {
    hide Reachable, Guests;
    var w0 := GuestsGate(cfg, cfg.maxRoomSize);
    var w1 := EntryExpires(cfg, w0, cfg.maxRoomSize);
    w := GuestsEnter(cfg, w1, cfg.maxRoomSize, cfg.maxRoomSize, FreshChannel(0));
    GuestsCount(cfg.maxRoomSize);
  }

  /** The gate's answer to sid at a full room that is not private or that sid owns. */
  lemma FullAnswer(cfg: Config, w: World, sid: Sid, name: string, req: Request, code: string)
    requires FullWithout(cfg, w, sid) && sid != "" && name != "" && IsInviteCode(code)
    requires var ch := w.core.channels[ROOM]; ch.visibility == Public || ch.ownerSid == sid
    ensures var (h, verdict) := Gate(cfg, w.core, ROOM, sid, name, OfferOf(req), code, w.clock);
      && verdict == RoomFull && ROOM in h.channels
      && h.channels[ROOM] == Screened(w.core, ROOM, sid, name, OfferOf(req), code, w.clock).0
  {
    hide OfferOf, Reachable;
  }

  /**
   * The owner of a full public channel who is not in it asks for a private
   * one: the answer is ROOM_FULL, and the channel is private from then on.
   */
  lemma PublicTurnsPrivate(cfg: Config, req: Request, code: string) returns (w: World)
    requires cfg.Valid() && IsInviteCode(code) && OfferOf(req).wanted == Private
    ensures Reachable(cfg, w) && ROOM in w.core.channels && !w.core.channels[ROOM].private
    ensures var (h, verdict) := Gate(cfg, w.core, ROOM, OWNER, "o", OfferOf(req), code, w.clock);
      verdict == RoomFull && ROOM in h.channels && h.channels[ROOM].private && h.channels[ROOM].inviteCode == code
  {
    hide OfferOf, Gate, Reachable;
    w := FullOwned(cfg);
    ReachableOk(cfg, w);
    assert EntryOk(cfg, w.core.channels[ROOM]);
    FullAnswer(cfg, w, OWNER, "o", req, code);
  }

  /** A private channel whose owner is refused as ROOM_FULL has the PIN of that refused request afterwards. */
  lemma PinChanges(cfg: Config, first: Request, second: Request, code: string) returns (w: World)
    requires cfg.Valid() && IsInviteCode(code) && OfferOf(first).wanted == Private
    requires OfferOf(first).pin != "" && OfferOf(second).pin != ""
    ensures Reachable(cfg, w) && ROOM in w.core.channels && w.core.channels[ROOM].pinHash == Digest(OfferOf(first).pin)
    ensures var (h, verdict) := Gate(cfg, w.core, ROOM, OWNER, "o", OfferOf(second), code, w.clock);
      verdict == RoomFull && ROOM in h.channels && h.channels[ROOM].pinHash == Digest(OfferOf(second).pin)
  {
    hide OfferOf, Gate, Reachable;
    var w0 := FullOwned(cfg);
    ReachableOk(cfg, w0);
    assert EntryOk(cfg, w0.core.channels[ROOM]);
    FullAnswer(cfg, w0, OWNER, "o", first, code);
    var step := Step(w0.clock, JoinGate(OWNER, ROOM, "o", first, code, w0.clock));
    OneMoreStep(cfg, w0, step);
    w := Next(cfg, w0, step);
    GateMembers(cfg, w0.core, ROOM, OWNER, "o", OfferOf(first), code, w0.clock);
    FullAnswer(cfg, w, OWNER, "o", second, code);
  }

  /** A sid that is refused at a full channel without owner owns it afterwards. */
  lemma OwnerlessIsAdopted(cfg: Config, req: Request, code: string) returns (w: World)
    requires cfg.Valid() && IsInviteCode(code)
    ensures Reachable(cfg, w) && ROOM in w.core.channels && w.core.channels[ROOM].ownerSid == ""
    ensures var (h, verdict) := Gate(cfg, w.core, ROOM, OWNER, "o", OfferOf(req), code, w.clock);
      verdict == RoomFull && ROOM in h.channels && h.channels[ROOM].ownerSid == OWNER
  {
    hide OfferOf, Gate, Reachable;
    w := FullOwnerless(cfg);
    FullAnswer(cfg, w, OWNER, "o", req, code);
  }

  // ---- A seat lost on re-joining

  /** A full room, one member of it at rest, and one more guest past the gate. */
  lemma FullAndOneWaiting(cfg: Config) returns (w: World)
    requires cfg.Valid()
    ensures Reachable(cfg, w) && Members(w.core, ROOM) == Guests(cfg.maxRoomSize) && ROOM in w.core.channels
    ensures var ch := w.core.channels[ROOM]; ch.visibility == Public && ch.ownerSid == OWNER && ch.ownerName == "o"
    ensures PcOf(w, Guest(0)) == Idle && PcOf(w, Guest(cfg.maxRoomSize)) == Prepared(ROOM, "g", 0)
    ensures Guest(cfg.maxRoomSize) !in w.core.users
  {
    hide Reachable, Guests, Guest;
    var w0 := GuestsGate(cfg, cfg.maxRoomSize + 1);
    w := GuestsEnter(cfg, w0, cfg.maxRoomSize, cfg.maxRoomSize + 1, w0.core.channels[ROOM]);
  }

  lemma {:induction false} FirstIsGuest(n: nat)
    ensures n > 0 ==> Guest(0) in Guests(n)
  {
    if n > 1 { FirstIsGuest(n - 1); }
  }

  /**
   * A member joins its own full room again. Between the second and the third
   * region of that join another guest takes the seat that it has just left:
   * the member is refused and ends in no room, although nobody removed it.
   */
  lemma SeatIsLost(cfg: Config) returns (ws: seq<World>, steps: seq<Step>)
    requires cfg.Valid()
    ensures |ws| == 6 && |steps| == 5 && Reachable(cfg, ws[0])
    ensures forall i :: 0 <= i < 5 ==> Enabled(ws[i], steps[i]) && ws[i + 1] == Next(cfg, ws[i], steps[i])
    ensures Guest(0) in Members(ws[0].core, ROOM) && PcOf(ws[0], Guest(0)) == Idle
    ensures steps[0].act.JoinGate? && steps[0].act.sid == Guest(0) && steps[0].act.room == ROOM
    ensures steps[1].act == JoinLeave(Guest(0)) && steps[4].act == JoinCommit(Guest(0))
    ensures steps[2].act == JoinLeave(Guest(cfg.maxRoomSize)) && steps[3].act == JoinCommit(Guest(cfg.maxRoomSize))
    ensures PcOf(ws[5], Guest(0)) == Idle && forall room :: Guest(0) !in Members(ws[5].core, room)
  {
    hide Reachable, Guest, Guests, Gate, Leave, Commit, OfferOf, IsInviteCode, HubOk;
    var w0 := FullAndOneWaiting(cfg);
    var n := cfg.maxRoomSize;
    FirstIsGuest(n);
    var w1, w2, first, second := MemberRejoins(cfg, w0);
    var w3, w4, third, fourth := GuestTakesSeat(cfg, w2);
    var fifth := Step(w4.clock, JoinCommit(Guest(0)));
    OneMoreStep(cfg, w4, fifth);
    var w5 := Next(cfg, w4, fifth);
    ReachableOk(cfg, w4);
    RefusedAtLast(cfg, w4.core);
    ws, steps := [w0, w1, w2, w3, w4, w5], [first, second, third, fourth, fifth];
  }

  lemma MemberRejoins(cfg: Config, w: World) returns (w1: World, w2: World, first: Step, second: Step)
    requires cfg.Valid() && Reachable(cfg, w) && Members(w.core, ROOM) == Guests(cfg.maxRoomSize)
    requires ROOM in w.core.channels
    requires var ch := w.core.channels[ROOM]; ch.visibility == Public && ch.ownerSid == OWNER && ch.ownerName == "o"
    requires PcOf(w, Guest(0)) == Idle && PcOf(w, Guest(cfg.maxRoomSize)) == Prepared(ROOM, "g", 0)
    requires Guest(0) in Guests(cfg.maxRoomSize) && Guest(cfg.maxRoomSize) !in w.core.users
    ensures first == Step(w.clock, JoinGate(Guest(0), ROOM, "g", OPEN, CODE, w.clock))
    ensures second == Step(w.clock, JoinLeave(Guest(0)))
    ensures Enabled(w, first) && w1 == Next(cfg, w, first) && Enabled(w1, second) && w2 == Next(cfg, w1, second)
    ensures Reachable(cfg, w2) && w2.clock == w.clock
    ensures Members(w2.core, ROOM) == Guests(cfg.maxRoomSize) - {Guest(0)} && Guest(0) !in w2.core.users
    ensures PcOf(w2, Guest(0)) == Left(ROOM, "g", w.clock)
    ensures PcOf(w2, Guest(cfg.maxRoomSize)) == Prepared(ROOM, "g", 0) && Guest(cfg.maxRoomSize) !in w2.core.users
  {
    hide Reachable, Guest, Guests, Gate, Leave, OfferOf, IsInviteCode, HubOk;
    ReachableOk(cfg, w);
    NoGuestIsOwner();
    OpenIsPublic();
    GuestPasses(cfg, w.core, Guest(0), w.clock);
    first := Step(w.clock, JoinGate(Guest(0), ROOM, "g", OPEN, CODE, w.clock));
    OneMoreStep(cfg, w, first);
    w1 := Next(cfg, w, first);
    GuestMoves(w, w1, 0, Prepared(ROOM, "g", w.clock));
    second := Step(w.clock, JoinLeave(Guest(0)));
    OneMoreStep(cfg, w1, second);
    w2 := Next(cfg, w1, second);
    GuestMoves(w1, w2, 0, Left(ROOM, "g", w.clock));
    MembersAgree(cfg, w.core);
    LeaveMembers(cfg, w.core, Guest(0), w.clock);
  }

  lemma MembersAgree(cfg: Config, h: Core)
    requires HubOk(cfg, h)
    ensures MembershipOk(cfg, h)
  {
  }

  lemma GuestTakesSeat(cfg: Config, w: World) returns (w1: World, w2: World, first: Step, second: Step)
    requires cfg.Valid() && Reachable(cfg, w) && Guest(0) in Guests(cfg.maxRoomSize) && Guest(0) !in w.core.users
    requires Members(w.core, ROOM) == Guests(cfg.maxRoomSize) - {Guest(0)}
    requires PcOf(w, Guest(0)).Left? && PcOf(w, Guest(0)).room == ROOM
    requires PcOf(w, Guest(cfg.maxRoomSize)) == Prepared(ROOM, "g", 0) && Guest(cfg.maxRoomSize) !in w.core.users
    ensures first == Step(w.clock, JoinLeave(Guest(cfg.maxRoomSize)))
    ensures second == Step(w.clock, JoinCommit(Guest(cfg.maxRoomSize)))
    ensures Enabled(w, first) && w1 == Next(cfg, w, first) && Enabled(w1, second) && w2 == Next(cfg, w1, second)
    ensures Reachable(cfg, w2) && w2.clock == w.clock && |Members(w2.core, ROOM)| == cfg.maxRoomSize
    ensures PcOf(w2, Guest(0)) == PcOf(w, Guest(0)) && Guest(0) !in w2.core.users
  {
    hide Reachable, Guest, Leave, Commit, HubOk;
    var n := cfg.maxRoomSize;
    NoGuestIsOwner();
    GuestsCount(n);
    hide Guests;
    first := Step(w.clock, JoinLeave(Guest(n)));
    OneMoreStep(cfg, w, first);
    w1 := Next(cfg, w, first);
    LeaveNobody(cfg, w.core, Guest(n), w.clock);
    GuestMoves(w, w1, n, Left(ROOM, "g", 0));
    second := Step(w.clock, JoinCommit(Guest(n)));
    OneMoreStep(cfg, w1, second);
    w2 := Next(cfg, w1, second);
    GuestMoves(w1, w2, n, Idle);
    CommitVerdict(cfg, w1.core, ROOM, Guest(n), "g", 0);
    CommitMembers(cfg, w1.core, ROOM, Guest(n), "g", 0);
    assert Guest(n) !in Guests(n) by { LongIsNoGuest(n); }
  }

  lemma LongIsNoGuest(n: nat)
    ensures Guest(n) !in Guests(n)
  {
    GuestsCount(n);
  }

  lemma RefusedAtLast(cfg: Config, h: Core)
    requires HubOk(cfg, h) && cfg.Valid() && |Members(h, ROOM)| == cfg.maxRoomSize && Guest(0) !in h.users
    ensures forall now: Time :: Commit(cfg, h, ROOM, Guest(0), "g", now).0 == h
    ensures forall room :: Guest(0) !in Members(h, room)
  {
    hide Guest;
    forall now: Time ensures Commit(cfg, h, ROOM, Guest(0), "g", now).0 == h {
      CommitKeeps(cfg, h, ROOM, Guest(0), "g", now);
      CommitVerdict(cfg, h, ROOM, Guest(0), "g", now);
    }
  }
}

/** Theorems about every run of the interleaved hub. */
module HubRuns {
  import opened Prelude
  import opened ChannelText
  import opened HubModel
  import opened HubInvariant
  import opened Interleaving

  lemma StepKeeps(cfg: Config, w: World, step: Step)
    requires cfg.Valid() && WorldOk(cfg, w) && Enabled(w, step)
    ensures WorldOk(cfg, Next(cfg, w, step))
  {
    CoreStepKeeps(cfg, w, step);
    PcsStepKeeps(cfg, w, step);
    NoLeakStep(cfg, w, step);
    ConnStepKeeps(w.conn, step.act);
  }

  lemma {:induction false} EveryStateOk(cfg: Config, ws: seq<World>, steps: seq<Step>, n: nat)
    requires IsRun(cfg, ws, steps) && n < |ws|
    ensures WorldOk(cfg, ws[n])
  {
    if n == 0 {
      EmptyOk(cfg);
    } else {
      EveryStateOk(cfg, ws, steps, n - 1);
      StepKeeps(cfg, ws[n - 1], steps[n - 1]);
    }
  }

  lemma {:induction false} ClockMonotone(cfg: Config, ws: seq<World>, steps: seq<Step>, i: nat, j: nat)
    requires IsRun(cfg, ws, steps) && i <= j < |ws|
    ensures ws[i].clock <= ws[j].clock
    decreases j
  {
    if i < j {
      ClockMonotone(cfg, ws, steps, i, j - 1);
      assert Enabled(ws[j - 1], steps[j - 1]);
    }
  }

  lemma ClocksBefore(cfg: Config, ws: seq<World>, steps: seq<Step>, n: nat)
    requires IsRun(cfg, ws, steps) && n < |ws|
    ensures forall j :: 0 <= j <= n ==> ws[j].clock <= ws[n].clock
  {
    forall j: nat | j <= n ensures ws[j].clock <= ws[n].clock { ClockMonotone(cfg, ws, steps, j, n); }
  }

  /** Membership agrees in every reachable state, however joins and removals interleave. */
  lemma MembershipAgreement(cfg: Config, ws: seq<World>, steps: seq<Step>, n: nat)
    requires IsRun(cfg, ws, steps) && n < |ws|
    ensures var h := ws[n].core;
      && (forall sid, room :: sid in Members(h, room) <==> sid in h.users && h.users[sid].room == room)
      && (forall sid, r1, r2 :: sid in Members(h, r1) && sid in Members(h, r2) ==> r1 == r2)
      && (forall room :: room in h.rooms ==> 0 < |h.rooms[room]| <= cfg.maxRoomSize)
  {
    EveryStateOk(cfg, ws, steps, n);
    var h := ws[n].core;
    forall sid, room ensures sid in Members(h, room) <==> sid in h.users && h.users[sid].room == room {
      if sid in Members(h, room) { assert room in h.rooms; }
    }
    forall sid, r1, r2 | sid in Members(h, r1) && sid in Members(h, r2) ensures r1 == r2 {
      assert h.users[sid].room == r1 && h.users[sid].room == r2;
    }
  }

  /** A memberless channel is on its way out or some join to it is under way. */
  lemma NoLeakedChannel(cfg: Config, ws: seq<World>, steps: seq<Step>, n: nat, room: Room)
    requires IsRun(cfg, ws, steps) && n < |ws|
    requires room in ws[n].core.channels && Members(ws[n].core, room) == {}
    ensures ws[n].core.channels[room].emptySince.Some? || JoinUnderWay(ws[n], room)
  {
    EveryStateOk(cfg, ws, steps, n);
  }

  /** No such channel is beyond the sweep's reach: with no join under way, a sweep removes it iff its TTL is over. */
  lemma SweepReachesIdle(cfg: Config, ws: seq<World>, steps: seq<Step>, n: nat, room: Room)
    requires IsRun(cfg, ws, steps) && n < |steps| && steps[n].act.CleanUp?
    requires room in ws[n].core.channels && Members(ws[n].core, room) == {} && !JoinUnderWay(ws[n], room)
    ensures ws[n].core.channels[room].emptySince.Some?
    ensures room !in ws[n + 1].core.channels <==>
      steps[n].act.now >= ws[n].core.channels[room].emptySince.value + cfg.emptyTtl
  {
    EveryStateOk(cfg, ws, steps, n);
    NoLeakedChannel(cfg, ws, steps, n, room);
    SweepEntry(cfg, ws[n].core, steps[n].act.now, room);
  }

  /** The books of every channel entry, in every reachable state. */
  lemma ChannelBookkeeping(cfg: Config, ws: seq<World>, steps: seq<Step>, n: nat, room: Room)
    requires IsRun(cfg, ws, steps) && n < |ws|
    ensures var h := ws[n].core;
      && (Members(h, room) != {} ==> room in h.channels && h.channels[room].emptySince == None)
      && (room in h.channels ==>
            var ch := h.channels[room];
            && ch.userCount == |Members(h, room)|
            && (ch.expiresAt.Some? <==> ch.emptySince.Some?)
            && (ch.emptySince.Some? ==> ch.expiresAt.value == ch.emptySince.value + cfg.emptyTtl)
            && (ch.private <==> ch.visibility == Private) && (ch.private <==> ch.inviteCode != "")
            && (ch.hasPin <==> ch.pinHash != NoDigest) && (ch.hasPin ==> ch.private))
  {
    EveryStateOk(cfg, ws, steps, n);
  }

  /**
   * The second capacity check of a join, whatever ran since its gate: the sid
   * ends in the room exactly when a seat was free. Refused, it ends in no room
   * at all, having left its old one, and nothing else changes.
   */
  lemma CommitSeatsIff(cfg: Config, ws: seq<World>, steps: seq<Step>, n: nat, sid: Sid)
    requires IsRun(cfg, ws, steps) && n < |steps| && steps[n].act == JoinCommit(sid)
    ensures PcOf(ws[n], sid).Left? && PcOf(ws[n + 1], sid) == Idle
    ensures var room, h, h' := PcOf(ws[n], sid).room, ws[n].core, ws[n + 1].core;
      if |Members(h, room)| < cfg.maxRoomSize then
        Members(h', room) == Members(h, room) + {sid} && sid !in Members(h, room)
      else
        h' == h && sid !in h.users && forall r :: sid !in Members(h, r)
  {
    EveryStateOk(cfg, ws, steps, n);
    var room := PcOf(ws[n], sid).room;
    if |Members(ws[n].core, room)| >= cfg.maxRoomSize {
      CommitKeeps(cfg, ws[n].core, room, sid, PcOf(ws[n], sid).name, PcOf(ws[n], sid).now);
    }
  }

  // ---- Expiry

  /** A recorded empty time is old, or it is the clock of the step that recorded it. */
  lemma EmptyTimeStep(cfg: Config, w: World, step: Step, room: Room)
    requires cfg.Valid() && WorldOk(cfg, w) && Enabled(w, step)
    requires var h := NextCore(cfg, w, step); room in h.channels && h.channels[room].emptySince.Some?
    ensures var h := NextCore(cfg, w, step);
      || h.channels[room].emptySince == Some(step.at)
      || (room in w.core.channels && w.core.channels[room].emptySince == h.channels[room].emptySince)
  {
    hide OfferOf, NextCore, Screened, MembershipOk;
    EntryStepHolds(cfg, w, step, room);
    CoreStepKeeps(cfg, w, step);
    assert room !in NextCore(cfg, w, step).rooms;
    hide BookkeepingOk;
    if step.act.JoinGate? {
      var a := step.act;
      ScreenedTimes(w.core, room, a.sid, a.name, OfferOf(a.req), a.code, a.now);
    }
  }

  lemma EmptyMeansNobody(cfg: Config, h: Core, room: Room)
    requires HubOk(cfg, h) && room in h.channels && h.channels[room].emptySince.Some?
    ensures room !in h.rooms
  {
  }

  /** Since its recorded empty time a room had no member: state j is in force from its clock to that of state j + 1. */
  lemma {:induction false} EmptySpell(cfg: Config, ws: seq<World>, steps: seq<Step>, n: nat, room: Room)
    requires IsRun(cfg, ws, steps) && n < |ws|
    requires room in ws[n].core.channels && ws[n].core.channels[room].emptySince.Some?
    ensures room !in ws[n].core.rooms
    ensures forall j :: 0 <= j < n && ws[j + 1].clock > ws[n].core.channels[room].emptySince.value ==>
      room !in ws[j].core.rooms
  {
    hide NextCore, NextPcs, NextConn, HubOk;
    EveryStateOk(cfg, ws, steps, n);
    EmptyMeansNobody(cfg, ws[n].core, room);
    if n > 0 {
      EveryStateOk(cfg, ws, steps, n - 1);
      EmptyTimeStep(cfg, ws[n - 1], steps[n - 1], room);
      if ws[n].core.channels[room].emptySince == Some(ws[n].clock) {
        ClocksBefore(cfg, ws, steps, n);
      } else {
        EmptySpell(cfg, ws, steps, n - 1, room);
      }
    }
  }

  /**
   * The sweep deletes a channel only if no state in force at any moment after
   * `now - emptyTtl` had a member of it, up to and including the sweep itself,
   * although `now` was read before the lock was taken.
   */
  lemma ExpirySafety(cfg: Config, ws: seq<World>, steps: seq<Step>, n: nat, room: Room)
    requires IsRun(cfg, ws, steps) && n < |steps| && steps[n].act.CleanUp?
    requires room in ws[n].core.channels && room !in ws[n + 1].core.channels
    ensures forall j :: 0 <= j <= n && ws[j + 1].clock > steps[n].act.now - cfg.emptyTtl ==> room !in ws[j].core.rooms
    ensures room !in ws[n + 1].core.rooms
  {
    EveryStateOk(cfg, ws, steps, n);
    SweepEntry(cfg, ws[n].core, steps[n].act.now, room);
    EmptySpell(cfg, ws, steps, n, room);
  }

  /** After a sweep no memberless channel that is due remains; every other entry and every membership is as before. */
  lemma ExpiryCompleteness(cfg: Config, ws: seq<World>, steps: seq<Step>, n: nat)
    requires IsRun(cfg, ws, steps) && n < |steps| && steps[n].act.CleanUp?
    ensures var h, h', limit := ws[n].core, ws[n + 1].core, steps[n].act.now - cfg.emptyTtl;
      && h'.users == h.users && h'.rooms == h.rooms
      && (forall room :: room in h'.channels && Members(h', room) == {} && h'.channels[room].emptySince.Some? ==>
            h'.channels[room].emptySince.value > limit)
      && (forall room :: && room in h.channels
                         && !(h.channels[room].emptySince.Some? && h.channels[room].emptySince.value <= limit) ==>
            room in h'.channels && h'.channels[room] == h.channels[room])
  {
    EveryStateOk(cfg, ws, steps, n);
    var h, now := ws[n].core, steps[n].act.now;
    assert ws[n + 1].core == Sweep(cfg, h, now);
    hide IsRun, Sweep, MembershipOk, BookkeepingOk;
    forall room { SweepEntry(cfg, h, now, room); }
  }

  // ---- Private channels

  /** The entry of `room` exists in every state from i to k: one life of the channel. */
  ghost predicate Alive(ws: seq<World>, room: Room, i: nat, k: nat)
    requires k < |ws|
  {
    forall j :: i <= j <= k ==> room in ws[j].core.channels
  }

  /** One step that keeps a private entry alive keeps its privacy, owner and code. */
  lemma PrivateStep(cfg: Config, w: World, step: Step, room: Room)
    requires cfg.Valid() && WorldOk(cfg, w) && Enabled(w, step)
    requires room in w.core.channels && w.core.channels[room].private && room in NextCore(cfg, w, step).channels
    ensures var a, b := w.core.channels[room], NextCore(cfg, w, step).channels[room];
      b.private && b.ownerSid == a.ownerSid && b.inviteCode == a.inviteCode
  {
    hide OfferOf;
    EntryStepHolds(cfg, w, step, room);
    assert EntryOk(cfg, w.core.channels[room]);
  }

  /** Within one life, private is for good, with one owner and one invite code. */
  lemma {:induction false} PrivateForLife(cfg: Config, ws: seq<World>, steps: seq<Step>, i: nat, k: nat, room: Room)
    requires IsRun(cfg, ws, steps) && i <= k < |ws| && Alive(ws, room, i, k)
    requires ws[i].core.channels[room].private
    ensures var a, b := ws[i].core.channels[room], ws[k].core.channels[room];
      b.private && b.ownerSid == a.ownerSid && b.inviteCode == a.inviteCode
    decreases k
  {
    hide NextCore, NextPcs, NextConn;
    if i < k {
      assert room in ws[k].core.channels;
      PrivateForLife(cfg, ws, steps, i, k - 1, room);
      EveryStateOk(cfg, ws, steps, k - 1);
      PrivateStep(cfg, ws[k - 1], steps[k - 1], room);
    }
  }

  /** A join to `room` by `sid` that carries a PIN. */
  predicate BringsPin(act: Action, room: Room, sid: Sid) {
    act.JoinGate? && act.room == room && act.sid == sid && OfferOf(act.req).pin != ""
  }

  /** The gate stores a PIN that the owner brings to a private entry, and otherwise leaves the stored one alone. */
  lemma ScreenedPin(cfg: Config, h: Core, room: Room, sid: Sid, name: string, offer: Offer, code: string, now: Time)
    requires room in h.channels ==> EntryOk(cfg, h.channels[room])
    ensures var ch := Screened(h, room, sid, name, offer, code, now).0;
      && ch.pinHash == (if ch.private && sid == ch.ownerSid && offer.pin != "" then Digest(offer.pin)
                        else if room in h.channels then h.channels[room].pinHash else NoDigest)
      && (room in h.channels && h.channels[room].private ==> ch.ownerSid == h.channels[room].ownerSid)
  {
    hide IsInviteCode, IsPin;
  }

  /** What one step does to the PIN of an entry that is private after it. */
  lemma PinStep(cfg: Config, w: World, step: Step, room: Room)
    requires cfg.Valid() && WorldOk(cfg, w) && Enabled(w, step)
    requires var h := NextCore(cfg, w, step); room in h.channels && h.channels[room].private
    ensures var ch := NextCore(cfg, w, step).channels[room];
      && ch.pinHash == (if BringsPin(step.act, room, ch.ownerSid) then Digest(OfferOf(step.act.req).pin)
                        else if room in w.core.channels then w.core.channels[room].pinHash else NoDigest)
      && (room in w.core.channels && w.core.channels[room].private ==> ch.ownerSid == w.core.channels[room].ownerSid)
  {
    assert room in w.core.channels ==> EntryOk(cfg, w.core.channels[room]);
    hide OfferOf, NextCore, Screened, MembershipOk, BookkeepingOk, EntryOk;
    EntryStepHolds(cfg, w, step, room);
    var a := step.act;
    if a.JoinGate? && a.room == room {
      ScreenedPin(cfg, w.core, room, a.sid, a.name, OfferOf(a.req), a.code, a.now);
    }
  }

  /**
   * Step j was a join by the owner that brought this PIN to the private
   * channel, the channel has lived on to state k, and the owner has brought
   * no other PIN since.
   */
  ghost predicate LastBrought(ws: seq<World>, steps: seq<Step>, j: nat, k: nat, room: Room, owner: Sid, pin: string)
    requires k < |ws| && |ws| == |steps| + 1
  {
    && j < k && BringsPin(steps[j].act, room, owner) && OfferOf(steps[j].act.req).pin == pin
    && Alive(ws, room, j + 1, k)
    && ws[j + 1].core.channels[room].private && ws[j + 1].core.channels[room].ownerSid == owner
    && forall m :: j < m < k ==> !BringsPin(steps[m].act, room, owner)
  }

  /** The PIN is the last one that the owner brought in this life of the channel, since it is private. */
  ghost predicate IsLatestPin(ws: seq<World>, steps: seq<Step>, k: nat, room: Room, owner: Sid, pin: string)
    requires k < |ws| && |ws| == |steps| + 1
  {
    exists j: nat :: LastBrought(ws, steps, j, k, room, owner, pin)
  }

  lemma {:induction false} StoredIsLatest(cfg: Config, ws: seq<World>, steps: seq<Step>, k: nat, room: Room)
    requires IsRun(cfg, ws, steps) && k < |ws|
    requires room in ws[k].core.channels && ws[k].core.channels[room].pinHash.Digest?
    ensures IsLatestPin(ws, steps, k, room, ws[k].core.channels[room].ownerSid, ws[k].core.channels[room].pinHash.pin)
  {
    hide NextCore, NextPcs, NextConn, OfferOf, HubOk;
    EveryStateOk(cfg, ws, steps, k);
    PinnedIsPrivate(cfg, ws[k].core, room);
    if k > 0 {
      var ch := ws[k].core.channels[room];
      EveryStateOk(cfg, ws, steps, k - 1);
      PinStep(cfg, ws[k - 1], steps[k - 1], room);
      if BringsPin(steps[k - 1].act, room, ch.ownerSid) {
        assert LastBrought(ws, steps, k - 1, k, room, ch.ownerSid, ch.pinHash.pin);
      } else {
        PinnedIsPrivate(cfg, ws[k - 1].core, room);
        StoredIsLatest(cfg, ws, steps, k - 1, room);
        var j: nat :| LastBrought(ws, steps, j, k - 1, room, ch.ownerSid, ch.pinHash.pin);
        assert LastBrought(ws, steps, j, k, room, ch.ownerSid, ch.pinHash.pin);
      }
    }
  }

  lemma PinnedIsPrivate(cfg: Config, h: Core, room: Room)
    requires HubOk(cfg, h) && room in h.channels && h.channels[room].pinHash.Digest?
    ensures h.channels[room].private
  {
    assert EntryOk(cfg, h.channels[room]);
  }

  lemma {:induction false} LatestIsStored(cfg: Config, ws: seq<World>, steps: seq<Step>, j: nat, k: nat, room: Room,
                                          owner: Sid, pin: string)
    requires IsRun(cfg, ws, steps) && k < |ws| && LastBrought(ws, steps, j, k, room, owner, pin)
    ensures ws[k].core.channels[room].pinHash == Digest(pin) && ws[k].core.channels[room].ownerSid == owner
    decreases k
  {
    hide NextCore, NextPcs, NextConn, OfferOf, HubOk;
    EveryStateOk(cfg, ws, steps, k - 1);
    PrivateForLife(cfg, ws, steps, j + 1, k, room);
    PinStep(cfg, ws[k - 1], steps[k - 1], room);
    if j + 1 < k {
      assert room in ws[k - 1].core.channels;
      LatestIsStored(cfg, ws, steps, j, k - 1, room, owner, pin);
    }
  }

  /**
   * The stored PIN is exactly the last one that the owner brought with a join
   * in this life of the channel, since it is private: one that was replaced,
   * or that belongs to an earlier life, is not it.
   */
  lemma PinProvenance(cfg: Config, ws: seq<World>, steps: seq<Step>, k: nat, room: Room, pin: string)
    requires IsRun(cfg, ws, steps) && k < |ws| && room in ws[k].core.channels
    ensures ws[k].core.channels[room].pinHash == Digest(pin) <==>
      IsLatestPin(ws, steps, k, room, ws[k].core.channels[room].ownerSid, pin)
  {
    hide LastBrought;
    var owner := ws[k].core.channels[room].ownerSid;
    if ws[k].core.channels[room].pinHash == Digest(pin) {
      StoredIsLatest(cfg, ws, steps, k, room);
    }
    if IsLatestPin(ws, steps, k, room, owner, pin) {
      var j: nat :| LastBrought(ws, steps, j, k, room, owner, pin);
      LatestIsStored(cfg, ws, steps, j, k, room, owner, pin);
    }
  }

  /** The secret that a request carries is, up to cleaning, the code. */
  ghost predicate ShowsCode(req: Request, code: string) {
    CleanSecret(TypedSecret(req)) == code
  }

  lemma SecretMeansCode(h: Core, cfg: Config, room: Room, req: Request)
    requires HubOk(cfg, h) && room in h.channels && h.channels[room].private
    ensures SecretAccepted(h.channels[room], OfferOf(req)) <==>
      || ShowsCode(req, h.channels[room].inviteCode)
      || (CleanPin(TypedPin(req)) != "" && h.channels[room].pinHash == Digest(CleanPin(TypedPin(req))))
  {
    hide CleanVisibility, CleanPin, CleanSecret, FirstNonEmpty, EqualFold;
    var ch := h.channels[room];
    assert EntryOk(cfg, ch);
    InviteCodeIsClean(ch.inviteCode);
    CleanSecretAlphabet(TypedSecret(req));
    FoldSecrets(CleanSecret(TypedSecret(req)), ch.inviteCode);
  }

  /** The gate of a private channel, in terms of what the caller typed. */
  lemma PrivateGate(cfg: Config, h: Core, room: Room, sid: Sid, name: string, req: Request, code: string, now: Time)
    requires HubOk(cfg, h) && room in h.channels && h.channels[room].private && sid !in Members(h, room)
    ensures Gate(cfg, h, room, sid, name, OfferOf(req), code, now).1 != PrivateChannel <==>
      || sid == h.channels[room].ownerSid
      || ShowsCode(req, h.channels[room].inviteCode)
      || (CleanPin(TypedPin(req)) != "" && h.channels[room].pinHash == Digest(CleanPin(TypedPin(req))))
  {
    hide OfferOf, SecretAccepted, ShowsCode, CleanPin, TypedPin;
    SecretMeansCode(h, cfg, room, req);
    assert EntryOk(cfg, h.channels[room]);
    assert Adopted(h.channels[room], sid, name) == h.channels[room];
  }

  /**
   * While a channel that was private at state i lives, an outsider gets past
   * the screening at step k exactly as the owner of state i, with the invite
   * code of state i, or with the last PIN that this owner brought in this
   * life of the channel: a PIN that was replaced opens it no more.
   */
  lemma PrivateChannelHistory(cfg: Config, ws: seq<World>, steps: seq<Step>, i: nat, k: nat, room: Room)
    requires IsRun(cfg, ws, steps) && i <= k < |steps| && Alive(ws, room, i, k)
    requires ws[i].core.channels[room].private
    requires steps[k].act.JoinGate? && steps[k].act.room == room
    requires steps[k].act.sid !in Members(ws[k].core, room)
    ensures PcOf(ws[k + 1], steps[k].act.sid).Prepared? <==>
      var a := steps[k].act;
      Gate(cfg, ws[k].core, room, a.sid, a.name, OfferOf(a.req), a.code, a.now).1 == Admitted
    ensures var a := steps[k].act; var owner := ws[i].core.channels[room].ownerSid;
      Gate(cfg, ws[k].core, room, a.sid, a.name, OfferOf(a.req), a.code, a.now).1 != PrivateChannel <==>
        || a.sid == owner
        || ShowsCode(a.req, ws[i].core.channels[room].inviteCode)
        || (var pin := CleanPin(TypedPin(a.req)); pin != "" && IsLatestPin(ws, steps, k, room, owner, pin))
  {
    var a := steps[k].act;
    assert Enabled(ws[k], steps[k]) && ws[k + 1] == Next(cfg, ws[k], steps[k]);
    hide Gate, OfferOf, ShowsCode, TypedPin, CleanPin, IsLatestPin, HubOk, NextCore, NextConn;
    PrivateForLife(cfg, ws, steps, i, k, room);
    EveryStateOk(cfg, ws, steps, k);
    PrivateGate(cfg, ws[k].core, room, a.sid, a.name, a.req, a.code, a.now);
    PinProvenance(cfg, ws, steps, k, room, CleanPin(TypedPin(a.req)));
  }

  lemma MemberPassesGate(cfg: Config, h: Core, room: Room, sid: Sid, name: string, offer: Offer, code: string,
                         now: Time)
    requires sid in Members(h, room)
    ensures Gate(cfg, h, room, sid, name, offer, code, now).1 != PrivateChannel
  {
  }

  /** Typing back the code shown to the owner, in any letter case and with space around it, gets past the gate. */
  lemma ShownCodeOpens(cfg: Config, ws: seq<World>, steps: seq<Step>, n: nat, room: Room, sid: Sid,
                       name: string, req: Request, code: string, now: Time)
    requires IsRun(cfg, ws, steps) && n < |ws| && room in ws[n].core.channels && ws[n].core.channels[room].private
    requires Upper(TrimSpace(TypedSecret(req))) == ws[n].core.channels[room].inviteCode
    ensures Gate(cfg, ws[n].core, room, sid, name, OfferOf(req), code, now).1 != PrivateChannel
  {
    hide OfferOf, Gate;
    EveryStateOk(cfg, ws, steps, n);
    assert EntryOk(cfg, ws[n].core.channels[room]);
    InviteCodeRoundTrip(ws[n].core.channels[room].inviteCode, TypedSecret(req));
    if sid in Members(ws[n].core, room) {
      MemberPassesGate(cfg, ws[n].core, room, sid, name, OfferOf(req), code, now);
    } else {
      PrivateGate(cfg, ws[n].core, room, sid, name, req, code, now);
    }
  }

  // ---- Clients

  /** No Send channel is closed twice; clients in the map are open; the two sid tables agree. */
  lemma SendClosedAtMostOnce(cfg: Config, ws: seq<World>, steps: seq<Step>, n: nat, sid: Sid)
    requires IsRun(cfg, ws, steps) && n < |ws|
    ensures ws[n].conn.closes[sid] <= 1
    ensures sid in ws[n].conn.clients ==> ws[n].conn.closes[sid] == 0 && ws[n].conn.holding[sid] == 0
    ensures ws[n].conn.clients == ws[n].conn.quality
  {
    EveryStateOk(cfg, ws, steps, n);
    assert Places(ws[n].conn, sid) <= 1;
  }

  /** From state a on: the registration of sid is over, no handler is running and no further join of sid begins. */
  ghost predicate LastHandlerDone(ws: seq<World>, steps: seq<Step>, sid: Sid, a: nat)
    requires |ws| == |steps| + 1 && a < |ws|
  {
    && sid in ws[a].conn.registered - ws[a].conn.checked - ws[a].conn.queue
    && PcOf(ws[a], sid) == Idle
    && forall k :: a <= k < |steps| && steps[k].act.JoinGate? ==> steps[k].act.sid != sid
  }

  lemma QuietStep(cfg: Config, w: World, step: Step, sid: Sid)
    requires Enabled(w, step) && PcOf(w, sid) == Idle && (step.act.JoinGate? ==> step.act.sid != sid)
    requires sid in w.conn.registered - w.conn.checked - w.conn.queue
    ensures var c := NextConn(w.conn, step.act); sid in c.registered - c.checked - c.queue
    ensures PcOf(Next(cfg, w, step), sid) == Idle
  {
    hide NextCore;
  }

  lemma {:induction false} StaysQuiet(cfg: Config, ws: seq<World>, steps: seq<Step>, sid: Sid, a: nat, n: nat)
    requires IsRun(cfg, ws, steps) && a <= n < |ws| && LastHandlerDone(ws, steps, sid, a)
    ensures sid in ws[n].conn.registered - ws[n].conn.checked - ws[n].conn.queue
    ensures PcOf(ws[n], sid) == Idle
    decreases n
  {
    hide NextCore, NextPcs, NextConn;
    if a < n {
      StaysQuiet(cfg, ws, steps, sid, a, n - 1);
      QuietStep(cfg, ws[n - 1], steps[n - 1], sid);
    }
  }

  /** A step that is not a commit of sid, or an add of sid, does not bring sid back; a removal takes it out. */
  lemma AbsentStep(cfg: Config, w: World, step: Step, sid: Sid)
    requires Enabled(w, step) && PcOf(w, sid) == Idle && sid !in w.conn.queue
    ensures sid !in w.core.users || step.act == RemoveLeave(sid) ==> sid !in NextCore(cfg, w, step).users
    ensures sid !in w.conn.clients || step.act == RemoveTake(sid) ==> sid !in NextConn(w.conn, step.act).clients
  {
    if sid !in w.core.users && sid in NextCore(cfg, w, step).users {
      UsersGrowOnlyByCommit(cfg, w, step, sid);
    }
  }

  lemma {:induction false} StaysAbsent(cfg: Config, ws: seq<World>, steps: seq<Step>, sid: Sid, a: nat, p: nat, n: nat)
    requires IsRun(cfg, ws, steps) && a <= p < n < |ws| && LastHandlerDone(ws, steps, sid, a)
    ensures steps[p].act == RemoveLeave(sid) ==> sid !in ws[n].core.users
    ensures steps[p].act == RemoveTake(sid) ==> sid !in ws[n].conn.clients
    decreases n
  {
    hide NextCore, NextPcs, NextConn;
    StaysQuiet(cfg, ws, steps, sid, a, n - 1);
    AbsentStep(cfg, ws[n - 1], steps[n - 1], sid);
    if p < n - 1 {
      StaysAbsent(cfg, ws, steps, sid, a, p, n - 1);
    }
  }

  /** A removal that follows both leaves no trace of the sid in any map, for the rest of the run. */
  lemma RemovalForgets(cfg: Config, ws: seq<World>, steps: seq<Step>, sid: Sid, a: nat, p: nat, q: nat, n: nat)
    requires IsRun(cfg, ws, steps) && a <= p < n < |ws| && a <= q < n && LastHandlerDone(ws, steps, sid, a)
    requires steps[p].act == RemoveLeave(sid) && steps[q].act == RemoveTake(sid)
    ensures sid !in ws[n].core.users && sid !in ws[n].conn.clients && sid !in ws[n].conn.quality
    ensures forall room :: sid !in Members(ws[n].core, room)
  {
    StaysAbsent(cfg, ws, steps, sid, a, p, n);
    StaysAbsent(cfg, ws, steps, sid, a, q, n);
    EveryStateOk(cfg, ws, steps, n);
  }
}

/**
 * All interleavings of the hub's goroutines. One step is one region under the
 * lock (or one channel operation); the handlers of one sid follow one another,
 * and any number of removals of any sid may run between any two steps.
 */
module Interleaving {
  import opened Prelude
  import opened ChannelText
  import opened HubModel
  import opened HubInvariant

  /** Where the handler of one sid stands; the time is the one read before Gate took the lock. */
  datatype Pc = Idle | Prepared(room: Room, name: string, now: Time) | Left(room: Room, name: string, now: Time)

  /** The registration side: who is where on the way in and out, and how often each Send channel was closed. */
  datatype Conn = Conn(
    registered: set<Sid>, checked: set<Sid>, queue: set<Sid>,
    clients: set<Sid>, quality: set<Sid>, closed: bool,
    holding: multiset<Sid>, closes: multiset<Sid>)

  datatype World = World(core: Core, conn: Conn, pcs: map<Sid, Pc>, clock: Time)

  datatype Action =
    | Register(sid: Sid) | Enqueue(sid: Sid) | AddClient(sid: Sid)
    | JoinGate(sid: Sid, room: Room, name: string, req: Request, code: string, now: Time)
    | JoinLeave(sid: Sid) | JoinCommit(sid: Sid)
    | LeaveRoom(sid: Sid) | UpdateName(sid: Sid, name: string)
    | RemoveLeave(sid: Sid) | RemoveTake(sid: Sid) | CloseSend(sid: Sid)
    | CleanUp(now: Time) | CloseHub

  /** `at` is the clock while the lock is held. */
  datatype Step = Step(at: Time, act: Action)

  const REGISTER_CAPACITY := 256

  function PcOf(w: World, sid: Sid): Pc {
    if sid in w.pcs then w.pcs[sid] else Idle
  }

  predicate Enabled(w: World, step: Step) {
    && w.clock <= step.at
    && match step.act
       case Register(sid) => sid != "" && sid !in w.conn.registered
       case Enqueue(sid) => sid in w.conn.checked
       case AddClient(sid) => sid in w.conn.queue
       case JoinGate(sid, room, name, req, code, now) =>
         && PcOf(w, sid) == Idle && now <= step.at
         && sid != "" && room != "" && name != "" && IsInviteCode(code)
       case JoinLeave(sid) => PcOf(w, sid).Prepared?
       case JoinCommit(sid) => PcOf(w, sid).Left?
       case LeaveRoom(sid) => PcOf(w, sid) == Idle
       case UpdateName(sid, _) => PcOf(w, sid) == Idle
       case RemoveLeave(_) => true
       case RemoveTake(_) => true
       case CloseSend(sid) => sid in w.conn.holding
       case CleanUp(now) => now <= step.at
       case CloseHub => true
  }

  function NextCore(cfg: Config, w: World, step: Step): Core {
    match step.act
    case JoinGate(sid, room, name, req, code, now) =>
      Gate(cfg, w.core, room, sid, name, OfferOf(req), code, now).0
    case JoinLeave(sid) => Leave(cfg, w.core, sid, step.at)
    case JoinCommit(sid) =>
      var pc := PcOf(w, sid);
      if pc.Left? then Commit(cfg, w.core, pc.room, sid, pc.name, pc.now).0 else w.core
    case LeaveRoom(sid) => Leave(cfg, w.core, sid, step.at)
    case UpdateName(sid, name) => Rename(w.core, sid, name)
    case RemoveLeave(sid) => Leave(cfg, w.core, sid, step.at)
    case CleanUp(now) => Sweep(cfg, w.core, now)
    case CloseHub => if w.conn.closed then w.core else EMPTY_CORE
    case _ => w.core
  }

  function NextPcs(cfg: Config, w: World, act: Action): map<Sid, Pc> {
    match act
    case JoinGate(sid, room, name, req, code, now) =>
      if Gate(cfg, w.core, room, sid, name, OfferOf(req), code, now).1 == Admitted
      then w.pcs[sid := Prepared(room, name, now)] else w.pcs
    case JoinLeave(sid) =>
      var pc := PcOf(w, sid);
      if pc.Prepared? then w.pcs[sid := Left(pc.room, pc.name, pc.now)] else w.pcs
    case JoinCommit(sid) => w.pcs[sid := Idle]
    case _ => w.pcs
  }

  function NextConn(c: Conn, act: Action): Conn {
    match act
    case Register(sid) =>
      if c.closed then c.(registered := c.registered + {sid}, holding := c.holding + multiset{sid})
      else c.(registered := c.registered + {sid}, checked := c.checked + {sid})
    case Enqueue(sid) =>
      if |c.queue| < REGISTER_CAPACITY then c.(checked := c.checked - {sid}, queue := c.queue + {sid})
      else c.(checked := c.checked - {sid}, holding := c.holding + multiset{sid})
    case AddClient(sid) =>
      if c.closed then c.(queue := c.queue - {sid}, holding := c.holding + multiset{sid})
      else c.(queue := c.queue - {sid}, clients := c.clients + {sid}, quality := c.quality + {sid})
    case RemoveTake(sid) =>
      if sid in c.clients
      then c.(clients := c.clients - {sid}, quality := c.quality - {sid}, holding := c.holding + multiset{sid})
      else c.(quality := c.quality - {sid})
    case CloseSend(sid) => c.(holding := c.holding - multiset{sid}, closes := c.closes + multiset{sid})
    case CloseHub =>
      if c.closed then c
      else c.(closed := true, clients := {}, quality := {}, holding := c.holding + multiset(c.clients))
    case _ => c
  }

  function Next(cfg: Config, w: World, step: Step): World {
    World(NextCore(cfg, w, step), NextConn(w.conn, step.act), NextPcs(cfg, w, step.act), step.at)
  }

  function Start(t0: Time): World {
    World(EMPTY_CORE, Conn({}, {}, {}, {}, {}, false, multiset{}, multiset{}), map[], t0)
  }

  /** `ws` are the states of one execution and `steps` the steps between them. */
  ghost predicate IsRun(cfg: Config, ws: seq<World>, steps: seq<Step>) {
    && cfg.Valid()
    && |ws| == |steps| + 1
    && ws[0] == Start(ws[0].clock)
    && forall i :: 0 <= i < |steps| ==> Enabled(ws[i], steps[i]) && ws[i + 1] == Next(cfg, ws[i], steps[i])
  }

  // ---- Invariants

  /** Some join has passed its gate for `room` and has not committed or been refused yet. */
  ghost predicate JoinUnderWay(w: World, room: Room) {
    exists sid :: sid in w.pcs && w.pcs[sid] != Idle && w.pcs[sid].room == room
  }

  ghost predicate PcsOk(w: World) {
    && (forall sid :: sid in w.pcs && w.pcs[sid] != Idle ==> w.pcs[sid].room != "")
    && (forall sid :: sid in w.pcs && w.pcs[sid].Left? ==> sid !in w.core.users)
  }

  ghost predicate NoLeak(w: World) {
    forall room :: room in w.core.channels && room !in w.core.rooms ==>
      w.core.channels[room].emptySince.Some? || JoinUnderWay(w, room)
  }

  /** In how many places a client is: on the way in, in the map, about to be closed, closed. */
  function Places(c: Conn, sid: Sid): nat {
    (if sid in c.checked then 1 else 0) + (if sid in c.queue then 1 else 0) + (if sid in c.clients then 1 else 0)
    + c.holding[sid] + c.closes[sid]
  }

  ghost predicate ConnOk(c: Conn) {
    && c.clients == c.quality
    && (forall sid :: Places(c, sid) == if sid in c.registered then 1 else 0)
    && (c.closed ==> c.clients == {})
  }

  ghost predicate WorldOk(cfg: Config, w: World) {
    HubOk(cfg, w.core) && PcsOk(w) && NoLeak(w) && ConnOk(w.conn)
  }

  lemma ConnStepKeeps(c: Conn, act: Action)
    requires ConnOk(c)
    requires act.Register? ==> act.sid !in c.registered
    requires act.Enqueue? ==> act.sid in c.checked
    requires act.AddClient? ==> act.sid in c.queue
    requires act.CloseSend? ==> act.sid in c.holding
    ensures ConnOk(NextConn(c, act))
  {
  }

  lemma CoreStepKeeps(cfg: Config, w: World, step: Step)
    requires cfg.Valid() && HubOk(cfg, w.core) && PcsOk(w) && Enabled(w, step)
    ensures HubOk(cfg, NextCore(cfg, w, step))
  {
    hide OfferOf, Gate, Leave, Commit, Rename, Sweep, HubOk;
    match step.act
    case JoinGate(sid, room, name, req, code, now) =>
      OfferIsClean(req);
      GateKeeps(cfg, w.core, room, sid, name, OfferOf(req), code, now);
    case JoinLeave(sid) => LeaveKeeps(cfg, w.core, sid, step.at);
    case JoinCommit(sid) =>
      var pc := PcOf(w, sid);
      CommitKeeps(cfg, w.core, pc.room, sid, pc.name, pc.now);
    case LeaveRoom(sid) => LeaveKeeps(cfg, w.core, sid, step.at);
    case UpdateName(sid, name) => RenameKeeps(cfg, w.core, sid, name);
    case RemoveLeave(sid) => LeaveKeeps(cfg, w.core, sid, step.at);
    case CleanUp(now) => SweepKeeps(cfg, w.core, now);
    case CloseHub => EmptyOk(cfg);
    case _ =>
  }

  /** Only a commit puts a sid into `users`. */
  lemma UsersGrowOnlyByCommit(cfg: Config, w: World, step: Step, sid: Sid)
    requires Enabled(w, step) && sid !in w.core.users && sid in NextCore(cfg, w, step).users
    ensures step.act == JoinCommit(sid)
  {
    hide OfferOf;
  }

  lemma PcsStepKeeps(cfg: Config, w: World, step: Step)
    requires PcsOk(w) && Enabled(w, step)
    ensures PcsOk(Next(cfg, w, step))
  {
    hide OfferOf;
    var w' := Next(cfg, w, step);
    forall sid | sid in w'.pcs && w'.pcs[sid].Left? ensures sid !in w'.core.users {
      if sid in w'.core.users && sid !in w.core.users {
        UsersGrowOnlyByCommit(cfg, w, step, sid);
      }
    }
  }

  /** One step seen from one channel entry that exists after it. */
  ghost predicate EntryStep(cfg: Config, w: World, step: Step, room: Room)
    requires room in NextCore(cfg, w, step).channels
  {
    var h, h' := w.core, NextCore(cfg, w, step);
    var ch := h'.channels[room];
    match step.act
    case JoinGate(sid, r, name, req, code, now) =>
      if r == room then h'.rooms == h.rooms && ch == Screened(h, room, sid, name, OfferOf(req), code, now).0
      else Untouched(h, h', room)
    case JoinCommit(sid) =>
      if PcOf(w, sid).Left? && PcOf(w, sid).room == room
      then room in h'.rooms && SameIdentity(ChannelOr(h.channels, room, PcOf(w, sid).now), ch) && ch.emptySince == None
      else Untouched(h, h', room)
    case _ =>
      || Untouched(h, h', room)
      || (&& room in h.channels && SameIdentity(h.channels[room], ch)
          && room in h.rooms && (room in h'.rooms || ch.emptySince == Some(step.at)))
  }

  ghost predicate Untouched(h: Core, h': Core, room: Room)
    requires room in h'.channels
  {
    room in h.channels && h'.channels[room] == h.channels[room] && (room in h.rooms <==> room in h'.rooms)
  }

  lemma EntryStepHolds(cfg: Config, w: World, step: Step, room: Room)
    requires cfg.Valid() && HubOk(cfg, w.core) && PcsOk(w) && Enabled(w, step)
    requires room in NextCore(cfg, w, step).channels
    ensures EntryStep(cfg, w, step, room)
  {
    hide OfferOf, Screened, Leave, Commit, Sweep, SameIdentity, MembershipOk, BookkeepingOk;
    match step.act
    case JoinGate(sid, r, name, req, code, now) =>
    case JoinLeave(sid) => LeaveEntry(cfg, w.core, sid, step.at, room);
    case JoinCommit(sid) =>
      var pc := PcOf(w, sid);
      CommitEntry(cfg, w.core, pc.room, sid, pc.name, pc.now, room);
    case LeaveRoom(sid) => LeaveEntry(cfg, w.core, sid, step.at, room);
    case UpdateName(sid, name) =>
    case RemoveLeave(sid) => LeaveEntry(cfg, w.core, sid, step.at, room);
    case CleanUp(now) => SweepEntry(cfg, w.core, now, room);
    case CloseHub =>
    case _ =>
  }

  /** A memberless entry with no empty time is new from a gate or was there before. */
  lemma IdleEntryOrigin(cfg: Config, w: World, step: Step, room: Room)
    requires cfg.Valid() && HubOk(cfg, w.core) && PcsOk(w) && Enabled(w, step)
    requires var h := NextCore(cfg, w, step);
      room in h.channels && room !in h.rooms && h.channels[room].emptySince == None
    ensures room !in w.core.rooms
    ensures step.act.JoinCommit? ==> PcOf(w, step.act.sid).room != room
    ensures || (room in w.core.channels && w.core.channels[room].emptySince == None)
            || (&& step.act.JoinGate? && step.act.room == room
                && NextPcs(cfg, w, step.act) == w.pcs[step.act.sid := Prepared(room, step.act.name, step.act.now)])
  {
    hide OfferOf;
    EntryStepHolds(cfg, w, step, room);
  }

  lemma NoLeakStep(cfg: Config, w: World, step: Step)
    requires cfg.Valid() && WorldOk(cfg, w) && Enabled(w, step)
    ensures NoLeak(Next(cfg, w, step))
  {
    hide OfferOf;
    var w' := Next(cfg, w, step);
    forall room | room in w'.core.channels && room !in w'.core.rooms && w'.core.channels[room].emptySince == None
      ensures JoinUnderWay(w', room)
    {
      IdleEntryOrigin(cfg, w, step, room);
      var a := step.act;
      if a.JoinGate? && a.sid in w'.pcs && w'.pcs[a.sid] == Prepared(room, a.name, a.now) {
        assert a.sid in w'.pcs && w'.pcs[a.sid].room == room;
      } else {
        assert JoinUnderWay(w, room);
        var sid :| sid in w.pcs && w.pcs[sid] != Idle && w.pcs[sid].room == room;
        assert sid in w'.pcs && w'.pcs[sid] != Idle && w'.pcs[sid].room == room;
      }
    }
  }
}

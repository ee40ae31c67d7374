/**
 * The hub's room and channel maps as values, and the effect on them of each
 * region that runs under the hub's lock. Join is three regions: Gate, Leave,
 * Commit. The class in Hub.dfy is proved to compute these functions.
 */
module HubModel {
  import opened Prelude
  import opened ChannelText

  type Sid = string
  type Room = string

  datatype Config = Config(maxRoomSize: int, emptyTtl: Time) {
    /** The least values the configuration loader lets through. */
    predicate Valid() { maxRoomSize >= 2 && emptyTtl >= 60 * SECOND }
  }

  datatype User = User(name: string, room: Room, joinedAt: Time)

  /** SHA-256 of a PIN, taken as injective; an empty stored hash is NoDigest. */
  datatype PinHash = NoDigest | Digest(pin: string)

  datatype Channel = Channel(
    visibility: Visibility, private: bool, userCount: int,
    ownerSid: Sid, ownerName: string, hasPin: bool,
    createdAt: Time, lastActive: Time,
    emptySince: Option<Time>, expiresAt: Option<Time>,
    inviteCode: string, pinHash: PinHash)

  datatype Core = Core(users: map<Sid, User>, rooms: map<Room, set<Sid>>, channels: map<Room, Channel>)

  const EMPTY_CORE := Core(map[], map[], map[])

  /** The text fields of a join request that the gate reads. */
  datatype Request = Request(
    visibility: string, channelType: string, pin: string, channelPin: string,
    inviteCode: string, channelCode: string, code: string, secret: string)

  datatype Verdict = Admitted | PrivateChannel | RoomFull

  function Members(h: Core, room: Room): set<Sid> {
    if room in h.rooms then h.rooms[room] else {}
  }

  function FreshChannel(now: Time): Channel {
    Channel(Public, false, 0, "", "", false, now, now, None, None, "", NoDigest)
  }

  function ChannelOr(channels: map<Room, Channel>, room: Room, now: Time): Channel {
    if room in channels then channels[room] else FreshChannel(now)
  }

  function Touched(ch: Channel, count: int, now: Time): Channel {
    ch.(userCount := count, lastActive := now, emptySince := None, expiresAt := None)
  }

  function Emptied(cfg: Config, ch: Channel, now: Time): Channel {
    var since := if ch.emptySince == None then now else ch.emptySince.value;
    ch.(userCount := 0, lastActive := now, emptySince := Some(since), expiresAt := Some(since + cfg.emptyTtl))
  }

  function Touch(h: Core, room: Room, now: Time): Core {
    if room == "" then h
    else h.(channels := h.channels[room := Touched(ChannelOr(h.channels, room, now), |Members(h, room)|, now)])
  }

  function MarkEmpty(cfg: Config, h: Core, room: Room, now: Time): Core {
    if room == "" then h
    else h.(channels := h.channels[room := Emptied(cfg, ChannelOr(h.channels, room, now), now)])
  }

  function Leave(cfg: Config, h: Core, sid: Sid, now: Time): Core {
    if sid !in h.users then h
    else
      var room := h.users[sid].room;
      var h1 :=
        if room !in h.rooms then h
        else if h.rooms[room] - {sid} == {} then MarkEmpty(cfg, h.(rooms := h.rooms - {room}), room, now)
        else Touch(h.(rooms := h.rooms[room := h.rooms[room] - {sid}]), room, now);
      h1.(users := h1.users - {sid})
  }

  /** What the cleaners leave of a request: a visibility word, a PIN and a secret. */
  datatype Offer = Offer(wanted: Visibility, pin: string, secret: string) {
    predicate Clean() { wanted != Unset && IsPin(pin) }
  }

  function Wanted(req: Request): Visibility {
    if CleanVisibility(req.visibility) != Unset then CleanVisibility(req.visibility)
    else if CleanVisibility(req.channelType) != Unset then CleanVisibility(req.channelType)
    else Public
  }

  function TypedPin(req: Request): string {
    FirstNonEmpty([req.pin, req.channelPin])
  }

  function TypedSecret(req: Request): string {
    FirstNonEmpty([req.inviteCode, req.channelCode, req.code, req.secret])
  }

  function OfferOf(req: Request): Offer {
    Offer(Wanted(req), CleanPin(TypedPin(req)), CleanSecret(TypedSecret(req)))
  }

  lemma WantedIsSet(req: Request)
    ensures Wanted(req) != Unset
  {
    hide CleanVisibility;
  }

  /** Every request, whatever its text fields hold, makes a clean offer. */
  lemma OfferIsClean(req: Request)
    ensures OfferOf(req).Clean()
  {
    hide Wanted, TypedPin, TypedSecret, CleanPin, CleanSecret, IsPin;
    CleanPinIsStable(TypedPin(req));
    WantedIsSet(req);
  }

  predicate Blank(text: string) { TrimSpace(text) == "" }

  /** Which field of a request the gate reads for each purpose: the first that says something. */
  lemma RequestLaw(req: Request)
    ensures OfferOf(req).wanted
      == if CleanVisibility(req.visibility) != Unset then CleanVisibility(req.visibility)
         else if CleanVisibility(req.channelType) != Unset then CleanVisibility(req.channelType) else Public
    ensures OfferOf(req).pin
      == CleanPin(if !Blank(req.pin) then req.pin else if !Blank(req.channelPin) then req.channelPin else "")
    ensures OfferOf(req).secret
      == CleanSecret(if !Blank(req.inviteCode) then req.inviteCode else if !Blank(req.channelCode) then req.channelCode
                     else if !Blank(req.code) then req.code else if !Blank(req.secret) then req.secret else "")
  {
    hide CleanVisibility, CleanPin, CleanSecret, Blank, FirstNonEmpty;
    FirstOfTwo(req.pin, req.channelPin);
    FirstOfFour(req.inviteCode, req.channelCode, req.code, req.secret);
  }

  lemma FirstOfTwo(a: string, b: string)
    ensures FirstNonEmpty([a, b]) == if !Blank(a) then a else if !Blank(b) then b else ""
  {
    hide TrimSpace;
    assert [a, b][1..] == [b] && [b][1..] == [];
    assert FirstNonEmpty([b]) == if !Blank(b) then b else "";
  }

  lemma FirstOfFour(a: string, b: string, c: string, d: string)
    ensures FirstNonEmpty([a, b, c, d])
      == if !Blank(a) then a else if !Blank(b) then b else if !Blank(c) then c else if !Blank(d) then d else ""
  {
    hide TrimSpace;
    assert [a, b, c, d][1..] == [b, c, d] && [b, c, d][1..] == [c, d];
    assert FirstNonEmpty([b, c, d]) == if !Blank(b) then b else FirstNonEmpty([c, d]);
    FirstOfTwo(c, d);
  }

  function WithPin(ch: Channel, pin: string): Channel {
    if ch.private && pin != "" then ch.(pinHash := Digest(pin), hasPin := true) else ch
  }

  function Created(sid: Sid, name: string, offer: Offer, code: string, now: Time): Channel {
    var private := offer.wanted == Private;
    WithPin(Channel(offer.wanted, private, 0, sid, name, false, now, now, None, None,
                    if private then code else "", NoDigest), offer.pin)
  }

  /** What the gate repairs on any existing entry before it looks at the caller. */
  function Adopted(ch: Channel, sid: Sid, name: string): Channel {
    var visibility := if ch.visibility == Unset then Public else ch.visibility;
    ch.(visibility := visibility, private := visibility == Private,
        ownerSid := if ch.ownerSid == "" then sid else ch.ownerSid,
        ownerName := if ch.ownerName == "" then name else ch.ownerName)
  }

  function OwnerUpdate(ch: Channel, offer: Offer, code: string): Channel {
    var ch1 := if offer.wanted == Private && !ch.private
               then ch.(visibility := Private, private := true, inviteCode := code) else ch;
    WithPin(ch1, offer.pin)
  }

  predicate SecretAccepted(ch: Channel, offer: Offer) {
    || (ch.inviteCode != "" && EqualFold(offer.secret, ch.inviteCode))
    || (ch.pinHash != NoDigest && offer.pin != "" && Digest(offer.pin) == ch.pinHash)
  }

  /** The entry a join to `room` leaves behind, and whether the caller may pass. */
  function Screened(h: Core, room: Room, sid: Sid, name: string, offer: Offer,
                    code: string, now: Time): (Channel, Verdict)
  {
    if room !in h.channels then
      (Created(sid, name, offer, code, now), Admitted)
    else
      var ch := Adopted(h.channels[room], sid, name);
      if ch.ownerSid == sid then (OwnerUpdate(ch, offer, code), Admitted)
      else
        var barred := ch.private && sid !in Members(h, room) && !SecretAccepted(ch, offer);
        (ch, if barred then PrivateChannel else Admitted)
  }

  function Prepare(h: Core, room: Room, sid: Sid, name: string, offer: Offer,
                   code: string, now: Time): (Core, Verdict)
  {
    var (ch, verdict) := Screened(h, room, sid, name, offer, code, now);
    (h.(channels := h.channels[room := ch]), verdict)
  }

  /** First lock region of a join. */
  function Gate(cfg: Config, h: Core, room: Room, sid: Sid, name: string, offer: Offer,
                code: string, now: Time): (Core, Verdict)
  {
    var (h1, verdict) := Prepare(h, room, sid, name, offer, code, now);
    if verdict != Admitted then (h1, verdict)
    else if sid !in Members(h1, room) && |Members(h1, room)| >= cfg.maxRoomSize then (h1, RoomFull)
    else (h1, Admitted)
  }

  /** Third lock region of a join. */
  function Commit(cfg: Config, h: Core, room: Room, sid: Sid, name: string, now: Time): (Core, Verdict) {
    var h1 := h.(rooms := h.rooms[room := Members(h, room)]);
    if |Members(h, room)| >= cfg.maxRoomSize then (h1, RoomFull)
    else
      (Touch(h1.(rooms := h1.rooms[room := Members(h, room) + {sid}],
                 users := h1.users[sid := User(name, room, now)]), room, now), Admitted)
  }

  function Rename(h: Core, sid: Sid, newName: string): Core {
    if newName == "" || sid !in h.users then h
    else h.(users := h.users[sid := h.users[sid].(name := newName)])
  }

  predicate Expired(cfg: Config, h: Core, room: Room, now: Time) {
    && room in h.channels
    && h.channels[room].emptySince.Some?
    && Members(h, room) == {}
    && now - h.channels[room].emptySince.value >= cfg.emptyTtl
  }

  function ExpiredRooms(cfg: Config, h: Core, now: Time): set<Room> {
    set room | room in h.channels && Expired(cfg, h, room, now)
  }

  function Sweep(cfg: Config, h: Core, now: Time): Core {
    var gone := ExpiredRooms(cfg, h, now);
    h.(channels := h.channels - gone, rooms := h.rooms - gone)
  }
}

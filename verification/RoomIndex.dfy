/** Rooms, the hub, and the five lookup tables that must agree with a scan over all participants. */
module RoomIndex {
  import opened Words

  type RoomId = string
  type Ufrag = string
  /** A socket address, compared by identity only. */
  type Addr = nat

  datatype PcType = Publish | Subscribe
  datatype Error = RoomFull | AlreadyInRoom | NotInRoom | RoomNotFound
  datatype Result<+T> = Success(value: T) | Failure(error: Error)

  /** A participant object; `id` is its identity, under which its two sessions keep their addresses. */
  datatype Participant = Participant(id: nat, userId: UserId, pubUfrag: Ufrag, subUfrag: Ufrag)

  type Session = (Participant, PcType)
  /** The latched address of each session, by participant identity. */
  type Addresses = map<(nat, PcType), Addr>

  datatype Room = Room(
    capacity: nat, participants: map<UserId, Participant>,
    byUfrag: map<Ufrag, Session>, byAddr: map<Addr, Session>)

  datatype Hub = Hub(
    rooms: map<RoomId, Room>, ufragIndex: map<Ufrag, RoomId>, addrIndex: map<Addr, RoomId>, addresses: Addresses)

  function UfragOf(s: Session): Ufrag {
    if s.1.Publish? then s.0.pubUfrag else s.0.subUfrag
  }

  function AddressOf(addresses: Addresses, s: Session): Option<Addr> {
    if (s.0.id, s.1) in addresses then Some(addresses[(s.0.id, s.1)]) else None
  }

  /** The addresses of a participant's two sessions. */
  function AddressSet(addresses: Addresses, p: Participant): set<Addr> {
    (if AddressOf(addresses, (p, Publish)).Some? then {AddressOf(addresses, (p, Publish)).value} else {})
    + (if AddressOf(addresses, (p, Subscribe)).Some? then {AddressOf(addresses, (p, Subscribe)).value} else {})
  }

  predicate Member(r: Room, p: Participant) {
    p.userId in r.participants && r.participants[p.userId] == p
  }

  // ---------------------------------------------------------------- room operations

  function Joined(r: Room, p: Participant): Room {
    r.(byUfrag := r.byUfrag[p.pubUfrag := (p, Publish)][p.subUfrag := (p, Subscribe)],
       participants := r.participants[p.userId := p])
  }

  function Left(r: Room, addresses: Addresses, p: Participant): Room {
    r.(participants := r.participants - {p.userId},
       byUfrag := r.byUfrag - {p.pubUfrag, p.subUfrag},
       byAddr := r.byAddr - AddressSet(addresses, p))
  }

  /** A session latches onto `a`; an address it held before is forgotten. */
  function Latched(r: Room, addresses: Addresses, s: Session, a: Addr): Room {
    var old' := AddressOf(addresses, s);
    r.(byAddr := (if old'.Some? && old'.value != a then r.byAddr - {old'.value} else r.byAddr)[a := s])
  }

  // ---------------------------------------------------------------- hub operations

  function CreateRoom(h: Hub, rid: RoomId, capacity: nat): Hub {
    h.(rooms := h.rooms[rid := Room(capacity, map[], map[], map[])])
  }

  function AddError(h: Hub, rid: RoomId, p: Participant): Option<Error> {
    if rid !in h.rooms then Some(RoomNotFound)
    else if |h.rooms[rid].participants| >= h.rooms[rid].capacity then Some(RoomFull)
    else if p.userId in h.rooms[rid].participants then Some(AlreadyInRoom)
    else None
  }

  function Add(h: Hub, rid: RoomId, p: Participant): Hub {
    if AddError(h, rid, p).Some? then h
    else h.(rooms := h.rooms[rid := Joined(h.rooms[rid], p)],
            ufragIndex := h.ufragIndex[p.pubUfrag := rid][p.subUfrag := rid])
  }

  function Remove(h: Hub, rid: RoomId, user: UserId): Hub {
    if rid !in h.rooms || user !in h.rooms[rid].participants then h
    else
      var p := h.rooms[rid].participants[user];
      h.(rooms := h.rooms[rid := Left(h.rooms[rid], h.addresses, p)],
         ufragIndex := h.ufragIndex - {p.pubUfrag, p.subUfrag},
         addrIndex := h.addrIndex - AddressSet(h.addresses, p))
  }

  /** The session a ufrag leads to, through the hub's index and then the room's. */
  function FindByUfrag(h: Hub, ufrag: Ufrag): Option<(Session, RoomId)> {
    if ufrag !in h.ufragIndex || h.ufragIndex[ufrag] !in h.rooms
       || ufrag !in h.rooms[h.ufragIndex[ufrag]].byUfrag then None
    else Some((h.rooms[h.ufragIndex[ufrag]].byUfrag[ufrag], h.ufragIndex[ufrag]))
  }

  function FindByAddr(h: Hub, a: Addr): Option<(Session, RoomId)> {
    if a !in h.addrIndex || h.addrIndex[a] !in h.rooms || a !in h.rooms[h.addrIndex[a]].byAddr then None
    else Some((h.rooms[h.addrIndex[a]].byAddr[a], h.addrIndex[a]))
  }

  function Latch(h: Hub, ufrag: Ufrag, a: Addr): Hub {
    var found := FindByUfrag(h, ufrag);
    if found.None? then h
    else
      var (s, rid) := found.value;
      Hub(h.rooms[rid := Latched(h.rooms[rid], h.addresses, s, a)], h.ufragIndex, h.addrIndex[a := rid],
          h.addresses[(s.0.id, s.1) := a])
  }

  ghost function UfragsOf(r: Room, users: set<UserId>): set<Ufrag> {
    (set u | u in users && u in r.participants :: r.participants[u].pubUfrag)
    + (set u | u in users && u in r.participants :: r.participants[u].subUfrag)
  }

  ghost function AddressesOf(r: Room, addresses: Addresses, users: set<UserId>): set<Addr> {
    set u, a | u in users && u in r.participants && a in AddressSet(addresses, r.participants[u]) :: a
  }

  ghost function RemoveRoom(h: Hub, rid: RoomId): Hub {
    if rid !in h.rooms then h
    else
      var r := h.rooms[rid];
      h.(rooms := h.rooms - {rid},
         ufragIndex := h.ufragIndex - UfragsOf(r, r.participants.Keys),
         addrIndex := h.addrIndex - AddressesOf(r, h.addresses, r.participants.Keys))
  }

  // ---------------------------------------------------------------- soundness of the indices

  ghost predicate Keyed(r: Room) {
    forall u :: u in r.participants ==> r.participants[u].userId == u
  }

  /** The room's ufrag table lists exactly the members' sessions, its address table only members' sessions
      under the address they hold. */
  ghost predicate RoomOk(r: Room, addresses: Addresses) {
    && Keyed(r)
    && (forall f :: f in r.byUfrag ==> Member(r, r.byUfrag[f].0) && UfragOf(r.byUfrag[f]) == f)
    && (forall p, t :: Member(r, p) ==> UfragOf((p, t)) in r.byUfrag && r.byUfrag[UfragOf((p, t))] == (p, t))
    && (forall a :: a in r.byAddr ==> Member(r, r.byAddr[a].0) && AddressOf(addresses, r.byAddr[a]) == Some(a))
  }

  ghost predicate RoomsOk(h: Hub) {
    forall rid :: rid in h.rooms ==> RoomOk(h.rooms[rid], h.addresses)
  }

  /** The hub's ufrag table is the union of the rooms'. */
  ghost predicate UfragsOk(h: Hub) {
    && (forall f :: f in h.ufragIndex ==> h.ufragIndex[f] in h.rooms && f in h.rooms[h.ufragIndex[f]].byUfrag)
    && (forall rid, f :: rid in h.rooms && f in h.rooms[rid].byUfrag ==> f in h.ufragIndex && h.ufragIndex[f] == rid)
  }

  predicate Live(h: Hub, rid: RoomId, p: Participant) {
    rid in h.rooms && Member(h.rooms[rid], p)
  }

  ghost predicate IdsOk(h: Hub) {
    forall rid, p, rid', p' :: Live(h, rid, p) && Live(h, rid', p') && p.id == p'.id ==> rid == rid' && p == p'
  }

  ghost predicate Sound(h: Hub) {
    RoomsOk(h) && UfragsOk(h) && IdsOk(h)
  }

  lemma JoinedOk(r: Room, addresses: Addresses, p: Participant)
    requires RoomOk(r, addresses) && p.userId !in r.participants
    requires p.pubUfrag !in r.byUfrag && p.subUfrag !in r.byUfrag && p.pubUfrag != p.subUfrag
    ensures RoomOk(Joined(r, p), addresses)
  {
    var g := Joined(r, p);
    assert forall q :: Member(g, q) <==> q == p || Member(r, q);
    forall q, t | Member(g, q)
      ensures UfragOf((q, t)) in g.byUfrag && g.byUfrag[UfragOf((q, t))] == (q, t)
    {
      if q != p {
        assert UfragOf((q, t)) in r.byUfrag;
      }
    }
  }

  lemma LeftOk(r: Room, addresses: Addresses, p: Participant)
    requires RoomOk(r, addresses) && Member(r, p)
    ensures RoomOk(Left(r, addresses, p), addresses)
  {
  }

  lemma LatchedOk(r: Room, addresses: Addresses, s: Session, a: Addr)
    requires RoomOk(r, addresses) && Member(r, s.0)
    requires forall p :: Member(r, p) && p.id == s.0.id ==> p == s.0
    ensures RoomOk(Latched(r, addresses, s, a), addresses[(s.0.id, s.1) := a])
  {
  }

  /** Another participant's new address does not concern a room it is not in. */
  lemma OtherRoomOk(r: Room, addresses: Addresses, s: Session, a: Addr)
    requires RoomOk(r, addresses) && forall p :: Member(r, p) ==> p.id != s.0.id
    ensures RoomOk(r, addresses[(s.0.id, s.1) := a])
  {
  }

  // ---------------------------------------------------------------- runs

  datatype Event =
    | Create(rid: RoomId, capacity: nat)
    | Join(rid: RoomId, who: Participant)
    | Leave(rid: RoomId, user: UserId)
    | LatchTo(ufrag: Ufrag, addr: Addr)
    | Close(rid: RoomId)

  ghost function Step(h: Hub, e: Event): Hub {
    match e
    case Create(rid, capacity) => CreateRoom(h, rid, capacity)
    case Join(rid, p) => Add(h, rid, p)
    case Leave(rid, u) => Remove(h, rid, u)
    case LatchTo(f, a) => Latch(h, f, a)
    case Close(rid) => RemoveRoom(h, rid)
  }

  const EMPTY := Hub(map[], map[], map[], map[])

  ghost function Run(es: seq<Event>): Hub {
    if es == [] then EMPTY else Step(Run(es[..|es| - 1]), es[|es| - 1])
  }

  /** What the random generators provide: a new room id, and a new participant object, not yet latched,
      with two distinct ufrags nobody uses. */
  ghost predicate FreshNames(h: Hub, e: Event) {
    match e
    case Create(rid, _) => rid !in h.rooms
    case Join(_, p) =>
      && p.pubUfrag !in h.ufragIndex && p.subUfrag !in h.ufragIndex && p.pubUfrag != p.subUfrag
      && (p.id, Publish) !in h.addresses && (p.id, Subscribe) !in h.addresses
      && (forall rid, q :: Live(h, rid, q) ==> q.id != p.id)
    case _ => true
  }

  ghost predicate FreshRun(es: seq<Event>) {
    es != [] ==> FreshRun(es[..|es| - 1]) && FreshNames(Run(es[..|es| - 1]), es[|es| - 1])
  }

  /** Membership after a change to one room. */
  lemma LiveAfter(h: Hub, g: Hub, rid: RoomId, r: RoomId, q: Participant)
    requires rid in g.rooms && g.rooms == h.rooms[rid := g.rooms[rid]]
    ensures Live(g, r, q) <==> if r == rid then Member(g.rooms[rid], q) else Live(h, r, q)
  {
  }

  lemma JoinIds(h: Hub, rid: RoomId, p: Participant)
    requires Sound(h) && FreshNames(h, Join(rid, p)) && AddError(h, rid, p).None?
    ensures IdsOk(Add(h, rid, p))
  {
    var g := Add(h, rid, p);
    forall r, q
      ensures Live(g, r, q) <==> Live(h, r, q) || (r == rid && q == p)
    {
      JoinLive(h, rid, p, r, q);
    }
  }

  lemma JoinLive(h: Hub, rid: RoomId, p: Participant, r: RoomId, q: Participant)
    requires AddError(h, rid, p).None?
    ensures Live(Add(h, rid, p), r, q) <==> Live(h, r, q) || (r == rid && q == p)
  {
    LiveAfter(h, Add(h, rid, p), rid, r, q);
  }

  lemma JoinUfrags(h: Hub, rid: RoomId, p: Participant)
    requires UfragsOk(h) && p.pubUfrag !in h.ufragIndex && p.subUfrag !in h.ufragIndex && AddError(h, rid, p).None?
    ensures UfragsOk(Add(h, rid, p))
  {
    var g := Add(h, rid, p);
    assert g.rooms[rid].byUfrag.Keys == h.rooms[rid].byUfrag.Keys + {p.pubUfrag, p.subUfrag};
    assert g.rooms.Keys == h.rooms.Keys;
  }

  lemma JoinSound(h: Hub, rid: RoomId, p: Participant)
    requires Sound(h) && FreshNames(h, Join(rid, p))
    ensures Sound(Add(h, rid, p))
  {
    if AddError(h, rid, p).None? {
      JoinedOk(h.rooms[rid], h.addresses, p);
      JoinIds(h, rid, p);
      JoinUfrags(h, rid, p);
    }
  }

  /** Dropping some of one room's ufrags from both tables. */
  lemma DropUfrags(h: Hub, g: Hub, rid: RoomId, gone: set<Ufrag>)
    requires UfragsOk(h) && rid in h.rooms && rid in g.rooms && g.rooms == h.rooms[rid := g.rooms[rid]]
    requires forall f :: f in gone ==> f in h.rooms[rid].byUfrag
    requires g.rooms[rid].byUfrag == h.rooms[rid].byUfrag - gone && g.ufragIndex == h.ufragIndex - gone
    ensures UfragsOk(g)
  {
    forall f | f in g.ufragIndex
      ensures g.ufragIndex[f] in g.rooms && f in g.rooms[g.ufragIndex[f]].byUfrag
    {
      assert f in h.ufragIndex && f !in gone;
    }
    forall r, f | r in g.rooms && f in g.rooms[r].byUfrag
      ensures f in g.ufragIndex && g.ufragIndex[f] == r
    {
      assert r in h.rooms && f in h.rooms[r].byUfrag && h.ufragIndex[f] == r;
      assert f !in gone;
    }
  }

  lemma LeaveUfrags(h: Hub, rid: RoomId, p: Participant)
    requires RoomsOk(h) && UfragsOk(h) && Live(h, rid, p)
    ensures UfragsOk(Remove(h, rid, p.userId))
  {
    assert UfragOf((p, Publish)) in h.rooms[rid].byUfrag && UfragOf((p, Subscribe)) in h.rooms[rid].byUfrag;
    DropUfrags(h, Remove(h, rid, p.userId), rid, {p.pubUfrag, p.subUfrag});
  }

  lemma LeaveSound(h: Hub, rid: RoomId, user: UserId)
    requires Sound(h)
    ensures Sound(Remove(h, rid, user))
  {
    if rid in h.rooms && user in h.rooms[rid].participants {
      var p, g := h.rooms[rid].participants[user], Remove(h, rid, user);
      LeftOk(h.rooms[rid], h.addresses, p);
      LeaveUfrags(h, rid, p);
      forall r, q | Live(g, r, q)
        ensures Live(h, r, q)
      {
        LiveAfter(h, g, rid, r, q);
      }
    }
  }

  lemma FoundByUfrag(h: Hub, ufrag: Ufrag)
    requires Sound(h) && FindByUfrag(h, ufrag).Some?
    ensures var (s, rid) := FindByUfrag(h, ufrag).value; Live(h, rid, s.0) && UfragOf(s) == ufrag
  {
  }

  lemma LatchRooms(h: Hub, s: Session, rid: RoomId, a: Addr, r: RoomId)
    requires RoomsOk(h) && IdsOk(h) && Live(h, rid, s.0) && r in h.rooms
    ensures RoomOk(if r == rid then Latched(h.rooms[rid], h.addresses, s, a) else h.rooms[r],
                   h.addresses[(s.0.id, s.1) := a])
  {
    forall p | Member(h.rooms[r], p)
      ensures p.id == s.0.id ==> r == rid && p == s.0
    {
      assert Live(h, r, p);
    }
    if r == rid {
      LatchedOk(h.rooms[rid], h.addresses, s, a);
    } else {
      OtherRoomOk(h.rooms[r], h.addresses, s, a);
    }
  }

  lemma LatchKeepsTables(h: Hub, g: Hub, s: Session, rid: RoomId, a: Addr)
    requires UfragsOk(h) && IdsOk(h) && rid in h.rooms && g.ufragIndex == h.ufragIndex
    requires g.rooms == h.rooms[rid := Latched(h.rooms[rid], h.addresses, s, a)]
    ensures UfragsOk(g) && IdsOk(g)
  {
    assert g.rooms.Keys == h.rooms.Keys;
    forall r | r in g.rooms
      ensures g.rooms[r].byUfrag == h.rooms[r].byUfrag && g.rooms[r].participants == h.rooms[r].participants
    {
    }
    assert forall r, q :: Live(g, r, q) <==> Live(h, r, q);
  }

  lemma LatchSound(h: Hub, ufrag: Ufrag, a: Addr)
    requires Sound(h)
    ensures Sound(Latch(h, ufrag, a))
  {
    if FindByUfrag(h, ufrag).Some? {
      var (s, rid) := FindByUfrag(h, ufrag).value;
      FoundByUfrag(h, ufrag);
      var g := Latch(h, ufrag, a);
      forall r | r in g.rooms
        ensures RoomOk(g.rooms[r], g.addresses)
      {
        LatchRooms(h, s, rid, a, r);
      }
      LatchKeepsTables(h, g, s, rid, a);
    }
  }

  lemma CloseTables(h: Hub, g: Hub, rid: RoomId)
    requires Sound(h) && rid in h.rooms
    requires g.rooms == h.rooms - {rid} && g.addresses == h.addresses
    requires g.ufragIndex == h.ufragIndex - h.rooms[rid].byUfrag.Keys
    ensures Sound(g)
  {
    assert forall r, p :: Live(g, r, p) ==> Live(h, r, p);
    assert IdsOk(g);
    CloseUfrags(h, g, rid);
  }

  lemma CloseUfrags(h: Hub, g: Hub, rid: RoomId)
    requires UfragsOk(h) && rid in h.rooms
    requires g.rooms == h.rooms - {rid} && g.ufragIndex == h.ufragIndex - h.rooms[rid].byUfrag.Keys
    ensures UfragsOk(g)
  {
    forall f | f in g.ufragIndex
      ensures g.ufragIndex[f] in g.rooms && f in g.rooms[g.ufragIndex[f]].byUfrag
    {
      assert f in h.ufragIndex && f !in h.rooms[rid].byUfrag;
    }
    forall r, f | r in g.rooms && f in g.rooms[r].byUfrag
      ensures f in g.ufragIndex && g.ufragIndex[f] == r
    {
      assert f in h.rooms[r].byUfrag && h.ufragIndex[f] == r;
    }
  }

  lemma CloseSound(h: Hub, rid: RoomId)
    requires Sound(h)
    ensures Sound(RemoveRoom(h, rid))
  {
    if rid in h.rooms {
      var r := h.rooms[rid];
      forall f
        ensures f in UfragsOf(r, r.participants.Keys) <==> f in r.byUfrag
      {
        ClosedUfrags(r, h.addresses, f);
      }
      assert UfragsOf(r, r.participants.Keys) == r.byUfrag.Keys;
      CloseTables(h, RemoveRoom(h, rid), rid);
    }
  }

  /** A room's ufrag table lists its members' ufrags. */
  lemma ClosedUfrags(r: Room, addresses: Addresses, f: Ufrag)
    requires RoomOk(r, addresses)
    ensures f in UfragsOf(r, r.participants.Keys) <==> f in r.byUfrag
  {
    if f in r.byUfrag {
      var (p, t) := r.byUfrag[f];
      assert Member(r, p) && UfragOf((p, t)) == f;
      assert p.userId in r.participants.Keys;
    }
    if f in UfragsOf(r, r.participants.Keys) {
      var u :| u in r.participants && (f == r.participants[u].pubUfrag || f == r.participants[u].subUfrag);
      var p := r.participants[u];
      assert Member(r, p);
      assert UfragOf((p, Publish)) in r.byUfrag && UfragOf((p, Subscribe)) in r.byUfrag;
    }
  }

  lemma CreateSound(h: Hub, rid: RoomId, capacity: nat)
    requires Sound(h) && rid !in h.rooms
    ensures Sound(CreateRoom(h, rid, capacity))
  {
    var g := CreateRoom(h, rid, capacity);
    assert forall r, q :: Live(g, r, q) ==> Live(h, r, q);
    assert IdsOk(g);
    assert RoomOk(g.rooms[rid], g.addresses);
    assert RoomsOk(g) by {
      assert forall r :: r in h.rooms ==> g.rooms[r] == h.rooms[r];
    }
    CreateUfrags(h, rid, capacity);
  }

  lemma CreateUfrags(h: Hub, rid: RoomId, capacity: nat)
    requires UfragsOk(h) && rid !in h.rooms
    ensures UfragsOk(CreateRoom(h, rid, capacity))
  {
    var g := CreateRoom(h, rid, capacity);
    assert forall r :: r in h.rooms ==> g.rooms[r] == h.rooms[r];
  }

  lemma StepSound(h: Hub, e: Event)
    requires Sound(h) && FreshNames(h, e)
    ensures Sound(Step(h, e))
  {
    match e
    case Create(rid, capacity) => CreateSound(h, rid, capacity);
    case Join(rid, p) => JoinSound(h, rid, p);
    case Leave(rid, u) => LeaveSound(h, rid, u);
    case LatchTo(f, a) => LatchSound(h, f, a);
    case Close(rid) => CloseSound(h, rid);
  }

  lemma {:induction false} RunSound(es: seq<Event>)
    requires FreshRun(es)
    ensures Sound(Run(es))
  {
    if es != [] {
      RunSound(es[..|es| - 1]);
      StepSound(Run(es[..|es| - 1]), es[|es| - 1]);
    }
  }

  // ---------------------------------------------------------------- who is in

  /** The room exists, has a place left and does not know the user yet. */
  predicate Admits(h: Hub, rid: RoomId, user: UserId) {
    rid in h.rooms && |h.rooms[rid].participants| < h.rooms[rid].capacity && user !in h.rooms[rid].participants
  }

  /** Who is in which room after an event, from who was before. */
  ghost predicate IsIn(h: Hub, e: Event, rid: RoomId, p: Participant) {
    match e
    case Create(_, _) => Live(h, rid, p)
    case Join(r, q) => Live(h, rid, p) || (rid == r && p == q && Admits(h, r, q.userId))
    case Leave(r, u) => Live(h, rid, p) && !(rid == r && p.userId == u)
    case LatchTo(_, _) => Live(h, rid, p)
    case Close(r) => Live(h, rid, p) && rid != r
  }

  lemma LatchKeepsMembers(h: Hub, f: Ufrag, a: Addr, rid: RoomId, p: Participant)
    ensures Live(Latch(h, f, a), rid, p) <==> Live(h, rid, p)
  {
    if FindByUfrag(h, f).Some? {
      LiveAfter(h, Latch(h, f, a), FindByUfrag(h, f).value.1, rid, p);
    }
  }

  lemma LeaveTakesOut(h: Hub, r: RoomId, u: UserId, rid: RoomId, p: Participant)
    requires RoomsOk(h)
    ensures Live(Remove(h, r, u), rid, p) <==> Live(h, rid, p) && !(rid == r && p.userId == u)
  {
    if r in h.rooms && u in h.rooms[r].participants {
      assert h.rooms[r].participants[u].userId == u;
      LiveAfter(h, Remove(h, r, u), r, rid, p);
    }
  }

  /** After any fresh run, an event changes exactly the memberships it should: a join adds its participant if and only
      if the room exists, is not full and does not know the user; a leave takes out that user of that room; a closed
      room has nobody and does not exist; nobody else is affected. */
  lemma MembersAfterStep(es: seq<Event>, e: Event, rid: RoomId, p: Participant)
    requires FreshRun(es) && FreshNames(Run(es), e)
    ensures Live(Step(Run(es), e), rid, p) <==> IsIn(Run(es), e, rid, p)
    ensures rid in Step(Run(es), e).rooms <==>
            (rid in Run(es).rooms || (e.Create? && e.rid == rid)) && !(e.Close? && e.rid == rid)
  {
    RunSound(es);
    match e
    case Create(_, _) =>
    case Join(r, q) =>
      if AddError(Run(es), r, q).None? {
        LiveAfter(Run(es), Add(Run(es), r, q), r, rid, p);
      }
    case Leave(r, u) => LeaveTakesOut(Run(es), r, u, rid, p);
    case LatchTo(f, a) => LatchKeepsMembers(Run(es), f, a, rid, p);
    case Close(_) =>
  }

  /** After any fresh run, latching the ufrag of a live session makes that session the one found under the address, and
      the address the one it holds; every other session holds what it held. A ufrag nobody has changes nothing. */
  lemma LatchedFound(es: seq<Event>, f: Ufrag, a: Addr, rid: RoomId, s: Session, o: Session)
    requires FreshRun(es)
    ensures var h, g := Run(es), Latch(Run(es), f, a);
            && (Live(h, rid, s.0) && UfragOf(s) == f ==>
                  && FindByAddr(g, a) == Some((s, rid)) && AddressOf(g.addresses, s) == Some(a)
                  && ((o.0.id, o.1) != (s.0.id, s.1) ==> AddressOf(g.addresses, o) == AddressOf(h.addresses, o)))
            && ((forall r, q: Session :: Live(h, r, q.0) ==> UfragOf(q) != f) ==> g == h)
  {
    var h := Run(es);
    RunSound(es);
    if FindByUfrag(h, f).Some? {
      var (q, r) := FindByUfrag(h, f).value;
      assert Live(h, r, q.0) && UfragOf(q) == f;
    }
  }

  /** A session of the participant holds the address. */
  ghost predicate Holds(h: Hub, p: Participant, a: Addr) {
    exists t: PcType :: AddressOf(h.addresses, (p, t)) == Some(a)
  }

  /** Some live session has the ufrag. */
  ghost predicate UfragLive(h: Hub, f: Ufrag) {
    exists rid, s: Session :: Live(h, rid, s.0) && UfragOf(s) == f
  }

  /** Somebody in the room, or that user of it, holds the address. */
  ghost predicate HeldIn(h: Hub, rid: RoomId, a: Addr) {
    exists p :: Live(h, rid, p) && Holds(h, p, a)
  }

  ghost predicate HeldBy(h: Hub, rid: RoomId, user: UserId, a: Addr) {
    exists p :: Live(h, rid, p) && p.userId == user && Holds(h, p, a)
  }

  /** The address was latched by a live session, and nobody holding it has gone since. */
  ghost predicate LatchedSince(es: seq<Event>, a: Addr) {
    es != [] &&
    var init, e := es[..|es| - 1], es[|es| - 1];
    match e
    case LatchTo(f, b) => (b == a && UfragLive(Run(init), f)) || LatchedSince(init, a)
    case Leave(rid, u) => LatchedSince(init, a) && !HeldBy(Run(init), rid, u, a)
    case Close(rid) => LatchedSince(init, a) && !HeldIn(Run(init), rid, a)
    case _ => LatchedSince(init, a)
  }

  lemma HoldsIff(h: Hub, p: Participant, a: Addr)
    ensures Holds(h, p, a) <==> a in AddressSet(h.addresses, p)
  {
    if a in AddressSet(h.addresses, p) {
      assert AddressOf(h.addresses, (p, Publish)) == Some(a) || AddressOf(h.addresses, (p, Subscribe)) == Some(a);
    } else {
      assert AddressOf(h.addresses, (p, Publish)) != Some(a) && AddressOf(h.addresses, (p, Subscribe)) != Some(a);
      forall t: PcType
        ensures AddressOf(h.addresses, (p, t)) != Some(a)
      {
        match t
        case Publish =>
        case Subscribe =>
      }
    }
  }

  lemma LeaveDropsKey(h: Hub, rid: RoomId, u: UserId, a: Addr)
    requires RoomsOk(h)
    ensures a in Remove(h, rid, u).addrIndex <==> a in h.addrIndex && !HeldBy(h, rid, u, a)
  {
    if rid in h.rooms && u in h.rooms[rid].participants {
      var p := h.rooms[rid].participants[u];
      assert p.userId == u && Live(h, rid, p);
      HoldsIff(h, p, a);
    }
  }

  lemma CloseDropsKey(h: Hub, rid: RoomId, a: Addr)
    requires RoomsOk(h)
    ensures a in RemoveRoom(h, rid).addrIndex <==> a in h.addrIndex && !HeldIn(h, rid, a)
  {
    if rid in h.rooms {
      var r := h.rooms[rid];
      if HeldIn(h, rid, a) {
        var p :| Live(h, rid, p) && Holds(h, p, a);
        HoldsIff(h, p, a);
        assert a in AddressSet(h.addresses, r.participants[p.userId]);
      }
      forall u | u in r.participants && a in AddressSet(h.addresses, r.participants[u])
        ensures HeldIn(h, rid, a)
      {
        HoldsIff(h, r.participants[u], a);
        assert Live(h, rid, r.participants[u]);
      }
    }
  }

  lemma LatchAddsKey(h: Hub, f: Ufrag, b: Addr, a: Addr)
    requires Sound(h)
    ensures a in Latch(h, f, b).addrIndex <==> (b == a && UfragLive(h, f)) || a in h.addrIndex
  {
    if FindByUfrag(h, f).Some? {
      var (s, rid) := FindByUfrag(h, f).value;
      assert Live(h, rid, s.0) && UfragOf(s) == f;
    }
    forall rid, s: Session | Live(h, rid, s.0) && UfragOf(s) == f
      ensures FindByUfrag(h, f).Some?
    {
      assert UfragOf((s.0, s.1)) in h.rooms[rid].byUfrag;
    }
  }

  /** After any fresh run, the hub's address table has exactly the addresses that were latched and whose holders have
      not gone since; so a departure or a closed room leaves no key of its current addresses behind. */
  lemma {:induction false} HubKeysIff(es: seq<Event>, a: Addr)
    requires FreshRun(es)
    ensures a in Run(es).addrIndex <==> LatchedSince(es, a)
  {
    if es != [] {
      var init, e := es[..|es| - 1], es[|es| - 1];
      HubKeysIff(init, a);
      RunSound(init);
      match e
      case LatchTo(f, b) => LatchAddsKey(Run(init), f, b, a);
      case Leave(rid, u) => LeaveDropsKey(Run(init), rid, u, a);
      case Close(rid) => CloseDropsKey(Run(init), rid, a);
      case _ =>
    }
  }

  ghost predicate WithinCapacity(r: Room) {
    |r.participants| <= r.capacity
  }

  lemma RemovedFits<K, V>(m: map<K, V>, k: K)
    ensures |m - {k}| <= |m|
  {
    assert (m - {k}).Keys == m.Keys - {k};
    assert |(m - {k}).Keys| <= |m.Keys|;
  }

  lemma AddedFits<K, V>(m: map<K, V>, k: K, v: V)
    ensures |m[k := v]| <= |m| + 1
  {
    assert m[k := v].Keys == m.Keys + {k};
    assert |m.Keys + {k}| <= |m.Keys| + 1;
  }

  lemma StepFits(h: Hub, e: Event)
    requires forall rid :: rid in h.rooms ==> WithinCapacity(h.rooms[rid])
    ensures forall rid :: rid in Step(h, e).rooms ==> WithinCapacity(Step(h, e).rooms[rid])
  {
    match e
    case Join(r, q) =>
      if r in h.rooms {
        AddedFits(h.rooms[r].participants, q.userId, q);
      }
    case Leave(r, u) =>
      if r in h.rooms && u in h.rooms[r].participants {
        RemovedFits(h.rooms[r].participants, h.rooms[r].participants[u].userId);
      }
    case _ =>
  }

  /** On every run no room ever has more members than its capacity. */
  lemma {:induction false} RunFits(es: seq<Event>)
    ensures forall rid :: rid in Run(es).rooms ==> WithinCapacity(Run(es).rooms[rid])
  {
    if es != [] {
      RunFits(es[..|es| - 1]);
      StepFits(Run(es[..|es| - 1]), es[|es| - 1]);
    }
  }

  // ---------------------------------------------------------------- completeness

  /** No two live sessions hold the same address. */
  ghost predicate Unshared(h: Hub) {
    forall rid, p, t, rid', p', t' ::
      Live(h, rid, p) && Live(h, rid', p') && AddressOf(h.addresses, (p, t)).Some?
      && AddressOf(h.addresses, (p, t)) == AddressOf(h.addresses, (p', t')) ==>
        rid == rid' && p == p' && t == t'
  }

  /** Both address tables know the session under its address. */
  ghost predicate Listed(h: Hub, rid: RoomId, s: Session) {
    var a := AddressOf(h.addresses, s);
    a.Some? ==>
      && rid in h.rooms && a.value in h.rooms[rid].byAddr && h.rooms[rid].byAddr[a.value] == s
      && a.value in h.addrIndex && h.addrIndex[a.value] == rid
  }

  ghost predicate Complete(h: Hub) {
    forall rid, p, t :: Live(h, rid, p) ==> Listed(h, rid, (p, t))
  }

  /** Tables with one entry per address cannot list two holders of it. */
  lemma CompleteUnshared(h: Hub)
    requires Complete(h)
    ensures Unshared(h)
  {
    forall rid, p, t, rid', p', t' |
      Live(h, rid, p) && Live(h, rid', p') && AddressOf(h.addresses, (p, t)).Some?
      && AddressOf(h.addresses, (p, t)) == AddressOf(h.addresses, (p', t'))
      ensures rid == rid' && p == p' && t == t'
    {
      assert Listed(h, rid, (p, t));
      assert Listed(h, rid', (p', t'));
    }
  }

  lemma JoinComplete(h: Hub, rid: RoomId, p: Participant)
    requires Sound(h) && Complete(h) && FreshNames(h, Join(rid, p))
    ensures Complete(Add(h, rid, p))
  {
    var g := Add(h, rid, p);
    if AddError(h, rid, p).None? {
      forall r, q, t | Live(g, r, q)
        ensures Listed(g, r, (q, t))
      {
        LiveAfter(h, g, rid, r, q);
        if q == p && r == rid {
          assert t == Publish || t == Subscribe;
        } else {
          assert Live(h, r, q);
          assert Listed(h, r, (q, t));
        }
      }
    }
  }

  lemma NotTheirAddress(h: Hub, rid: RoomId, p: Participant, r: RoomId, q: Participant, t: PcType)
    requires Unshared(h) && Live(h, rid, p) && Live(h, r, q) && (r != rid || q != p)
    requires AddressOf(h.addresses, (q, t)).Some?
    ensures AddressOf(h.addresses, (q, t)).value !in AddressSet(h.addresses, p)
  {
    var a := AddressOf(h.addresses, (q, t));
    assert a != AddressOf(h.addresses, (p, Publish)) && a != AddressOf(h.addresses, (p, Subscribe));
  }

  lemma LeaveComplete(h: Hub, rid: RoomId, user: UserId)
    requires Sound(h) && Complete(h)
    ensures Complete(Remove(h, rid, user))
  {
    CompleteUnshared(h);
    var g := Remove(h, rid, user);
    if rid in h.rooms && user in h.rooms[rid].participants {
      var p := h.rooms[rid].participants[user];
      assert Live(h, rid, p);
      forall r, q, t | Live(g, r, q)
        ensures Listed(g, r, (q, t))
      {
        LiveAfter(h, g, rid, r, q);
        assert Live(h, r, q) && (r != rid || q != p);
        assert Listed(h, r, (q, t));
        if AddressOf(h.addresses, (q, t)).Some? {
          NotTheirAddress(h, rid, p, r, q, t);
        }
      }
    }
  }

  /** The latch would land on an address that another live session holds. */
  ghost predicate Takeover(h: Hub, ufrag: Ufrag, a: Addr) {
    var found := FindByUfrag(h, ufrag);
    found.Some? && exists r, o :: ScanAddr(h, a, r, o) && (o != found.value.0 || r != found.value.1)
  }

  lemma LatchComplete(h: Hub, ufrag: Ufrag, a: Addr)
    requires Sound(h) && Complete(h) && !Takeover(h, ufrag, a)
    ensures Complete(Latch(h, ufrag, a))
  {
    CompleteUnshared(h);
    var g := Latch(h, ufrag, a);
    if FindByUfrag(h, ufrag).Some? {
      var (s, rid) := FindByUfrag(h, ufrag).value;
      FoundByUfrag(h, ufrag);
      LiveAfter(h, g, rid, rid, s.0);
      assert Listed(g, rid, s);
      forall r, q, t | Live(g, r, q)
        ensures Listed(g, r, (q, t))
      {
        LiveAfter(h, g, rid, r, q);
        if (q, t) != s || r != rid {
          assert !ScanAddr(h, a, r, (q, t));
          LatchOthers(h, g, s, rid, a, r, (q, t));
        }
      }
    }
  }

  lemma LatchOthers(h: Hub, g: Hub, s: Session, rid: RoomId, a: Addr, r: RoomId, o: Session)
    requires IdsOk(h) && Complete(h) && Unshared(h) && Live(h, rid, s.0) && Live(h, r, o.0) && (o != s || r != rid)
    requires AddressOf(h.addresses, o) != Some(a)
    requires g == Hub(h.rooms[rid := Latched(h.rooms[rid], h.addresses, s, a)], h.ufragIndex, h.addrIndex[a := rid],
                      h.addresses[(s.0.id, s.1) := a])
    ensures Listed(g, r, o)
  {
    assert Listed(h, r, (o.0, o.1));
    assert (o.0.id, o.1) != (s.0.id, s.1);
    var b := AddressOf(h.addresses, o);
    assert AddressOf(g.addresses, o) == b;
    if b.Some? {
      assert b != AddressOf(h.addresses, (s.0, s.1));
    }
  }

  /** After a takeover two live sessions hold the address. */
  lemma TakeoverShares(h: Hub, ufrag: Ufrag, a: Addr)
    requires Sound(h) && Takeover(h, ufrag, a)
    ensures !Unshared(Latch(h, ufrag, a))
  {
    var (s, rid) := FindByUfrag(h, ufrag).value;
    var g := Latch(h, ufrag, a);
    var r, o :| ScanAddr(h, a, r, o) && (o != s || r != rid);
    FoundByUfrag(h, ufrag);
    LiveAfter(h, g, rid, rid, s.0);
    LiveAfter(h, g, rid, r, o.0);
    assert AddressOf(g.addresses, (s.0, s.1)) == Some(a) && AddressOf(g.addresses, (o.0, o.1)) == Some(a);
  }

  /** A check a caller can make before a latch: it keeps the tables complete exactly when no other live session holds
      the address. */
  lemma LatchCompleteIff(h: Hub, ufrag: Ufrag, a: Addr)
    requires Sound(h) && Complete(h)
    ensures Complete(Latch(h, ufrag, a)) <==> !Takeover(h, ufrag, a)
  {
    if Takeover(h, ufrag, a) {
      TakeoverShares(h, ufrag, a);
      if Complete(Latch(h, ufrag, a)) {
        CompleteUnshared(Latch(h, ufrag, a));
      }
    } else {
      LatchComplete(h, ufrag, a);
    }
  }

  lemma CloseComplete(h: Hub, rid: RoomId)
    requires Sound(h) && Complete(h)
    ensures Complete(RemoveRoom(h, rid))
  {
    CompleteUnshared(h);
    var g := RemoveRoom(h, rid);
    if rid in h.rooms {
      var room := h.rooms[rid];
      forall r, q, t | Live(g, r, q)
        ensures Listed(g, r, (q, t))
      {
        assert Live(h, r, q) && r != rid;
        assert Listed(h, r, (q, t));
        var b := AddressOf(h.addresses, (q, t));
        if b.Some? {
          forall u | u in room.participants
            ensures b.value !in AddressSet(h.addresses, room.participants[u])
          {
            assert Live(h, rid, room.participants[u]);
            NotTheirAddress(h, rid, room.participants[u], r, q, t);
          }
        }
      }
    }
  }

  lemma CreateComplete(h: Hub, rid: RoomId, capacity: nat)
    requires Complete(h) && rid !in h.rooms
    ensures Complete(CreateRoom(h, rid, capacity))
  {
    var g := CreateRoom(h, rid, capacity);
    forall r, q, t | Live(g, r, q)
      ensures Listed(g, r, (q, t))
    {
      assert Live(h, r, q);
      assert Listed(h, r, (q, t));
    }
  }

  lemma StepCompleteIff(h: Hub, e: Event)
    requires Sound(h) && Complete(h) && FreshNames(h, e)
    ensures Complete(Step(h, e)) <==> (e.LatchTo? ==> !Takeover(h, e.ufrag, e.addr))
  {
    match e
    case Create(rid, capacity) => CreateComplete(h, rid, capacity);
    case Join(rid, p) => JoinComplete(h, rid, p);
    case Leave(rid, u) => LeaveComplete(h, rid, u);
    case LatchTo(f, a) => LatchCompleteIff(h, f, a);
    case Close(rid) => CloseComplete(h, rid);
  }

  /** At no point of the run do two live sessions share an address. */
  ghost predicate UnsharedRun(es: seq<Event>) {
    Unshared(Run(es)) && (es != [] ==> UnsharedRun(es[..|es| - 1]))
  }

  /** No latch of the run lands on an address that another live session holds. */
  ghost predicate NoTakeover(es: seq<Event>) {
    es != [] ==>
      var h, e := Run(es[..|es| - 1]), es[|es| - 1];
      NoTakeover(es[..|es| - 1]) && (e.LatchTo? ==> !Takeover(h, e.ufrag, e.addr))
  }

  ghost predicate CompleteRun(es: seq<Event>) {
    Complete(Run(es)) && (es != [] ==> CompleteRun(es[..|es| - 1]))
  }

  lemma {:induction false} CompleteRunUnshared(es: seq<Event>)
    requires CompleteRun(es)
    ensures UnsharedRun(es)
  {
    CompleteUnshared(Run(es));
    if es != [] {
      CompleteRunUnshared(es[..|es| - 1]);
    }
  }

  /** The tables are complete all through a run exactly when live sessions never share an address, and exactly when no
      latch takes over a held address. */
  lemma {:induction false} RunCompleteIff(es: seq<Event>)
    requires FreshRun(es)
    ensures CompleteRun(es) <==> UnsharedRun(es)
    ensures CompleteRun(es) <==> NoTakeover(es)
  {
    if es == [] {
      assert Run(es) == EMPTY;
    } else {
      var init, e := es[..|es| - 1], es[|es| - 1];
      RunCompleteIff(init);
      RunSound(init);
      if CompleteRun(init) {
        StepCompleteIff(Run(init), e);
      }
      if UnsharedRun(es) && e.LatchTo? && Takeover(Run(init), e.ufrag, e.addr) {
        TakeoverShares(Run(init), e.ufrag, e.addr);
      }
    }
    if CompleteRun(es) {
      CompleteRunUnshared(es);
    }
  }

  // ---------------------------------------------------------------- lookups against a scan

  /** What a scan over all rooms and participants finds for a ufrag. */
  ghost predicate ScanUfrag(h: Hub, f: Ufrag, rid: RoomId, s: Session) {
    Live(h, rid, s.0) && UfragOf(s) == f
  }

  ghost predicate ScanAddr(h: Hub, a: Addr, rid: RoomId, s: Session) {
    Live(h, rid, s.0) && AddressOf(h.addresses, s) == Some(a)
  }

  /** After any run with fresh names, the ufrag lookup is the scan. */
  lemma UfragLookupIsScan(es: seq<Event>, f: Ufrag, rid: RoomId, s: Session)
    requires FreshRun(es)
    ensures FindByUfrag(Run(es), f) == Some((s, rid)) <==> ScanUfrag(Run(es), f, rid, s)
  {
    RunSound(es);
    var h := Run(es);
    if ScanUfrag(h, f, rid, s) {
      assert UfragOf((s.0, s.1)) in h.rooms[rid].byUfrag;
    }
  }

  /** After any run with fresh names, an address lookup only finds a live session that holds the address. Stale keys
      in the hub's table are harmless. */
  lemma AddrLookupSound(es: seq<Event>, a: Addr, rid: RoomId, s: Session)
    requires FreshRun(es)
    ensures FindByAddr(Run(es), a) == Some((s, rid)) ==> ScanAddr(Run(es), a, rid, s)
  {
    RunSound(es);
  }

  /** Every address lookup gives what a scan finds. */
  ghost predicate AddrIsScan(h: Hub) {
    forall a, rid, s :: ScanAddr(h, a, rid, s) <==> FindByAddr(h, a) == Some((s, rid))
  }

  lemma AddrIsScanIffComplete(h: Hub)
    requires Sound(h)
    ensures AddrIsScan(h) <==> Complete(h)
  {
    if Complete(h) {
      forall a, rid, s
        ensures ScanAddr(h, a, rid, s) <==> FindByAddr(h, a) == Some((s, rid))
      {
        if ScanAddr(h, a, rid, s) {
          assert Listed(h, rid, (s.0, s.1));
        }
      }
    }
    if AddrIsScan(h) {
      forall rid, p, t | Live(h, rid, p)
        ensures Listed(h, rid, (p, t))
      {
        var a := AddressOf(h.addresses, (p, t));
        if a.Some? {
          assert ScanAddr(h, a.value, rid, (p, t));
        }
      }
    }
  }

  ghost predicate AddrIsScanRun(es: seq<Event>) {
    AddrIsScan(Run(es)) && (es != [] ==> AddrIsScanRun(es[..|es| - 1]))
  }

  lemma {:induction false} ScanRunIsComplete(es: seq<Event>)
    requires FreshRun(es)
    ensures AddrIsScanRun(es) <==> CompleteRun(es)
  {
    RunSound(es);
    AddrIsScanIffComplete(Run(es));
    if es != [] {
      ScanRunIsComplete(es[..|es| - 1]);
    }
  }

  /** All through a run with fresh names, `find_by_addr` is the scan over all participants exactly when live sessions
      never share an address, that is, exactly when no latch lands on an address another live session holds. */
  lemma AddrLookupIsScan(es: seq<Event>)
    requires FreshRun(es)
    ensures AddrIsScanRun(es) <==> UnsharedRun(es)
    ensures AddrIsScanRun(es) <==> NoTakeover(es)
  {
    ScanRunIsComplete(es);
    RunCompleteIff(es);
  }

  /** Sharing, even for a moment, can lose a session for good: `q` latches onto the address `p` holds and
      leaves; `p` still holds the address, but no lookup finds it any more. */
  lemma SharedAddressLost(h: Hub, a: Addr, rid: RoomId, p: Session, ufrag: Ufrag)
    requires Sound(h) && ScanAddr(h, a, rid, p)
    requires FindByUfrag(h, ufrag).Some? && FindByUfrag(h, ufrag).value.0.0.id != p.0.id
    ensures var (q, rid') := FindByUfrag(h, ufrag).value;
            var g := Remove(Latch(h, ufrag, a), rid', q.0.userId);
            ScanAddr(g, a, rid, p) && FindByAddr(g, a) == None
  {
    var (q, rid') := FindByUfrag(h, ufrag).value;
    FoundByUfrag(h, ufrag);
    var m := Latch(h, ufrag, a);
    LiveAfter(h, m, rid', rid, p.0);
    LiveAfter(h, m, rid', rid', q.0);
    var g := Remove(m, rid', q.0.userId);
    assert AddressOf(m.addresses, q) == Some(a);
    assert a in AddressSet(m.addresses, q.0);
    LiveAfter(m, g, rid', rid, p.0);
    assert rid == rid' ==> p.0.userId != q.0.userId;
  }

  lemma RunAppend(es: seq<Event>, e: Event)
    ensures Run(es + [e]) == Step(Run(es), e)
    ensures FreshRun(es + [e]) <==> FreshRun(es) && FreshNames(Run(es), e)
  {
    assert (es + [e])[..|es|] == es;
  }

  const ANN := Participant(1, "Ann", "a1", "a2")
  const BOB := Participant(2, "Bob", "b1", "b2")

  function TwoInRoom(): seq<Event> {
    [Create("R", 2)] + [Join("R", ANN)] + [Join("R", BOB)]
  }

  lemma TwoInRoomState()
    ensures FreshRun(TwoInRoom())
    ensures var h := Run(TwoInRoom());
            && Live(h, "R", ANN) && Live(h, "R", BOB) && h.addresses == map[]
            && FindByUfrag(h, "a1") == Some(((ANN, Publish), "R"))
            && FindByUfrag(h, "b1") == Some(((BOB, Publish), "R"))
  {
    var h1 := Run([Create("R", 2)]);
    RunAppend([], Create("R", 2));
    assert [] + [Create("R", 2)] == [Create("R", 2)];
    assert h1 == CreateRoom(EMPTY, "R", 2);
    RunAppend([Create("R", 2)], Join("R", ANN));
    RunAppend([Create("R", 2)] + [Join("R", ANN)], Join("R", BOB));
  }

  /** A run that loses a session: Ann latches onto address 7, Bob latches onto it as well and leaves. */
  lemma SharedRunLosesSession()
    ensures var es := TwoInRoom() + [LatchTo("a1", 7)] + [LatchTo("b1", 7)] + [Leave("R", "Bob")];
            && FreshRun(es) && ScanAddr(Run(es), 7, "R", (ANN, Publish)) && FindByAddr(Run(es), 7) == None
  {
    var es := TwoInRoom() + [LatchTo("a1", 7)];
    AnnLatched();
    RunAppend(es, LatchTo("b1", 7));
    RunAppend(es + [LatchTo("b1", 7)], Leave("R", "Bob"));
    RunSound(es);
    SharedAddressLost(Run(es), 7, "R", (ANN, Publish), "b1");
  }

  lemma AnnLatched()
    ensures var es := TwoInRoom() + [LatchTo("a1", 7)];
            && FreshRun(es) && ScanAddr(Run(es), 7, "R", (ANN, Publish))
            && FindByUfrag(Run(es), "b1") == Some(((BOB, Publish), "R"))
  {
    TwoInRoomState();
    RunAppend(TwoInRoom(), LatchTo("a1", 7));
  }

  // ---------------------------------------------------------------- the hub object

  class RoomHub {
    var rooms: map<RoomId, Room>
    var ufragIndex: map<Ufrag, RoomId>
    var addrIndex: map<Addr, RoomId>
    var addresses: Addresses

    ghost function View(): Hub
      reads this
    {
      Hub(rooms, ufragIndex, addrIndex, addresses)
    }

    constructor ()
      ensures View() == EMPTY
    {
      rooms, ufragIndex, addrIndex, addresses := map[], map[], map[], map[];
    }

    method Create(rid: RoomId, capacity: nat)
      modifies this
      ensures View() == CreateRoom(old(View()), rid, capacity)
    {
      rooms := rooms[rid := Room(capacity, map[], map[], map[])];
    }

    method AddParticipant(rid: RoomId, p: Participant) returns (result: Result<()>)
      modifies this
      ensures View() == Add(old(View()), rid, p)
      ensures result == match AddError(old(View()), rid, p) { case Some(e) => Failure(e) case None => Success(()) }
    {
      if rid !in rooms {
        return Failure(RoomNotFound);
      }
      var room := rooms[rid];
      if |room.participants| >= room.capacity {
        return Failure(RoomFull);
      }
      if p.userId in room.participants {
        return Failure(AlreadyInRoom);
      }
      room := room.(byUfrag := room.byUfrag[p.pubUfrag := (p, Publish)]);
      room := room.(byUfrag := room.byUfrag[p.subUfrag := (p, Subscribe)]);
      room := room.(participants := room.participants[p.userId := p]);
      rooms := rooms[rid := room];
      ufragIndex := ufragIndex[p.pubUfrag := rid];
      ufragIndex := ufragIndex[p.subUfrag := rid];
      return Success(());
    }

    method RemoveParticipant(rid: RoomId, user: UserId) returns (result: Result<Participant>)
      modifies this
      ensures View() == Remove(old(View()), rid, user)
      ensures rid !in old(rooms) ==> result == Failure(RoomNotFound)
      ensures rid in old(rooms) && user !in old(rooms)[rid].participants ==> result == Failure(NotInRoom)
      ensures rid in old(rooms) && user in old(rooms)[rid].participants ==>
                result == Success(old(rooms)[rid].participants[user])
    {
      if rid !in rooms {
        return Failure(RoomNotFound);
      }
      var room := rooms[rid];
      if user !in room.participants {
        return Failure(NotInRoom);
      }
      var p := room.participants[user];
      var gone := {};
      if (p.id, Publish) in addresses {
        gone := gone + {addresses[(p.id, Publish)]};
      }
      if (p.id, Subscribe) in addresses {
        gone := gone + {addresses[(p.id, Subscribe)]};
      }
      assert gone == AddressSet(addresses, p);
      room := room.(participants := room.participants - {p.userId}, byUfrag := room.byUfrag - {p.pubUfrag, p.subUfrag});
      room := room.(byAddr := room.byAddr - gone);
      rooms := rooms[rid := room];
      ufragIndex := ufragIndex - {p.pubUfrag, p.subUfrag};
      addrIndex := addrIndex - gone;
      return Success(p);
    }

    method LatchByUfrag(ufrag: Ufrag, a: Addr) returns (found: Option<(Session, RoomId)>)
      modifies this
      ensures View() == Latch(old(View()), ufrag, a)
      ensures found == FindByUfrag(old(View()), ufrag)
    {
      if ufrag !in ufragIndex || ufragIndex[ufrag] !in rooms || ufrag !in rooms[ufragIndex[ufrag]].byUfrag {
        return None;
      }
      var rid := ufragIndex[ufrag];
      var room := rooms[rid];
      var s := room.byUfrag[ufrag];
      var key := (s.0.id, s.1);
      if key in addresses && addresses[key] != a {
        room := room.(byAddr := room.byAddr - {addresses[key]});
      }
      addresses := addresses[key := a];
      room := room.(byAddr := room.byAddr[a := s]);
      rooms := rooms[rid := room];
      addrIndex := addrIndex[a := rid];
      return Some((s, rid));
    }

    method DropRoom(rid: RoomId) returns (result: Result<Room>)
      modifies this
      ensures View() == RemoveRoom(old(View()), rid)
      ensures result == if rid in old(rooms) then Success(old(rooms)[rid]) else Failure(RoomNotFound)
    {
      if rid !in rooms {
        return Failure(RoomNotFound);
      }
      var room := rooms[rid];
      rooms := rooms - {rid};
      var todo := room.participants.Keys;
      while todo != {}
        invariant todo <= room.participants.Keys
        invariant rooms == old(rooms) - {rid} && addresses == old(addresses)
        invariant ufragIndex == old(ufragIndex) - UfragsOf(room, room.participants.Keys - todo)
        invariant addrIndex == old(addrIndex) - AddressesOf(room, addresses, room.participants.Keys - todo)
        decreases todo
      {
        var u :| u in todo;
        ghost var done := room.participants.Keys - todo;
        ForgetParticipant(room.participants[u]);
        OneMoreGone(room, addresses, done, u);
        MinusTwice(old(ufragIndex), UfragsOf(room, done),
                   {room.participants[u].pubUfrag, room.participants[u].subUfrag});
        MinusTwice(old(addrIndex), AddressesOf(room, addresses, done), AddressSet(addresses, room.participants[u]));
        todo := todo - {u};
        assert room.participants.Keys - todo == done + {u};
      }
      assert room.participants.Keys - todo == room.participants.Keys;
      return Success(room);
    }

    /** Takes a participant's ufrags and addresses out of the hub's tables. */
    method ForgetParticipant(p: Participant)
      modifies this`ufragIndex, this`addrIndex
      ensures ufragIndex == old(ufragIndex) - {p.pubUfrag, p.subUfrag}
      ensures addrIndex == old(addrIndex) - AddressSet(addresses, p)
    {
      ufragIndex := ufragIndex - {p.pubUfrag};
      ufragIndex := ufragIndex - {p.subUfrag};
      if (p.id, Publish) in addresses {
        addrIndex := addrIndex - {addresses[(p.id, Publish)]};
      }
      if (p.id, Subscribe) in addresses {
        addrIndex := addrIndex - {addresses[(p.id, Subscribe)]};
      }
    }

    /** Removes every participant not seen for longer than the timeout. */
    method ReapZombies(lastSeen: map<nat, nat>, now: nat, timeout: nat) returns (reaped: seq<(RoomId, Participant)>)
      requires RoomsOk(View())
      modifies this
      ensures View() == RemoveAll(old(View()), reaped)
      ensures forall i :: 0 <= i < |reaped| ==>
                Zombie(lastSeen, now, timeout, reaped[i].1) && reaped[i].0 in old(rooms)
      ensures rooms.Keys == old(rooms).Keys
      ensures forall rid, u :: rid in rooms && u in rooms[rid].participants ==>
                !Zombie(lastSeen, now, timeout, rooms[rid].participants[u])
    {
      reaped := [];
      var roomIds := rooms.Keys;
      while roomIds != {}
        invariant roomIds <= rooms.Keys == old(rooms).Keys
        invariant View() == RemoveAll(old(View()), reaped)
        invariant forall i :: 0 <= i < |reaped| ==>
                    Zombie(lastSeen, now, timeout, reaped[i].1) && reaped[i].0 in old(rooms)
        invariant forall rid :: rid in rooms && rid !in roomIds ==> Clean(rooms[rid], lastSeen, now, timeout)
        invariant forall rid :: rid in roomIds ==> Keyed(rooms[rid])
        decreases roomIds
      {
        var rid :| rid in roomIds;
        var more := ReapRoom(rid, lastSeen, now, timeout);
        RemoveAllAppend(old(View()), reaped, more);
        reaped := reaped + more;
        roomIds := roomIds - {rid};
      }
    }

    method ReapRoom(rid: RoomId, lastSeen: map<nat, nat>, now: nat, timeout: nat)
      returns (reaped: seq<(RoomId, Participant)>)
      requires rid in rooms && Keyed(rooms[rid])
      modifies this
      ensures View() == RemoveAll(old(View()), reaped)
      ensures forall i :: 0 <= i < |reaped| ==> reaped[i].0 == rid && Zombie(lastSeen, now, timeout, reaped[i].1)
      ensures rid in rooms && rooms == old(rooms)[rid := rooms[rid]] && Clean(rooms[rid], lastSeen, now, timeout)
    {
      reaped := [];
      var zombies := set u | u in rooms[rid].participants && Zombie(lastSeen, now, timeout, rooms[rid].participants[u]);
      while zombies != {}
        invariant View() == RemoveAll(old(View()), reaped)
        invariant rid in rooms && rooms == old(rooms)[rid := rooms[rid]]
        invariant forall i :: 0 <= i < |reaped| ==> reaped[i].0 == rid && Zombie(lastSeen, now, timeout, reaped[i].1)
        invariant Keyed(rooms[rid])
        invariant forall u :: u in zombies ==>
                    u in rooms[rid].participants && Zombie(lastSeen, now, timeout, rooms[rid].participants[u])
        invariant forall u ::
                    u in rooms[rid].participants && Zombie(lastSeen, now, timeout, rooms[rid].participants[u]) ==>
                      u in zombies
        decreases zombies
      {
        var u :| u in zombies;
        var p := RemoveParticipant(rid, u);
        reaped := reaped + [(rid, p.value)];
        zombies := zombies - {u};
      }
    }
  }

  predicate Zombie(lastSeen: map<nat, nat>, now: nat, timeout: nat, p: Participant) {
    p.id in lastSeen && lastSeen[p.id] > 0 && SatSub(now, lastSeen[p.id]) > timeout
  }

  ghost predicate Clean(r: Room, lastSeen: map<nat, nat>, now: nat, timeout: nat) {
    forall u :: u in r.participants ==> !Zombie(lastSeen, now, timeout, r.participants[u])
  }

  function RemoveAll(h: Hub, gone: seq<(RoomId, Participant)>): Hub {
    if gone == [] then h
    else Remove(RemoveAll(h, gone[..|gone| - 1]), gone[|gone| - 1].0, gone[|gone| - 1].1.userId)
  }

  lemma {:induction false} RemoveAllAppend(h: Hub, a: seq<(RoomId, Participant)>, b: seq<(RoomId, Participant)>)
    ensures RemoveAll(h, a + b) == RemoveAll(RemoveAll(h, a), b)
  {
    if b == [] {
      assert a + b == a;
    } else {
      RemoveAllAppend(h, a, b[..|b| - 1]);
      assert (a + b)[..|a + b| - 1] == a + b[..|b| - 1];
    }
  }

  function Leaves(gone: seq<(RoomId, Participant)>): seq<Event> {
    if gone == [] then [] else Leaves(gone[..|gone| - 1]) + [Leave(gone[|gone| - 1].0, gone[|gone| - 1].1.userId)]
  }

  /** Reaping is a run of departures, so everything proved about runs covers it. */
  lemma {:induction false} ReapIsLeaves(es: seq<Event>, gone: seq<(RoomId, Participant)>)
    ensures Run(es + Leaves(gone)) == RemoveAll(Run(es), gone)
    ensures FreshRun(es) ==> FreshRun(es + Leaves(gone))
    decreases gone
  {
    if gone == [] {
      assert es + [] == es;
    } else {
      var init, x := gone[..|gone| - 1], gone[|gone| - 1];
      ReapIsLeaves(es, init);
      AppendAssociative(es, Leaves(init), [Leave(x.0, x.1.userId)]);
      RunAppend(es + Leaves(init), Leave(x.0, x.1.userId));
    }
  }

  lemma MinusTwice<K, V>(m: map<K, V>, a: set<K>, b: set<K>)
    ensures (m - a) - b == m - (a + b)
  {
  }

  lemma OneMoreGone(r: Room, addresses: Addresses, done: set<UserId>, u: UserId)
    requires u in r.participants
    ensures UfragsOf(r, done + {u}) == UfragsOf(r, done) + {r.participants[u].pubUfrag, r.participants[u].subUfrag}
    ensures AddressesOf(r, addresses, done + {u}) ==
            AddressesOf(r, addresses, done) + AddressSet(addresses, r.participants[u])
  {
  }
}

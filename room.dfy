/** Rooms and their seats (server/src/lobby/room.rs). A Classic room waits for four seats of any
    kind and starts when one of them is human; a Bridge room starts with the two built-in AI
    partners seated and waits for two humans, who are always seated ahead of the AI seats. */
module Rooms {
  import opened Types
  import opened Strings

  const MAX_PLAYERS: nat := 4
  const REQUIRED_HUMANS: nat := 2

  /** The virtual connection ids of the built-in AI seats: the two largest `u64` values. */
  const AI_VIRTUAL_CONN_ID_1: ConnectionId := U64_MAX - 1
  const AI_VIRTUAL_CONN_ID_2: ConnectionId := U64_MAX

  datatype RoomState = Waiting | Playing | Finished

  /** A seat: its connection, player id ("P1".."P4"), nickname, role, and team once known. */
  datatype Player = Player(connId: ConnectionId, playerId: PlayerId, nickname: string, role: Role, team: Option<Team>)

  /** `Room::is_virtual_conn`. */
  predicate IsVirtualConn(c: ConnectionId)
  {
    c == AI_VIRTUAL_CONN_ID_1 || c == AI_VIRTUAL_CONN_ID_2
  }

  /** The built-in partners P3 "AI_Partner1" and P4 "AI_Partner2" (server/src/ai/player.rs). */
  const Partner1: Player := Player(AI_VIRTUAL_CONN_ID_1, "P3", "AI_Partner1", Role.Ai, Some(Team.Ai))
  const Partner2: Player := Player(AI_VIRTUAL_CONN_ID_2, "P4", "AI_Partner2", Role.Ai, Some(Team.Ai))

  // ---------------------------------------------------------------- seat lists

  /** `human_count`. */
  function HumanCount(ps: seq<Player>): (n: nat)
    ensures n <= |ps|
  {
    if ps == [] then 0 else (if ps[0].role == Role.Human then 1 else 0) + HumanCount(ps[1..])
  }

  lemma {:induction false} HumanCountAppend(a: seq<Player>, b: seq<Player>)
    ensures HumanCount(a + b) == HumanCount(a) + HumanCount(b)
  {
    if a == [] {
      assert a + b == b;
    } else {
      HumanCountAppend(a[1..], b);
      assert (a + b)[0] == a[0] && (a + b)[1..] == a[1..] + b;
    }
  }

  /** Seat lists with the same roles seat by seat have the same number of humans. */
  lemma {:induction false} SameRolesSameHumans(a: seq<Player>, b: seq<Player>)
    requires |a| == |b| && forall i :: 0 <= i < |a| ==> a[i].role == b[i].role
    ensures HumanCount(a) == HumanCount(b)
  {
    if a != [] {
      SameRolesSameHumans(a[1..], b[1..]);
    }
  }

  /** Every human seat comes before every non-human seat. */
  predicate HumansFirst(ps: seq<Player>)
  {
    forall i, j :: 0 <= i < j < |ps| && ps[j].role == Role.Human ==> ps[i].role == Role.Human
  }

  /** In a seat list with the humans first, the humans are exactly the first `HumanCount` seats. */
  lemma {:induction false} HumansLead(ps: seq<Player>)
    requires HumansFirst(ps)
    ensures forall i :: 0 <= i < |ps| ==> (ps[i].role == Role.Human <==> i < HumanCount(ps))
  {
    if ps != [] {
      HumansLead(ps[1..]);
      if ps[0].role != Role.Human {
        forall i | 0 < i < |ps|
          ensures ps[i].role != Role.Human
        {
        }
      }
    }
  }

  /** The shape a Bridge room keeps: humans first, the two built-in partners in the last two seats. */
  predicate BridgeShape(ps: seq<Player>)
  {
    |ps| >= 2 && ps[|ps| - 2] == Partner1 && ps[|ps| - 1] == Partner2 && HumansFirst(ps)
  }

  /** `Vec::insert(k, p)`. */
  function Insert(ps: seq<Player>, k: nat, p: Player): (r: seq<Player>)
    requires k <= |ps|
    ensures |r| == |ps| + 1 && r[k] == p
    ensures forall i :: 0 <= i < k ==> r[i] == ps[i]
    ensures forall i :: k < i < |r| ==> r[i] == ps[i - 1]
  {
    ps[..k] + [p] + ps[k..]
  }

  /** Inserting a seat at `HumanCount` keeps the Bridge shape, whatever the new seat's role. */
  lemma InsertKeepsBridgeShape(ps: seq<Player>, p: Player)
    requires BridgeShape(ps)
    ensures HumanCount(ps) <= |ps| - 2
    ensures BridgeShape(Insert(ps, HumanCount(ps), p))
  {
    HumansLead(ps);
    var h := HumanCount(ps);
    assert ps[|ps| - 1].role != Role.Human;
    var r := Insert(ps, h, p);
    forall i, j | 0 <= i < j < |r| && r[j].role == Role.Human
      ensures r[i].role == Role.Human
    {
      if i != h {
        if j == h {
          assert i < h && r[i] == ps[i];
        } else {
          assert r[j] == ps[if j < h then j else j - 1];
        }
      }
    }
  }

  /** A human inserted at `HumanCount` lands right after the humans already seated. */
  lemma InsertHumanCount(ps: seq<Player>, p: Player)
    requires HumansFirst(ps)
    ensures HumanCount(Insert(ps, HumanCount(ps), p)) == HumanCount(ps) + (if p.role == Role.Human then 1 else 0)
  {
    var h := HumanCount(ps);
    assert Insert(ps, h, p) == ps[..h] + ([p] + ps[h..]);
    assert ps == ps[..h] + ps[h..];
    HumanCountAppend(ps[..h], [p] + ps[h..]);
    HumanCountAppend([p], ps[h..]);
    HumanCountAppend(ps[..h], ps[h..]);
  }

  /** The position of the first seat of connection `conn`, if any (`position`). */
  function FindConn(ps: seq<Player>, conn: ConnectionId): (r: Option<nat>)
    ensures r.None? <==> forall k :: 0 <= k < |ps| ==> ps[k].connId != conn
    ensures r.Some? ==> r.value < |ps| && ps[r.value].connId == conn
    ensures r.Some? ==> forall k :: 0 <= k < r.value ==> ps[k].connId != conn
  {
    if ps == [] then None
    else if ps[0].connId == conn then Some(0)
    else match FindConn(ps[1..], conn)
      case None => None
      case Some(k) => Some(k + 1)
  }

  /** What `remove_player` leaves: the seats without the first seat of `conn`, the nicknames
      without that seat's nickname, and the seat itself; with no such seat, everything as it was. */
  function Removal(ps: seq<Player>, ns: set<string>, conn: ConnectionId): (r: (seq<Player>, set<string>, Option<Player>))
    ensures r.2.None? <==> forall k :: 0 <= k < |ps| ==> ps[k].connId != conn
    ensures r.2.None? ==> r.0 == ps && r.1 == ns
    ensures r.2.Some? ==> FindConn(ps, conn).Some? &&
                          var k := FindConn(ps, conn).value;
                          r.2.value == ps[k] && r.0 == ps[..k] + ps[k + 1..] && r.1 == ns - {ps[k].nickname}
  {
    match FindConn(ps, conn)
    case None => (ps, ns, None)
    case Some(k) => (ps[..k] + ps[k + 1..], ns - {ps[k].nickname}, Some(ps[k]))
  }

  /** Removing one seat keeps the humans first. */
  lemma RemoveKeepsHumansFirst(ps: seq<Player>, k: nat)
    requires k < |ps| && HumansFirst(ps)
    ensures HumansFirst(ps[..k] + ps[k + 1..])
  {
    var r := ps[..k] + ps[k + 1..];
    forall i, j | 0 <= i < j < |r| && r[j].role == Role.Human
      ensures r[i].role == Role.Human
    {
      assert r[j] == ps[if j < k then j else j + 1];
      assert r[i] == ps[if i < k then i else i + 1];
    }
  }

  lemma RemoveHumanCount(ps: seq<Player>, k: nat)
    requires k < |ps|
    ensures HumanCount(ps[..k] + ps[k + 1..]) <= HumanCount(ps)
  {
    var a, rest := ps[..k], ps[k..];
    assert rest[1..] == ps[k + 1..];
    assert a + rest == ps;
    HumanCountAppend(a, rest);
    HumanCountAppend(a, ps[k + 1..]);
  }

  /** The classic team assignment: the first two seats (join order) are team Human, the rest team Ai. */
  function ClassicTeams(ps: seq<Player>): (r: seq<Player>)
    ensures |r| == |ps|
    ensures forall i :: 0 <= i < |r| ==> r[i] == ps[i].(team := Some(if i < 2 then Team.Human else Team.Ai))
  {
    seq(|ps|, i requires 0 <= i < |ps| => ps[i].(team := Some(if i < 2 then Team.Human else Team.Ai)))
  }

  /** The seats `retain(|p| p.role == Role::Ai)` keeps, in their order. */
  function AiSeats(ps: seq<Player>): (r: seq<Player>)
    ensures forall p :: p in r <==> p in ps && p.role == Role.Ai
  {
    if ps == [] then []
    else (if ps[0].role == Role.Ai then [ps[0]] else []) + AiSeats(ps[1..])
  }

  /** The AI seats keep their order: those of a concatenation are those of the first part
      followed by those of the second. */
  lemma {:induction false} AiSeatsAppend(a: seq<Player>, b: seq<Player>)
    ensures AiSeats(a + b) == AiSeats(a) + AiSeats(b)
  {
    if a == [] {
      assert a + b == b;
    } else {
      assert (a + b)[0] == a[0] && (a + b)[1..] == a[1..] + b;
      AiSeatsAppend(a[1..], b);
    }
  }

  /** The connection ids of the human seats, in seat order. */
  function HumanConns(ps: seq<Player>): (r: seq<ConnectionId>)
    ensures |r| == HumanCount(ps)
    ensures forall c :: c in r <==> exists p :: p in ps && p.role == Role.Human && p.connId == c
  {
    if ps == [] then []
    else
      var rest := HumanConns(ps[1..]);
      assert forall p :: p in ps <==> p == ps[0] || p in ps[1..];
      (if ps[0].role == Role.Human then [ps[0].connId] else []) + rest
  }

  /** Dropping the human seats keeps the Bridge shape and leaves no human. */
  lemma {:induction false} AiSeatsShape(ps: seq<Player>)
    requires |ps| >= 2 && ps[|ps| - 2] == Partner1 && ps[|ps| - 1] == Partner2
    ensures BridgeShape(AiSeats(ps)) && HumanCount(AiSeats(ps)) == 0
  {
    if |ps| == 2 {
      assert AiSeats(ps[1..]) == [Partner2] + AiSeats(ps[2..]);
    } else {
      AiSeatsShape(ps[1..]);
    }
    AiSeatsNoHuman(ps);
  }

  lemma {:induction false} AiSeatsNoHuman(ps: seq<Player>)
    ensures HumanCount(AiSeats(ps)) == 0
  {
    if ps != [] {
      AiSeatsNoHuman(ps[1..]);
      HumanCountAppend(if ps[0].role == Role.Ai then [ps[0]] else [], AiSeats(ps[1..]));
    }
  }

  /** The nicknames `retain(|n| n.starts_with("AI_"))` keeps. */
  function AiNicknames(ns: set<string>): (r: set<string>)
    ensures r <= ns
    ensures forall n :: n in r <==> n in ns && IsPrefix("AI_", n)
  {
    set n | n in ns && IsPrefix("AI_", n)
  }

  /** `Player::to_player_info`, seat by seat. */
  function PlayerInfos(ps: seq<Player>): (r: seq<PlayerInfo>)
    ensures |r| == |ps|
    ensures forall i :: 0 <= i < |ps| ==> r[i] == PlayerInfo(ps[i].playerId, ps[i].nickname, ps[i].role, ps[i].team)
  {
    seq(|ps|, i requires 0 <= i < |ps| => PlayerInfo(ps[i].playerId, ps[i].nickname, ps[i].role, ps[i].team))
  }

  /** `conn_ids`: every seat's connection id, in seat order. */
  function ConnIds(ps: seq<Player>): (r: seq<ConnectionId>)
    ensures |r| == |ps| && forall i :: 0 <= i < |ps| ==> r[i] == ps[i].connId
  {
    seq(|ps|, i requires 0 <= i < |ps| => ps[i].connId)
  }

  // ---------------------------------------------------------------- Room

  /** `Room`: its id, lifecycle state, seats in order, nicknames in use, deal seed and mode. */
  class Room {
    const id: RoomId
    var state: RoomState
    var players: seq<Player>
    var nicknames: set<string>
    var seed: u64
    const bridgeMode: bool

    /** A Bridge room always keeps its humans first and the built-in partners in the last two seats. */
    ghost predicate Valid()
      reads this
    {
      bridgeMode ==> BridgeShape(players)
    }

    /** A room reached through the lobby never holds more than it needs: at most two humans in
        Bridge mode, at most four seats in Classic mode. */
    predicate Bounded()
      reads this
    {
      if bridgeMode then HumanCount(players) <= REQUIRED_HUMANS else |players| <= MAX_PLAYERS
    }

    /** `Room::new` (Classic): waiting, no seats, no nicknames. The seed stands for `generate_seed()`. */
    constructor New(id: RoomId, seed: u64)
      ensures Valid() && Bounded()
      ensures this.id == id && state == Waiting && players == [] && nicknames == {}
      ensures this.seed == seed && !bridgeMode
    {
      this.id := id;
      state := Waiting;
      players := [];
      nicknames := {};
      this.seed := seed;
      bridgeMode := false;
    }

    /** `Room::new_bridge_mode`: waiting, with the two built-in partners already seated. */
    constructor NewBridgeMode(id: RoomId, seed: u64)
      ensures Valid() && Bounded()
      ensures this.id == id && state == Waiting && players == [Partner1, Partner2]
      ensures nicknames == {"AI_Partner1", "AI_Partner2"}
      ensures this.seed == seed && bridgeMode
    {
      this.id := id;
      state := Waiting;
      players := [Partner1, Partner2];
      nicknames := {"AI_Partner1", "AI_Partner2"};
      this.seed := seed;
      bridgeMode := true;
    }

    function HumanSeats(): nat
      reads this
    {
      HumanCount(players)
    }

    /** `is_full`. */
    predicate IsFull()
      reads this
    {
      if bridgeMode then HumanCount(players) >= REQUIRED_HUMANS else |players| >= MAX_PLAYERS
    }

    /** `can_start`. */
    predicate CanStart()
      reads this
    {
      if bridgeMode then HumanCount(players) >= REQUIRED_HUMANS
      else |players| == MAX_PLAYERS && exists p :: p in players && p.role == Role.Human
    }

    /** `next_slot`: the number of the next seat, counted among the humans in Bridge mode. */
    function NextSlot(): (r: u32)
      reads this
      requires Bounded()
      ensures 1 <= r <= MAX_PLAYERS + 1
    {
      if bridgeMode then HumanCount(players) + 1 else |players| + 1
    }

    /** `players_needed`: the humans (Bridge) or seats (Classic) still missing. The `usize`
        subtraction would underflow in an unbounded room, so the room must be `Bounded`. */
    function PlayersNeeded(): (r: u32)
      reads this
      requires Bounded()
      ensures r == 0 <==> IsFull()
      ensures bridgeMode ==> r + HumanCount(players) == REQUIRED_HUMANS
      ensures !bridgeMode ==> r + |players| == MAX_PLAYERS
    {
      if bridgeMode then REQUIRED_HUMANS - HumanCount(players) else MAX_PLAYERS - |players|
    }

    /** `room_wait_message`: names the room, lists every seat in seat order and says how many
        players are still missing, none exactly when the room is full. */
    function RoomWaitMessage(): (m: ServerMessage)
      reads this
      requires Bounded()
      ensures m.RoomWait? && m.room == id && |m.players| == |players|
      ensures forall i :: 0 <= i < |players| ==>
                m.players[i].id == players[i].playerId && m.players[i].nickname == players[i].nickname &&
                m.players[i].role == players[i].role && m.players[i].team == players[i].team
      ensures m.need == 0 <==> IsFull()
      ensures bridgeMode ==> m.need + HumanCount(players) == REQUIRED_HUMANS
    {
      RoomWait(id, PlayerInfos(players), PlayersNeeded())
    }

    /** `room_start_message`: names the room, lists every seat in seat order and announces the
        seed the game is dealt from. */
    function RoomStartMessage(): (m: ServerMessage)
      reads this
      ensures m.RoomStart? && m.room == id && m.seed == seed && |m.players| == |players|
      ensures forall i :: 0 <= i < |players| ==>
                m.players[i].id == players[i].playerId && m.players[i].nickname == players[i].nickname &&
                m.players[i].role == players[i].role && m.players[i].team == players[i].team
    {
      RoomStart(id, PlayerInfos(players), seed)
    }

    /** `add_player`: a Bridge room inserts the seat right after the humans already seated (a
        human also gets team Human); a Classic room appends it with no team. The nickname joins
        the set in use. */
    method AddPlayer(conn: ConnectionId, playerId: PlayerId, nickname: string, role: Role)
      requires Valid()
      modifies this
      ensures Valid()
      ensures var p := Player(conn, playerId, nickname, role,
                              if bridgeMode && role == Role.Human then Some(Team.Human) else None);
              if bridgeMode then HumanCount(old(players)) <= |old(players)| - 2 &&
                                 players == Insert(old(players), HumanCount(old(players)), p)
              else players == old(players) + [p]
      ensures nicknames == old(nicknames) + {nickname}
      ensures HumanCount(players) == HumanCount(old(players)) + (if role == Role.Human then 1 else 0)
      ensures state == old(state) && seed == old(seed)
      ensures old(!IsFull() && Bounded()) ==> Bounded()
    {
      var team := if bridgeMode && role == Role.Human then Some(Team.Human) else None;
      var p := Player(conn, playerId, nickname, role, team);
      nicknames := nicknames + {nickname};
      if bridgeMode {
        var pos := HumanCount(players);
        InsertKeepsBridgeShape(players, p);
        InsertHumanCount(players, p);
        players := Insert(players, pos, p);
      } else {
        HumanCountAppend(players, [p]);
        players := players + [p];
      }
    }

    /** `remove_player`: the first seat of connection `conn` leaves and its nickname is freed; with
        no such seat nothing changes. A real connection never holds a built-in AI seat, so the
        Bridge shape survives. */
    method RemovePlayer(conn: ConnectionId) returns (r: Option<Player>)
      requires Valid()
      modifies this
      ensures (players, nicknames, r) == Removal(old(players), old(nicknames), conn)
      ensures state == old(state) && seed == old(seed)
      ensures !IsVirtualConn(conn) ==> Valid()
      ensures old(Bounded()) ==> Bounded()
    {
      match FindConn(players, conn)
      case None =>
        r := None;
      case Some(k) =>
        RemoveHumanCount(players, k);
        if bridgeMode {
          RemoveKeepsHumansFirst(players, k);
        }
        players, nicknames, r := players[..k] + players[k + 1..], nicknames - {players[k].nickname}, Some(players[k]);
    }

    /** `assign_teams`: nothing in Bridge mode (teams were fixed on joining); in Classic mode
        the loop gives the first two seats team Human and the others team Ai. */
    method AssignTeams()
      requires Valid()
      modifies this
      ensures Valid()
      ensures players == if bridgeMode then old(players) else ClassicTeams(old(players))
      ensures state == old(state) && nicknames == old(nicknames) && seed == old(seed)
      ensures old(Bounded()) ==> Bounded()
    {
      if bridgeMode {
        return;
      }
      var i := 0;
      var ps := players;
      while i < |ps|
        invariant 0 <= i <= |ps| == |players|
        invariant forall k :: 0 <= k < |ps| ==> ps[k] == if k < i then ClassicTeams(players)[k] else players[k]
      {
        ps := ps[i := ps[i].(team := Some(if i < 2 then Team.Human else Team.Ai))];
        i := i + 1;
      }
      players := ps;
    }

    /** `reset_for_bridge_mode`: a Classic room is left alone and nothing is returned. A Bridge
        room returns its humans' connection ids in seat order, keeps only its AI seats (in order)
        and the "AI_" nicknames, and waits again with a new seed (`generate_seed()`, a parameter). */
    method ResetForBridgeMode(newSeed: u64) returns (removed: seq<ConnectionId>)
      requires Valid()
      modifies this
      ensures Valid()
      ensures !bridgeMode ==> removed == [] && players == old(players) && nicknames == old(nicknames) &&
                              state == old(state) && seed == old(seed)
      ensures bridgeMode ==> removed == HumanConns(old(players)) && players == AiSeats(old(players)) &&
                             nicknames == AiNicknames(old(nicknames)) && state == Waiting && seed == newSeed
      ensures bridgeMode ==> HumanCount(players) == 0
      ensures old(Bounded()) ==> Bounded()
    {
      if !bridgeMode {
        return [];
      }
      var ps := AiSeats(players);
      AiSeatsShape(players);
      assert BridgeShape(ps) && HumanCount(ps) == 0;
      removed := HumanConns(players);
      players, nicknames, state, seed := ps, AiNicknames(nicknames), Waiting, newSeed;
    }
  }

  // ---------------------------------------------------------------- properties of a room

  /** A Bridge room keeps its last two seats for the partners, so it has two seats more than humans. */
  lemma BridgeSeatsBeyondHumans(ps: seq<Player>)
    requires BridgeShape(ps)
    ensures HumanCount(ps) + 2 <= |ps|
  {
    HumansLead(ps);
    assert ps[|ps| - 2].role != Role.Human;
  }

  /** A room that can start seats at least four players, so the engine can deal to seats 0..3;
      a Classic room that can start is full. */
  lemma CanStartSeatsFour(r: Room)
    requires r.Valid() && r.CanStart()
    ensures |r.players| >= MAX_PLAYERS
    ensures r.IsFull()
  {
    if r.bridgeMode {
      BridgeSeatsBeyondHumans(r.players);
    }
  }

  /** A Classic room cannot start before it is full, nor without a human. */
  lemma ClassicCanStart(r: Room)
    requires !r.bridgeMode
    ensures r.CanStart() <==> r.IsFull() && |r.players| == MAX_PLAYERS && HumanCount(r.players) > 0
  {
    HumanCountPositive(r.players);
  }

  lemma {:induction false} HumanCountPositive(ps: seq<Player>)
    ensures HumanCount(ps) > 0 <==> exists p :: p in ps && p.role == Role.Human
  {
    if ps != [] {
      HumanCountPositive(ps[1..]);
      assert forall p :: p in ps <==> p == ps[0] || p in ps[1..];
    }
  }

  /** A new Bridge room has no human, needs two and is not full. */
  lemma NewBridgeRoomNeedsTwo(r: Room)
    requires r.bridgeMode && r.players == [Partner1, Partner2]
    ensures r.Valid() && r.Bounded()
    ensures HumanCount(r.players) == 0 && r.PlayersNeeded() == 2 && !r.IsFull()
  {
    assert r.players[1..] == [Partner2];
  }

  /** Two humans joining a new Bridge room take seats P1 and P2 ahead of the partners, in join order. */
  lemma BridgeJoinOrder(h1: Player, h2: Player)
    requires h1.role == Role.Human && h2.role == Role.Human
    ensures var ps1 := Insert([Partner1, Partner2], HumanCount([Partner1, Partner2]), h1);
            Insert(ps1, HumanCount(ps1), h2) == [h1, h2, Partner1, Partner2]
  {
    var ps0 := [Partner1, Partner2];
    assert ps0[1..] == [Partner2];
    assert HumanCount(ps0) == 0;
    var ps1 := Insert(ps0, 0, h1);
    assert ps1 == [h1, Partner1, Partner2];
    assert ps1[1..] == [Partner1, Partner2] && ps1[1..][1..] == [Partner2];
    assert HumanCount(ps1) == 1;
  }

  // ---------------------------------------------------------------- RoomManager

  /** `format!("R{:03}", n)`. */
  function RoomName(n: nat): RoomId
  {
    "R" + ZeroPadded(n, 3)
  }

  /** Different counters give different room ids. */
  lemma RoomNameInjective(a: nat, b: nat)
    requires RoomName(a) == RoomName(b)
    ensures a == b
  {
    assert RoomName(a)[1..] == ZeroPadded(a, 3);
    assert RoomName(b)[1..] == ZeroPadded(b, 3);
    ZeroPaddedInjective(a, b, 3);
  }

  /** `id` was handed out while the counter went from 1 to `n`. */
  ghost predicate IssuedBefore(id: RoomId, n: nat)
  {
    exists k :: 1 <= k < n && id == RoomName(k)
  }

  /** The next id has never been handed out, and the ids handed out only grow with the counter. */
  lemma NextNameFresh(n: nat)
    ensures !IssuedBefore(RoomName(n), n) && IssuedBefore(RoomName(n), n + 1) == (n >= 1)
    ensures forall id :: IssuedBefore(id, n) ==> IssuedBefore(id, n + 1)
  {
    if IssuedBefore(RoomName(n), n) {
      var k :| 1 <= k < n && RoomName(k) == RoomName(n);
      RoomNameInjective(k, n);
    }
    if IssuedBefore(RoomName(n), n + 1) {
      var k :| 1 <= k < n + 1 && RoomName(k) == RoomName(n);
      RoomNameInjective(k, n);
    }
  }

  /** The seat `add_player` gives a newcomer: team Human for a human in a Bridge room, no team
      otherwise. */
  function Newcomer(conn: ConnectionId, playerId: PlayerId, nickname: string, role: Role, bridgeMode: bool): Player
  {
    Player(conn, playerId, nickname, role, if bridgeMode && role == Role.Human then Some(Team.Human) else None)
  }

  /** The seats after `add_player` seats `p`: right after the humans in a Bridge room, at the
      end in a Classic one. */
  function WithSeat(ps: seq<Player>, bridgeMode: bool, p: Player): seq<Player>
  {
    if bridgeMode then Insert(ps, HumanCount(ps), p) else ps + [p]
  }

  /** A room's contents at one moment, as a value. */
  datatype RoomView = RoomView(state: RoomState, players: seq<Player>, nicknames: set<string>, seed: u64,
                               bridgeMode: bool)

  function ViewOf(r: Room): RoomView
    reads r
  {
    RoomView(r.state, r.players, r.nicknames, r.seed, r.bridgeMode)
  }

  /** `Joinable` on a view. */
  /** Apart from room `rid`, `after` holds the same rooms as `before` with the same contents. */
  predicate ViewsKept(before: map<RoomId, RoomView>, after: map<RoomId, RoomView>, rid: RoomId)
  {
    after - {rid} == before - {rid}
  }

  predicate OpenView(v: RoomView)
  {
    v.state == Waiting &&
    !(if v.bridgeMode then HumanCount(v.players) >= REQUIRED_HUMANS else |v.players| >= MAX_PLAYERS)
  }

  /** How the lobby chose `room`, whose seed is `roomSeed`, from the manager's rooms `rooms`,
      their contents `views` and its counter `next` beforehand, leaving it with the rooms `now`,
      the counter `nowNext` and the mode `bridge`: when some room was waiting and not full, one
      of those, whose seats were `seated` and nicknames `names`, and no room was added;
      otherwise a new room of the manager's mode filed under the next name, seeded with `seed`,
      holding only the Bridge partners (Bridge mode) or nobody. */
  ghost predicate LobbyChose(room: Room, now: map<RoomId, Room>, nowNext: nat, bridge: bool, roomSeed: u64,
                             rooms: map<RoomId, Room>, views: map<RoomId, RoomView>, next: nat, seed: u64,
                             seated: seq<Player>, names: set<string>)
  {
    if exists id :: id in views && OpenView(views[id]) then
      room.id in rooms && rooms[room.id] == room && room.id in views && OpenView(views[room.id]) &&
      seated == views[room.id].players && names == views[room.id].nicknames && now == rooms && nowNext == next
    else
      room.id == RoomName(next) && room.id !in rooms && now == rooms[room.id := room] && nowNext == next + 1 &&
      room.bridgeMode == bridge && roomSeed == seed &&
      seated == (if room.bridgeMode then [Partner1, Partner2] else []) &&
      names == (if room.bridgeMode then {"AI_Partner1", "AI_Partner2"} else {})
  }

  /** What an admin reset leaves of a room: it waits again; a Bridge room keeps only its AI
      seats and `AI_` nicknames and takes the new seed. */
  function ResetView(v: RoomView, newSeed: u64): RoomView
  {
    if v.bridgeMode then RoomView(Waiting, AiSeats(v.players), AiNicknames(v.nicknames), newSeed, true)
    else v.(state := Waiting)
  }

  /** A room the lobby may seat a newcomer in. */
  predicate Joinable(r: Room)
    reads r
  {
    r.state == Waiting && !r.IsFull()
  }

  /** Every room is filed under its own id, which was handed out before the counter reached `n`,
      and keeps its shape and bounds. */
  ghost predicate RoomsOk(rooms: map<RoomId, Room>, n: nat)
    reads rooms.Values
  {
    forall id {:trigger RoomOk(rooms[id], id, n)} :: id in rooms ==> RoomOk(rooms[id], id, n)
  }

  ghost predicate RoomOk(room: Room, id: RoomId, n: nat)
    reads room
  {
    room.id == id && IssuedBefore(id, n) && room.Valid() && room.Bounded()
  }

  /** The rooms are fine exactly when room `rid` and all the others are; a room filed under its
      own id is filed nowhere else, so changing it leaves the others alone. */
  lemma RoomsOkSplit(rooms: map<RoomId, Room>, n: nat, rid: RoomId)
    requires rid in rooms && rooms[rid].id == rid
    ensures RoomsOk(rooms - {rid}, n) ==> rooms[rid] !in (rooms - {rid}).Values
    ensures RoomsOk(rooms, n) <==> RoomsOk(rooms - {rid}, n) && RoomOk(rooms[rid], rid, n)
  {
    var others := rooms - {rid};
    if RoomsOk(others, n) {
      forall r | r in others
        ensures others[r] != rooms[rid]
      {
        assert RoomOk(others[r], r, n) && r != rid;
      }
    }
    if RoomsOk(others, n) && RoomOk(rooms[rid], rid, n) {
      forall id | id in rooms
        ensures RoomOk(rooms[id], id, n)
      {
        if id != rid {
          assert id in others && others[id] == rooms[id];
        }
      }
    }
  }

  /** `RoomManager`: rooms by id, the connection-to-room map, the id counter and the mode of
      the rooms it creates. */
  class RoomManager {
    var rooms: map<RoomId, Room>
    var connToRoom: map<ConnectionId, RoomId>
    var nextRoomId: u32
    var bridgeMode: bool

    /** Every room is filed under its own id (so no room is filed twice), was created by this
        manager, and keeps its shape and bounds. */
    ghost predicate Valid()
      reads this, rooms.Values
    {
      1 <= nextRoomId && RoomsOk(rooms, nextRoomId)
    }

    /** Every room's contents, by id. */
    ghost function Views(): map<RoomId, RoomView>
      reads this, rooms.Values
    {
      map id | id in rooms :: ViewOf(rooms[id])
    }

    /** When the manager itself is untouched and at most the room filed under `rid` changed,
        the views change at most there. */
    /** When the room list is the same and no room object changed, every room's contents are
        the same. */
    twostate lemma ViewsSame()
      requires rooms == old(rooms)
      requires forall r :: r in rooms ==> unchanged(rooms[r])
      ensures Views() == old(Views())
    {
      forall r | r in rooms
        ensures Views()[r] == old(Views())[r]
      {
      }
    }

    /** When the rooms other than `rid` are the same ones under the same ids and none of their
        objects changed, every room but `rid` keeps its contents. */
    twostate lemma ViewsBeside(rid: RoomId)
      requires forall r :: r in old(rooms) && r != rid ==> r in rooms && rooms[r] == old(rooms)[r] && unchanged(rooms[r])
      requires forall r :: r in rooms && r != rid ==> r in old(rooms)
      ensures ViewsKept(old(Views()), Views(), rid)
    {
      forall r | r in old(rooms) && r != rid
        ensures Views()[r] == old(Views())[r]
      {
      }
    }

    twostate lemma ViewsOutside(rid: RoomId)
      requires unchanged(this)
      requires forall r :: r in rooms && r != rid ==> unchanged(rooms[r])
      ensures rid in rooms ==> Views() == old(Views())[rid := ViewOf(rooms[rid])]
      ensures rid !in rooms ==> Views() == old(Views())
    {
      forall r | r in rooms && r != rid
        ensures Views()[r] == old(Views())[r]
      {
      }
    }

    /** `RoomManager::new` (Bridge mode) and `new_classic`. */
    constructor New(bridgeMode: bool)
      ensures Valid()
      ensures rooms == map[] && connToRoom == map[] && nextRoomId == 1 && this.bridgeMode == bridgeMode
    {
      rooms := map[];
      connToRoom := map[];
      nextRoomId := 1;
      this.bridgeMode := bridgeMode;
    }

    /** `get_or_create_waiting_room`: some waiting room that is not full (the scan of the hash map
        fixes no order); when there is none, a new room "R<counter, three digits>" in the
        manager's mode, and the counter moves on. The seed stands for `generate_seed()`. The
        counter is a `u32` whose increment would overflow after the last id, which only the
        creating path reaches. */
    method GetOrCreateWaitingRoom(seed: u64) returns (room: Room)
      requires Valid() && (nextRoomId < 0xFFFF_FFFF || exists id :: id in rooms && Joinable(rooms[id]))
      modifies this
      ensures Valid()
      ensures room.id in rooms && rooms[room.id] == room && Joinable(room)
      ensures connToRoom == old(connToRoom) && bridgeMode == old(bridgeMode)
      ensures ViewsKept(old(Views()), Views(), room.id)
      ensures LobbyChose(room, rooms, nextRoomId as nat, bridgeMode, room.seed, old(rooms), old(Views()),
                         old(nextRoomId) as nat, seed, room.players, room.nicknames)
      ensures (exists id :: id in old(rooms) && Joinable(old(rooms)[id])) ==>
                rooms == old(rooms) && nextRoomId == old(nextRoomId)
      ensures (forall id :: id in old(rooms) ==> !Joinable(old(rooms)[id])) ==>
                fresh(room) && room.id == RoomName(old(nextRoomId)) && room.id !in old(rooms) &&
                rooms == old(rooms)[room.id := room] && nextRoomId == old(nextRoomId) + 1 &&
                room.bridgeMode == bridgeMode && room.seed == seed &&
                room.players == (if bridgeMode then [Partner1, Partner2] else []) &&
                room.nicknames == (if bridgeMode then {"AI_Partner1", "AI_Partner2"} else {})
    {
      ghost var views := Views();
      assert forall id :: id in views ==> (OpenView(views[id]) <==> Joinable(rooms[id]));
      if id :| id in rooms && Joinable(rooms[id]) {
        room := rooms[id];
        assert RoomOk(room, id, nextRoomId);
      } else {
        room := CreateRoom(seed);
      }
      ViewsBeside(room.id);
    }

    /** The creating half of `get_or_create_waiting_room`. */
    method CreateRoom(seed: u64) returns (room: Room)
      requires Valid() && nextRoomId < 0xFFFF_FFFF
      modifies this
      ensures Valid()
      ensures fresh(room) && room.id == RoomName(old(nextRoomId)) && room.id !in old(rooms) &&
              rooms == old(rooms)[room.id := room] && nextRoomId == old(nextRoomId) + 1 && Joinable(room) &&
              room.bridgeMode == bridgeMode && room.seed == seed &&
              room.players == (if bridgeMode then [Partner1, Partner2] else [])
      ensures room.nicknames == (if bridgeMode then {"AI_Partner1", "AI_Partner2"} else {})
      ensures connToRoom == old(connToRoom) && bridgeMode == old(bridgeMode)
    {
      var name := RoomName(nextRoomId);
      NextNameFresh(nextRoomId);
      forall id | id in rooms
        ensures id != name
      {
        assert RoomOk(rooms[id], id, nextRoomId);
      }
      room := NewRoom(name, seed, bridgeMode);
      rooms, nextRoomId := rooms[name := room], nextRoomId + 1;
      forall id | id in rooms
        ensures RoomOk(rooms[id], id, nextRoomId)
      {
        if id != name {
          assert RoomOk(old(rooms)[id], id, old(nextRoomId));
        }
      }
    }

    /** `associate_conn`. */
    method AssociateConn(conn: ConnectionId, roomId: RoomId)
      requires Valid()
      modifies this
      ensures Valid()
      ensures connToRoom == old(connToRoom)[conn := roomId]
      ensures rooms == old(rooms) && nextRoomId == old(nextRoomId) && bridgeMode == old(bridgeMode)
    {
      connToRoom := connToRoom[conn := roomId];
    }

    /** `handle_disconnect`: forget the connection's room, and remove its seat from that room.
        A connection with no room changes nothing. */
    method HandleDisconnect(conn: ConnectionId) returns (r: Option<Player>)
      requires Valid() && !IsVirtualConn(conn)
      modifies this, rooms.Values
      ensures Valid()
      ensures rooms == old(rooms) && nextRoomId == old(nextRoomId) && bridgeMode == old(bridgeMode)
      ensures connToRoom == old(connToRoom) - {conn}
      ensures conn !in old(connToRoom) || old(connToRoom)[conn] !in rooms ==>
                r == None && unchanged(rooms.Values)
      ensures conn in old(connToRoom) && old(connToRoom)[conn] in rooms ==>
                var room := rooms[old(connToRoom)[conn]];
                (room.players, room.nicknames, r) == Removal(old(room.players), old(room.nicknames), conn) &&
                room.state == old(room.state) && room.seed == old(room.seed) &&
                unchanged(rooms.Values - {room})
    {
      if conn in connToRoom {
        var id := connToRoom[conn];
        connToRoom := connToRoom - {conn};
        if id in rooms {
          var room := rooms[id];
          assert RoomOk(room, id, nextRoomId);
          RoomsOkSplit(rooms, nextRoomId, id);
          r := room.RemovePlayer(conn);
          RoomsOkSplit(rooms, nextRoomId, id);
          return;
        }
      }
      connToRoom := connToRoom - {conn};
      r := None;
    }
  }

  /** `Room::new_bridge_mode` or `Room::new`, as the manager's mode says. */
  method NewRoom(name: RoomId, seed: u64, bridgeMode: bool) returns (room: Room)
    ensures fresh(room) && room.Valid() && room.Bounded() && Joinable(room)
    ensures room.id == name && room.bridgeMode == bridgeMode && room.seed == seed
    ensures room.players == (if bridgeMode then [Partner1, Partner2] else [])
    ensures room.nicknames == (if bridgeMode then {"AI_Partner1", "AI_Partner2"} else {})
  {
    if bridgeMode {
      room := new Room.NewBridgeMode(name, seed);
      NewBridgeRoomNeedsTwo(room);
    } else {
      room := new Room.New(name, seed);
    }
  }
}

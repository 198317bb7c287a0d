/** The server's central event loop (server/src/main.rs), one handler call at a time. Each
    handler is one atomic step over `ServerState`; `send_to` appends to an outbox of
    (connection, message) pairs, and only for connections that are still registered. */
module Server {
  import opened Types
  import opened Deck
  import opened Engine
  import opened Strategy
  import opened Rooms
  import opened Handshake
  import Strings
  import Commands

  /** What `send_to` delivers: the message, if the connection is registered. */
  function Sent(clients: set<ConnectionId>, conn: ConnectionId, msg: ServerMessage): (r: seq<(ConnectionId, ServerMessage)>)
    ensures conn in clients ==> r == [(conn, msg)]
    ensures conn !in clients ==> r == []
  {
    if conn in clients then [(conn, msg)] else []
  }

  /** What `broadcast_to_humans` delivers: the message to every seat of the engine whose connection
      is real, in seat order (and, as with `send_to`, only to registered connections). */
  function Broadcast(clients: set<ConnectionId>, ps: seq<GamePlayer>, msg: ServerMessage): seq<(ConnectionId, ServerMessage)>
  {
    if ps == [] then []
    else
      var c := ps[|ps| - 1].connId;
      Broadcast(clients, ps[..|ps| - 1], msg) + (if !IsVirtualConn(c) then Sent(clients, c, msg) else [])
  }

  /** Every message of a broadcast carries `msg` to a registered real connection of one of the seats. */
  lemma {:induction false} BroadcastEntry(clients: set<ConnectionId>, ps: seq<GamePlayer>, msg: ServerMessage, k: nat)
    requires k < |Broadcast(clients, ps, msg)|
    ensures var e := Broadcast(clients, ps, msg)[k];
            e.1 == msg && e.0 in clients && !IsVirtualConn(e.0) &&
            exists s :: 0 <= s < |ps| && ps[s].connId == e.0
  {
    var init := ps[..|ps| - 1];
    var last := ps[|ps| - 1].connId;
    var r0 := Broadcast(clients, init, msg);
    var r := Broadcast(clients, ps, msg);
    assert r == r0 + (if !IsVirtualConn(last) then Sent(clients, last, msg) else []);
    if k < |r0| {
      BroadcastEntry(clients, init, msg, k);
      var s :| 0 <= s < |init| && init[s].connId == r0[k].0;
      assert ps[s] == init[s] && r[k] == r0[k];
    } else {
      assert r[k] == (last, msg) && ps[|ps| - 1].connId == last;
    }
  }

  /** Every registered real connection among the seats gets the message. */
  lemma {:induction false} BroadcastReaches(clients: set<ConnectionId>, ps: seq<GamePlayer>, msg: ServerMessage, s: nat)
    requires s < |ps| && ps[s].connId in clients && !IsVirtualConn(ps[s].connId)
    ensures (ps[s].connId, msg) in Broadcast(clients, ps, msg)
  {
    var init := ps[..|ps| - 1];
    if s < |init| {
      assert init[s] == ps[s];
      BroadcastReaches(clients, init, msg, s);
    }
  }

  /** A broadcast never reaches a virtual connection. */
  lemma BroadcastReal(clients: set<ConnectionId>, ps: seq<GamePlayer>, msg: ServerMessage)
    ensures forall k :: 0 <= k < |Broadcast(clients, ps, msg)| ==> !IsVirtualConn(Broadcast(clients, ps, msg)[k].0)
  {
    forall k | 0 <= k < |Broadcast(clients, ps, msg)|
      ensures !IsVirtualConn(Broadcast(clients, ps, msg)[k].0)
    {
      BroadcastEntry(clients, ps, msg, k);
    }
  }

  /** The reason a rejected PLAY reports: an unparsable card reads as "not in hand", a
      connection without a seat as "not your turn". */
  function RejectReasonOf(e: PlayError): (r: RejectReason)
    ensures e == PlayError.NotLegal <==> r == RejectReason.NotLegal
    ensures r == RejectReason.NotInHand <==> e == PlayError.NotInHand || e == InvalidCard
  {
    match e
    case NotYourTurn => RejectReason.NotYourTurn
    case NotInHand => RejectReason.NotInHand
    case NotLegal => RejectReason.NotLegal
    case InvalidCard => RejectReason.NotInHand
    case NotInGame => RejectReason.NotYourTurn
  }

  /** An engine between handler calls: dealt, and never left with a complete trick on the table. */
  predicate Settled(e: GameEngine)
    reads e
  {
    e.phase != WaitingToDeal && e.phase != GamePhase.TrickComplete
  }

  /** The loop of `broadcast_to_humans` over the seats, collecting what it sends. */
  method CollectBroadcast(clients: set<ConnectionId>, ps: seq<GamePlayer>, msg: ServerMessage)
    returns (out: seq<(ConnectionId, ServerMessage)>)
    ensures out == Broadcast(clients, ps, msg)
    ensures forall k :: 0 <= k < |out| ==> out[k].1 == msg && !IsVirtualConn(out[k].0)
  {
    out := [];
    var i := 0;
    while i < |ps|
      invariant 0 <= i <= |ps|
      invariant out == Broadcast(clients, ps[..i], msg)
      invariant forall k :: 0 <= k < |out| ==> out[k].1 == msg && !IsVirtualConn(out[k].0)
    {
      assert ps[..i + 1][..i] == ps[..i];
      if !IsVirtualConn(ps[i].connId) {
        out := out + Sent(clients, ps[i].connId, msg);
      }
      i := i + 1;
    }
    assert ps[..i] == ps;
  }

  /** None of the messages is a YOUR_TURN. */
  predicate NoTurnMessage(msgs: seq<ServerMessage>)
  {
    forall m :: m in msgs ==> !m.YourTurn?
  }

  /** Appending messages that hold no YOUR_TURN adds none. */
  lemma AppendNoYourTurn(a: seq<(ConnectionId, ServerMessage)>, b: seq<(ConnectionId, ServerMessage)>, i: nat)
    requires i <= |a| && NoYourTurn(a, i, |a|) && NoYourTurn(b, 0, |b|)
    ensures NoYourTurn(a + b, i, |a + b|)
  {
    forall k | i <= k < |a + b|
      ensures !(a + b)[k].1.YourTurn?
    {
      if k >= |a| {
        assert (a + b)[k] == b[k - |a|];
      }
    }
  }

  /** The broadcasts of several messages, one after the other. */
  function BroadcastEach(clients: set<ConnectionId>, ps: seq<GamePlayer>, msgs: seq<ServerMessage>): seq<(ConnectionId, ServerMessage)>
  {
    if msgs == [] then []
    else BroadcastEach(clients, ps, msgs[..|msgs| - 1]) + Broadcast(clients, ps, msgs[|msgs| - 1])
  }

  /** The successive `broadcast_to_humans` calls of one move, collecting what they send. */
  method CollectBroadcasts(clients: set<ConnectionId>, ps: seq<GamePlayer>, msgs: seq<ServerMessage>)
    returns (out: seq<(ConnectionId, ServerMessage)>)
    ensures out == BroadcastEach(clients, ps, msgs)
    ensures forall k :: 0 <= k < |out| ==> out[k].1 in msgs && !IsVirtualConn(out[k].0)
    ensures NoTurnMessage(msgs) ==> NoYourTurn(out, 0, |out|)
    ensures |msgs| > 0 ==> var b := Broadcast(clients, ps, msgs[|msgs| - 1]);
                           |b| <= |out| && out[|out| - |b|..] == b
  {
    out := [];
    var i := 0;
    while i < |msgs|
      invariant 0 <= i <= |msgs|
      invariant out == BroadcastEach(clients, ps, msgs[..i])
      invariant forall k :: 0 <= k < |out| ==> out[k].1 in msgs[..i] && !IsVirtualConn(out[k].0)
    {
      assert msgs[..i + 1][..i] == msgs[..i];
      var b := CollectBroadcast(clients, ps, msgs[i]);
      out := out + b;
      i := i + 1;
    }
    assert msgs[..i] == msgs;
  }

  /** The messages of resolving the trick on the table of `st`: TRICK_RESULT with the trick
      number, the table's plays, the winner's id and the new score, then GAME_OVER when it was
      the last trick. */
  ghost function ResolveMessages(st: EngineState): seq<ServerMessage>
    requires |st.table| > 0 && forall j :: 0 <= j < |st.table| ==> st.table[j].0 < |st.players|
  {
    var w := st.table[TrickWinner(st.table)].0;
    var st' := AfterResolve(st);
    var result := TrickResult(st.currentTrick, TablePlays(st.table, st.players), st.players[w].playerId, st'.score);
    if st.currentTrick >= TOTAL_TRICKS then [result, ServerMessage.GameOver(st'.score, WinningTeam(st'.score), st'.history)]
    else [result]
  }

  /** Seat `idx` may play `card` in `st`: the engine is consistent, the seat is due and holds the card. */
  ghost predicate CanMove(st: EngineState, idx: nat, card: Card)
  {
    Inv(st) && st.phase == WaitingForPlay(idx) && idx < |st.players| && card in st.players[idx].hand
  }

  /** The engine after seat `idx` plays `card` (and the trick is resolved when it completes);
      a move that is not allowed leaves `st` as it is. */
  ghost function Moved(st: EngineState, idx: nat, card: Card): EngineState
  {
    if CanMove(st, idx, card) then AfterMove(st, idx, card) else st
  }

  /** The messages one move broadcasts: PLAY_BROADCAST of the seat's card in the current trick,
      followed by the resolution's messages when the card completes the trick; none for a move
      that is not allowed. */
  ghost function MoveMessages(st: EngineState, idx: nat, card: Card): seq<ServerMessage>
  {
    if CanMove(st, idx, card) then
      PlayKeepsInv(st, idx, card);
      var b := PlayBroadcast(st.players[idx].playerId, ToProtocolString(card), st.currentTrick);
      var st' := AfterPlay(st, idx, card);
      if |st'.table| == 4 then [b] + ResolveMessages(st') else [b]
    else []
  }

  /** The engine's side of one move: `play_card`, then `resolve_trick` when the trick is
      complete; the messages to broadcast are PLAY_BROADCAST, then TRICK_RESULT, then, after the
      last trick, GAME_OVER. */
  method Move(e: GameEngine, idx: nat, card: Card) returns (msgs: seq<ServerMessage>, over: bool)
    requires e.Valid() && e.phase == WaitingForPlay(idx) && idx < |e.players|
    requires card in e.players[idx].hand
    modifies e
    ensures e.Valid() && e.State() == AfterMove(old(e.State()), idx, card)
    ensures e.phase.WaitingForPlay? || e.phase == GamePhase.GameOver
    ensures over <==> e.phase == GamePhase.GameOver
    ensures msgs == MoveMessages(old(e.State()), idx, card)
    ensures 1 <= |msgs| <= 3 && msgs[0].PlayBroadcast?
    ensures |msgs| >= 2 ==> msgs[1].TrickResult?
    ensures over <==> |msgs| == 3
    ensures over ==> msgs[2] == e.GameOverMessage()
    ensures NoTurnMessage(msgs)
  {
    MoveKeepsInv(e.State(), idx, card);
    var r := e.PlayCard(idx, card);
    if r.Continue? {
      msgs, over := [r.broadcast], false;
      assert msgs == [r.broadcast];
      return;
    }
    msgs, over := Resolve(e, r.broadcast);
  }

  /** The end of a move that completed the trick: `resolve_trick`, then TRICK_RESULT after the
      PLAY_BROADCAST `b`, then GAME_OVER when that was the last trick. */
  method Resolve(e: GameEngine, b: ServerMessage) returns (msgs: seq<ServerMessage>, over: bool)
    requires e.Valid() && e.phase == GamePhase.TrickComplete && b.PlayBroadcast?
    modifies e
    ensures e.Valid() && e.State() == AfterResolve(old(e.State()))
    ensures over <==> e.phase == GamePhase.GameOver
    ensures msgs == [b] + ResolveMessages(old(e.State()))
    ensures |msgs| == (if over then 3 else 2) && msgs[0] == b && msgs[1].TrickResult?
    ensures over ==> msgs[2] == e.GameOverMessage()
    ensures NoTurnMessage(msgs)
  {
    var res := e.ResolveTrick();
    over := res.GameOver?;
    if over {
      msgs := [b, res.result, e.GameOverMessage()];
    } else {
      msgs := [b, res.result];
    }
  }

  /** The card `process_ai_turns` plays for seat `idx` in state `st`: the strategy's choice from
      the seat's hand and its legal moves, leading when the table is empty. */
  function AiCard(st: EngineState, idx: nat): (c: Card)
    requires idx < |st.players| && |st.players[idx].hand| > 0
    ensures c in LegalMoves(st.players[idx].hand, st.table) && c in st.players[idx].hand
  {
    var hand := st.players[idx].hand;
    ChooseCard(hand, LegalMoves(hand, st.table), st.table, |st.table| == 0)
  }

  /** An AI seat is due to play in `st`. */
  ghost predicate AiDue(st: EngineState)
  {
    Inv(st) && st.phase.WaitingForPlay? && st.phase.currentPlayerIdx < |st.players| &&
    IsVirtualConn(st.players[st.phase.currentPlayerIdx].connId)
  }

  /** One pass of `process_ai_turns` on the engine: the due AI seat plays the strategy's card;
      in any other state nothing moves. */
  ghost function AiMove(st: EngineState): EngineState
  {
    if AiDue(st) then
      var idx := st.phase.currentPlayerIdx;
      DueSeatHoldsCard(st, idx);
      AfterMove(st, idx, AiCard(st, idx))
    else st
  }

  /** What that pass broadcasts: the AI seat's move messages, or nothing. */
  ghost function AiMessages(st: EngineState): seq<ServerMessage>
  {
    if AiDue(st) then
      var idx := st.phase.currentPlayerIdx;
      DueSeatHoldsCard(st, idx);
      MoveMessages(st, idx, AiCard(st, idx))
    else []
  }

  /** `n` passes of `process_ai_turns` on the engine. */
  ghost function AiMoves(st: EngineState, n: nat): EngineState
  {
    if n == 0 then st else AiMove(AiMoves(st, n - 1))
  }

  /** However many passes the AI loop makes, the engine keeps its invariant, and the card each
      AI seat plays is one of its legal moves. */
  lemma {:induction false} AiMovesKeepInv(st: EngineState, n: nat)
    requires Inv(st)
    ensures Inv(AiMoves(st, n))
    ensures AiDue(AiMoves(st, n)) ==>
              var st' := AiMoves(st, n);
              var idx := st'.phase.currentPlayerIdx;
              |st'.players[idx].hand| > 0 && AiCard(st', idx) in LegalMoves(st'.players[idx].hand, st'.table)
  {
    if n > 0 {
      AiMovesKeepInv(st, n - 1);
      var prev := AiMoves(st, n - 1);
      if AiDue(prev) {
        var idx := prev.phase.currentPlayerIdx;
        DueSeatHoldsCard(prev, idx);
        MoveKeepsInv(prev, idx, AiCard(prev, idx));
      }
    }
    var st' := AiMoves(st, n);
    if AiDue(st') {
      DueSeatHoldsCard(st', st'.phase.currentPlayerIdx);
    }
  }

  /** An engine keeps its invariant and sits between handler calls. */
  ghost predicate EngineOk(e: GameEngine)
    reads e
  {
    e.Valid() && Settled(e)
  }

  /** Every started room's engine is fine. */
  ghost predicate GamesOk(games: map<RoomId, GameEngine>)
    reads games.Values
  {
    forall e {:trigger EngineOk(e)} :: e in games.Values ==> EngineOk(e)
  }

  /** With no engine shared by two rooms, the engines are fine exactly when those of the other
      rooms are and room `rid`'s is; and room `rid`'s engine belongs to no other room. */
  lemma GamesOkSplit(games: map<RoomId, GameEngine>, rid: RoomId)
    requires rid in games
    requires forall r, s :: r in games && s in games && games[r] == games[s] ==> r == s
    ensures games[rid] !in (games - {rid}).Values
    ensures GamesOk(games) <==> GamesOk(games - {rid}) && EngineOk(games[rid])
  {
    var others := games - {rid};
    forall r | r in others
      ensures others[r] != games[rid]
    {
      assert r in games && r != rid;
    }
    if GamesOk(others) && EngineOk(games[rid]) {
      forall e | e in games.Values
        ensures EngineOk(e)
      {
        var r :| r in games && games[r] == e;
        if r != rid {
          assert r in others && others[r] == e;
        }
      }
    }
  }

  /** The room's engine waits for a human: the due seat has a real connection, and the last
      thing sent is that seat's YOUR_TURN (nothing, if the connection is no longer registered). */
  predicate AwaitsHuman(e: GameEngine, clients: set<ConnectionId>, outbox: seq<(ConnectionId, ServerMessage)>)
    reads e
  {
    e.phase.WaitingForPlay? && e.phase.currentPlayerIdx < |e.players| &&
    (forall j :: 0 <= j < |e.table| ==> e.table[j].0 < |e.players|) &&
    var idx := e.phase.currentPlayerIdx;
    var m := Sent(clients, e.players[idx].connId, e.YourTurnMessage(idx));
    !IsVirtualConn(e.players[idx].connId) && |m| <= |outbox| && outbox[|outbox| - |m|..] == m
  }

  /** No YOUR_TURN among the messages from position `i` up to, not including, position `j`. */
  predicate NoYourTurn(outbox: seq<(ConnectionId, ServerMessage)>, i: nat, j: int)
  {
    forall k :: i <= k < j && k < |outbox| ==> !outbox[k].1.YourTurn?
  }

  /** A range without YOUR_TURN, extended by an appended range without YOUR_TURN. */
  lemma NoYourTurnJoin(o: seq<(ConnectionId, ServerMessage)>, o': seq<(ConnectionId, ServerMessage)>, i: nat, j: int)
    requires i <= |o| <= |o'| && o'[..|o|] == o
    requires NoYourTurn(o, i, |o|) && NoYourTurn(o', |o|, j)
    ensures NoYourTurn(o', i, j)
  {
    forall k | i <= k < j && k < |o'|
      ensures !o'[k].1.YourTurn?
    {
      if k < |o| {
        assert o'[k] == o'[..|o|][k];
      }
    }
  }

  /** What `send_to` delivers for each connection in turn. */
  function SentAll(clients: set<ConnectionId>, conns: seq<ConnectionId>, msg: ServerMessage): seq<(ConnectionId, ServerMessage)>
  {
    if conns == [] then []
    else SentAll(clients, conns[..|conns| - 1], msg) + Sent(clients, conns[|conns| - 1], msg)
  }

  /** What `start_game` delivers of the DEAL messages: those addressed to real connections. */
  function DealsSent(clients: set<ConnectionId>, deals: seq<(ConnectionId, ServerMessage)>): seq<(ConnectionId, ServerMessage)>
  {
    if deals == [] then []
    else
      var d := deals[|deals| - 1];
      DealsSent(clients, deals[..|deals| - 1]) + (if !IsVirtualConn(d.0) then Sent(clients, d.0, d.1) else [])
  }

  /** The engine is in the game dealt from `seed` to `seats` after some AI turns. */
  ghost predicate PlayedFromDeal(st: EngineState, seed: u64, seats: seq<(ConnectionId, PlayerId, Team)>)
  {
    exists n :: st == AiMoves(DealtState(seed, seats), n)
  }

  /** After `before`, `after` goes on with each real seat's DEAL of the game dealt from `seed`;
      the AI turns' messages may follow. */
  ghost predicate DealsQueued(before: seq<(ConnectionId, ServerMessage)>, after: seq<(ConnectionId, ServerMessage)>,
                              clients: set<ConnectionId>, seed: u64, seats: seq<(ConnectionId, PlayerId, Team)>)
  {
    var d := DealsSent(clients, DealMessages(DealtState(seed, seats).players));
    |before| + |d| <= |after| && after[..|before| + |d|] == before + d
  }

  /** What starting the game in `room` sends after `before`: ROOM_START to every seat, then each
      real seat's DEAL from the room's seed; the AI turns' messages may follow. */
  ghost predicate StartSent(before: seq<(ConnectionId, ServerMessage)>, after: seq<(ConnectionId, ServerMessage)>,
                            clients: set<ConnectionId>, room: Room)
    reads room
  {
    DealsQueued(before + SentAll(clients, ConnIds(room.players), room.RoomStartMessage()), after, clients,
                room.seed, EngineSeats(room.players))
  }

  /** The (connection, player id, team) triples `handle_hello` hands to the engine; a seat
      without a team counts as Human. */
  function EngineSeats(ps: seq<Player>): (r: seq<(ConnectionId, PlayerId, Team)>)
    ensures |r| == |ps|
    ensures forall i :: 0 <= i < |ps| ==>
              r[i] == (ps[i].connId, ps[i].playerId, if ps[i].team.Some? then ps[i].team.value else Team.Human)
  {
    seq(|ps|, i requires 0 <= i < |ps| =>
      (ps[i].connId, ps[i].playerId, if ps[i].team.Some? then ps[i].team.value else Team.Human))
  }

  /** `GameEngine::new` followed by `deal`. */
  method NewDealtEngine(seed: u64, seats: seq<(ConnectionId, PlayerId, Team)>)
    returns (e: GameEngine, deals: seq<(ConnectionId, ServerMessage)>)
    requires |seats| >= 4
    ensures fresh(e) && e.Valid() && Settled(e)
    ensures e.seed == seed && |e.players| == |seats| && e.phase == WaitingForPlay(0)
    ensures e.State() == DealtState(seed, seats)
    ensures deals == DealMessages(e.players)
  {
    e := new GameEngine(seed, seats);
    deals := e.Deal();
  }

  /** `add_player` on a room of the manager, then `associate_conn`. */
  method SeatPlayer(manager: RoomManager, room: Room, conn: ConnectionId, playerId: PlayerId, nickname: string, role: Role)
    returns (ghost k: nat)
    requires manager.Valid() && room.id in manager.rooms && manager.rooms[room.id] == room && Joinable(room)
    modifies manager, room
    ensures manager.Valid()
    ensures manager.rooms == old(manager.rooms) && manager.nextRoomId == old(manager.nextRoomId)
    ensures manager.bridgeMode == old(manager.bridgeMode)
    ensures manager.connToRoom == old(manager.connToRoom)[conn := room.id]
    ensures room.state == old(room.state) && room.seed == old(room.seed) && room.Bounded()
    ensures room.players == WithSeat(old(room.players), room.bridgeMode, Newcomer(conn, playerId, nickname, role, room.bridgeMode))
    ensures room.nicknames == old(room.nicknames) + {nickname}
    ensures k < |room.players| && room.players[k].connId == conn && room.players[k].playerId == playerId &&
            room.players[k].nickname == nickname && room.players[k].role == role
  {
    var rooms, n := manager.rooms, manager.nextRoomId;
    RoomsOkSplit(rooms, n, room.id);
    k := if room.bridgeMode then HumanCount(room.players) else |room.players|;
    room.AddPlayer(conn, playerId, nickname, role);
    assert RoomOk(room, room.id, n) && RoomsOk(rooms - {room.id}, n);
    RoomsOkSplit(rooms, n, room.id);
    manager.AssociateConn(conn, room.id);
  }

  /** A prefix of a prefix is a prefix. */
  lemma PrefixTrans(a: seq<(ConnectionId, ServerMessage)>, b: seq<(ConnectionId, ServerMessage)>, c: seq<(ConnectionId, ServerMessage)>)
    requires |a| <= |b| <= |c| && b[..|a|] == a && c[..|b|] == b
    ensures c[..|a|] == a
  {
    assert c[..|a|] == c[..|b|][..|a|];
  }

  /** The notice `handle_bridge_mode_disconnect` sends before ROOM_WAIT. */
  const DISCONNECT_RESET_NOTICE: string := "Game reset due to player disconnect. Waiting for players..."

  /** `AdminEvent`, without its reply channels; `GetRooms` and `GetPlayers` are not modelled. */
  datatype AdminEvent = GetStatus | KickPlayer(playerId: PlayerId) | ResetRoom(roomId: Option<RoomId>)

  /** The notice of an admin reset. */
  const ADMIN_RESET_NOTICE: string := "Game reset by admin"

  /** The notices an admin reset sends to the seats `ps` of a room. */
  function ResetNotices(clients: set<ConnectionId>, ps: seq<Player>): seq<(ConnectionId, ServerMessage)>
  {
    Notices(clients, ps, [Error(ProtocolError, ADMIN_RESET_NOTICE)])
  }

  /** The reset notices of the rooms `order`, one room after another, from their contents `views`. */
  function ResetAllNotices(clients: set<ConnectionId>, views: map<RoomId, RoomView>, order: seq<RoomId>)
    : seq<(ConnectionId, ServerMessage)>
  {
    if order == [] then []
    else
      var r := order[|order| - 1];
      ResetAllNotices(clients, views, order[..|order| - 1]) + (if r in views then ResetNotices(clients, views[r].players) else [])
  }

  /** The outbox `sent` followed by the reset notices of the rooms `order`, one room after
      another, from their contents `views`. */
  function AfterResets(sent: seq<(ConnectionId, ServerMessage)>, clients: set<ConnectionId>, views: map<RoomId, RoomView>,
                       order: seq<RoomId>): seq<(ConnectionId, ServerMessage)>
  {
    if order == [] then sent
    else
      var r := order[|order| - 1];
      AfterResets(sent, clients, views, order[..|order| - 1]) + (if r in views then ResetNotices(clients, views[r].players) else [])
  }

  /** That is `sent` with the notices appended. */
  lemma {:induction false} AfterResetsAppends(sent: seq<(ConnectionId, ServerMessage)>, clients: set<ConnectionId>,
                                             views: map<RoomId, RoomView>, order: seq<RoomId>)
    ensures AfterResets(sent, clients, views, order) == sent + ResetAllNotices(clients, views, order)
  {
    if order != [] {
      var init, r := order[..|order| - 1], order[|order| - 1];
      AfterResetsAppends(sent, clients, views, init);
      var prior, notice := ResetAllNotices(clients, views, init), if r in views then ResetNotices(clients, views[r].players) else [];
      assert (sent + prior) + notice == sent + (prior + notice);
    }
  }

  /** The rooms listed in `order`. */
  function Elems(order: seq<RoomId>): (r: set<RoomId>)
    ensures forall x :: x in r <==> x in order
  {
    if order == [] then {} else Elems(order[..|order| - 1]) + {order[|order| - 1]}
  }

  /** No room is listed twice. */
  predicate Distinct(order: seq<RoomId>)
  {
    order == [] || (Distinct(order[..|order| - 1]) && order[|order| - 1] !in order[..|order| - 1])
  }

  /** A list without repeats is as long as the set of its rooms. */
  lemma {:induction false} DistinctCount(order: seq<RoomId>)
    requires Distinct(order)
    ensures |Elems(order)| == |order|
  {
    if order != [] {
      DistinctCount(order[..|order| - 1]);
    }
  }

  /** The rooms `views` after an admin reset of the rooms `order`, one after another, each under
      the seed `seedOf` gives it; a room not among `views` is skipped. */
  function Resets(views: map<RoomId, RoomView>, seedOf: RoomId -> u64, order: seq<RoomId>): (r: map<RoomId, RoomView>)
    ensures r.Keys == views.Keys
  {
    if order == [] then views
    else
      var m, rid := Resets(views, seedOf, order[..|order| - 1]), order[|order| - 1];
      if rid in m then m[rid := ResetView(m[rid], seedOf(rid))] else m
  }

  /** The rooms `now` are the rooms `views` with those of `done` reset, each under the seed
      `seedOf` gives it, and every other room as it was. */
  ghost predicate ResetDone(views: map<RoomId, RoomView>, now: map<RoomId, RoomView>, seedOf: RoomId -> u64, done: set<RoomId>)
  {
    now.Keys == views.Keys &&
    forall r :: r in now ==> now[r] == if r in done then ResetView(views[r], seedOf(r)) else views[r]
  }

  /** Resetting the rooms of a list without repeats resets each of them once and leaves every
      other room alone. */
  lemma {:induction false} ResetsOnce(views: map<RoomId, RoomView>, seedOf: RoomId -> u64, order: seq<RoomId>)
    requires Distinct(order)
    ensures ResetDone(views, Resets(views, seedOf, order), seedOf, Elems(order))
  {
    if order != [] {
      var init, rid := order[..|order| - 1], order[|order| - 1];
      ResetsOnce(views, seedOf, init);
      var m := Resets(views, seedOf, init);
      forall r | r in m
        ensures Resets(views, seedOf, order)[r] == if r in Elems(order) then ResetView(views[r], seedOf(r)) else views[r]
      {
        if r != rid {
          assert r in Elems(order) <==> r in Elems(init);
        }
      }
    }
  }

  /** The bookkeeping of the reset-all loop, from the rooms' contents `views` and the outbox
      `sent` before it, with the registered connections `clients`, the rooms with an engine
      `engines`, the rooms' contents `now` and the outbox `outbox`: `start` holds the rooms that
      had an engine, `todo` those whose engine is still there, and `order` lists once each, in
      the order they were reset, the others that exist, `count` of them. Those were reset, each
      under the seed `seedOf` gives it, and their seats were sent the reset notice in that
      order. */
  ghost predicate ResetStage(views: map<RoomId, RoomView>, sent: seq<(ConnectionId, ServerMessage)>, seedOf: RoomId -> u64,
                             start: set<RoomId>, todo: set<RoomId>, order: seq<RoomId>, count: nat,
                             clients: set<ConnectionId>, engines: set<RoomId>, now: map<RoomId, RoomView>,
                             outbox: seq<(ConnectionId, ServerMessage)>)
  {
    engines == todo && todo <= start && Elems(order) == (start - todo) * views.Keys && count == |order| &&
    Distinct(order) && outbox == AfterResets(sent, clients, views, order) && now == Resets(views, seedOf, order)
  }

  /** Before the reset-all loop nothing is done: every room with an engine is still to do. */
  lemma ResetStageStart(views: map<RoomId, RoomView>, sent: seq<(ConnectionId, ServerMessage)>, seedOf: RoomId -> u64,
                        start: set<RoomId>, clients: set<ConnectionId>)
    ensures ResetStage(views, sent, seedOf, start, start, [], 0, clients, start, views, sent)
  {
    assert (start - start) * views.Keys == {};
  }

  /** A map without keys is the empty map. */
  lemma NoGamesLeft(games: map<RoomId, GameEngine>)
    requires games.Keys == {}
    ensures games == map[]
  {
    assert forall r :: r !in games;
  }

  /** Once nothing is left to do, every room that had an engine and exists was reset once, in
      the order `order` lists, and its seats were sent the notice in that order. */
  lemma ResetStageEnd(views: map<RoomId, RoomView>, sent: seq<(ConnectionId, ServerMessage)>, seedOf: RoomId -> u64,
                      start: set<RoomId>, order: seq<RoomId>, count: nat, clients: set<ConnectionId>,
                      engines: set<RoomId>, now: map<RoomId, RoomView>, outbox: seq<(ConnectionId, ServerMessage)>)
    requires ResetStage(views, sent, seedOf, start, {}, order, count, clients, engines, now, outbox)
    ensures engines == {} && count == |start * views.Keys| == |order|
    ensures Elems(order) == start * views.Keys && Distinct(order)
    ensures outbox == sent + ResetAllNotices(clients, views, order)
    ensures ResetDone(views, now, seedOf, start)
  {
    AfterResetsAppends(sent, clients, views, order);
    DistinctCount(order);
    ResetsOnce(views, seedOf, order);
  }

  /** A pass of the reset-all loop on room `rid`, which drops its engine and, when the room
      exists, resets it under its seed and sends its seats the notice, moves the bookkeeping on:
      `rid` leaves `todo` and, when it exists, is appended to `order`. */
  lemma ResetStageStep(views: map<RoomId, RoomView>, sent: seq<(ConnectionId, ServerMessage)>, seedOf: RoomId -> u64,
                       start: set<RoomId>, todo: set<RoomId>, order: seq<RoomId>, count: nat,
                       clients: set<ConnectionId>, engines: set<RoomId>, now: map<RoomId, RoomView>,
                       outbox: seq<(ConnectionId, ServerMessage)>, rid: RoomId, found: bool,
                       now': map<RoomId, RoomView>, outbox': seq<(ConnectionId, ServerMessage)>)
    requires ResetStage(views, sent, seedOf, start, todo, order, count, clients, engines, now, outbox) && rid in todo
    requires found <==> rid in now
    requires found ==> now' == now[rid := ResetView(now[rid], seedOf(rid))] &&
                       outbox' == outbox + ResetNotices(clients, now[rid].players)
    requires !found ==> now' == now && outbox' == outbox
    ensures found ==> ResetStage(views, sent, seedOf, start, todo - {rid}, order + [rid], count + 1,
                                 clients, engines - {rid}, now', outbox')
    ensures !found ==> ResetStage(views, sent, seedOf, start, todo - {rid}, order, count,
                                  clients, engines - {rid}, now', outbox')
  {
    if found {
      assert rid !in Elems(order);
      ResetsOnce(views, seedOf, order);
      assert now[rid] == views[rid];
      assert (order + [rid])[..|order|] == order;
      assert (start - (todo - {rid})) * views.Keys == Elems(order) + {rid};
    } else {
      assert (start - (todo - {rid})) * views.Keys == Elems(order);
    }
  }

  /** The notice a kicked connection gets. */
  const KICK_NOTICE: string := "You have been kicked by admin"

  /** What `send_to` delivers of each message in turn to one connection. */
  function SentEach(clients: set<ConnectionId>, c: ConnectionId, msgs: seq<ServerMessage>): seq<(ConnectionId, ServerMessage)>
  {
    if msgs == [] then []
    else SentEach(clients, c, msgs[..|msgs| - 1]) + Sent(clients, c, msgs[|msgs| - 1])
  }

  /** What a notice loop over a room's seats delivers: seat by seat, each message in turn to
      every seat whose connection is real. */
  function Notices(clients: set<ConnectionId>, ps: seq<Player>, msgs: seq<ServerMessage>): seq<(ConnectionId, ServerMessage)>
  {
    if ps == [] then []
    else
      var c := ps[|ps| - 1].connId;
      Notices(clients, ps[..|ps| - 1], msgs) + (if IsVirtualConn(c) then [] else SentEach(clients, c, msgs))
  }

  /** Everything sent to one connection goes to that connection, which is registered, and is
      one of the messages. */
  lemma {:induction false} SentEachEntry(clients: set<ConnectionId>, c: ConnectionId, msgs: seq<ServerMessage>, k: nat)
    requires k < |SentEach(clients, c, msgs)|
    ensures SentEach(clients, c, msgs)[k].0 == c && c in clients && SentEach(clients, c, msgs)[k].1 in msgs
  {
    var init := msgs[..|msgs| - 1];
    if k < |SentEach(clients, c, init)| {
      SentEachEntry(clients, c, init, k);
    }
  }

  /** Every message is sent to a registered connection exactly when it is registered. */
  lemma {:induction false} SentEachReaches(clients: set<ConnectionId>, c: ConnectionId, msgs: seq<ServerMessage>, m: ServerMessage)
    requires c in clients && m in msgs
    ensures (c, m) in SentEach(clients, c, msgs)
  {
    var init := msgs[..|msgs| - 1];
    if m != msgs[|msgs| - 1] {
      assert m in init by {
        var i :| 0 <= i < |msgs| && msgs[i] == m;
        assert i < |msgs| - 1 && init[i] == m;
      }
      SentEachReaches(clients, c, init, m);
    }
  }

  /** Every notice goes to a registered real connection of one of the seats and carries one of
      the messages. */
  lemma {:induction false} NoticeEntry(clients: set<ConnectionId>, ps: seq<Player>, msgs: seq<ServerMessage>, k: nat)
    requires k < |Notices(clients, ps, msgs)|
    ensures var e := Notices(clients, ps, msgs)[k];
            e.0 in clients && !IsVirtualConn(e.0) && e.1 in msgs && exists s :: 0 <= s < |ps| && ps[s].connId == e.0
  {
    var init := ps[..|ps| - 1];
    var c := ps[|ps| - 1].connId;
    var r0 := Notices(clients, init, msgs);
    if k < |r0| {
      NoticeEntry(clients, init, msgs, k);
      var s :| 0 <= s < |init| && init[s].connId == r0[k].0;
      assert ps[s] == init[s];
    } else {
      SentEachEntry(clients, c, msgs, k - |r0|);
    }
  }

  /** Every registered real seat is sent every message. */
  lemma {:induction false} NoticeReaches(clients: set<ConnectionId>, ps: seq<Player>, msgs: seq<ServerMessage>, s: nat, m: ServerMessage)
    requires s < |ps| && ps[s].connId in clients && !IsVirtualConn(ps[s].connId) && m in msgs
    ensures (ps[s].connId, m) in Notices(clients, ps, msgs)
  {
    var init := ps[..|ps| - 1];
    if s < |ps| - 1 {
      assert init[s] == ps[s];
      NoticeReaches(clients, init, msgs, s, m);
    } else {
      SentEachReaches(clients, ps[s].connId, msgs, m);
    }
  }

  /** The connections of a list, as a set. */
  function Elements(conns: seq<ConnectionId>): (r: set<ConnectionId>)
    ensures forall c :: c in r <==> c in conns
  {
    set c | c in conns
  }

  /** No connection holds two seats. */
  predicate DistinctConns(ps: seq<Player>)
  {
    forall i, j :: 0 <= i < j < |ps| ==> ps[i].connId != ps[j].connId
  }

  /** The notice loop of a Bridge reset runs over the seats left after the reset, which are AI
      seats only: it reaches none of the evicted humans, and, as long as the AI seats are the
      built-in partners, it sends nothing at all. */
  lemma BridgeResetNotices(clients: set<ConnectionId>, ps: seq<Player>, msgs: seq<ServerMessage>)
    requires DistinctConns(ps)
    ensures forall k :: 0 <= k < |Notices(clients, AiSeats(ps), msgs)| ==>
              Notices(clients, AiSeats(ps), msgs)[k].0 !in HumanConns(ps)
    ensures (forall p :: p in ps && p.role == Role.Ai ==> IsVirtualConn(p.connId)) ==>
              Notices(clients, AiSeats(ps), msgs) == []
  {
    var ai := AiSeats(ps);
    var out := Notices(clients, ai, msgs);
    forall k | 0 <= k < |out|
      ensures out[k].0 !in HumanConns(ps)
    {
      NoticeEntry(clients, ai, msgs, k);
      var s :| 0 <= s < |ai| && ai[s].connId == out[k].0;
      assert ai[s] in ai;
      var i :| 0 <= i < |ps| && ps[i] == ai[s];
      forall q | q in ps && q.role == Role.Human
        ensures q.connId != out[k].0
      {
        var j :| 0 <= j < |ps| && ps[j] == q;
        assert j != i;
      }
    }
    if out != [] {
      NoticeEntry(clients, ai, msgs, 0);
      var s :| 0 <= s < |ai| && ai[s].connId == out[0].0;
      assert ai[s] in ai && ai[s] in ps && ai[s].role == Role.Ai && !IsVirtualConn(ai[s].connId);
    }
  }

  /** `remove_player` on a room of the manager. */
  method DropSeat(manager: RoomManager, room: Room, conn: ConnectionId) returns (p: Option<Player>)
    requires manager.Valid() && room.id in manager.rooms && manager.rooms[room.id] == room && !IsVirtualConn(conn)
    modifies room
    ensures manager.Valid()
    ensures (room.players, room.nicknames, p) == Removal(old(room.players), old(room.nicknames), conn)
    ensures room.state == old(room.state) && room.seed == old(room.seed)
  {
    var rooms, n := manager.rooms, manager.nextRoomId;
    RoomsOkSplit(rooms, n, room.id);
    p := room.RemovePlayer(conn);
    assert RoomOk(room, room.id, n) && RoomsOk(rooms - {room.id}, n);
    RoomsOkSplit(rooms, n, room.id);
  }

  /** `reset_for_bridge_mode` on a Bridge room of the manager. */
  method ResetSeats(manager: RoomManager, room: Room, newSeed: u64) returns (removed: seq<ConnectionId>)
    requires manager.Valid() && room.id in manager.rooms && manager.rooms[room.id] == room && room.bridgeMode
    modifies room
    ensures manager.Valid()
    ensures removed == HumanConns(old(room.players))
    ensures room.players == AiSeats(old(room.players)) && room.nicknames == AiNicknames(old(room.nicknames))
    ensures room.state == Waiting && room.seed == newSeed
  {
    var rooms, n := manager.rooms, manager.nextRoomId;
    RoomsOkSplit(rooms, n, room.id);
    removed := room.ResetForBridgeMode(newSeed);
    assert RoomOk(room, room.id, n) && RoomsOk(rooms - {room.id}, n);
    RoomsOkSplit(rooms, n, room.id);
  }

  /** The end of an admin reset: a Bridge room is reset for new humans, a Classic room only
      goes back to Waiting with its seats kept. */
  method Reopen(manager: RoomManager, room: Room, newSeed: u64)
    requires manager.Valid() && room.id in manager.rooms && manager.rooms[room.id] == room
    modifies room
    ensures manager.Valid()
    ensures room.state == Waiting
    ensures room.bridgeMode ==> room.players == AiSeats(old(room.players)) &&
                                room.nicknames == AiNicknames(old(room.nicknames)) && room.seed == newSeed
    ensures !room.bridgeMode ==> room.players == old(room.players) && room.nicknames == old(room.nicknames) &&
                                 room.seed == old(room.seed)
  {
    if room.bridgeMode {
      var _ := ResetSeats(manager, room, newSeed);
    } else {
      var rooms, n := manager.rooms, manager.nextRoomId;
      RoomsOkSplit(rooms, n, room.id);
      room.state := Waiting;
      assert RoomOk(room, room.id, n) && RoomsOk(rooms - {room.id}, n);
      RoomsOkSplit(rooms, n, room.id);
    }
  }

  /** `ServerState`: the registered connections, the room manager, one engine per started room,
      the connection-to-room map, and the messages sent so far. */
  class ServerState {
    var clients: set<ConnectionId>
    const manager: RoomManager
    var games: map<RoomId, GameEngine>
    var connToRoom: map<ConnectionId, RoomId>
    var outbox: seq<(ConnectionId, ServerMessage)>
    /** `ServerConfig.ai_auth_token`. */
    const aiToken: Option<string>

    /** The game side of the invariant: every engine keeps its own invariant, no engine is shared
        by two rooms, connection ids are real ones, and nothing was ever sent to a virtual
        connection. */
    ghost predicate Sound()
      reads this, games.Values
    {
      GamesOk(games) &&
      (forall r, s :: r in games && s in games && games[r] == games[s] ==> r == s) &&
      (forall c :: c in clients ==> !IsVirtualConn(c)) &&
      (forall k :: 0 <= k < |outbox| ==> !IsVirtualConn(outbox[k].0))
    }

    /** The whole invariant: the room manager's and the game side's. */
    ghost predicate Valid()
      reads this, manager, manager.rooms.Values, games.Values
    {
      manager.Valid() && Sound()
    }

    /** `ServerState::new`, with a Bridge-mode room manager. */
    constructor New(aiToken: Option<string>)
      ensures Valid()
      ensures clients == {} && games == map[] && connToRoom == map[] && outbox == []
      ensures fresh(manager) && manager.bridgeMode && manager.rooms == map[]
    {
      clients := {};
      manager := new RoomManager.New(true);
      games := map[];
      connToRoom := map[];
      outbox := [];
      this.aiToken := aiToken;
    }

    /** The engine of room `rid`, if it has one: all that a step of that room may change. */
    function EngineSet(rid: RoomId): set<GameEngine>
      reads this
    {
      if rid in games then {games[rid]} else {}
    }

    /** `send_to`. */
    method SendTo(conn: ConnectionId, msg: ServerMessage)
      requires Sound()
      modifies this
      ensures Sound()
      ensures outbox == old(outbox) + Sent(clients, conn, msg)
      ensures clients == old(clients) && games == old(games) && connToRoom == old(connToRoom)
    {
      outbox := outbox + Sent(clients, conn, msg);
    }

    /** `broadcast_to_humans`: the message to every real connection seated in the room's engine. */
    method BroadcastToHumans(rid: RoomId, msg: ServerMessage)
      modifies this
      ensures outbox == old(outbox) + (if rid in games then Broadcast(clients, games[rid].players, msg) else [])
      ensures forall k :: |old(outbox)| <= k < |outbox| ==> outbox[k].1 == msg && !IsVirtualConn(outbox[k].0)
      ensures clients == old(clients) && games == old(games) && connToRoom == old(connToRoom)
    {
      if rid in games {
        var b := CollectBroadcast(clients, games[rid].players, msg);
        outbox := outbox + b;
      }
    }

    /** The engine's side of one move in room `rid`; the server's own fields do not change. */
    method MoveEngine(rid: RoomId, idx: nat, card: Card) returns (msgs: seq<ServerMessage>, over: bool)
      requires Sound() && rid in games && games[rid].Valid()
      requires games[rid].phase == WaitingForPlay(idx) && idx < |games[rid].players|
      requires card in games[rid].players[idx].hand
      modifies games[rid]
      ensures Sound()
      ensures games[rid].State() == AfterMove(old(games[rid].State()), idx, card)
      ensures over <==> games[rid].phase == GamePhase.GameOver
      ensures msgs == MoveMessages(old(games[rid].State()), idx, card)
      ensures NoTurnMessage(msgs) && |msgs| > 0
      ensures over ==> msgs[|msgs| - 1] == games[rid].GameOverMessage()
    {
      var e := games[rid];
      GamesOkSplit(games, rid);
      msgs, over := Move(e, idx, card);
      GamesOkSplit(games, rid);
    }

    /** Successive `broadcast_to_humans` calls, one per message. */
    method BroadcastAll(rid: RoomId, msgs: seq<ServerMessage>)
      requires Sound() && rid in games && NoTurnMessage(msgs)
      modifies this
      ensures Sound()
      ensures clients == old(clients) && games == old(games) && connToRoom == old(connToRoom)
      ensures outbox == old(outbox) + BroadcastEach(clients, games[rid].players, msgs)
      ensures NoYourTurn(outbox, |old(outbox)|, |outbox|)
    {
      var out := CollectBroadcasts(clients, games[rid].players, msgs);
      AppendNoYourTurn(outbox, out, |outbox|);
      outbox := outbox + out;
    }

    /** One move in a started room, as both `handle_play` and `process_ai_turns` make it: the
        engine plays the card (and resolves a complete trick), and each of its messages goes to
        the room's humans in turn. */
    method MakeMove(rid: RoomId, idx: nat, card: Card) returns (over: bool)
      requires Sound() && rid in games && games[rid].Valid()
      requires games[rid].phase == WaitingForPlay(idx) && idx < |games[rid].players|
      requires card in games[rid].players[idx].hand
      modifies this, games[rid]
      ensures Sound()
      ensures clients == old(clients) && games == old(games) && connToRoom == old(connToRoom)
      ensures games[rid].State() == AfterMove(old(games[rid].State()), idx, card)
      ensures over <==> games[rid].phase == GamePhase.GameOver
      ensures outbox == old(outbox) + BroadcastEach(clients, games[rid].players, MoveMessages(old(games[rid].State()), idx, card))
      ensures NoYourTurn(outbox, |old(outbox)|, |outbox|)
    {
      var msgs;
      msgs, over := MoveEngine(rid, idx, card);
      BroadcastAll(rid, msgs);
    }

    /** One pass of the `process_ai_turns` loop in room `rid`. It is `done` when the game is over or
        a human is due, who has then been sent YOUR_TURN; otherwise an AI seat played and fewer
        plays remain. */
    method AiStep(rid: RoomId) returns (done: bool)
      requires Sound() && rid in games
      modifies this, games[rid]
      ensures Sound()
      ensures clients == old(clients) && games == old(games) && connToRoom == old(connToRoom)
      ensures done ==> games[rid].phase == GamePhase.GameOver || AwaitsHuman(games[rid], clients, outbox)
      ensures games[rid].State() == AiMove(old(games[rid].State()))
      ensures !done ==> old(AiDue(games[rid].State()))
      ensures !old(AiDue(games[rid].State())) ==> done
      ensures !done ==> PlaysLeft(games[rid].State()) < old(PlaysLeft(games[rid].State()))
      ensures old(AiDue(games[rid].State())) ==>
                outbox == old(outbox) + BroadcastEach(clients, games[rid].players, AiMessages(old(games[rid].State())))
      ensures |old(outbox)| <= |outbox| && outbox[..|old(outbox)|] == old(outbox)
      ensures NoYourTurn(outbox, |old(outbox)|, if done then |outbox| - 1 else |outbox|)
    {
      var e := games[rid];
      assert e in games.Values && EngineOk(e);
      var cur := e.CurrentPlayerIdx();
      if cur.None? {
        return true;
      }
      var idx := cur.value;
      DueSeatHoldsCard(e.State(), idx);
      var conn := e.players[idx].connId;
      if !IsVirtualConn(conn) {
        SendTo(conn, e.YourTurnMessage(idx));
        return true;
      }
      done := AiPlay(rid, idx);
    }

    /** The AI branch of that pass: seat `idx`, an AI seat, plays the card the strategy chooses
        from its hand, its legal moves and the table. */
    method AiPlay(rid: RoomId, idx: nat) returns (over: bool)
      requires Sound() && rid in games && EngineOk(games[rid])
      requires AiDue(games[rid].State()) && games[rid].phase == WaitingForPlay(idx)
      modifies this, games[rid]
      ensures Sound()
      ensures clients == old(clients) && games == old(games) && connToRoom == old(connToRoom)
      ensures games[rid].State() == AiMove(old(games[rid].State()))
      ensures over <==> games[rid].phase == GamePhase.GameOver
      ensures PlaysLeft(games[rid].State()) < old(PlaysLeft(games[rid].State()))
      ensures outbox == old(outbox) + BroadcastEach(clients, games[rid].players, AiMessages(old(games[rid].State())))
      ensures NoYourTurn(outbox, |old(outbox)|, |outbox|)
    {
      var e := games[rid];
      DueSeatHoldsCard(e.State(), idx);
      var table := e.table;
      var card := ChooseCard(e.players[idx].hand, e.GetLegalMoves(idx), table, |table| == 0);
      assert card == AiCard(e.State(), idx);
      MoveProgress(e.State(), idx, card);
      over := MakeMove(rid, idx, card);
    }

    /** `process_ai_turns`: while the due seat is an AI seat, let the strategy choose its card and
        play it. The loop stops when the room has no engine, when the game is over, or when a human
        is due, who is then sent YOUR_TURN: the only YOUR_TURN the call sends. */
    method ProcessAiTurns(rid: RoomId)
      requires Sound()
      modifies this, EngineSet(rid)
      ensures Sound()
      ensures clients == old(clients) && games == old(games) && connToRoom == old(connToRoom)
      ensures rid in games ==> games[rid].phase == GamePhase.GameOver || AwaitsHuman(games[rid], clients, outbox)
      ensures rid in games ==> exists n :: games[rid].State() == AiMoves(old(games[rid].State()), n)
      ensures |old(outbox)| <= |outbox| && outbox[..|old(outbox)|] == old(outbox)
      ensures NoYourTurn(outbox, |old(outbox)|, |outbox| - 1)
    {
      if rid !in games {
        return;
      }
      ghost var st0 := games[rid].State();
      ghost var n := 0;
      while true
        invariant Sound() && rid in games
        invariant clients == old(clients) && games == old(games) && connToRoom == old(connToRoom)
        invariant games[rid].State() == AiMoves(st0, n)
        invariant |old(outbox)| <= |outbox| && outbox[..|old(outbox)|] == old(outbox)
        invariant NoYourTurn(outbox, |old(outbox)|, |outbox|)
        decreases PlaysLeft(games[rid].State())
      {
        ghost var before := outbox;
        var done := AiStep(rid);
        n := n + 1;
        NoYourTurnJoin(before, outbox, |old(outbox)|, if done then |outbox| - 1 else |outbox|);
        PrefixTrans(old(outbox), before, outbox);
        if done {
          assert games[rid].State() == AiMoves(st0, n);
          return;
        }
      }
    }

    /** A PLAY that passed validation: the move, and then the AI seats' turns unless the game
        just ended. */
    method PlayAccepted(rid: RoomId, idx: nat, card: Card)
      requires Sound() && rid in games && games[rid].Valid()
      requires games[rid].phase == WaitingForPlay(idx) && idx < |games[rid].players|
      requires card in games[rid].players[idx].hand
      modifies this, games[rid]
      ensures Sound()
      ensures clients == old(clients) && games == old(games) && connToRoom == old(connToRoom)
      ensures games[rid].phase == GamePhase.GameOver || AwaitsHuman(games[rid], clients, outbox)
      ensures var st := Moved(old(games[rid].State()), idx, card);
              exists n :: games[rid].State() == AiMoves(st, n)
      ensures var b := BroadcastEach(clients, Moved(old(games[rid].State()), idx, card).players,
                                     MoveMessages(old(games[rid].State()), idx, card));
              |old(outbox)| + |b| <= |outbox| && outbox[..|old(outbox)| + |b|] == old(outbox) + b
      ensures |old(outbox)| <= |outbox| && outbox[..|old(outbox)|] == old(outbox)
      ensures NoYourTurn(outbox, |old(outbox)|, |outbox| - 1)
    {
      ghost var st0 := games[rid].State();
      assert CanMove(st0, idx, card);
      var over := MakeMove(rid, idx, card);
      ghost var moved := games[rid].State();
      assert moved == Moved(st0, idx, card);
      ghost var before := outbox;
      assert moved == AiMoves(moved, 0);
      if !over {
        ProcessAiTurns(rid);
        NoYourTurnJoin(before, outbox, |old(outbox)|, |outbox| - 1);
        PrefixTrans(old(outbox), before, outbox);
        assert outbox[..|before|] == before;
      }
    }

    /** What the engine of `conn`'s room says of a PLAY of `card`, with the state it is in; none
        when the connection has no room or the room has no engine. */
    ghost function PlayVerdict(conn: ConnectionId, card: string): Option<(Result<(nat, Card), PlayError>, EngineState)>
      reads this, games.Values
    {
      if conn in connToRoom && connToRoom[conn] in games then
        var e := games[connToRoom[conn]];
        Some((e.ValidatePlay(conn, card), e.State()))
      else None
    }

    /** The outcome of `handle_play` from the outbox `before` and the engine's `verdict`: the
        errors for a connection without a room or a room without an engine; PLAY_REJECT with
        the reason for a play the engine rejects, the engine as it was; for an accepted play,
        the move's broadcasts, then the AI seats' turns, leaving the game over or waiting on a
        human who was sent YOUR_TURN. */
    ghost predicate PlayAnswered(conn: ConnectionId, card: string, before: seq<(ConnectionId, ServerMessage)>,
                                 verdict: Option<(Result<(nat, Card), PlayError>, EngineState)>)
      reads this, games.Values
    {
      (conn !in connToRoom ==> outbox == before + Sent(clients, conn, Error(ProtocolError, "Not in a game"))) &&
      (conn in connToRoom && connToRoom[conn] !in games ==>
         outbox == before + Sent(clients, conn, Error(ErrorCode.NotYourTurn, "Game not started"))) &&
      (conn in connToRoom && connToRoom[conn] in games && verdict.Some? ==>
         var rid := connToRoom[conn];
         var v := verdict.value.0;
         var st := verdict.value.1;
         (v.Err? ==> outbox == before + Sent(clients, conn, PlayReject(card, RejectReasonOf(v.error))) &&
                     games[rid].State() == st) &&
         (v.Ok? ==>
            var b := BroadcastEach(clients, Moved(st, v.value.0, v.value.1).players, MoveMessages(st, v.value.0, v.value.1));
            |before| + |b| <= |outbox| && outbox[..|before| + |b|] == before + b &&
            (exists n :: games[rid].State() == AiMoves(Moved(st, v.value.0, v.value.1), n)) &&
            (games[rid].phase == GamePhase.GameOver || AwaitsHuman(games[rid], clients, outbox))))
    }

    /** `handle_play`: a connection without a room gets PROTOCOL_ERROR, a room without an engine
        NOT_YOUR_TURN, and a play the engine rejects a PLAY_REJECT to the sender alone, with the
        engine untouched; an accepted play is made and the AI seats then take their turns, so the
        room's engine is left either over or waiting for a human who has been sent YOUR_TURN. */
    method HandlePlay(conn: ConnectionId, card: string)
      requires Sound()
      modifies this, if conn in connToRoom then EngineSet(connToRoom[conn]) else {}
      ensures Sound()
      ensures clients == old(clients) && games == old(games) && connToRoom == old(connToRoom)
      ensures PlayAnswered(conn, card, old(outbox), old(PlayVerdict(conn, card)))
      ensures conn !in connToRoom || connToRoom[conn] !in games ==> unchanged(games.Values)
      ensures conn in connToRoom && connToRoom[conn] in games && old(games[connToRoom[conn]].ValidatePlay(conn, card)).Err? ==>
                unchanged(games.Values)
    {
      if conn !in connToRoom {
        SendTo(conn, Error(ProtocolError, "Not in a game"));
        return;
      }
      var rid := connToRoom[conn];
      if rid !in games {
        SendTo(conn, Error(ErrorCode.NotYourTurn, "Game not started"));
        return;
      }
      var e := games[rid];
      assert e in games.Values && EngineOk(e);
      var v := e.ValidatePlay(conn, card);
      if v.Err? {
        SendTo(conn, PlayReject(card, RejectReasonOf(v.error)));
        return;
      }
      PlayAccepted(rid, v.value.0, v.value.1);
    }

    /** The `Connected` event: the connection is registered. */
    method HandleConnected(conn: ConnectionId)
      requires Sound() && !IsVirtualConn(conn)
      modifies this
      ensures Sound()
      ensures clients == old(clients) + {conn}
      ensures games == old(games) && connToRoom == old(connToRoom) && outbox == old(outbox)
    {
      clients := clients + {conn};
    }

    /** `send_to` for each connection in turn, all with the same message. */
    method SendToAll(conns: seq<ConnectionId>, msg: ServerMessage)
      requires Sound()
      modifies this
      ensures Sound()
      ensures outbox == old(outbox) + SentAll(clients, conns, msg)
      ensures clients == old(clients) && games == old(games) && connToRoom == old(connToRoom)
    {
      var i := 0;
      while i < |conns|
        invariant 0 <= i <= |conns| && Sound()
        invariant outbox == old(outbox) + SentAll(clients, conns[..i], msg)
        invariant clients == old(clients) && games == old(games) && connToRoom == old(connToRoom)
      {
        assert conns[..i + 1][..i] == conns[..i];
        SendTo(conns[i], msg);
        i := i + 1;
      }
      assert conns[..i] == conns;
    }

    /** The loop of `start_game` over the DEAL messages: only real connections are sent theirs. */
    method SendDeals(deals: seq<(ConnectionId, ServerMessage)>)
      requires Sound()
      modifies this
      ensures Sound()
      ensures outbox == old(outbox) + DealsSent(clients, deals)
      ensures clients == old(clients) && games == old(games) && connToRoom == old(connToRoom)
    {
      var i := 0;
      while i < |deals|
        invariant 0 <= i <= |deals| && Sound()
        invariant outbox == old(outbox) + DealsSent(clients, deals[..i])
        invariant clients == old(clients) && games == old(games) && connToRoom == old(connToRoom)
      {
        assert deals[..i + 1][..i] == deals[..i];
        if !IsVirtualConn(deals[i].0) {
          SendTo(deals[i].0, deals[i].1);
        }
        i := i + 1;
      }
      assert deals[..i] == deals;
    }

    /** `games.insert(room_id, engine)` for a dealt engine no room holds yet. */
    method InstallEngine(rid: RoomId, e: GameEngine)
      requires Sound() && e.Valid() && Settled(e) && e !in games.Values
      modifies this
      ensures Sound()
      ensures games == old(games)[rid := e]
      ensures clients == old(clients) && connToRoom == old(connToRoom) && outbox == old(outbox)
    {
      var g := games[rid := e];
      forall r, s | r in g && s in g && g[r] == g[s]
        ensures r == s
      {
        if r != rid && s != rid {
          assert games[r] == games[s];
        }
      }
      games := games[rid := e];
    }

    /** The DEAL messages go out and the dealt engine is filed under the room id. */
    method Launch(rid: RoomId, e: GameEngine, deals: seq<(ConnectionId, ServerMessage)>)
      requires Sound() && e.Valid() && Settled(e) && e !in games.Values
      modifies this
      ensures Sound()
      ensures games == old(games)[rid := e]
      ensures clients == old(clients) && connToRoom == old(connToRoom)
      ensures outbox == old(outbox) + DealsSent(clients, deals)
    {
      SendDeals(deals);
      InstallEngine(rid, e);
    }

    /** `start_game`: a new engine for the room's seats deals, the real connections get their DEAL,
        the engine is filed under the room id, and the AI seats take their turns. */
    method StartGame(rid: RoomId, seed: u64, seats: seq<(ConnectionId, PlayerId, Team)>)
      requires Valid() && |seats| >= 4
      modifies this
      ensures Valid()
      ensures clients == old(clients) && connToRoom == old(connToRoom)
      ensures games.Keys == old(games).Keys + {rid} && fresh(games[rid])
      ensures forall r :: r in old(games) && r != rid ==> games[r] == old(games)[r]
      ensures games[rid].phase == GamePhase.GameOver || AwaitsHuman(games[rid], clients, outbox)
      ensures PlayedFromDeal(games[rid].State(), seed, seats)
      ensures DealsQueued(old(outbox), outbox, clients, seed, seats)
    {
      var e, deals := NewDealtEngine(seed, seats);
      Launch(rid, e, deals);
      ghost var before := outbox;
      assert e.State() == AiMoves(e.State(), 0);
      ProcessAiTurns(rid);
      assert outbox[..|before|] == before;
    }

    /** The seating step of `handle_hello`: the room seats the player, and the connection is
        associated with the room in the manager and in the server's own map. */
    method JoinRoom(room: Room, conn: ConnectionId, playerId: PlayerId, nickname: string, role: Role)
      returns (ghost k: nat)
      requires Valid() && room.id in manager.rooms && manager.rooms[room.id] == room && Joinable(room)
      modifies this, manager, room
      ensures Valid()
      ensures manager.rooms == old(manager.rooms) && manager.nextRoomId == old(manager.nextRoomId)
      ensures manager.bridgeMode == old(manager.bridgeMode)
      ensures manager.connToRoom == old(manager.connToRoom)[conn := room.id]
      ensures connToRoom == old(connToRoom)[conn := room.id]
      ensures clients == old(clients) && games == old(games) && outbox == old(outbox)
      ensures room.state == old(room.state) && room.seed == old(room.seed) && room.Bounded()
      ensures room.players == WithSeat(old(room.players), room.bridgeMode, Newcomer(conn, playerId, nickname, role, room.bridgeMode))
      ensures room.nicknames == old(room.nicknames) + {nickname}
      ensures k < |room.players| && room.players[k].connId == conn && room.players[k].playerId == playerId &&
              room.players[k].nickname == nickname && room.players[k].role == role
    {
      connToRoom := connToRoom[conn := room.id];
      k := SeatPlayer(manager, room, conn, playerId, nickname, role);
    }

    /** The start of a full room in `handle_hello`: the room is marked Playing and its teams are
        assigned; the seats are handed to the engine with their teams. */
    method OpenRoom(room: Room) returns (seats: seq<(ConnectionId, PlayerId, Team)>)
      requires manager.Valid() && room.id in manager.rooms && manager.rooms[room.id] == room && room.CanStart()
      modifies room
      ensures manager.Valid()
      ensures room.state == Playing && room.seed == old(room.seed) && room.nicknames == old(room.nicknames) && room.CanStart()
      ensures room.players == if room.bridgeMode then old(room.players) else ClassicTeams(old(room.players))
      ensures seats == EngineSeats(room.players) && |seats| >= MAX_PLAYERS
    {
      var rooms, n := manager.rooms, manager.nextRoomId;
      RoomsOkSplit(rooms, n, room.id);
      CanStartSeatsFour(room);
      if !room.bridgeMode {
        ClassicCanStart(room);
      }
      ghost var before := room.players;
      room.state := Playing;
      room.AssignTeams();
      if !room.bridgeMode {
        SameRolesSameHumans(before, room.players);
        ClassicCanStart(room);
      }
      assert RoomOk(room, room.id, n) && RoomsOk(rooms - {room.id}, n);
      RoomsOkSplit(rooms, n, room.id);
      seats := EngineSeats(room.players);
    }

    /** The room is opened and ROOM_START goes to every seat. */
    method OpenAndAnnounce(room: Room) returns (seats: seq<(ConnectionId, PlayerId, Team)>)
      requires Valid() && room.id in manager.rooms && manager.rooms[room.id] == room && room.CanStart()
      modifies this, room
      ensures Valid()
      ensures room.state == Playing && room.seed == old(room.seed) && room.nicknames == old(room.nicknames) && room.CanStart()
      ensures room.players == if room.bridgeMode then old(room.players) else ClassicTeams(old(room.players))
      ensures seats == EngineSeats(room.players) && |seats| >= MAX_PLAYERS
      ensures outbox == old(outbox) + SentAll(clients, ConnIds(room.players), room.RoomStartMessage())
      ensures clients == old(clients) && games == old(games) && connToRoom == old(connToRoom)
    {
      seats := OpenRoom(room);
      SendToAll(ConnIds(room.players), room.RoomStartMessage());
    }

    /** The first half of `handle_hello`'s success branch: the player is seated, WELCOME goes to
        the newcomer and ROOM_WAIT to every seat of the room. */
    method Greet(room: Room, conn: ConnectionId, welcome: ServerMessage, role: Role) returns (ghost k: nat)
      requires Valid() && room.id in manager.rooms && manager.rooms[room.id] == room && Joinable(room)
      requires welcome.Welcome?
      modifies this, manager, room
      ensures Valid()
      ensures manager.rooms == old(manager.rooms) && manager.nextRoomId == old(manager.nextRoomId)
      ensures manager.bridgeMode == old(manager.bridgeMode)
      ensures manager.connToRoom == old(manager.connToRoom)[conn := room.id]
      ensures connToRoom == old(connToRoom)[conn := room.id] && clients == old(clients) && games == old(games)
      ensures room.state == old(room.state) && room.seed == old(room.seed) && room.Bounded()
      ensures room.players ==
              WithSeat(old(room.players), room.bridgeMode, Newcomer(conn, welcome.playerId, welcome.nickname, role, room.bridgeMode))
      ensures room.nicknames == old(room.nicknames) + {welcome.nickname}
      ensures outbox == old(outbox) + Sent(clients, conn, welcome) + SentAll(clients, ConnIds(room.players), room.RoomWaitMessage())
      ensures k < |room.players| && room.players[k].connId == conn && room.players[k].playerId == welcome.playerId &&
              room.players[k].nickname == welcome.nickname && room.players[k].role == role
    {
      k := JoinRoom(room, conn, welcome.playerId, welcome.nickname, role);
      SendTo(conn, welcome);
      SendToAll(ConnIds(room.players), room.RoomWaitMessage());
    }

    /** The second half: a room that can start is marked Playing with its teams assigned,
        ROOM_START goes to every seat, and the game starts. */
    method BeginGame(room: Room)
      requires Valid() && room.id in manager.rooms && manager.rooms[room.id] == room && room.CanStart()
      modifies this, room
      ensures Valid()
      ensures connToRoom == old(connToRoom) && clients == old(clients) && unchanged(manager)
      ensures room.state == Playing && room.nicknames == old(room.nicknames) && room.seed == old(room.seed) && room.CanStart()
      ensures room.players == if room.bridgeMode then old(room.players) else ClassicTeams(old(room.players))
      ensures games.Keys == old(games).Keys + {room.id}
      ensures forall r :: r in old(games) && r != room.id ==> games[r] == old(games)[r]
      ensures room.id in games && (games[room.id].phase == GamePhase.GameOver || AwaitsHuman(games[room.id], clients, outbox))
      ensures StartSent(old(outbox), outbox, clients, room)
      ensures PlayedFromDeal(games[room.id].State(), room.seed, EngineSeats(room.players))
    {
      var seats := OpenAndAnnounce(room);
      StartGame(room.id, room.seed, seats);
    }

    /** What admitting the HELLO of `conn` to `room` did, from the room's seats `seated` and
        nicknames `names`, the outbox `before` and the engines `engines` beforehand: `joined` is
        `seated` with the newcomer seated as `add_player` does, at seat `k`, and the nickname is
        now in use;
        WELCOME went to it and ROOM_WAIT `wait`, listing `joined` and the seats still needed, to
        every seat. A room that can now start is Playing (with Classic teams assigned) and its
        game was dealt from the room's seed, ROOM_START and the DEALs going out next, and the
        game is over or waits on a human who was sent YOUR_TURN; any other
        room still waits and no engine was added. */
    ghost predicate Welcomed(room: Room, seated: seq<Player>, names: set<string>, before: seq<(ConnectionId, ServerMessage)>,
                             engines: map<RoomId, GameEngine>, conn: ConnectionId, welcome: ServerMessage, role: Role,
                             k: nat, joined: seq<Player>, wait: ServerMessage)
      reads this, room, games.Values
    {
      welcome.Welcome? &&
      joined == WithSeat(seated, room.bridgeMode, Newcomer(conn, welcome.playerId, welcome.nickname, role, room.bridgeMode)) &&
      room.nicknames == names + {welcome.nickname} &&
      k < |joined| && joined[k].connId == conn && joined[k].playerId == welcome.playerId &&
      joined[k].nickname == welcome.nickname && joined[k].role == role &&
      room.players == (if room.state == Playing && !room.bridgeMode then ClassicTeams(joined) else joined) &&
      wait.RoomWait? && wait == RoomWait(room.id, PlayerInfos(joined), wait.need) &&
      (room.bridgeMode ==> wait.need + HumanCount(joined) == REQUIRED_HUMANS) &&
      (!room.bridgeMode ==> wait.need + |joined| == MAX_PLAYERS) &&
      (room.state == Playing <==> room.CanStart()) &&
      var greeted := before + Sent(clients, conn, welcome) + SentAll(clients, ConnIds(joined), wait);
      (room.state == Playing ==>
         games.Keys == engines.Keys + {room.id} && (forall r :: r in engines && r != room.id ==> games[r] == engines[r]) &&
         PlayedFromDeal(games[room.id].State(), room.seed, EngineSeats(room.players)) &&
         (games[room.id].phase == GamePhase.GameOver || AwaitsHuman(games[room.id], clients, outbox)) &&
         StartSent(greeted, outbox, clients, room)) &&
      (room.state != Playing ==> room.state == Waiting && games == engines && outbox == greeted)
    }

    /** The success branch of `handle_hello`. */
    method Admit(room: Room, conn: ConnectionId, welcome: ServerMessage, role: Role)
      returns (ghost k: nat, ghost joined: seq<Player>, ghost wait: ServerMessage)
      requires Valid() && room.id in manager.rooms && manager.rooms[room.id] == room && Joinable(room)
      requires welcome.Welcome?
      modifies this, manager, room
      ensures Valid()
      ensures manager.rooms == old(manager.rooms) && manager.nextRoomId == old(manager.nextRoomId)
      ensures manager.bridgeMode == old(manager.bridgeMode)
      ensures manager.connToRoom == old(manager.connToRoom)[conn := room.id]
      ensures connToRoom == old(connToRoom)[conn := room.id] && clients == old(clients) && room.seed == old(room.seed)
      ensures Welcomed(room, old(room.players), old(room.nicknames), old(outbox), old(games), conn, welcome, role, k, joined, wait)
    {
      k := Greet(room, conn, welcome, role);
      joined, wait := room.players, room.RoomWaitMessage();
      ghost var greeted := outbox;
      assert greeted == old(outbox) + Sent(clients, conn, welcome) + SentAll(clients, ConnIds(joined), wait);
      if room.CanStart() {
        BeginGame(room);
      }
    }


    /** The outcome of `handle_hello` for a HELLO from `conn`, from the manager's rooms `rooms`,
        their contents `views` and its counter `next`, the outbox `before`, the engines `engines`
        and the connection maps `links` (the server's) and `managerLinks` (the manager's): the
        lobby chose `room` (`LobbyChose`), whose seats were `seated` and nicknames `names`, and
        `res` is `process_hello` on them with the room's next slot `slot`; it accepts exactly a
        supported version, a valid nickname length and the authentication the role needs. A
        rejected HELLO gets its ERROR and takes no seat; an accepted one gets WELCOME naming the
        room, the connection is associated with it in both maps, and it is admitted. */
    ghost predicate HelloAnswered(conn: ConnectionId, role: Role, nickname: string, proto: u32, auth: Option<string>,
                                  seed: u64, rnd: nat, room: Room, res: HandshakeResult, k: nat, joined: seq<Player>,
                                  wait: ServerMessage, seated: seq<Player>, names: set<string>, slot: u32,
                                  rooms: map<RoomId, Room>, views: map<RoomId, RoomView>, next: nat,
                                  before: seq<(ConnectionId, ServerMessage)>, engines: map<RoomId, GameEngine>,
                                  links: map<ConnectionId, RoomId>, managerLinks: map<ConnectionId, RoomId>)
      reads this, manager, manager.rooms.Values, room, games.Values
    {
      room.id in manager.rooms && manager.rooms[room.id] == room && ViewsKept(views, manager.Views(), room.id) &&
      LobbyChose(room, manager.rooms, manager.nextRoomId as nat, manager.bridgeMode, room.seed, rooms, views, next, seed,
                 seated, names) &&
      slot as nat == (if room.bridgeMode then HumanCount(seated) else |seated|) + 1 &&
      rnd < 0x10000 && res == ProcessHello(role, nickname, proto, auth, names, slot, room.id, aiToken, rnd) &&
      (res.Success? <==> !BadVersionOrLength(proto, nickname) && AuthOk(role, auth, aiToken)) &&
      HelloSettled(conn, role, room, res, k, joined, wait, seated, names, before, engines, links, managerLinks)
    }

    /** The part of that outcome that follows the verdict `res`. */
    ghost predicate HelloSettled(conn: ConnectionId, role: Role, room: Room, res: HandshakeResult, k: nat,
                                 joined: seq<Player>, wait: ServerMessage, seated: seq<Player>, names: set<string>,
                                 before: seq<(ConnectionId, ServerMessage)>,
                                 engines: map<RoomId, GameEngine>, links: map<ConnectionId, RoomId>,
                                 managerLinks: map<ConnectionId, RoomId>)
      reads this, manager, room, games.Values
    {
      (res.Failure? ==>
         res.msg.Error? && outbox == before + Sent(clients, conn, res.msg) &&
         connToRoom == links && games == engines && room.state == Waiting &&
         room.players == seated && room.nicknames == names) &&
      (res.Success? ==>
         res.msg.Welcome? && res.msg.room == room.id &&
         connToRoom == links[conn := room.id] && manager.connToRoom == managerLinks[conn := room.id] &&
         Welcomed(room, seated, names, before, engines, conn, res.msg, role, k, joined, wait))
    }

    /** `handle_hello`: the lobby picks (or opens) a waiting room that is not full, and the HELLO
        is checked against it; a rejected HELLO gets its ERROR and takes no seat, an accepted one
        is admitted. `room` and `res` expose the room chosen and the handshake's outcome; `seed`
        stands for the new room's `generate_seed()` and `rnd` for `rand_u16()`. The `RoomFull`
        branch of the source cannot be taken: the room chosen is never full. */
    method HandleHello(conn: ConnectionId, role: Role, nickname: string, proto: u32, auth: Option<string>,
                       seed: u64, rnd: nat)
      returns (room: Room, res: HandshakeResult, ghost k: nat, ghost joined: seq<Player>, ghost wait: ServerMessage,
               ghost seated: seq<Player>, ghost names: set<string>, ghost slot: u32)
      requires Valid() && rnd < 0x10000
      requires manager.nextRoomId < 0xFFFF_FFFF || exists id :: id in manager.rooms && Joinable(manager.rooms[id])
      modifies this, manager, manager.rooms.Values
      ensures Valid() && clients == old(clients)
      ensures HelloAnswered(conn, role, nickname, proto, auth, seed, rnd, room, res, k, joined, wait, seated, names, slot,
                            old(manager.rooms), old(manager.Views()), old(manager.nextRoomId) as nat,
                            old(outbox), old(games), old(connToRoom), old(manager.connToRoom))
    {
      room := Lobby(seed);
      seated, names, slot := room.players, room.nicknames, room.NextSlot();
      res := ProcessHello(role, nickname, proto, auth, room.nicknames, room.NextSlot(), room.id, aiToken, rnd);
      k, joined, wait := AnswerHello(conn, role, room, res);
    }

    /** `get_or_create_waiting_room` as `handle_hello` calls it. */
    method Lobby(seed: u64) returns (room: Room)
      requires Valid()
      requires manager.nextRoomId < 0xFFFF_FFFF || exists id :: id in manager.rooms && Joinable(manager.rooms[id])
      modifies manager
      ensures Valid() && manager.connToRoom == old(manager.connToRoom)
      ensures room.id in manager.rooms && manager.rooms[room.id] == room && Joinable(room) && room.Bounded()
      ensures manager.rooms == old(manager.rooms)[room.id := room] && (fresh(room) || room in old(manager.rooms).Values)
      ensures LobbyChose(room, manager.rooms, manager.nextRoomId as nat, manager.bridgeMode, room.seed,
                         old(manager.rooms), old(manager.Views()), old(manager.nextRoomId) as nat, seed,
                         room.players, room.nicknames)
      ensures ViewsKept(old(manager.Views()), manager.Views(), room.id)
    {
      room := manager.GetOrCreateWaitingRoom(seed);
      assert RoomOk(room, room.id, manager.nextRoomId);
    }

    /** The rest of `handle_hello` once the handshake has given its verdict `res`: an ERROR to
        the sender, or the admission. */
    method AnswerHello(conn: ConnectionId, role: Role, room: Room, res: HandshakeResult)
      returns (ghost k: nat, ghost joined: seq<Player>, ghost wait: ServerMessage)
      requires Valid() && room.id in manager.rooms && manager.rooms[room.id] == room && Joinable(room)
      requires res.Failure? ==> res.msg.Error?
      requires res.Success? ==> res.msg.Welcome? && res.msg.room == room.id
      modifies this, manager, room
      ensures Valid() && clients == old(clients)
      ensures ViewsKept(old(manager.Views()), manager.Views(), room.id)
      ensures manager.rooms == old(manager.rooms) && manager.nextRoomId == old(manager.nextRoomId)
      ensures manager.bridgeMode == old(manager.bridgeMode) && room.seed == old(room.seed)
      ensures HelloSettled(conn, role, room, res, k, joined, wait, old(room.players), old(room.nicknames), old(outbox),
                           old(games), old(connToRoom), old(manager.connToRoom))
    {
      if res.Failure? {
        k, joined, wait := 0, room.players, res.msg;
        SendTo(conn, res.msg);
      } else {
        k, joined, wait := Admit(room, conn, res.msg, role);
      }
      forall r | r in manager.rooms && r != room.id
        ensures manager.rooms[r] != room
      {
        assert RoomOk(manager.rooms[r], r, manager.nextRoomId);
      }
      manager.ViewsBeside(room.id);
    }

    /** The room filed under `rid`, if there is one: all that a step on that room may change. */
    function RoomSet(rid: RoomId): set<Room>
      reads this, manager
    {
      if rid in manager.rooms then {manager.rooms[rid]} else {}
    }

    /** `games.remove(room_id)`. */
    method DropEngine(rid: RoomId)
      requires Sound()
      modifies this
      ensures Sound()
      ensures games == old(games) - {rid}
      ensures clients == old(clients) && connToRoom == old(connToRoom) && outbox == old(outbox)
    {
      var g := games - {rid};
      forall e | e in g.Values
        ensures EngineOk(e)
      {
        var r :| r in g && g[r] == e;
        assert games[r] == e && e in games.Values;
      }
      games := g;
    }

    /** The loop of `handle_bridge_mode_disconnect` that forgets the evicted humans' rooms. */
    method ForgetConns(conns: seq<ConnectionId>)
      requires Sound()
      modifies this
      ensures Sound()
      ensures connToRoom == old(connToRoom) - Elements(conns)
      ensures clients == old(clients) && games == old(games) && outbox == old(outbox)
    {
      var i := 0;
      while i < |conns|
        invariant 0 <= i <= |conns| && Sound()
        invariant connToRoom == old(connToRoom) - (set j | 0 <= j < i :: conns[j])
        invariant clients == old(clients) && games == old(games) && outbox == old(outbox)
      {
        assert (set j | 0 <= j < i + 1 :: conns[j]) == (set j | 0 <= j < i :: conns[j]) + {conns[i]};
        connToRoom := connToRoom - {conns[i]};
        i := i + 1;
      }
      assert (set j | 0 <= j < i :: conns[j]) == Elements(conns);
    }

    /** `send_to` of each message in turn to one connection. */
    method SendEach(c: ConnectionId, msgs: seq<ServerMessage>)
      requires Sound()
      modifies this
      ensures Sound()
      ensures outbox == old(outbox) + SentEach(clients, c, msgs)
      ensures clients == old(clients) && games == old(games) && connToRoom == old(connToRoom)
    {
      var i := 0;
      while i < |msgs|
        invariant 0 <= i <= |msgs| && Sound()
        invariant outbox == old(outbox) + SentEach(clients, c, msgs[..i])
        invariant clients == old(clients) && games == old(games) && connToRoom == old(connToRoom)
      {
        assert msgs[..i + 1][..i] == msgs[..i];
        SendTo(c, msgs[i]);
        i := i + 1;
      }
      assert msgs[..i] == msgs;
    }

    /** A notice loop over a room's seats: every seat with a real connection is sent the messages. */
    method NotifySeats(ps: seq<Player>, msgs: seq<ServerMessage>)
      requires Valid()
      modifies this
      ensures Valid()
      ensures outbox == old(outbox) + Notices(clients, ps, msgs)
      ensures clients == old(clients) && games == old(games) && connToRoom == old(connToRoom)
    {
      var i := 0;
      while i < |ps|
        invariant 0 <= i <= |ps| && Valid()
        invariant outbox == old(outbox) + Notices(clients, ps[..i], msgs)
        invariant clients == old(clients) && games == old(games) && connToRoom == old(connToRoom)
      {
        assert ps[..i + 1][..i] == ps[..i];
        if !IsVirtualConn(ps[i].connId) {
          SendEach(ps[i].connId, msgs);
        }
        i := i + 1;
      }
      assert ps[..i] == ps;
    }

    /** The engine of a Bridge room is discarded and the room is reset: its humans are evicted,
        its AI seats kept, and it waits again under a new seed. */
    method ClearRoom(room: Room, newSeed: u64) returns (removed: seq<ConnectionId>)
      requires Valid() && room.id in manager.rooms && manager.rooms[room.id] == room && room.bridgeMode
      modifies this, room
      ensures Valid()
      ensures games == old(games) - {room.id}
      ensures clients == old(clients) && connToRoom == old(connToRoom) && outbox == old(outbox)
      ensures removed == HumanConns(old(room.players))
      ensures room.players == AiSeats(old(room.players)) && room.nicknames == AiNicknames(old(room.nicknames))
      ensures room.state == Waiting && room.seed == newSeed
    {
      DropEngine(room.id);
      removed := ResetSeats(manager, room, newSeed);
    }

    /** A Bridge room is cleared and its evicted humans lose their room in `conn_to_room`. */
    method EvictRoom(room: Room, newSeed: u64)
      requires Valid() && room.id in manager.rooms && manager.rooms[room.id] == room && room.bridgeMode
      modifies this, room
      ensures Valid()
      ensures games == old(games) - {room.id} && clients == old(clients) && outbox == old(outbox)
      ensures connToRoom == old(connToRoom) - Elements(HumanConns(old(room.players)))
      ensures room.players == AiSeats(old(room.players)) && room.nicknames == AiNicknames(old(room.nicknames))
      ensures room.state == Waiting && room.seed == newSeed
    {
      var removed := ClearRoom(room, newSeed);
      ForgetConns(removed);
    }

    /** The notice loop of `handle_bridge_mode_disconnect`, after the reset: every seat of the room
        with a real connection is sent the reset notice and then ROOM_WAIT. */
    method AnnounceReset(room: Room)
      requires Valid() && room.id in manager.rooms && manager.rooms[room.id] == room
      modifies this
      ensures Valid() && room.Bounded()
      ensures games == old(games) && clients == old(clients) && connToRoom == old(connToRoom)
      ensures outbox == old(outbox) +
                        Notices(clients, room.players, [Error(ProtocolError, DISCONNECT_RESET_NOTICE), room.RoomWaitMessage()])
    {
      assert RoomOk(room, room.id, manager.nextRoomId);
      NotifySeats(room.players, [Error(ProtocolError, DISCONNECT_RESET_NOTICE), room.RoomWaitMessage()]);
    }

    /** `handle_bridge_mode_disconnect`: the connection's seat leaves the room; if the room was a
        Bridge room in play, its engine is discarded, the room is reset (`EvictRoom`) and the seats
        left are told (`AnnounceReset`).
        Otherwise nothing else changes (a Classic game goes on without the seat). The seed stands
        for the reset's `generate_seed()`. */
    method HandleBridgeModeDisconnect(conn: ConnectionId, rid: RoomId, newSeed: u64)
      requires Valid() && !IsVirtualConn(conn)
      modifies this, RoomSet(rid)
      ensures Valid()
      ensures clients == old(clients)
      ensures rid !in manager.rooms ==>
                games == old(games) && connToRoom == old(connToRoom) && outbox == old(outbox)
      ensures rid in manager.rooms ==>
                var room := manager.rooms[rid];
                var (ps, ns, p) := Removal(old(room.players), old(room.nicknames), conn);
                if room.bridgeMode && old(room.state) == Playing then
                  games == old(games) - {rid} && room.state == Waiting && room.seed == newSeed &&
                  room.players == AiSeats(ps) && room.nicknames == AiNicknames(ns) &&
                  connToRoom == old(connToRoom) - Elements(HumanConns(ps)) && room.Bounded() &&
                  outbox == old(outbox) +
                            Notices(clients, room.players, [Error(ProtocolError, DISCONNECT_RESET_NOTICE), room.RoomWaitMessage()])
                else
                  room.players == ps && room.nicknames == ns && room.state == old(room.state) &&
                  games == old(games) && connToRoom == old(connToRoom) && outbox == old(outbox)
    {
      if rid !in manager.rooms {
        return;
      }
      var room := manager.rooms[rid];
      assert RoomOk(room, rid, manager.nextRoomId);
      var wasPlaying := room.state == Playing;
      var _ := DropSeat(manager, room, conn);
      if room.bridgeMode && wasPlaying {
        EvictRoom(room, newSeed);
        AnnounceReset(room);
      }
    }

    /** The `Disconnected` event: the connection is unregistered; if the server had it in a room,
        that room's seat is handled by `handle_bridge_mode_disconnect` (the manager's own map
        keeps the connection), otherwise the manager forgets it and frees its seat. */
    method HandleDisconnected(conn: ConnectionId, newSeed: u64)
      requires Valid() && !IsVirtualConn(conn)
      modifies this, manager, manager.rooms.Values
      ensures Valid()
      ensures clients == old(clients) - {conn} && conn !in connToRoom
      ensures manager.rooms == old(manager.rooms)
      ensures conn in old(connToRoom) ==>
                manager.connToRoom == old(manager.connToRoom) && connToRoom.Keys <= old(connToRoom).Keys &&
                games.Keys <= old(games).Keys
      ensures conn !in old(connToRoom) ==>
                manager.connToRoom == old(manager.connToRoom) - {conn} &&
                connToRoom == old(connToRoom) && games == old(games) && outbox == old(outbox)
    {
      clients := clients - {conn};
      if conn in connToRoom {
        var rid := connToRoom[conn];
        connToRoom := connToRoom - {conn};
        HandleBridgeModeDisconnect(conn, rid, newSeed);
      } else {
        var _ := manager.HandleDisconnect(conn);
      }
    }

    /** `handle_message`: PING is answered with PONG and changes nothing else; HELLO and PLAY go to
        their handlers. `seed` and `rnd` stand for the clock readings `handle_hello` may take. */
    method HandleMessage(conn: ConnectionId, msg: ClientMessage, seed: u64, rnd: nat)
      requires Valid()
      requires msg.Hello? ==> rnd < 0x10000
      requires msg.Hello? ==>
                 manager.nextRoomId < 0xFFFF_FFFF || exists id :: id in manager.rooms && Joinable(manager.rooms[id])
      modifies this, manager, manager.rooms.Values, games.Values
      ensures Valid()
      ensures clients == old(clients)
      ensures msg.Ping? ==>
                outbox == old(outbox) + Sent(clients, conn, Pong) &&
                games == old(games) && connToRoom == old(connToRoom) && unchanged(manager) &&
                manager.Views() == old(manager.Views())
      ensures msg.Hello? ==>
                var rooms, views, next := old(manager.rooms), old(manager.Views()), old(manager.nextRoomId) as nat;
                exists room, res, k, joined, wait, seated, names, slot ::
                  HelloAnswered(conn, msg.role, msg.nickname, msg.proto, msg.auth, seed, rnd, room, res, k, joined,
                                wait, seated, names, slot, rooms, views, next, old(outbox), old(games), old(connToRoom),
                                old(manager.connToRoom))
      ensures msg.Play? ==> games == old(games) && connToRoom == old(connToRoom) && unchanged(manager) &&
                            manager.Views() == old(manager.Views())
      ensures msg.Play? ==> PlayAnswered(conn, msg.card, old(outbox), old(PlayVerdict(conn, msg.card)))
    {
      match msg
      case Ping =>
        SendTo(conn, Pong);
        manager.ViewsSame();
      case Hello(role, nickname, proto, auth) =>
        var room, res, k, joined, wait, seated, names, slot := HandleHello(conn, role, nickname, proto, auth, seed, rnd);
      case Play(card) =>
        HandlePlay(conn, card);
        manager.ViewsSame();
    }

    /** The room side of a kick: the seat leaves; when a seat really left a Bridge room in play, the
        engine is discarded and the room reset, and, unlike a disconnect, the evicted humans keep
        their `conn_to_room` entries. */
    method KickSeat(conn: ConnectionId, rid: RoomId, newSeed: u64)
      requires Valid() && !IsVirtualConn(conn)
      modifies this, RoomSet(rid)
      ensures Valid()
      ensures clients == old(clients) && connToRoom == old(connToRoom) && outbox == old(outbox)
      ensures rid !in manager.rooms ==> games == old(games)
      ensures rid in manager.rooms ==>
                var room := manager.rooms[rid];
                var (ps, ns, p) := Removal(old(room.players), old(room.nicknames), conn);
                if p.Some? && room.bridgeMode && old(room.state) == Playing then
                  games == old(games) - {rid} && room.players == AiSeats(ps) && room.nicknames == AiNicknames(ns) &&
                  room.state == Waiting && room.seed == newSeed
                else
                  games == old(games) && room.players == ps && room.nicknames == ns &&
                  room.state == old(room.state) && room.seed == old(room.seed)
    {
      if rid !in manager.rooms {
        return;
      }
      var room := manager.rooms[rid];
      assert RoomOk(room, rid, manager.nextRoomId);
      var wasPlaying := room.state == Playing;
      var p := DropSeat(manager, room, conn);
      if p.Some? && room.bridgeMode && wasPlaying {
        var _ := ClearRoom(room, newSeed);
      }
    }

    /** The `KickPlayer` admin event. `found` stands for `find_player_conn(player_id)`, the
        connection and room of a seat with that player id. A missing player and an AI seat are
        refused with nothing changed; otherwise the connection is sent the kick notice, is
        unregistered and loses its room, and its seat is handled as in `KickSeat`. */
    method HandleKick(playerId: PlayerId, found: Option<(ConnectionId, RoomId)>, newSeed: u64)
      returns (resp: Commands.AdminResponse)
      requires Valid()
      modifies this, if found.Some? then RoomSet(found.value.1) else {}
      ensures Valid()
      ensures found.None? ==>
                resp == Commands.AdminResponse.Error("Player " + playerId + " not found") &&
                clients == old(clients) && connToRoom == old(connToRoom) && games == old(games) && outbox == old(outbox)
      ensures found.Some? && IsVirtualConn(found.value.0) ==>
                resp == Commands.AdminResponse.Error("Cannot kick AI player") &&
                clients == old(clients) && connToRoom == old(connToRoom) && games == old(games) && outbox == old(outbox)
      ensures found.Some? && !IsVirtualConn(found.value.0) ==>
                var (conn, rid) := found.value;
                resp == Commands.AdminResponse.Ok("Player " + playerId + " kicked from " + rid) &&
                clients == old(clients) - {conn} && connToRoom == old(connToRoom) - {conn} &&
                outbox == old(outbox) + Sent(old(clients), conn, Error(ProtocolError, KICK_NOTICE)) &&
                (games == old(games) || games == old(games) - {rid})
      ensures found.Some? && !IsVirtualConn(found.value.0) && found.value.1 in manager.rooms ==>
                var (conn, rid) := found.value;
                var room := manager.rooms[rid];
                var (ps, ns, p) := Removal(old(room.players), old(room.nicknames), conn);
                if p.Some? && room.bridgeMode && old(room.state) == Playing then
                  games == old(games) - {rid} && room.players == AiSeats(ps) && room.nicknames == AiNicknames(ns) &&
                  room.state == Waiting && room.seed == newSeed
                else
                  games == old(games) && room.players == ps && room.nicknames == ns &&
                  room.state == old(room.state) && room.seed == old(room.seed)
      ensures found.Some? && !IsVirtualConn(found.value.0) && found.value.1 !in manager.rooms ==> games == old(games)
    {
      if found.None? {
        return Commands.AdminResponse.Error("Player " + playerId + " not found");
      }
      var (conn, rid) := found.value;
      if IsVirtualConn(conn) {
        return Commands.AdminResponse.Error("Cannot kick AI player");
      }
      SendTo(conn, Error(ProtocolError, KICK_NOTICE));
      clients, connToRoom := clients - {conn}, connToRoom - {conn};
      KickSeat(conn, rid, newSeed);
      resp := Commands.AdminResponse.Ok("Player " + playerId + " kicked from " + rid);
    }

    /** The body of an admin reset of one room: every seat with a real connection is sent the
        reset notice, then the room is reopened (`Reopen`). */
    method AdminReset(room: Room, newSeed: u64)
      requires Valid() && room.id in manager.rooms && manager.rooms[room.id] == room
      modifies this, room
      ensures Valid()
      ensures games == old(games) && clients == old(clients) && connToRoom == old(connToRoom)
      ensures outbox == old(outbox) + Notices(clients, old(room.players), [Error(ProtocolError, ADMIN_RESET_NOTICE)])
      ensures room.state == Waiting
      ensures room.bridgeMode ==> room.players == AiSeats(old(room.players)) &&
                                  room.nicknames == AiNicknames(old(room.nicknames)) && room.seed == newSeed
      ensures !room.bridgeMode ==> room.players == old(room.players) && room.nicknames == old(room.nicknames) &&
                                   room.seed == old(room.seed)
      ensures ViewOf(room) == ResetView(old(ViewOf(room)), newSeed)
    {
      NotifySeats(room.players, [Error(ProtocolError, ADMIN_RESET_NOTICE)]);
      Reopen(manager, room, newSeed);
    }

    /** The `ResetRoom(Some(rid))` admin event: a missing room or one not in play is refused
        with nothing changed; otherwise its engine is discarded and it is reset as in
        `AdminReset`. `conn_to_room` is left alone. */
    method HandleResetRoom(rid: RoomId, newSeed: u64) returns (resp: Commands.AdminResponse)
      requires Valid()
      modifies this, RoomSet(rid)
      ensures Valid()
      ensures clients == old(clients) && connToRoom == old(connToRoom)
      ensures rid !in manager.rooms ==>
                resp == Commands.AdminResponse.Error("Room " + rid + " not found") &&
                games == old(games) && outbox == old(outbox)
      ensures rid in manager.rooms && old(manager.rooms[rid].state) != Playing ==>
                resp == Commands.AdminResponse.Error("Room " + rid + " is not in playing state") &&
                games == old(games) && outbox == old(outbox) && unchanged(manager.rooms[rid])
      ensures rid in manager.rooms && old(manager.rooms[rid].state) == Playing ==>
                resp == Commands.AdminResponse.Ok("Room " + rid + " reset successfully") &&
                games == old(games) - {rid} && manager.rooms[rid].state == Waiting &&
                outbox == old(outbox) + Notices(clients, old(manager.rooms[rid].players), [Error(ProtocolError, ADMIN_RESET_NOTICE)])
      ensures rid in manager.rooms && old(manager.rooms[rid].state) == Playing ==>
                ViewOf(manager.rooms[rid]) == ResetView(old(ViewOf(manager.rooms[rid])), newSeed)
    {
      if rid !in manager.rooms {
        return Commands.AdminResponse.Error("Room " + rid + " not found");
      }
      var room := manager.rooms[rid];
      assert RoomOk(room, rid, manager.nextRoomId);
      if room.state != Playing {
        return Commands.AdminResponse.Error("Room " + rid + " is not in playing state");
      }
      DropEngine(rid);
      AdminReset(room, newSeed);
      resp := Commands.AdminResponse.Ok("Room " + rid + " reset successfully");
    }

    /** Resetting one room for `ResetRoom(None)`: the engine of `rid` is discarded and, if the
        room exists, it is reset as in `AdminReset`; no other room changes. */
    method ResetOne(rid: RoomId, newSeed: u64) returns (found: bool)
      requires Valid()
      modifies this, RoomSet(rid)
      ensures Valid()
      ensures games == old(games) - {rid} && clients == old(clients) && connToRoom == old(connToRoom)
      ensures found <==> rid in manager.rooms
      ensures found ==> ViewOf(manager.rooms[rid]) == ResetView(old(ViewOf(manager.rooms[rid])), newSeed) &&
                        outbox == old(outbox) + ResetNotices(clients, old(manager.Views())[rid].players)
      ensures !found ==> outbox == old(outbox) && manager.Views() == old(manager.Views())
      ensures found ==> manager.Views() == old(manager.Views())[rid := ResetView(old(manager.Views())[rid], newSeed)]
      ensures forall r :: r in manager.rooms && r != rid ==> manager.rooms[r] !in RoomSet(rid)
    {
      forall r | r in manager.rooms && r != rid
        ensures manager.rooms[r] !in RoomSet(rid)
      {
        assert RoomOk(manager.rooms[r], r, manager.nextRoomId);
        if rid in manager.rooms {
          assert RoomOk(manager.rooms[rid], rid, manager.nextRoomId);
        }
      }
      DropEngine(rid);
      found := rid in manager.rooms;
      if found {
        var room := manager.rooms[rid];
        assert RoomOk(room, rid, manager.nextRoomId);
        AdminReset(room, newSeed);
      }
      manager.ViewsOutside(rid);
    }

    /** One pass of the reset-all loop: room `rid` loses its engine and, when it exists, is reset
        and its seats notified; the bookkeeping moves on to `order'` and `count'` (`ResetStageStep`). */
    method ResetStep(rid: RoomId, ghost views: map<RoomId, RoomView>, ghost sent: seq<(ConnectionId, ServerMessage)>,
                     seedOf: RoomId -> u64, ghost start: set<RoomId>, ghost todo: set<RoomId>, ghost order: seq<RoomId>,
                     count: nat)
      returns (ghost order': seq<RoomId>, count': nat)
      requires Valid() && rid in todo &&
               ResetStage(views, sent, seedOf, start, todo, order, count, clients, games.Keys, manager.Views(), outbox)
      modifies this, RoomSet(rid)
      ensures Valid()
      ensures clients == old(clients) && connToRoom == old(connToRoom)
      ensures ResetStage(views, sent, seedOf, start, todo - {rid}, order', count', clients, games.Keys, manager.Views(), outbox)
    {
      ghost var engines, now, before := games.Keys, manager.Views(), outbox;
      var found := ResetOne(rid, seedOf(rid));
      ResetStageStep(views, sent, seedOf, start, todo, order, count, clients, engines, now, before,
                     rid, found, manager.Views(), outbox);
      assert games.Keys == engines - {rid};
      if found {
        order', count' := order + [rid], count + 1;
      } else {
        order', count' := order, count;
      }
    }

    /** The loop of `ResetRoom(None)`: each room with an engine, in the map's unspecified order,
        goes through `ResetStep`; `order` lists the rooms reset, in the order they were. */
    method ResetRooms(seedOf: RoomId -> u64) returns (count: nat, ghost order: seq<RoomId>)
      requires Valid()
      modifies this, manager.rooms.Values
      ensures Valid() && games == map[] && clients == old(clients) && connToRoom == old(connToRoom)
      ensures count == |old(games).Keys * old(manager.Views()).Keys| == |order|
      ensures Elems(order) == old(games).Keys * old(manager.Views()).Keys && Distinct(order)
      ensures outbox == old(outbox) + ResetAllNotices(clients, old(manager.Views()), order)
      ensures ResetDone(old(manager.Views()), manager.Views(), seedOf, old(games).Keys)
    {
      ghost var views := manager.Views();
      var todo := games.Keys;
      order, count := [], 0;
      ResetStageStart(views, outbox, seedOf, todo, clients);
      while todo != {}
        invariant Valid() &&
                  ResetStage(views, old(outbox), seedOf, old(games).Keys, todo, order, count, clients, games.Keys,
                             manager.Views(), outbox)
        invariant clients == old(clients) && connToRoom == old(connToRoom)
        decreases todo
      {
        var rid :| rid in todo;
        order, count := ResetStep(rid, views, old(outbox), seedOf, old(games).Keys, todo, order, count);
        todo := todo - {rid};
      }
      ResetStageEnd(views, old(outbox), seedOf, old(games).Keys, order, count, clients, games.Keys, manager.Views(), outbox);
      NoGamesLeft(games);
    }

    /** The `ResetRoom(None)` admin event: every room with an engine loses it and, if the room
        exists, is reset as in `AdminReset` under the seed `seedOf` gives it, its seats being sent
        the reset notice; `order` is the order in which the rooms were reset, which the source
        leaves to its map. Afterwards no engine is left, `conn_to_room` is untouched, every other
        room is as it was, and the reply counts the rooms reset. */
    method HandleResetAll(seedOf: RoomId -> u64) returns (resp: Commands.AdminResponse, count: nat, ghost order: seq<RoomId>)
      requires Valid()
      modifies this, manager.rooms.Values
      ensures Valid()
      ensures games == map[] && clients == old(clients) && connToRoom == old(connToRoom)
      ensures manager.rooms == old(manager.rooms)
      ensures count == |old(games).Keys * manager.rooms.Keys| == |order|
      ensures Elems(order) == old(games).Keys * manager.rooms.Keys && Distinct(order)
      ensures outbox == old(outbox) + ResetAllNotices(clients, old(manager.Views()), order)
      ensures ResetDone(old(manager.Views()), manager.Views(), seedOf, old(games).Keys)
      ensures resp == Commands.AdminResponse.Ok(Strings.NatToString(count) + " rooms reset")
    {
      ghost var views := manager.Views();
      count, order := ResetRooms(seedOf);
      assert views.Keys == manager.rooms.Keys;
      resp := Commands.AdminResponse.Ok(Strings.NatToString(count) + " rooms reset");
    }

    /** The reply to the `GetStatus` admin event: the registered connections, the rooms and the
        started games (`rooms_count` is the size of the manager's map). */
    function Status(): Commands.AdminResponse
      reads this, manager
    {
      Commands.AdminResponse.Status(|clients|, |manager.rooms|, |games|)
    }

    /** `handle_admin_event`. `found` stands for `find_player_conn` on a kicked player's id and
        `seedOf` for the seeds a reset draws. Status leaves everything as it is; a kick only ever
        unregisters connections; neither reset touches `conn_to_room`, and resetting everything
        leaves no engine. */
    method HandleAdminEvent(ev: AdminEvent, found: Option<(ConnectionId, RoomId)>, seedOf: RoomId -> u64)
      returns (resp: Commands.AdminResponse)
      requires Valid()
      modifies this, manager.rooms.Values
      ensures Valid()
      ensures ev.GetStatus? ==>
                resp == old(Status()) && clients == old(clients) && connToRoom == old(connToRoom) &&
                games == old(games) && outbox == old(outbox)
      ensures ev.KickPlayer? ==> clients <= old(clients) && connToRoom.Keys <= old(connToRoom).Keys
      ensures ev.KickPlayer? && found.Some? && IsVirtualConn(found.value.0) ==>
                resp == Commands.AdminResponse.Error("Cannot kick AI player") &&
                clients == old(clients) && games == old(games) && outbox == old(outbox)
      ensures ev.ResetRoom? ==> clients == old(clients) && connToRoom == old(connToRoom) && games.Keys <= old(games).Keys
      ensures ev.ResetRoom? && ev.roomId.None? ==> games == map[]
    {
      match ev
      case GetStatus =>
        resp := Status();
      case KickPlayer(playerId) =>
        resp := HandleKick(playerId, found, if found.Some? then seedOf(found.value.1) else 0);
      case ResetRoom(Some(rid)) =>
        resp := HandleResetRoom(rid, seedOf(rid));
      case ResetRoom(None) =>
        var count;
        ghost var order;
        resp, count, order := HandleResetAll(seedOf);
    }
  }
}

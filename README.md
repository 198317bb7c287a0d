# Trick-taking card game server, modelled in Dafny

This project models the core of a four-seat trick-taking card game. Two humans play against two AI seats (Bridge mode), or up to four connections play in a classic room. The model covers:

- the authoritative Rust server: its card deck, per-room game engine, AI strategy, lobby and handshake, event handlers, admin log and admin command parser;
- the Python fallback strategy of the AI client;
- the JSON helper and game-state manager of the C++ client.

Each source file becomes one Dafny module:

| module | file | what it holds |
|---|---|---|
| `Types` | `types.dfy` | the protocol enums and messages of `server/src/protocol/messages.rs` as plain datatypes, fixed-width integer types |
| `Strings` | `strings.dfy` | decimal and zero-padded numbers, ASCII case mapping, substring search, `std::stoi` |
| `Deck` | `deck.dfy` | cards and protocol tokens, the linear-congruential generator, the deck as an `array` shuffled in place, round-robin dealing |
| `Engine` | `engine.dfy` | the `GameEngine` class: dealing, legal moves, play validation, playing a card, resolving a trick, the game-over message |
| `Strategy` | `strategy.dfy` | the server's AI card choice |
| `Fallback` | `fallback.dfy` | the Python client's fallback choice |
| `Rooms` | `room.dfy` | the `Room` and `RoomManager` classes |
| `Handshake` | `handshake.dfy` | HELLO validation and nickname suffixing |
| `Server` | `server.dfy` | the `ServerState` class and its event handlers |
| `Logger` | `logger.dfy` | the `GameLogger` ring buffer and its queries |
| `Commands` | `commands.dfy` | the admin command parser and response formatter |
| `JsonHelper` | `jsonhelper.dfy` | the C++ client's field extractor and message builders |
| `GameManager` | `gamemanager.dfy` | the C++ client's `GameState` and `GameManager` classes |

Code that updates state in place is modelled with classes, arrays and loops. This covers the deck shuffle, the engine, rooms, the server state, the log buffer and the client's game manager. Most of their methods are proved against a specification function of the old state. The server's event handlers (a PLAY, the AI turns, the game start, a HELLO) are stated instead as the engine state they reach, written with the engine's specification functions (one move, some number of AI moves, the dealt state of a seed), and the messages they append to the outbox. The pure parts are functions with lemmas. Outgoing network traffic is an `outbox` sequence of (connection, message) pairs. A message is appended only when the connection is registered, as `send_to` does.

Highlights of what is proved:

- The hands, the table and the cards played always make up the 52-card deck.
- The score always equals the number of tricks played.
- The legal moves are always in the hand.
- Both AI strategies always choose a legal move.
- The AI-turn loop terminates. It returns only when the game is over or a human seat is due and was sent exactly one YOUR_TURN.
- Broadcasts never reach virtual AI connections.
- Card tokens, event names and client JSON messages round-trip.

Where the intended behaviour and the code differ, the model follows the code:

- After a human disconnects from a Bridge game, the reset notices are sent to the seats left after the reset. Only AI seats are left, so nothing is delivered (`Server.BridgeResetNotices`).
- A reset draws a new seed, but nothing guarantees that it differs from the old one. The model takes the seed as a parameter and claims nothing about it.
- A nickname passes the 16-character check before it is suffixed, so an accepted nickname can be longer (`Handshake.SuffixedNicknameMayExceedLimit`).
- The quote-stripping branch of the C++ `get_string` can never run (`JsonHelper.BareValueNeverQuoted`).
- The C++ auto-play scan starts from -1 with a strict comparison. When every card value is -1 or lower, it falls back to the first legal move (`GameManager.AutoPick`).
- `handle_hello`'s "Room is full" branch (server/src/main.rs:264-276) cannot be reached: `Lobby`'s postcondition states that the room it returns is joinable, that is waiting and not full, so the model omits that branch.

## Model

| member | source | states |
|---|---|---|
| Deck.SuitIndex | server/src/game/deck.rs:13-15 | each suit sits at its own index of the S, H, D, C order |
| Deck.SuitFromChar | server/src/game/deck.rs:26-34 | a suit letter is recognised exactly when its upper-case form is S, H, D or C, and the suit found prints as that letter |
| Deck.RankOfUpper | server/src/game/deck.rs:85-102 | a recognised upper-case rank text is a rank in 2..14 whose symbol is that text |
| Deck.RankFromStr | server/src/game/deck.rs:85-102 | `Rank::from_str` accepts only the symbol of a rank in 2..14, in either case |
| Deck.RankFromStrOfSymbol | server/src/game/deck.rs:74-102 | every rank 2..14 is parsed back from its symbol |
| Deck.RankSymbolInjective | server/src/game/deck.rs:74-83 | two ranks in 2..14 with the same symbol are equal |
| Deck.ToProtocolString | server/src/game/deck.rs:118-121 | a card token is at least two characters long and ends in the suit letter |
| Deck.FromProtocolStringExactly | server/src/game/deck.rs:123-135 | a token parses to card c exactly when c has a rank in 2..14 and the upper-cased token is c's token, so short input, a bad suit letter and a bad rank prefix all give None |
| Deck.ProtocolStringRoundTrip | server/src/game/deck.rs:117-135 | parsing a card's token gives the card back, for every rank in 2..14 |
| Deck.FullDeck | server/src/game/deck.rs:145-153 | the new deck has 52 cards |
| Deck.FullDeckComplete | server/src/game/deck.rs:145-153 | the 52 cards are pairwise distinct, all have ranks 2..14, and every such card is among them |
| Deck.LcgStepIsAffineMod | server/src/game/deck.rs:202-210 | the generator step computed with 64-bit wrapping equals (1103515245·state + 12345) mod 2^31, which is below 2^31 |
| Deck.SimpleLcg.constructor | server/src/game/deck.rs:198-200 | the generator starts with the seed as its state |
| Deck.SimpleLcg.Next | server/src/game/deck.rs:202-210 | the state advances by one generator step and the new state is returned |
| Deck.Swap | server/src/game/deck.rs:162 | exchanging two cells leaves every other cell as it was |
| Deck.SwapPermutes | server/src/game/deck.rs:162 | a swap keeps the multiset of cards |
| Deck.ShuffleFromPermutes | server/src/game/deck.rs:156-164 | the reverse swap loop from position i down keeps the length and the multiset of cards |
| Deck.ShufflePermutes | server/src/game/deck.rs:156-164 | a shuffle is a permutation of the deck |
| Deck.ColumnOfFour | server/src/game/deck.rs:167-176 | player p of four receives exactly the cards at positions p, p+4, p+8, … |
| Deck.ColumnsPartition | server/src/game/deck.rs:167-176 | the four hands together hold exactly the dealt cards |
| Deck.Deck.constructor | server/src/game/deck.rs:145-153 | the nested fill loops produce the full deck in suit-major order |
| Deck.Deck.Shuffle | server/src/game/deck.rs:156-164 | the in-place loop leaves the deck as the shuffle function of the old deck and the seed, so equal seeds give equal orders |
| Deck.Deck.Deal | server/src/game/deck.rs:167-176 | player p receives the cards at positions p, p+n, p+2n, … of the first n·k cards |
| Engine.InsertCardPermutes | server/src/game/engine.rs:89 | inserting a card into a hand adds exactly that card |
| Engine.InsertCardSorted | server/src/game/engine.rs:89 | inserting into a hand sorted by (suit S<H<D<C, rank) keeps it sorted |
| Engine.SortHandPermutes | server/src/game/engine.rs:89 | sorting a hand keeps its multiset of cards |
| Engine.SortHandSorted | server/src/game/engine.rs:89 | a sorted hand is ordered by suit S<H<D<C, then rank |
| Engine.IndexOfCard | server/src/game/engine.rs:207 | the position found holds the card, and no earlier position does |
| Engine.RemoveFirst | server/src/game/engine.rs:206-208 | removing a card drops exactly its first occurrence and nothing else |
| Engine.FilterSuit | server/src/game/engine.rs:161 | the kept cards are exactly the hand's cards of the given suit |
| Engine.LastMaxOfSuit | server/src/game/engine.rs:237-244 | the lead-suit entry of greatest rank is chosen, and among equal ranks the last one, as `max_by_key` keeps the last maximum |
| Engine.TrickWinner | server/src/game/engine.rs:237-244 | the winning entry has the lead suit and a rank no lead-suit card on the table exceeds; off-suit cards never win |
| Engine.WinningTeam | server/src/game/engine.rs:296-305 | Ai wins exactly when its score is strictly higher; a tie goes to Human |
| Engine.AddPoint | server/src/game/engine.rs:248-252 | the winner's team gains exactly one point and the total grows by one |
| Engine.FindSeat | server/src/game/engine.rs:174-178 | the seat found is the first with that connection id; None means no seat has it |
| Engine.SeatCardsUpdate | server/src/game/engine.rs:204-211 | replacing one seat's hand changes the cards held by exactly the difference of the two hands |
| Engine.DistinctOnce | server/src/game/deck.rs:145-153 | a sequence of distinct cards holds each card at most once |
| Engine.FullDeckIsFullDeck | server/src/game/deck.rs:145-153 | the new deck holds each card of rank 2..14 once and no other card |
| Engine.OnceMeansDistinct | server/src/game/deck.rs:156-164 | a sequence holding each card at most once has distinct entries, so a shuffled deck stays duplicate-free |
| Engine.ColumnPairDisjoint | server/src/game/deck.rs:167-176 | two different players never receive the same card of a duplicate-free deck |
| Engine.ColumnsDisjoint | server/src/game/deck.rs:167-176 | the four hands dealt from a duplicate-free deck are pairwise disjoint |
| Engine.ColumnsValid | server/src/game/deck.rs:167-176 | dealt cards have ranks 2..14 when the deck's cards do |
| Engine.ColumnsOfThirteen | server/src/game/deck.rs:167-176 | four players dealt from 52 cards receive 13 each |
| Engine.DealtHandsCoverDeck | server/src/game/engine.rs:80-83 | the hands dealt from the shuffled deck have 13 cards each and together make up the full deck |
| Engine.DealtHandsPartitionDeck | server/src/game/engine.rs:80-83 | the four dealt hands are pairwise disjoint and hold only cards of rank 2..14 |
| Engine.DealFromShuffledDeck | server/src/game/engine.rs:80-83 | building, shuffling and dealing a deck yields the hands of the deal function, which partition the deck |
| Engine.DealMessages | server/src/game/engine.rs:99-110 | one DEAL per seat, in seat order, addressed to that seat's connection |
| Engine.DealtPlayersHoldDeck | server/src/game/engine.rs:86-90 | after dealing, the four seats hold the full deck, 13 cards each |
| Engine.DealKeepsSeats | server/src/game/engine.rs:79-96 | dealing keeps the seat bookkeeping consistent |
| Engine.DealKeepsPhase | server/src/game/engine.rs:79-96 | after dealing, seat 0 is due in trick 1 with full hands |
| Engine.DealKeepsInv | server/src/game/engine.rs:79-96 | dealing establishes the engine invariant: hands plus table plus played cards make up the deck, and score total equals the history length |
| Engine.PlayKeepsCards | server/src/game/engine.rs:204-211 | moving a card from a hand to the table keeps the cards in play |
| Engine.PlayKeepsDeck | server/src/game/engine.rs:204-211 | playing a card keeps hands plus table plus played cards equal to the deck |
| Engine.PlayKeepsSeats | server/src/game/engine.rs:204-231 | the seat that plays is the next one after the trick's leader |
| Engine.PlayKeepsHandSizes | server/src/game/engine.rs:204-211 | after a play every hand holds the cards still owed for the remaining tricks |
| Engine.PlayKeepsSeatSize | server/src/game/engine.rs:204-211 | one seat's hand size keeps matching the tricks left and whether it has played this trick |
| Engine.PlayKeepsInv | server/src/game/engine.rs:204-231 | a play keeps the engine invariant |
| Engine.PlayKeepsPhase | server/src/game/engine.rs:221-231 | after a play the phase is TrickComplete on a full table, or the next seat (mod 4) is due |
| Engine.ResolveKeepsCards | server/src/game/engine.rs:235-279 | resolving a trick moves the table into the played cards without losing any |
| Engine.FullTableSeats | server/src/game/engine.rs:221-224 | a full table holds one card from each of the four seats |
| Engine.ResolveKeepsSeats | server/src/game/engine.rs:235-292 | resolving keeps the seat bookkeeping consistent |
| Engine.ResolveLastTrick | server/src/game/engine.rs:282-284 | resolving trick 13 ends the game |
| Engine.NextTrickPhase | server/src/game/engine.rs:285-292 | the next trick starts with an empty table, the winner due and the trick count one higher |
| Engine.ResolveEarlierTrick | server/src/game/engine.rs:285-292 | resolving an earlier trick leaves the winner due in the next trick |
| Engine.ResolveKeepsInv | server/src/game/engine.rs:235-292 | resolving keeps the engine invariant, including score total equal to the history length |
| Engine.DueSeatHoldsCard | server/src/game/engine.rs:113-118 | a due seat is one of the first four and still holds a card |
| Engine.MoveKeepsInv | server/src/game/engine.rs:204-292 | a play, followed by resolution on a full table, keeps the invariant and leaves a seat due or the game over |
| Engine.MoveProgress | server/src/game/engine.rs:204-292 | every play lowers the number of plays left, and the game ends exactly when the last card of trick 13 is played |
| Engine.GameEngine.constructor | server/src/game/engine.rs:55-76 | a new engine holds one seat per player given, with that connection, id and team and an empty hand, and waits to deal with an empty table, score 0-0 and no history |
| Engine.GameEngine.CurrentPlayerIdx | server/src/game/engine.rs:113-118 | a seat is due exactly in the WaitingForPlay phase, and it is that phase's seat |
| Engine.GameEngine.GetLegalMoves | server/src/game/engine.rs:148-169 | the seat's legal moves are those its hand and the table allow |
| Engine.LegalMoves | server/src/game/engine.rs:148-169 | the legal moves are a subset of the hand: all of it on an empty table; otherwise a hand card is legal exactly when it follows the lead suit, or the hand holds none of that suit; a non-empty hand has a legal move |
| Engine.DealtStateShape | server/src/game/engine.rs:55-110 | a new engine dealt on a seed keeps its seats; the first four hold the seed's hands, each sorted and a permutation of the dealt cards, the others nothing; together they are the 52-card deck; seat 0 is due in trick 1 on an empty table with score 0-0 and no history |
| Engine.GameEngine.ValidatePlay | server/src/game/engine.rs:172-201 | the checks run in the order NotInGame, NotYourTurn, InvalidCard, NotInHand, NotLegal, and success gives the due seat and a legal card of its hand |
| Engine.GameEngine.YourTurnMessage | server/src/game/engine.rs:127-145 | YOUR_TURN carries the trick number, the table and the seat's legal moves |
| Engine.GameEngine.GameOverMessage | server/src/game/engine.rs:296-311 | GAME_OVER carries the score and history, and names Ai only when its score is strictly higher |
| Engine.GameEngine.Deal | server/src/game/engine.rs:79-110 | dealing gives each of the four seats its sorted 13-card hand, sets trick 1 with seat 0 due, and returns one DEAL per seat |
| Engine.GameEngine.PlayCard | server/src/game/engine.rs:204-231 | the card leaves the seat's hand once, no other hand changes, the table gains the play, and the phase moves on to TrickComplete or the next seat |
| Engine.GameEngine.ResolveTrick | server/src/game/engine.rs:235-292 | the winner's team scores one, history grows by one, the table is cleared, and the game ends after trick 13 or the winner leads the next |
| Engine.GameEngine.SeatHands | server/src/game/engine.rs:86-96 | each seat takes its dealt hand in sorted order, trick 1 starts and seat 0 is due; the seed and the last winner are kept |
| Engine.GameEngine.MoveToTable | server/src/game/engine.rs:204-231 | the card leaves the hand and joins the table; a fourth card completes the trick, otherwise the next seat is due |
| Engine.GameEngine.CloseTrick | server/src/game/engine.rs:235-282 | the trick is resolved for the winner, who becomes the last trick winner; the seats and seed are kept |
| Strategy.CountSuit | server/src/ai/strategy.rs:54-57 | a suit's count is zero exactly when no card of the hand has that suit |
| Strategy.LongestSuit | server/src/ai/strategy.rs:53-71 | the suit returned has the greatest count in the whole hand, and every suit before it in the order S, H, D, C has a strictly smaller count, so an empty hand gives Spades |
| Strategy.FirstMinIndex | server/src/ai/strategy.rs:83-85 | the position picked holds the least rank, and every earlier card has a strictly greater rank, as `min_by_key` keeps the first minimum |
| Strategy.Smallest | server/src/ai/strategy.rs:83-85 | `find_smallest` is None exactly on an empty slice, and otherwise the first card of least rank |
| Strategy.SmallestOfSuit | server/src/ai/strategy.rs:74-80 | `find_smallest_of_suit` is None exactly when no card has the suit, and otherwise a card of that suit whose rank no card of that suit undercuts |
| Strategy.SaturatingAdd | server/src/ai/strategy.rs:93 | the 8-bit sum is at least each operand and at most their true sum, and equals the true sum whenever it is below 255 |
| Strategy.RankAtLeast | server/src/ai/strategy.rs:97 | the kept cards are exactly those ranked at least the target |
| Strategy.SmallestAboveThreshold | server/src/ai/strategy.rs:88-100 | None exactly when no card reaches threshold plus the difference (saturating), and otherwise the least such card |
| Strategy.HighestOnTable | server/src/ai/strategy.rs:141-146 | no lead-suit card on the table is ranked above the value, and with none on the table it is 2 |
| Strategy.HighestOnTableAttained | server/src/ai/strategy.rs:141-146 | with a lead-suit card on the table, the value is the rank of one of them |
| Strategy.ChooseCard | server/src/ai/strategy.rs:104-160 | with no legal move the first card of the hand (or 2 of clubs for an empty hand), and otherwise always one of the legal moves |
| Strategy.LeaderChoice | server/src/ai/strategy.rs:120-130 | a leader plays the lowest legal card of the hand's longest suit, or when there is none the first lowest legal card |
| Strategy.FollowerWithLeadSuit | server/src/ai/strategy.rs:133-156 | a follower with lead-suit moves plays the lowest of those reaching the highest table rank plus 3 (saturating), and if none does, the lowest lead-suit move |
| Strategy.FollowerDiscard | server/src/ai/strategy.rs:157-160 | a follower void in the lead suit plays the first legal card of least rank |
| Fallback.CardValue | clients/ai_cli/fallback.py:23-33 | a card's value is 0 or within 2..14, and a card shorter than two characters is worth 0 |
| Fallback.CardValueOfToken | clients/ai_cli/fallback.py:23-33 | the value of a server card token is its rank |
| Fallback.InsertByValuePermutes | clients/ai_cli/fallback.py:18 | inserting into the value order adds exactly the card |
| Fallback.InsertByValueSorted | clients/ai_cli/fallback.py:18 | inserting keeps the order by value |
| Fallback.SortByValuePermutes | clients/ai_cli/fallback.py:18 | sorting keeps the multiset of moves |
| Fallback.SortByValueSorted | clients/ai_cli/fallback.py:18 | the sorted moves are ordered by value |
| Fallback.FirstMinValueIndex | clients/ai_cli/fallback.py:18-21 | the position picked has the least value and every earlier move a strictly greater one |
| Fallback.SortByValueHead | clients/ai_cli/fallback.py:18-21 | a stable sort starts with the first move of least value |
| Fallback.ChooseSmallest | clients/ai_cli/fallback.py:13-21 | with no legal moves the first card of the hand (or "" for an empty hand), and otherwise the first legal move of least value |
| Fallback.ChooseIgnoresTable | clients/ai_cli/fallback.py:6-21 | the choice does not depend on the table cards or the trick number |
| Fallback.ChooseExample | clients/tests/test_fallback.py:4-9 | from KS, 2H, 10D and AC the fallback plays 2H |
| Rooms.HumanCount | server/src/lobby/room.rs:113-115 | the number of Human seats never exceeds the number of seats |
| Rooms.HumanCountAppend | server/src/lobby/room.rs:113-115 | the Human count of joined seat lists adds up |
| Rooms.SameRolesSameHumans | server/src/lobby/room.rs:113-115 | seat lists with the same roles have the same Human count |
| Rooms.HumansLead | server/src/lobby/room.rs:123-135 | in a list whose humans come first, a seat is Human exactly when its index is below the Human count |
| Rooms.Insert | server/src/lobby/room.rs:132 | inserting at index k shifts the later seats up by one and keeps the earlier ones |
| Rooms.InsertKeepsBridgeShape | server/src/lobby/room.rs:123-135 | inserting at the Human count keeps humans ahead of the two AI partner seats, which stay last |
| Rooms.InsertHumanCount | server/src/lobby/room.rs:123-135 | inserting a seat raises the Human count by one exactly when the seat is Human |
| Rooms.FindConn | server/src/lobby/room.rs:150 | the index found is the first seat with the connection id; None means no seat has it |
| Rooms.Removal | server/src/lobby/room.rs:149-157 | the first seat with the connection id is removed and returned with its nickname dropped; with no such seat nothing changes and None is returned |
| Rooms.RemoveKeepsHumansFirst | server/src/lobby/room.rs:149-157 | removing a seat keeps humans ahead of AI seats |
| Rooms.RemoveHumanCount | server/src/lobby/room.rs:149-157 | removing a seat never raises the Human count, so `players_needed` cannot underflow |
| Rooms.ClassicTeams | server/src/lobby/room.rs:190-194 | in a Classic room seats 0 and 1 get team Human and the others team Ai, nothing else changing |
| Rooms.AiSeats | server/src/lobby/room.rs:267 | the seats kept are exactly the Ai seats |
| Rooms.AiSeatsAppend | server/src/lobby/room.rs:267 | the Ai seats keep their seat order: those of a concatenation are the first part's followed by the second's |
| Rooms.HumanConns | server/src/lobby/room.rs:260-265 | the ids collected are exactly those of the Human seats, one per Human seat |
| Rooms.AiSeatsShape | server/src/lobby/room.rs:255-281 | keeping only the Ai seats of a Bridge room leaves the two partner seats last and no humans |
| Rooms.AiSeatsNoHuman | server/src/lobby/room.rs:267 | after keeping only the Ai seats there is no Human seat |
| Rooms.AiNicknames | server/src/lobby/room.rs:270 | the kept nicknames are exactly those starting with "AI_" |
| Rooms.PlayerInfos | server/src/lobby/room.rs:286-293 | one player record per seat, in seat order, with its id, nickname, role and team |
| Rooms.ConnIds | server/src/lobby/room.rs:216-218 | the connection ids of the seats, in seat order |
| Rooms.Room.New | server/src/lobby/room.rs:49-58 | a Classic room starts Waiting with no seats and no nicknames |
| Rooms.Room.NewBridgeMode | server/src/lobby/room.rs:61-90 | a Bridge room starts Waiting with exactly the two seats P3 "AI_Partner1" and P4 "AI_Partner2", role and team Ai, virtual ids MAX-1 and MAX |
| Rooms.Room.NextSlot | server/src/lobby/room.rs:103-110 | the next slot number lies in 1..5 |
| Rooms.Room.PlayersNeeded | server/src/lobby/room.rs:160-167 | no more players are needed exactly when the room is full; in Bridge mode the count plus the humans is 2, in Classic mode the count plus the seats is 4 |
| Rooms.Room.RoomWaitMessage | server/src/lobby/room.rs:198-204 | ROOM_WAIT names the room and lists its seats in order, and the number of players still needed is 0 exactly when the room can start |
| Rooms.Room.RoomStartMessage | server/src/lobby/room.rs:207-213 | ROOM_START names the room, lists its seats in order and carries the room's seed |
| Rooms.Room.AddPlayer | server/src/lobby/room.rs:123-146 | a Bridge room inserts the seat at the Human count, with team Human for a human; a Classic room appends it with no team; the nickname is recorded and the Human count grows by one for a human |
| Rooms.Room.RemovePlayer | server/src/lobby/room.rs:149-157 | the room's seats and nicknames become those of the removal function, which also gives the result |
| Rooms.Room.AssignTeams | server/src/lobby/room.rs:184-195 | Classic rooms get teams by seat index; Bridge rooms are left as they are |
| Rooms.Room.ResetForBridgeMode | server/src/lobby/room.rs:255-281 | a Classic room is untouched and gives []; a Bridge room returns its Human ids in seat order, keeps only the Ai seats in order and the "AI_" nicknames, waits again and takes the new seed |
| Rooms.BridgeSeatsBeyondHumans | server/src/lobby/room.rs:61-146 | a Bridge room always has at least two seats beyond its humans |
| Rooms.CanStartSeatsFour | server/src/lobby/room.rs:93-100 | a room that can start has at least four seats and is full |
| Rooms.ClassicCanStart | server/src/lobby/room.rs:170-181 | a Classic room can start exactly when it has four seats and at least one Human |
| Rooms.HumanCountPositive | server/src/lobby/room.rs:113-115 | the Human count is positive exactly when some seat is Human |
| Rooms.NewBridgeRoomNeedsTwo | server/src/lobby/room.rs:61-100 | a fresh Bridge room has no humans, needs 2 players and is not full |
| Rooms.BridgeJoinOrder | server/src/lobby/room.rs:123-146 | two humans joining a fresh Bridge room sit in join order ahead of the two AI partners |
| Rooms.RoomNameInjective | server/src/lobby/room.rs:340 | different counter values give different room names |
| Rooms.NextNameFresh | server/src/lobby/room.rs:340-341 | the name made from the counter was never issued before and is issued afterwards |
| Rooms.RoomsOkSplit | server/src/lobby/room.rs:298-303 | the room map is well formed exactly when the rest of the map and the one room are, and that room is not shared with the rest |
| Rooms.RoomManager.New | server/src/lobby/room.rs:306-324 | a manager starts with no rooms, no connection map, counter 1 and the given mode |
| Rooms.RoomManager.GetOrCreateWaitingRoom | server/src/lobby/room.rs:327-349 | some Waiting, not full room is returned when one exists, nothing changing (whatever the counter); otherwise a fresh room named from the counter, in the manager's mode, is added and the counter incremented; every other room keeps its contents |
| Rooms.RoomManager.CreateRoom | server/src/lobby/room.rs:340-348 | a fresh room named from the counter, in the manager's mode, is added and the counter incremented |
| Rooms.RoomManager.AssociateConn | server/src/lobby/room.rs:352-355 | the connection is mapped to the room and nothing else changes |
| Rooms.RoomManager.HandleDisconnect | server/src/lobby/room.rs:375-382 | the mapping is dropped and the connection's seat removed from its room; an unmapped connection gives None and no room changes |
| Rooms.NewRoom | server/src/lobby/room.rs:342-346 | a new room is Bridge or Classic as asked, Waiting and joinable |
| Handshake.EnsureUniqueNickname | server/src/lobby/handshake.rs:86-101 | the bounded suffix loop returns the nickname that the search function describes |
| Handshake.SuffixSearchFirstFree | server/src/lobby/handshake.rs:91-97 | when some suffix from i to 99 is free, the search returns the smallest free `nick_k`, which is not taken |
| Handshake.SuffixSearchExhausted | server/src/lobby/handshake.rs:91-100 | when every suffix up to 99 is taken, the result is the nickname with "_" and four hex digits of the random value |
| Handshake.UniqueNicknameChoice | server/src/lobby/handshake.rs:86-101 | an unused nickname is kept; otherwise the smallest free `nick_k` for k in 2..99, which is not in the set; otherwise the hex-suffixed fallback |
| Handshake.UniqueNicknameExample | server/src/lobby/handshake.rs:170-183 | "Alice" already taken becomes "Alice_2" |
| Handshake.SuffixedInjective | server/src/lobby/handshake.rs:92 | different suffix numbers give different nicknames |
| Handshake.ProcessHello | server/src/lobby/handshake.rs:17-83 | the hello succeeds exactly when the version is 1, the nickname has 1..16 characters and the AI token check passes; version and length failures give InvalidHello ahead of AuthFailed; success gives Welcome with "P"+slot, the unique nickname and the room id |
| Handshake.SuffixedNicknameMayExceedLimit | server/src/lobby/handshake.rs:39-73 | a 16-character nickname already taken is accepted as an 18-character one, since the length check runs before suffixing |
| Server.Sent | server/src/main.rs:531-537 | a message reaches a connection only when it is registered, and then exactly once |
| Server.BroadcastEntry | server/src/main.rs:658-666 | every broadcast delivery is the message, to a registered non-virtual connection seated in the game |
| Server.BroadcastReaches | server/src/main.rs:658-666 | every registered human seat of the game receives the broadcast |
| Server.BroadcastReal | server/src/main.rs:658-666 | no broadcast delivery goes to a virtual (AI) connection |
| Server.CollectBroadcast | server/src/main.rs:658-666 | the loop over the players produces the broadcast: the message, to real connections only |
| Server.CollectBroadcasts | server/src/main.rs:470-520 | several broadcasts in a row deliver only those messages, only to real connections, never a YOUR_TURN, and end with the last one's broadcast |
| Server.RejectReasonOf | server/src/main.rs:424-430 | NotLegal maps to NOT_LEGAL, NotInHand and InvalidCard to NOT_IN_HAND, and the rest to NOT_YOUR_TURN |
| Server.Move | server/src/main.rs:454-520 | a play applies the engine's move and yields exactly the move's messages: the broadcast, then a TRICK_RESULT when the trick completes, then GAME_OVER exactly when the game ends, and never a YOUR_TURN |
| Server.Resolve | server/src/main.rs:471-520 | resolving a full trick yields the play broadcast, the TRICK_RESULT naming the trick's winner and the new score, plus GAME_OVER with the winning team exactly when the game is over |
| Server.AiCard | server/src/main.rs:566-579 | the card the AI plays is one of its legal moves, and so in its hand |
| Server.AiMovesKeepInv | server/src/main.rs:544-650 | however many AI moves are made, the engine keeps its invariant, and a due AI seat has cards and its chosen card is legal |
| Server.EngineSeats | server/src/main.rs:335-340 | each seat gives its connection, player id and team, HUMAN when no team is set |
| Server.NewDealtEngine | server/src/main.rs:363-376 | a new engine on the seed and seats, dealt and waiting for seat 0, with the deal messages of its players |
| Server.SeatPlayer | server/src/main.rs:300-311 | the newcomer (the given id, nickname and role, on the Human team when a human joins a bridge room) is appended to the seats, or in bridge mode inserted after the humans; its nickname joins the room's nicknames and the connection is associated with the room |
| Server.SentEachEntry | server/src/main.rs:711-719 | each notice goes to the one registered connection and is one of the messages |
| Server.SentEachReaches | server/src/main.rs:711-719 | a registered connection receives every one of the messages |
| Server.NoticeEntry | server/src/main.rs:711-722 | every notice goes to a registered, non-virtual connection seated in the room, with one of the messages |
| Server.NoticeReaches | server/src/main.rs:711-722 | every registered human seat receives every notice |
| Server.BridgeResetNotices | server/src/main.rs:700-722 | the reset notices go to no removed human; when every AI seat is virtual, nothing is delivered at all |
| Server.DropSeat | server/src/main.rs:682 | the seat with the connection is removed and returned, the room's state and seed unchanged |
| Server.ResetSeats | server/src/main.rs:696-699 | the human seats are removed and their connections returned; only AI seats and nicknames remain, waiting on the new seed |
| Server.Reopen | server/src/main.rs:836-841 | the room is waiting again; a bridge room keeps only its AI seats on the new seed, a classic room keeps its players |
| Server.ServerState.New | server/src/main.rs:57-64 | no clients, games, connection map or sent messages, and an empty bridge-mode room manager |
| Server.ServerState.SendTo | server/src/main.rs:531-537 | the message is queued for the connection if it is registered, nothing else changes |
| Server.ServerState.BroadcastToHumans | server/src/main.rs:658-666 | the room's game broadcasts the message to its real connections; without a game nothing is sent |
| Server.ServerState.MoveEngine | server/src/main.rs:454-520 | the room's engine applies the move and returns exactly the move's messages, with no YOUR_TURN, ending with GAME_OVER when the game ends |
| Server.ServerState.BroadcastAll | server/src/main.rs:470-520 | the messages are broadcast one after the other and no YOUR_TURN is queued |
| Server.ServerState.MakeMove | server/src/main.rs:454-520 | the move is applied and each of the move's messages is broadcast in turn to the room's humans after the earlier queue; nothing new is a YOUR_TURN |
| Server.ServerState.AiStep | server/src/main.rs:544-650 | one pass of the loop: when an AI seat is due it plays the strategy's card from its hand, legal moves and table, the move's messages are broadcast and fewer plays remain; otherwise nothing moves and the pass stops at game over or at a human's YOUR_TURN |
| Server.ServerState.AiPlay | server/src/main.rs:566-650 | the due AI seat plays the strategy's card, the move's messages go to the humans in turn, and fewer plays remain; it reports game over exactly when the game ended |
| Server.ServerState.ProcessAiTurns | server/src/main.rs:541-655 | the AI seats make some number of their strategy's moves, until the game is over or a human seat was sent its YOUR_TURN, the only one queued |
| Server.ServerState.PlayAccepted | server/src/main.rs:454-528 | an accepted play makes the move and broadcasts its messages first; the AI seats then make some number of strategy moves, ending at game over or at a human who was sent YOUR_TURN |
| Server.ServerState.HandlePlay | server/src/main.rs:389-529 | without a room the sender gets "Not in a game"; without a game "Game not started"; a rejected play gets PLAY_REJECT with the mapped reason and leaves the engine as it was; an accepted one broadcasts the move's messages, then the AI seats move, ending at game over or a human's turn |
| Server.ServerState.HandleConnected | server/src/main.rs:174-181 | the connection is registered and nothing else changes |
| Server.ServerState.SendToAll | server/src/main.rs:320-346 | the message is queued for each listed connection that is registered |
| Server.ServerState.SendDeals | server/src/main.rs:371-377 | each deal goes to its connection when it is registered |
| Server.ServerState.InstallEngine | server/src/main.rs:379 | the engine is filed under the room and nothing else changes |
| Server.ServerState.Launch | server/src/main.rs:371-379 | the deals are sent and the engine filed under the room |
| Server.ServerState.StartGame | server/src/main.rs:363-387 | the room's game is a new engine dealt on the seed and seats followed by some AI moves, each real seat was sent its DEAL first, and the game ends up over or waiting on a human who was sent YOUR_TURN; no other room gains or changes its game |
| Server.ServerState.JoinRoom | server/src/main.rs:300-311 | the newcomer is seated as SeatPlayer states, its nickname joins the room's, and the connection is mapped to the room on both sides; the rooms, games and outbox are unchanged |
| Server.ServerState.OpenRoom | server/src/main.rs:326-340 | the room starts playing, teams assigned in classic mode, and the seats hold its players |
| Server.ServerState.OpenAndAnnounce | server/src/main.rs:326-346 | the room starts and ROOM_START goes to each of its connections |
| Server.ServerState.Greet | server/src/main.rs:300-322 | the player named by the WELCOME is seated as SeatPlayer states, WELCOME goes to the new connection and ROOM_WAIT to every connection of the room |
| Server.ServerState.BeginGame | server/src/main.rs:324-350 | the room is playing, ROOM_START and then the deals went out, and its game is the dealt engine followed by some AI moves, over or waiting on a human who was sent YOUR_TURN; the room is the only one to gain a game and every other room's game is the same engine |
| Server.ServerState.Admit | server/src/main.rs:290-350 | the player takes the room's next seat as SeatPlayer states and its nickname joins the room's; WELCOME goes to it and ROOM_WAIT, with the players still needed, to every seat; the room starts exactly when it can, with the dealt game and ROOM_START and DEALs sent and no other room's game touched, and otherwise stays waiting with the games unchanged; the room list and counter are unchanged, and only the room itself and the server state may change |
| Server.ServerState.Lobby | server/src/main.rs:264 | `get_or_create_waiting_room`: an open room is chosen when one exists, and otherwise a room named from the counter is added, with only its AI seats in bridge mode; the room is joinable, and every other room is still listed with the same contents |
| Server.ServerState.HandleHello | server/src/main.rs:252-361 | the room is the first joinable one, or else a new room named from the counter with only its AI seats; the handshake result is `process_hello` on that room's nicknames, its next slot and id; it succeeds exactly when the version and nickname length are right and the auth is accepted; a failure sends its ERROR and leaves the room's seats, the connection mappings and the games alone; a success seats the player under the WELCOME's id and nickname as Admit states; apart from the chosen room, every room keeps its contents |
| Server.ServerState.AnswerHello | server/src/main.rs:287-360 | a failed handshake sends its ERROR to the sender and changes nothing else; a success names the room in its WELCOME, maps the connection to it and admits the player as Admit states; the room list and counter are unchanged and every other room keeps its contents |
| Server.ServerState.DropEngine | server/src/main.rs:690 | the room's engine is removed and nothing else changes |
| Server.ServerState.ForgetConns | server/src/main.rs:701-704 | the listed connections leave the connection map and nothing else changes |
| Server.ServerState.SendEach | server/src/main.rs:716-717 | the messages go in order to the connection if it is registered |
| Server.ServerState.NotifySeats | server/src/main.rs:708-720 | every human seat is sent every message in order |
| Server.ServerState.ClearRoom | server/src/main.rs:689-699 | the engine is removed and the room reset to its AI seats on the new seed, returning the removed humans |
| Server.ServerState.EvictRoom | server/src/main.rs:689-704 | the room is reset and the removed humans leave the connection map |
| Server.ServerState.AnnounceReset | server/src/main.rs:706-720 | each remaining human seat gets the reset notice and ROOM_WAIT |
| Server.ServerState.HandleBridgeModeDisconnect | server/src/main.rs:670-731 | the seat is removed; a bridge room that was playing loses its engine, keeps only AI seats on the new seed, forgets its humans and notifies the remaining seats; otherwise nothing else changes |
| Server.ServerState.HandleDisconnected | server/src/main.rs:183-204 | the connection is unregistered and unmapped; without a room mapping only the manager forgets it |
| Server.ServerState.HandleMessage | server/src/main.rs:224-250 | PING answers PONG to the sender and changes nothing else, every room's contents included; HELLO has the effect HandleHello states, room choice included, and every room but the chosen one keeps its contents; PLAY keeps the game set, the mappings and every room's contents, with the effect HandlePlay states |
| Server.ServerState.KickSeat | server/src/main.rs:812-825 | the seat is removed; a bridge room that was playing loses its engine and is reset on the new seed, any other room keeps its state |
| Server.ServerState.HandleKick | server/src/main.rs:779-836 | an unknown player gets "Player X not found", an AI player "Cannot kick AI player", both changing nothing; otherwise the kick notice is sent, the connection unregistered and unmapped, and "Player X kicked from R" returned; when the room still exists its seat and nickname are removed as `remove_player` states, and a bridge-mode room that was playing and lost a seat also drops its game and is reset to its AI seats, Waiting, under the new seed, while any other kick keeps the games and the room's state and seed |
| Server.ServerState.AdminReset | server/src/main.rs:850-871 | every human seat is told "Game reset by admin" and the room is waiting again, reset to its AI seats in bridge mode |
| Server.ServerState.HandleResetRoom | server/src/main.rs:840-878 | an unknown room gives "Room R not found", a room not playing "Room R is not in playing state", both changing nothing; a playing room loses its engine, is notified and gives "Room R reset successfully"; the room ends as `ResetView` of its old contents: Waiting, and in bridge mode with only its AI seats and nicknames under the new seed, otherwise with its seats kept |
| Server.ServerState.ResetOne | server/src/main.rs:874-896 | the engine is removed; a room that exists has its seats told "Game reset by admin" and is reset as AdminReset states under the given seed; every other room is as it was, and a missing room leaves the rooms and outbox alone |
| Server.ServerState.ResetStep | server/src/main.rs:874-897 | one pass of the reset-all loop keeps its bookkeeping: the room leaves the rooms to do and, when it exists, is reset, notified and appended to the rooms reset and their count |
| Server.ServerState.ResetRooms | server/src/main.rs:871-897 | every engine is removed; each room of one that exists is reset once under its seed and notified, in the loop's order; the count is the number of such rooms; the other rooms are as they were |
| Server.ServerState.HandleResetAll | server/src/main.rs:869-901 | no game remains; the rooms that had one and exist are listed once each, their seats get "Game reset by admin" in that order, each is reset under its seed and every other room is as it was; "N rooms reset" counts them |
| Server.ResetsOnce | server/src/main.rs:874-897 | resetting the rooms of a list without repeats, one after another, resets each listed room once under its seed and leaves every other room as it was |
| Server.ResetStageStart | server/src/main.rs:871-873 | before the loop every room with an engine is still to do and nothing is reset or sent |
| Server.ResetStageStep | server/src/main.rs:874-897 | a pass that removes one engine moves the loop's bookkeeping on: the room leaves the rooms to do and, only when it exists, joins the list, count and notices |
| Server.ResetStageEnd | server/src/main.rs:897-901 | when nothing is left to do, no engine remains, the count is the number of rooms that had one and exist, and those are reset once and notified in the listed order |
| Server.AfterResetsAppends | server/src/main.rs:877-888 | the loop's outbox is the outbox before it followed by the rooms' notices in the listed order |
| Server.DistinctCount | server/src/main.rs:895 | a room list without repeats is as long as its set of rooms, so the count matches the rooms reset |
| Server.ServerState.HandleAdminEvent | server/src/main.rs:734-905 | status reports the connection, room and game counts and changes nothing; a kick only removes connections; resets leave the connection map alone and resetting everything leaves no game |
| Logger.AsStr | server/src/admin/logger.rs:26-37 | every event name is written in upper-case letters and underscores |
| Logger.FromStr | server/src/admin/logger.rs:39-51 | a text names event e exactly when its upper-cased form is e's name, so unknown names give None |
| Logger.FromStrAsStr | server/src/admin/logger.rs:26-51 | each of the eight kinds is parsed back from its name |
| Logger.FromStrIgnoresCase | server/src/admin/logger.rs:39-51 | parsing ignores letter case |
| Logger.Clock | server/src/admin/logger.rs:84-101 | hours < 24, minutes and seconds < 60, day 1..30, month 1..13 with 13 exactly for day-of-year 360 and later, and the fields add back up to the timestamp in 365-day years of 30-day months |
| Logger.Stamp | server/src/admin/logger.rs:84-101 | a stamp is at least the 19 characters of YYYY-MM-DD HH:MM:SS |
| Logger.StampReadsBack | server/src/admin/logger.rs:96-100 | for a year below 10000 and fields below 100, the stamp is 19 characters with its separators in place, and each zero-padded field reads back as its value |
| Logger.FormatTimestamp | server/src/admin/logger.rs:84-101 | the timestamp text is at least 19 characters; until year 9999 it is exactly 19 and its six fields read back as the calendar fields of the timestamp |
| Logger.Format | server/src/admin/logger.rs:77-79 | the line is "[", the timestamp text, "] ", the kind's name, ": " and the message, each at its place, so each part can be cut back out |
| Logger.FormatLayout | server/src/admin/logger.rs:78 | the parts of "[ts] NAME: message" sit at the positions their lengths give |
| Logger.Logged | server/src/admin/logger.rs:125-134 | the new entry goes at the back after the older ones; at or over capacity the oldest is dropped first, so the length stays within the capacity (1 for capacity 0) |
| Logger.OfType | server/src/admin/logger.rs:150-151 | the entries kept are exactly those of the kind asked for |
| Logger.Mentioning | server/src/admin/logger.rs:167-172 | the entries kept are exactly those whose lower-cased message contains the lower-cased keyword |
| Logger.Reverse | server/src/admin/logger.rs:152-157 | reversing puts element i at position length-1-i |
| Logger.Last | server/src/admin/logger.rs:152-157 | reversing, taking n and reversing back gives the last min(n, length) elements in their original order |
| Logger.GameLogger.WithCapacity | server/src/admin/logger.rs:117-122 | a logger starts empty with the given capacity |
| Logger.GameLogger.New | server/src/admin/logger.rs:112-115 | the default logger starts empty with capacity 500 |
| Logger.GameLogger.Log | server/src/admin/logger.rs:125-134 | the buffer becomes the logged sequence and stays within its bound |
| Logger.GameLogger.GetRecent | server/src/admin/logger.rs:137-144 | the last min(n, length) entries, oldest first |
| Logger.GameLogger.GetRecentByType | server/src/admin/logger.rs:147-162 | the last min(n, count of kind t) entries of kind t, in chronological order |
| Logger.GameLogger.Search | server/src/admin/logger.rs:166-182 | the last min(limit, matches) entries mentioning the keyword in any case, in chronological order |
| Logger.GameLogger.Clear | server/src/admin/logger.rs:192-196 | the buffer is left empty, so `len` is 0 |
| Logger.GameLogger.Len | server/src/admin/logger.rs:186-188 | the count is 0 exactly when the buffer is empty, and never above the capacity (1 for capacity 0) |
| Logger.OfTypeAppend | server/src/admin/logger.rs:128-151 | logging an entry adds it at the back of its own kind's list and leaves the other kinds unchanged |
| Logger.RecentByTypeAfterLog | server/src/admin/logger.rs:125-162 | right after logging an entry, the newest entry of its kind is that entry |
| Commands.WordLen | server/src/admin/commands.rs:83 | the first word ends at the first white space or at the end |
| Commands.Tokens | server/src/admin/commands.rs:83 | every token is a non-empty word without white space, and there is none exactly when the line is all white space |
| Commands.WordLenOfWord | server/src/admin/commands.rs:83 | a word followed by white space or the end is read whole |
| Commands.TokensAfterWord | server/src/admin/commands.rs:83 | a leading word becomes the first token |
| Commands.TokensAfterSpace | server/src/admin/commands.rs:83 | leading white space is skipped |
| Commands.TokensOfSpaced | server/src/admin/commands.rs:83 | splitting words joined by single spaces gives the words back |
| Commands.ParseUsize | server/src/admin/commands.rs:105 | a parsed count fits in 64 bits |
| Commands.ParseUsizeOfNatToString | server/src/admin/commands.rs:105 | the decimal text of a 64-bit count parses back to it |
| Commands.ParseTokens | server/src/admin/commands.rs:82-123 | no tokens give Unknown(""); the upper-cased first word gives Help for HELP or ?, Quit for QUIT, EXIT or BYE, Auth and Kick only with an argument (the second token), Logs with the parsed count or 20 and the kind named by the third token, Reset with the optional second token; later tokens are ignored |
| Commands.ParseTokensOthers | server/src/admin/commands.rs:94-121 | STATUS, ROOMS and PLAYERS map directly, AUTH and KICK without an argument give their fixed messages, and any other word gives "Unknown command: " and the word upper-cased |
| Commands.ParseCommand | server/src/admin/commands.rs:82-88 | the result is Unknown("") exactly for an empty or all-white-space line |
| Commands.ParseSpaced | server/src/admin/commands.rs:82-83 | a line of words parses as its tokens do |
| Commands.ParseAuthLine | server/src/admin/commands.rs:94-100 | "AUTH t" parses to Auth(t) |
| Commands.ParseKickLine | server/src/admin/commands.rs:109-115 | "KICK p" parses to Kick(p) |
| Commands.ParseResetLine | server/src/admin/commands.rs:116-119 | "RESET r" parses to Reset(Some r) |
| Commands.ParseLogsTokens | server/src/admin/commands.rs:104-108 | the tokens LOGS, a count and a kind name parse to Logs(count, Some kind) |
| Commands.ParseLogsLine | server/src/admin/commands.rs:104-108 | "LOGS n KIND" parses to Logs(n, Some kind) |
| Commands.FormatResult | server/src/admin/commands.rs:255-261 | Ok(m) prints "OK: "+m, Error(m) prints "ERROR: "+m, any other reply "Invalid response" |
| Commands.FormatResultReadsBack | server/src/admin/commands.rs:255-261 | two OK or ERROR replies format to the same text exactly when they are the same reply, so the kind and the message can be read back |
| Strings.NatToString | server/src/lobby/handshake.rs:93 | a number's decimal text is a non-empty run of digits without a leading zero, one digit exactly below 10 |
| Strings.DigitsValueOfNatToString | server/src/lobby/handshake.rs:93 | the decimal text reads back as the number |
| Strings.NatToStringInjective | server/src/lobby/handshake.rs:93 | different numbers have different decimal texts |
| Strings.ZeroPadded | server/src/lobby/room.rs:340 | `{:03}` padding gives digits only, as wide as the width or the number, whichever is wider |
| Strings.ZeroPaddedValue | server/src/lobby/room.rs:340 | a zero-padded number reads back as the number |
| Strings.ZeroPaddedFits | server/src/admin/logger.rs:96-100 | a value below 10^w, padded to w digits, is exactly w digits long and reads back as itself |
| Strings.ZeroPaddedInjective | server/src/lobby/room.rs:340 | different numbers padded to the same width differ |
| Strings.HexSplit | server/src/lobby/handshake.rs:100 | a 16-bit value is the sum of its four hex digits' weights |
| Strings.Hex4 | server/src/lobby/handshake.rs:100 | `{:04x}` of a 16-bit value is four lower-case hex digits that read back as the value |
| Strings.Upper | server/src/admin/commands.rs:89 | each character is upper-cased in place |
| Strings.CaseFolded | server/src/admin/commands.rs:89 | upper-casing leaves no lower-case ASCII letter, and lower-casing no upper-case one |
| Strings.LowerUpper | server/src/admin/commands.rs:89 | upper-casing loses only case: lower-casing the result gives what lower-casing the input gives |
| Strings.Lower | server/src/admin/logger.rs:167 | each character is lower-cased in place |
| Strings.IndexOf | clients/cpp_cli/src/protocol/json_helper.hpp:20 | `find` gives the first position at or after the start where the pattern occurs, or None when it occurs nowhere after it |
| Strings.IndexOfAny | clients/cpp_cli/src/protocol/json_helper.hpp:27 | `find_first_of` gives the first position holding one of the characters, or None when none is there |
| Strings.Until | clients/cpp_cli/src/protocol/json_helper.hpp:27-28 | the text taken stops at the first stop character or at the end |
| Strings.IndexNotOf | clients/cpp_cli/src/game/game_manager.cpp:200 | `find_first_not_of` gives the first position outside the set, or None when every character is in it |
| Strings.LastIndexNotOf | clients/cpp_cli/src/game/game_manager.cpp:202 | `find_last_not_of` gives the last position outside the set, or None when every character is in it |
| Strings.Stoi | clients/cpp_cli/src/protocol/json_helper.hpp:40 | `std::stoi` gives a value in the 32-bit range, or fails (None) on empty input |
| Strings.StoiOfDigits | clients/cpp_cli/src/protocol/json_helper.hpp:40 | a run of digits followed by a non-digit reads as its value when that fits in 32 bits, and fails otherwise |
| Strings.StoiOfNatToString | clients/cpp_cli/src/protocol/json_helper.hpp:40 | the decimal text of a number up to INT_MAX reads back as that number |
| Strings.StoiOfNonNumber | clients/cpp_cli/src/protocol/json_helper.hpp:40 | text starting with something other than white space, a sign or a digit fails |
| JsonHelper.TextUntil | clients/cpp_cli/src/protocol/json_helper.hpp:27-35 | the text taken from the start runs up to the first stop character, or to the end when there is none |
| JsonHelper.GetStringQuoted | clients/cpp_cli/src/protocol/json_helper.hpp:18-35 | when `"key":"` occurs, the value is the text after its first occurrence up to the next quote |
| JsonHelper.GetString | clients/cpp_cli/src/protocol/json_helper.hpp:18-35 | a non-empty value is found only where `"key":` occurs, is text of the message, and holds no quote when `"key":"` occurs |
| JsonHelper.GetStringMissing | clients/cpp_cli/src/protocol/json_helper.hpp:23-25 | when `"key":` occurs nowhere, the value is "" |
| JsonHelper.GetStringBare | clients/cpp_cli/src/protocol/json_helper.hpp:22-31 | otherwise the value is the text after `"key":` up to the next comma or closing brace, or the end |
| JsonHelper.BareWhereQuoted | clients/cpp_cli/src/protocol/json_helper.hpp:19-24 | wherever `"key":"` occurs, `"key":` occurs too |
| JsonHelper.BareValueNeverQuoted | clients/cpp_cli/src/protocol/json_helper.hpp:29-30 | the quote-stripping step never applies: a bare value that started with a quote would have been found by the quoted search |
| JsonHelper.GetInt | clients/cpp_cli/src/protocol/json_helper.hpp:38-41 | the value is the `stoi` reading of the extracted text within the 32-bit range, and 0 when the text is empty or not a number |
| JsonHelper.GetLine | clients/cpp_cli/src/protocol/json_helper.hpp:55 | one `getline` on ',' gives an item without a comma and a shorter remainder |
| JsonHelper.Quoted | clients/cpp_cli/src/protocol/json_helper.hpp:57-61 | an item's value, when it has two quotes, is the text between the first two and holds no quote |
| JsonHelper.GetArray | clients/cpp_cli/src/protocol/json_helper.hpp:43-64 | the items read are those of the array function: none when `"key":[` is missing, otherwise the quoted text of each comma-separated item up to the next `]`, in order |
| JsonHelper.ReadItems | clients/cpp_cli/src/protocol/json_helper.hpp:53-62 | the `getline` loop keeps, in order, the quoted text of each item that has two quotes |
| JsonHelper.ReadStep | clients/cpp_cli/src/protocol/json_helper.hpp:55-61 | one pass of the loop adds the first item's quoted text, if any, to what was read |
| JsonHelper.UnquoteStep | clients/cpp_cli/src/protocol/json_helper.hpp:55-61 | the items of a text are its first item's quoted text, if any, followed by the items of the remainder |
| JsonHelper.UnquoteNoComma | clients/cpp_cli/src/protocol/json_helper.hpp:55-61 | the values taken from comma-free items hold neither a comma nor a quote |
| JsonHelper.PiecesNoComma | clients/cpp_cli/src/protocol/json_helper.hpp:55 | no item split on ',' holds a comma |
| JsonHelper.ArrayOfItems | clients/cpp_cli/src/protocol/json_helper.hpp:43-64 | a missing key gives no items, and no item holds a quote or a comma |
| JsonHelper.QuotedOfWrapped | clients/cpp_cli/src/protocol/json_helper.hpp:57-60 | a quote-free text wrapped in quotes reads back as itself |
| JsonHelper.GetLineWhole | clients/cpp_cli/src/protocol/json_helper.hpp:55 | a comma-free text is one whole item |
| JsonHelper.GetLineBefore | clients/cpp_cli/src/protocol/json_helper.hpp:55 | `getline` stops at the first comma and leaves the rest |
| JsonHelper.UnquoteJoinQuoted | clients/cpp_cli/src/protocol/json_helper.hpp:53-62 | the items of a list of quoted values joined by commas are those values |
| JsonHelper.ArrayRoundTrip | clients/cpp_cli/src/protocol/json_helper.hpp:43-64 | an array of quoted values after the first `"key":[` reads back as the values |
| JsonHelper.FirstAt | clients/cpp_cli/src/protocol/json_helper.hpp:20 | a pattern occurring before any occurrence of its second character is found first there |
| JsonHelper.UntilQuote | clients/cpp_cli/src/protocol/json_helper.hpp:34 | a quote-free value followed by a quote ends at that quote |
| JsonHelper.FieldAt | clients/cpp_cli/src/protocol/json_helper.hpp:19-72 | a field `"key":"v"` written after a prefix sits where the search key occurs, with v right after it and a quote after v |
| JsonHelper.QuotedField | clients/cpp_cli/src/protocol/json_helper.hpp:18-35 | reading the key back gives the value of the first field written with it, when the value holds no quote and the key's first character is not in what comes before |
| JsonHelper.PlayLayout | clients/cpp_cli/src/protocol/json_helper.hpp:67-69 | the fields type PLAY and card, between braces, spell out the PLAY message text character for character |
| JsonHelper.BuildPlay | clients/cpp_cli/src/protocol/json_helper.hpp:67-69 | the PLAY the client builds reads back type PLAY, and the card itself whenever the card code holds no quote |
| JsonHelper.PlayType | clients/cpp_cli/src/protocol/json_helper.hpp:18-69 | a PLAY message laid out as its fields reads back type PLAY |
| JsonHelper.PlayRoundTrip | clients/cpp_cli/src/protocol/json_helper.hpp:18-69 | a PLAY message laid out as its fields reads back the card, for any card without a quote |
| JsonHelper.HelloLayout | clients/cpp_cli/src/protocol/json_helper.hpp:71-73 | the fields type HELLO, role HUMAN and nickname, then proto 1, between braces, spell out the HELLO message text character for character |
| JsonHelper.BuildHello | clients/cpp_cli/src/protocol/json_helper.hpp:71-73 | the HELLO the client builds reads back type HELLO and role HUMAN, and the nickname itself whenever it holds no quote |
| JsonHelper.HelloType | clients/cpp_cli/src/protocol/json_helper.hpp:18-73 | a HELLO message laid out as its fields reads back type HELLO |
| JsonHelper.HelloRole | clients/cpp_cli/src/protocol/json_helper.hpp:18-73 | a HELLO message laid out as its fields reads back role HUMAN |
| JsonHelper.HelloRoundTrip | clients/cpp_cli/src/protocol/json_helper.hpp:18-73 | a HELLO message laid out as its fields reads back the nickname, for any name without a quote |
| GameManager.Cards | clients/cpp_cli/src/game/game_manager.cpp:34-47 | one card per code, in order |
| GameManager.CardsSnoc | clients/cpp_cli/src/game/game_manager.cpp:34-47 | one more code read adds its card at the back |
| GameManager.Without | clients/cpp_cli/src/game/game_manager.cpp:60-61 | erasing a code removes every copy of that card and keeps the count of every other card |
| GameManager.WithoutAppend | clients/cpp_cli/src/game/game_manager.cpp:60-61 | erasing from joined hands erases from each part |
| GameManager.GameState.constructor | clients/cpp_cli/src/game/state.hpp:26-45 | a new client state is empty: no identity, hand, table or moves, score 0:0, trick 0 of 0, not this player's turn |
| GameManager.GameState.ResetTable | clients/cpp_cli/src/game/state.hpp:42-44 | the table is cleared and nothing else changes |
| GameManager.TrimStrips | clients/cpp_cli/src/game/game_manager.cpp:199-204 | a text with no character outside space, tab, CR and LF comes back unchanged; otherwise the result starts and ends with other characters and is the text with only such characters removed around it |
| GameManager.TrimIdempotent | clients/cpp_cli/src/game/game_manager.cpp:199-204 | trimming twice is trimming once |
| GameManager.Trim | clients/cpp_cli/src/game/game_manager.cpp:199-204 | trimming never lengthens a text, and gives the empty text only for the empty text |
| GameManager.GetCardValue | clients/cpp_cli/src/game/game_manager.cpp:183-197 | the value is within the 32-bit range, and a code shorter than two characters is worth 0 |
| GameManager.CardValueOfToken | clients/cpp_cli/src/game/game_manager.cpp:183-197 | a server card token is worth its rank: A, K, Q, J give 14, 13, 12, 11 and a number gives its value |
| GameManager.CardValueAgreesWithFallback | clients/cpp_cli/src/game/game_manager.cpp:183-197 | on server card tokens the C++ client's value agrees with the Python fallback's |
| GameManager.CardValueOfUnknownRank | clients/cpp_cli/src/game/game_manager.cpp:192-196 | a rank prefix that is no face letter and does not start like a number is worth 0 |
| GameManager.AutoPickUnique | clients/cpp_cli/src/game/game_manager.cpp:135-144 | the auto-play pick is determined by the legal moves |
| GameManager.AutoPickHighest | clients/cpp_cli/src/game/game_manager.cpp:135-144 | when every value is non-negative, the pick is a legal move of the highest value |
| GameManager.AutoPick | clients/cpp_cli/src/game/game_manager.cpp:135-144 | the scan returns the first legal move of greatest value above -1, or the first legal move when no value is above -1 |
| GameManager.ScanStep | clients/cpp_cli/src/game/game_manager.cpp:138-144 | one scanned move either replaces the pick with a greater value or keeps it |
| GameManager.ScanGreater | clients/cpp_cli/src/game/game_manager.cpp:140-143 | a greater value becomes the new pick |
| GameManager.ScanNotGreater | clients/cpp_cli/src/game/game_manager.cpp:140 | a value that is not greater keeps the pick |
| GameManager.ScannedAll | clients/cpp_cli/src/game/game_manager.cpp:135-144 | a finished scan holds the auto-play pick |
| GameManager.HasCode | clients/cpp_cli/src/game/game_manager.cpp:153-170 | the search finds the code exactly when a card with that code is in the list |
| GameManager.GameManager.constructor | clients/cpp_cli/src/game/game_manager.cpp:6-7 | a new manager has the empty state and has sent nothing |
| GameManager.Step | clients/cpp_cli/src/game/game_manager.cpp:9-72 | each message type touches only its own fields: only WELCOME changes the identity, only DEAL and PLAY_BROADCAST the hand, only YOUR_TURN the legal moves, only DEAL and TRICK_RESULT the score, only DEAL the trick count, only YOUR_TURN and PLAY_BROADCAST the turn flag, and an unknown type nothing |
| GameManager.GameManager.HandleMessage | clients/cpp_cli/src/game/game_manager.cpp:9-22 | the state becomes the step of the message type: WELCOME, DEAL, YOUR_TURN, PLAY_BROADCAST and TRICK_RESULT update it, and other types leave it |
| GameManager.GameManager.OnWelcome | clients/cpp_cli/src/game/game_manager.cpp:24-29 | the state takes the player id, nickname and room of the message |
| GameManager.GameManager.OnDeal | clients/cpp_cli/src/game/game_manager.cpp:31-40 | the copy loop leaves the hand as the dealt list, with the trick count, trick 1, score 0:0 and an empty table |
| GameManager.GameManager.OnYourTurn | clients/cpp_cli/src/game/game_manager.cpp:42-50 | the copy loop leaves the legal moves as the received list, with the turn set and the trick number read |
| GameManager.GameManager.OnPlayBroadcast | clients/cpp_cli/src/game/game_manager.cpp:52-63 | the play goes on the table, and the player's own play ends the turn and erases the card from the hand |
| GameManager.GameManager.OnTrickResult | clients/cpp_cli/src/game/game_manager.cpp:65-72 | the score is read from the message and the table cleared |
| GameManager.GameManager.ProcessInput | clients/cpp_cli/src/game/game_manager.cpp:118-181 | nothing is sent off turn or for blank input; AUTO or A sends PLAY of the auto-play pick, or nothing without legal moves; any other input, upper-cased, is sent as PLAY only when it is in both the hand and the legal moves |
| GameManager.SentPlayIsLegal | clients/cpp_cli/src/game/game_manager.cpp:126-176 | whatever card the client sends is one of its legal moves |
| GameManager.DealGivesHand | clients/cpp_cli/src/game/game_manager.cpp:31-40 | a DEAL listing codes gives exactly those cards as the hand, an empty table, trick 1 and score 0:0 |
| GameManager.YourTurnGivesMoves | clients/cpp_cli/src/game/game_manager.cpp:42-50 | a YOUR_TURN listing codes sets the turn and gives exactly those legal moves, hand and table unchanged |
| GameManager.TrickResultClears | clients/cpp_cli/src/game/game_manager.cpp:65-72 | a TRICK_RESULT clears the table and leaves the hand, the legal moves and the turn alone |
| GameManager.PlayBroadcastEffect | clients/cpp_cli/src/game/game_manager.cpp:52-63 | the play is appended to the table; the player's own play ends the turn and leaves no copy of the card, every other card's count unchanged; another player's play leaves hand and turn alone |
| GameManager.OtherMessagesChangeNothing | clients/cpp_cli/src/game/game_manager.cpp:9-22 | GAME_OVER, ERROR and unknown messages leave the state unchanged |

## Left out

- Threads, channels and polling: the accept loop, `game_loop`'s `recv_timeout`/`try_recv`, `main` and `parse_port_from_args`. Each handler is one atomic step over `ServerState`.
- Socket I/O, NDJSON framing, serde, the UDP heartbeat, the admin TCP session and all UI clients. These are I/O and are not part of this model.
- `info!` logging and the `GameLogger` calls inside the handlers. They do not affect game state.
- The logger's `Arc<Mutex<…>>`. The ring buffer is modelled single-threaded.
- Clock-derived values: `generate_seed`, `rand_u16` and log timestamps. They are parameters (`seed`, `newSeed`, `seedOf`, `rnd`, the entry time).
- `find_player_conn` and `get_all_rooms_info`/`get_all_players_info`. They are not part of this model. A kick takes the lookup result as a parameter, and the `GetRooms`/`GetPlayers` admin events and the `format_status`/`format_rooms`/`format_players`/`format_logs` table layouts are left out.
- Unicode: strings are ASCII sequences of `char`. `to_uppercase`/`to_lowercase` map ASCII letters only, and the panic of `from_protocol_string` on a multi-byte last character is not modelled.
- `GameManager::render_ui`, `on_game_over` and `on_error`. They only print to the console; `on_game_over` and `on_error` leave the state unchanged (`GameManager.OtherMessagesChangeNothing`).
- Server.ServerState.HandleHello: requires `next_room_id` below 2^32 - 1 unless a joinable room exists, so the `u32` room counter never wraps when a room is created.
- Rooms.RoomManager.GetOrCreateWaitingRoom: requires the same bound, on the path that creates a room only; the wrap of `next_room_id += 1` at 2^32 - 1 is not modelled.
- Rooms.RoomManager.CreateRoom: requires `next_room_id` below 2^32 - 1; the `u32` wrap of the counter is not modelled.
- Server.ServerState.HandleHello: requires the random suffix below 2^16, the range of `rand_u16`.
- Server.ServerState.Lobby: takes the same room-counter bound as HandleHello, for the same reason.
- Server.ServerState.HandleMessage: takes the same two bounds for HELLO.
- Server.ServerState.HandleDisconnected: states only that the mapped room's engine and mappings can shrink. The detailed Bridge-mode reset is stated by `Server.ServerState.HandleBridgeModeDisconnect`.
- Server.ServerState.HandleAdminEvent: states the routing facts, not each event's whole effect. The whole effect of each event is stated one level down: `HandleKick` states the seat removal and the bridge-mode reset, `HandleResetRoom` states the notices and the room's `ResetView` contents, and `HandleResetAll` states the reset of every playing room. The event handler does not carry those effects up.
- Server.ServerState.ProcessAiTurns: states the engine state reached as some number of AI moves, and that the queue only grows, but not the composed broadcasts of all those moves; the broadcasts of each move are stated by `AiStep` and `AiPlay`. The same holds for the AI turns inside `PlayAccepted`, `HandlePlay`, `StartGame`, `BeginGame` and `Admit`, which state the broadcasts or deals queued before those turns.
- Connection ids: handlers require a non-virtual connection id, because ids come from a counter starting at 1 and never reach the two reserved AI ids.
- Rooms.Room.NextSlot: states only the range 1..5. The slot it yields is visible as the player id of `Handshake.ProcessHello`.
- JsonHelper.GetString: its own contract states only where a value can come from. The value read is stated by `GetStringQuoted`, `GetStringMissing` and `GetStringBare`, and the other extractors by `GetInt` and the round-trip lemmas.
- GameManager's per-message step functions carry no contract of their own. Their effects are stated by `DealGivesHand`, `YourTurnGivesMoves`, `PlayBroadcastEffect`, `TrickResultClears` and `OtherMessagesChangeNothing`.

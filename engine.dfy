/** The per-room trick-taking state machine (server/src/game/engine.rs):
    WaitingToDeal -> WaitingForPlay(i) -> ... -> TrickComplete -> WaitingForPlay(winner) | GameOver. */
module Engine {
  import opened Types
  import opened Strings
  import opened Deck

  const CARDS_PER_PLAYER: nat := 13
  const TOTAL_TRICKS: nat := 13
  const TIMEOUT_MS: nat := 30000

  datatype GamePhase = WaitingToDeal | WaitingForPlay(currentPlayerIdx: nat) | TrickComplete | GameOver

  datatype GamePlayer = GamePlayer(connId: ConnectionId, playerId: PlayerId, team: Team, hand: seq<Card>)

  datatype PlayError = NotInGame | NotYourTurn | InvalidCard | NotInHand | NotLegal

  /** What `play_card` reports: the broadcast, and either the next seat or a full table. */
  datatype PlayResult = Continue(broadcast: ServerMessage, nextIdx: nat) | TrickComplete(broadcast: ServerMessage)

  /** What `resolve_trick` reports: the TRICK_RESULT message, and the next leader unless the game is over. */
  datatype TrickResolution = NextTrick(result: ServerMessage, nextIdx: nat) | GameOver(result: ServerMessage)

  // ---------------------------------------------------------------- hand ordering

  /** The key `(suit as u8, rank)` by which dealt hands are sorted. */
  predicate CardLe(a: Card, b: Card)
  {
    SuitIndex(a.suit) < SuitIndex(b.suit) || (SuitIndex(a.suit) == SuitIndex(b.suit) && a.rank <= b.rank)
  }

  predicate SortedHand(h: seq<Card>)
  {
    forall i, j :: 0 <= i < j < |h| ==> CardLe(h[i], h[j])
  }

  /** Inserts `c` into a sorted hand after every card that is strictly before it. */
  function InsertCard(c: Card, h: seq<Card>): seq<Card>
  {
    if h == [] then [c]
    else if CardLe(c, h[0]) then [c] + h
    else [h[0]] + InsertCard(c, h[1..])
  }

  /** `hand.sort_by_key(|c| (c.suit as u8, c.rank))`, as an insertion sort. */
  function SortHand(h: seq<Card>): seq<Card>
  {
    if h == [] then [] else InsertCard(h[0], SortHand(h[1..]))
  }

  lemma {:induction false} InsertCardPermutes(c: Card, h: seq<Card>)
    ensures multiset(InsertCard(c, h)) == multiset(h) + multiset{c}
  {
    if h != [] && !CardLe(c, h[0]) {
      InsertCardPermutes(c, h[1..]);
      assert h == [h[0]] + h[1..];
    }
  }

  lemma {:induction false} InsertCardSorted(c: Card, h: seq<Card>)
    requires SortedHand(h)
    ensures SortedHand(InsertCard(c, h))
  {
    if h != [] && !CardLe(c, h[0]) {
      var t := InsertCard(c, h[1..]);
      InsertCardSorted(c, h[1..]);
      InsertCardPermutes(c, h[1..]);
      forall k | 0 <= k < |t|
        ensures CardLe(h[0], t[k])
      {
        assert t[k] in multiset(t);
        if t[k] != c {
          assert t[k] in multiset(h[1..]);
          var m :| 0 <= m < |h[1..]| && h[1..][m] == t[k];
          assert h[1 + m] == t[k];
        }
      }
    }
  }

  /** Sorting a hand keeps exactly its cards. */
  lemma {:induction false} SortHandPermutes(h: seq<Card>)
    ensures multiset(SortHand(h)) == multiset(h)
  {
    if h != [] {
      SortHandPermutes(h[1..]);
      InsertCardPermutes(h[0], SortHand(h[1..]));
      assert h == [h[0]] + h[1..];
    }
  }

  /** A sorted hand is in `(suit, rank)` key order. */
  lemma {:induction false} SortHandSorted(h: seq<Card>)
    ensures SortedHand(SortHand(h))
  {
    if h != [] {
      SortHandSorted(h[1..]);
      InsertCardSorted(h[0], SortHand(h[1..]));
    }
  }

  // ---------------------------------------------------------------- sequences of cards

  /** `iter().position(|x| x == c)` for a card known to be present. */
  function IndexOfCard(h: seq<Card>, c: Card): (k: nat)
    requires c in h
    ensures k < |h| && h[k] == c && c !in h[..k]
  {
    if h[0] == c then 0
    else
      assert h[1..] == h[..][1..];
      var k := IndexOfCard(h[1..], c);
      assert h[..k + 1] == [h[0]] + h[1..][..k];
      k + 1
  }

  /** `Vec::remove(position(card))`: drops the first copy of `c` and keeps the order of the rest. */
  function RemoveFirst(h: seq<Card>, c: Card): (r: seq<Card>)
    requires c in h
    ensures |r| == |h| - 1
    ensures multiset(r) + multiset{c} == multiset(h)
    ensures r == h[..IndexOfCard(h, c)] + h[IndexOfCard(h, c) + 1..]
  {
    var k := IndexOfCard(h, c);
    assert h == h[..k] + [h[k]] + h[k + 1..];
    h[..k] + h[k + 1..]
  }

  predicate HasSuit(h: seq<Card>, s: Suit)
  {
    exists c :: c in h && c.suit == s
  }

  /** The cards of `h` of suit `s`, in hand order. */
  function FilterSuit(h: seq<Card>, s: Suit): (r: seq<Card>)
    ensures forall c :: c in r <==> c in h && c.suit == s
    ensures |r| <= |h|
  {
    if h == [] then []
    else
      assert h == [h[0]] + h[1..];
      (if h[0].suit == s then [h[0]] else []) + FilterSuit(h[1..], s)
  }

  /** The legal moves of `hand` with `table` on the table: the whole hand when leading or when
      the hand holds no card of the lead suit, otherwise exactly its cards of the lead suit. */
  function LegalMoves(hand: seq<Card>, table: seq<(nat, Card)>): (r: seq<Card>)
    ensures forall c :: c in r ==> c in hand
    ensures table == [] ==> r == hand
    ensures table != [] ==>
      forall c :: c in r <==> c in hand && (c.suit == table[0].1.suit || !HasSuit(hand, table[0].1.suit))
    ensures |hand| > 0 ==> |r| > 0
  {
    if table == [] then hand
    else
      var same := FilterSuit(hand, table[0].1.suit);
      if same == [] then hand
      else
        assert same[0] in same;
        assert HasSuit(hand, table[0].1.suit);
        same
  }

  function CardStrings(h: seq<Card>): (r: seq<string>)
    ensures |r| == |h|
  {
    seq(|h|, k requires 0 <= k < |h| => ToProtocolString(h[k]))
  }

  function TableCards(t: seq<(nat, Card)>): (r: seq<Card>)
    ensures |r| == |t|
  {
    seq(|t|, k requires 0 <= k < |t| => t[k].1)
  }

  /** The table as (player id, token) pairs, as YOUR_TURN and TRICK_RESULT carry it. */
  function TablePlays(t: seq<(nat, Card)>, ps: seq<GamePlayer>): (r: seq<TablePlay>)
    requires forall j :: 0 <= j < |t| ==> t[j].0 < |ps|
    ensures |r| == |t|
  {
    seq(|t|, j requires 0 <= j < |t| => TablePlay(ps[t[j].0].playerId, ToProtocolString(t[j].1)))
  }

  // ---------------------------------------------------------------- trick winner

  /** Position, among the first `n` plays, of the last play of suit `s` whose rank no earlier play
      of that suit beats: Rust's `filter(suit).max_by_key(rank)`, which keeps the LAST maximum. */
  function LastMaxOfSuit(t: seq<(nat, Card)>, s: Suit, n: nat): (r: Option<nat>)
    requires n <= |t|
    ensures r.None? <==> forall j :: 0 <= j < n ==> t[j].1.suit != s
    ensures r.Some? ==> r.value < n && t[r.value].1.suit == s
    ensures r.Some? ==> forall j :: 0 <= j < n && t[j].1.suit == s ==> t[j].1.rank <= t[r.value].1.rank
    ensures r.Some? ==> forall j :: r.value < j < n && t[j].1.suit == s ==> t[j].1.rank < t[r.value].1.rank
  {
    if n == 0 then None
    else
      var b := LastMaxOfSuit(t, s, n - 1);
      if t[n - 1].1.suit != s then b
      else if b.None? || t[b.value].1.rank <= t[n - 1].1.rank then Some(n - 1)
      else b
  }

  /** The winning position of a non-empty trick: a card of the lead suit (the suit of the first
      play), with the highest rank among the lead-suit cards; off-suit cards never win. */
  function TrickWinner(t: seq<(nat, Card)>): (k: nat)
    requires |t| > 0
    ensures k < |t| && t[k].1.suit == t[0].1.suit
    ensures forall j :: 0 <= j < |t| && t[j].1.suit == t[0].1.suit ==> t[j].1.rank <= t[k].1.rank
  {
    LastMaxOfSuit(t, t[0].1.suit, |t|).value
  }

  /** The game-over winner: AI only with a strictly higher score; a tie goes to the humans. */
  function WinningTeam(s: Score): (w: Team)
    ensures w == Team.Ai <==> s.ai > s.human
    ensures w == Team.Human <==> s.human >= s.ai
  {
    if s.human > s.ai then Team.Human else if s.ai > s.human then Team.Ai else Team.Human
  }

  function AddPoint(s: Score, t: Team): (r: Score)
    ensures r.human + r.ai == s.human + s.ai + 1
    ensures t == Team.Human ==> r == Score(s.human + 1, s.ai)
    ensures t == Team.Ai ==> r == Score(s.human, s.ai + 1)
  {
    match t
    case Human => s.(human := s.human + 1)
    case Ai => s.(ai := s.ai + 1)
  }

  /** Position of the first player with connection `conn` (`iter().position`). */
  function FindSeat(ps: seq<GamePlayer>, conn: ConnectionId): (r: Option<nat>)
    ensures r.Some? ==> r.value < |ps| && ps[r.value].connId == conn
                        && forall k :: 0 <= k < r.value ==> ps[k].connId != conn
    ensures r.None? ==> forall k :: 0 <= k < |ps| ==> ps[k].connId != conn
  {
    if ps == [] then None
    else if ps[0].connId == conn then Some(0)
    else
      var r := FindSeat(ps[1..], conn);
      if r.None? then None else Some(r.value + 1)
  }

  // ---------------------------------------------------------------- conservation of cards

  /** The cards held in seats 0..3, the only seats that are ever dealt cards. */
  ghost function SeatCards(ps: seq<GamePlayer>): multiset<Card>
    requires |ps| >= 4
  {
    multiset(ps[0].hand) + multiset(ps[1].hand) + multiset(ps[2].hand) + multiset(ps[3].hand)
  }

  /** Replacing the player in seat `i` swaps that seat's hand in the total. */
  lemma SeatCardsUpdate(ps: seq<GamePlayer>, i: nat, p: GamePlayer)
    requires |ps| >= 4 && i < 4
    ensures SeatCards(ps[i := p]) + multiset(ps[i].hand) == SeatCards(ps) + multiset(p.hand)
  {
    var qs := ps[i := p];
    forall x
      ensures (SeatCards(qs) + multiset(ps[i].hand))[x] == (SeatCards(ps) + multiset(p.hand))[x]
    {
      assert forall k :: 0 <= k < 4 && k != i ==> qs[k] == ps[k];
    }
  }

  /** The hand dealt to seat `p` (before sorting) by `deal` with seed `seed`. */
  ghost function DealtColumn(seed: u64, p: nat): seq<Card>
    requires p < 4
  {
    Column(ShuffleSpec(FullDeck(), seed), 4, p)
  }

  /** Each card occurs in the deck at most once. */
  lemma FullDeckOnce(c: Card)
    ensures multiset(FullDeck())[c] <= 1
  {
    FullDeckComplete();
    DistinctOnce(FullDeck(), c);
  }

  /** In a sequence without repeated positions every element occurs at most once. */
  lemma {:induction false} DistinctOnce(d: seq<Card>, c: Card)
    requires forall i, j :: 0 <= i < j < |d| ==> d[i] != d[j]
    ensures multiset(d)[c] <= 1
  {
    if d != [] {
      DistinctOnce(d[1..], c);
      assert d == [d[0]] + d[1..];
      if d[0] == c {
        forall k | 0 <= k < |d| - 1
          ensures d[1..][k] != c
        {
          assert d[1..][k] == d[k + 1];
        }
      }
    }
  }

  lemma DeckCardValid(c: Card)
    requires c in multiset(FullDeck())
    ensures ValidRank(c.rank)
  {
    var i :| 0 <= i < 52 && FullDeck()[i] == c;
  }

  /** A multiset of cards that is one whole deck: every real card exactly once, nothing else. */
  ghost predicate IsFullDeck(m: multiset<Card>)
  {
    forall c: Card :: DeckCount(m, c)
  }

  /** `c` occurs in `m` exactly as often as in one full deck. */
  ghost predicate DeckCount(m: multiset<Card>, c: Card)
  {
    m[c] == if ValidRank(c.rank) then 1 else 0
  }

  /** The unshuffled deck is one whole deck. */
  lemma FullDeckIsFullDeck()
    ensures IsFullDeck(multiset(FullDeck()))
  {
    forall c: Card
      ensures DeckCount(multiset(FullDeck()), c)
    {
      FullDeckOnce(c);
      FullDeckComplete();
      if c in multiset(FullDeck()) {
        DeckCardValid(c);
      }
    }
  }

  /** A sequence in which every element occurs at most once has no repeated positions. */
  lemma OnceMeansDistinct(d: seq<Card>)
    requires forall c :: multiset(d)[c] <= 1
    ensures forall i, j :: 0 <= i < j < |d| ==> d[i] != d[j]
  {
    forall i, j | 0 <= i < j < |d|
      ensures d[i] != d[j]
    {
      var c := d[j];
      assert d == d[..j] + d[j..];
      assert multiset(d)[c] == multiset(d[..j])[c] + multiset(d[j..])[c];
      assert d[j..][0] == c;
      assert c !in multiset(d[..j]);
      assert d[..j][i] == d[i];
    }
  }

  /** Seats `p` and `q` receive different positions of `d`, hence different cards. */
  lemma ColumnPairDisjoint(d: seq<Card>, p: nat, q: nat, c: Card)
    requires forall i, j :: 0 <= i < j < |d| ==> d[i] != d[j]
    requires p < q < 4 && c in Column(d, 4, p)
    ensures c !in Column(d, 4, q)
  {
    ColumnOfFour(d, p);
    ColumnOfFour(d, q);
    var cp, cq := Column(d, 4, p), Column(d, 4, q);
    var j :| 0 <= j < |cp| && cp[j] == c;
    forall k | 0 <= k < |cq|
      ensures cq[k] != c
    {
      ResidueDistinct(p, q, j, k);
      DistinctAt(d, p + 4 * j, q + 4 * k);
    }
  }

  /** Positions dealt to different seats differ. */
  lemma ResidueDistinct(p: nat, q: nat, j: nat, k: nat)
    requires p < q < 4
    ensures p + 4 * j != q + 4 * k
  {
  }

  lemma DistinctAt(d: seq<Card>, a: nat, b: nat)
    requires forall i, j :: 0 <= i < j < |d| ==> d[i] != d[j]
    requires a < |d| && b < |d| && a != b
    ensures d[a] != d[b]
  {
    if a < b {
      assert d[a] != d[b];
    } else {
      assert d[b] != d[a];
    }
  }

  /** Dealing a sequence without repeated cards round-robin to four seats: no card reaches two seats. */
  lemma ColumnsDisjoint(d: seq<Card>)
    requires forall i, j :: 0 <= i < j < |d| ==> d[i] != d[j]
    ensures forall p, q, c :: 0 <= p < q < 4 && c in Column(d, 4, p) ==> c !in Column(d, 4, q)
  {
    forall p, q, c | 0 <= p < q < 4 && c in Column(d, 4, p)
      ensures c !in Column(d, 4, q)
    {
      ColumnPairDisjoint(d, p, q, c);
    }
  }

  /** Dealing a sequence of real cards round-robin to four seats: every dealt card is a real card. */
  lemma ColumnsValid(d: seq<Card>)
    requires forall i :: 0 <= i < |d| ==> ValidRank(d[i].rank)
    ensures forall p, c :: 0 <= p < 4 && c in Column(d, 4, p) ==> ValidRank(c.rank)
  {
    forall p, c | 0 <= p < 4 && c in Column(d, 4, p)
      ensures ValidRank(c.rank)
    {
      ColumnOfFour(d, p);
      var cp := Column(d, 4, p);
      var j :| 0 <= j < |cp| && cp[j] == c;
      assert c == d[p + 4 * j];
    }
  }

  /** Dealing a 52-card deck round-robin to four seats gives each seat 13 cards. */
  lemma ColumnsOfThirteen(d: seq<Card>)
    requires |d| == 52
    ensures forall p :: 0 <= p < 4 ==> |Column(d, 4, p)| == CARDS_PER_PLAYER
  {
    forall p | 0 <= p < 4
      ensures |Column(d, 4, p)| == CARDS_PER_PLAYER
    {
      ColumnOfFour(d, p);
    }
  }

  /** Four hands of 13 cards each that together are the whole deck. */
  ghost predicate DealsDeck(hands: seq<seq<Card>>)
  {
    |hands| == 4 && (forall p :: 0 <= p < 4 ==> |hands[p]| == CARDS_PER_PLAYER) &&
    multiset(hands[0]) + multiset(hands[1]) + multiset(hands[2]) + multiset(hands[3]) == multiset(FullDeck())
  }

  /** The four dealt hands have 13 cards each and together are the whole deck. */
  lemma DealtHandsCoverDeck(seed: u64)
    ensures forall p :: 0 <= p < 4 ==> |DealtColumn(seed, p)| == CARDS_PER_PLAYER
    ensures multiset(DealtColumn(seed, 0)) + multiset(DealtColumn(seed, 1)) + multiset(DealtColumn(seed, 2))
            + multiset(DealtColumn(seed, 3)) == multiset(FullDeck())
    ensures DealsDeck(DealtHands(seed))
  {
    var d := ShuffleSpec(FullDeck(), seed);
    ShufflePermutes(FullDeck(), seed);
    ColumnsOfThirteen(d);
    ColumnsPartition(d);
  }

  /** Every seed deals four hands of 13 cards each; they are pairwise disjoint, hold only real
      cards, and together they are the whole deck. */
  lemma DealtHandsPartitionDeck(seed: u64)
    ensures forall p :: 0 <= p < 4 ==> |DealtColumn(seed, p)| == CARDS_PER_PLAYER
    ensures multiset(DealtColumn(seed, 0)) + multiset(DealtColumn(seed, 1)) + multiset(DealtColumn(seed, 2))
            + multiset(DealtColumn(seed, 3)) == multiset(FullDeck())
    ensures forall p, q, c :: 0 <= p < q < 4 && c in DealtColumn(seed, p) ==> c !in DealtColumn(seed, q)
    ensures forall p, c :: 0 <= p < 4 && c in DealtColumn(seed, p) ==> ValidRank(c.rank)
  {
    DealtHandsCoverDeck(seed);
    var d := ShuffleSpec(FullDeck(), seed);
    ShufflePermutes(FullDeck(), seed);
    forall c
      ensures multiset(d)[c] <= 1
    {
      FullDeckOnce(c);
    }
    OnceMeansDistinct(d);
    ColumnsDisjoint(d);
    forall i | 0 <= i < |d|
      ensures ValidRank(d[i].rank)
    {
      assert d[i] in multiset(d);
      DeckCardValid(d[i]);
    }
    ColumnsValid(d);
  }

  /** `Deck::new`, `shuffle(seed)` and `deal(4, 13)`, as `GameEngine::deal` uses them. */
  method DealFromShuffledDeck(seed: u64) returns (hands: seq<seq<Card>>)
    ensures hands == DealtHands(seed) && DealsDeck(hands)
  {
    var deck := new Deck();
    deck.Shuffle(seed);
    hands := deck.Deal(4, CARDS_PER_PLAYER);
    assert deck.cards[..52] == deck.cards[..];
    assert hands == DealtHands(seed);
    DealtHandsCoverDeck(seed);
  }

  // ---------------------------------------------------------------- the engine invariant

  /** The engine's fields as one value, together with two ghost fields: the cards of the tricks
      already resolved, and the seat that led the current trick. */
  datatype EngineState = EngineState(
    players: seq<GamePlayer>, phase: GamePhase, currentTrick: nat, table: seq<(nat, Card)>,
    score: Score, history: seq<TrickHistory>, played: seq<Card>, leader: nat)

  /** Where the cards are: in the hands, on the table, or in resolved tricks. */
  ghost function AllCards(st: EngineState): multiset<Card>
    requires |st.players| >= 4
  {
    SeatCards(st.players) + multiset(TableCards(st.table)) + multiset(st.played)
  }

  /** The hands, the table and the resolved tricks hold one whole deck between them. */
  ghost predicate HoldsDeck(st: EngineState)
    requires |st.players| >= 4
  {
    forall c: Card :: DeckCount(AllCards(st), c)
  }

  /** Seat `s` (below 4) has already played in the current trick. */
  ghost predicate HasPlayed(st: EngineState, s: nat)
  {
    (s + 4 - st.leader) % 4 < |st.table|
  }

  /** During trick `t`, a seat holds 14 - t cards before it plays and 13 - t after. */
  ghost predicate HandSizes(st: EngineState)
  {
    |st.players| >= 4 && 1 <= st.currentTrick <= TOTAL_TRICKS &&
    forall s :: 0 <= s < 4 ==>
      |st.players[s].hand| == 14 - st.currentTrick - (if HasPlayed(st, s) then 1 else 0)
  }

  /** Seats play in turn from the leader; only seats 0..3 ever hold cards. */
  ghost predicate SeatsOk(st: EngineState)
  {
    st.leader < 4 && |st.table| <= 4 &&
    (forall j :: 0 <= j < |st.table| ==> st.table[j].0 == (st.leader + j) % 4 && st.table[j].0 < |st.players|) &&
    (forall s :: 4 <= s < |st.players| ==> st.players[s].hand == [])
  }

  ghost predicate PhaseOk(st: EngineState)
  {
    match st.phase
    case WaitingToDeal =>
      st.currentTrick == 0 && st.table == [] && st.history == [] && st.played == [] &&
      forall s :: 0 <= s < |st.players| ==> st.players[s].hand == []
    case WaitingForPlay(cur) =>
      HandSizes(st) && |st.table| < 4 && cur == (st.leader + |st.table|) % 4 && |st.history| == st.currentTrick - 1
    case TrickComplete =>
      HandSizes(st) && |st.table| == 4 && |st.history| == st.currentTrick - 1
    case GameOver =>
      |st.players| >= 4 && st.currentTrick == TOTAL_TRICKS && st.table == [] && |st.history| == TOTAL_TRICKS &&
      forall s :: 0 <= s < |st.players| ==> st.players[s].hand == []
  }

  /** The engine invariant: after the deal the hands, the table and the resolved tricks always make
      up the original deck, and the score always counts the resolved tricks. */
  ghost predicate Inv(st: EngineState)
  {
    SeatsOk(st) && PhaseOk(st) &&
    st.score.human + st.score.ai == |st.history| &&
    (st.phase != WaitingToDeal ==> |st.players| >= 4 && HoldsDeck(st))
  }

  /** The four hands `deal` hands out for `seed`. */
  ghost function DealtHands(seed: u64): (r: seq<seq<Card>>)
    ensures |r| == 4
  {
    seq(4, p requires 0 <= p < 4 => DealtColumn(seed, p))
  }

  /** The seats after `deal`: seats 0..3 get their hands, sorted; the other seats keep theirs. */
  function DealtPlayers(ps: seq<GamePlayer>, hands: seq<seq<Card>>): (r: seq<GamePlayer>)
    requires |hands| == 4
    ensures |r| == |ps|
  {
    seq(|ps|, k requires 0 <= k < |ps| => if k < 4 then ps[k].(hand := SortHand(hands[k])) else ps[k])
  }

  /** The DEAL message each seat is sent, in seat order. */
  function DealMessages(ps: seq<GamePlayer>): (r: seq<(ConnectionId, ServerMessage)>)
    ensures |r| == |ps|
    ensures forall k :: 0 <= k < |ps| ==> r[k].0 == ps[k].connId && r[k].1.Deal?
  {
    seq(|ps|, k requires 0 <= k < |ps| => (ps[k].connId, ServerMessage.Deal(CardStrings(ps[k].hand), TOTAL_TRICKS)))
  }

  /** After the deal, seats 0..3 hold thirteen cards each and together the whole deck. */
  lemma DealtPlayersHoldDeck(ps: seq<GamePlayer>, hands: seq<seq<Card>>)
    requires |ps| >= 4 && DealsDeck(hands)
    ensures SeatCards(DealtPlayers(ps, hands)) == multiset(FullDeck())
    ensures forall s :: 0 <= s < 4 ==> |DealtPlayers(ps, hands)[s].hand| == CARDS_PER_PLAYER
  {
    var r := DealtPlayers(ps, hands);
    forall s | 0 <= s < 4
      ensures multiset(r[s].hand) == multiset(hands[s])
      ensures |r[s].hand| == CARDS_PER_PLAYER
    {
      SortHandPermutes(hands[s]);
      assert |r[s].hand| == |multiset(r[s].hand)|;
    }
  }

  /** The state after `deal` hands out `hands`. */
  ghost function AfterDeal(st: EngineState, hands: seq<seq<Card>>): EngineState
    requires |hands| == 4
  {
    EngineState(DealtPlayers(st.players, hands), WaitingForPlay(0), 1, st.table, st.score, st.history, st.played, 0)
  }

  /** The state `GameEngine::new` builds: one seat per (connection, player id, team) with an
      empty hand, nothing played, waiting to deal. */
  function NewState(seats: seq<(ConnectionId, PlayerId, Team)>): EngineState
  {
    EngineState(seq(|seats|, k requires 0 <= k < |seats| => GamePlayer(seats[k].0, seats[k].1, seats[k].2, [])),
                WaitingToDeal, 0, [], Score(0, 0), [], [], 0)
  }

  /** The state of a game for `seats` just dealt from `seed`. */
  ghost function DealtState(seed: u64, seats: seq<(ConnectionId, PlayerId, Team)>): EngineState
  {
    AfterDeal(NewState(seats), DealtHands(seed))
  }

  /** A game just dealt keeps the seats it was given, in order; seats 0..3 hold their dealt hands,
      sorted, and between them the whole deck; trick 1 waits on seat 0 with nothing played. */
  lemma DealtStateShape(seed: u64, seats: seq<(ConnectionId, PlayerId, Team)>)
    requires |seats| >= 4
    ensures var st := DealtState(seed, seats);
            |st.players| == |seats| &&
            (forall k :: 0 <= k < |seats| ==>
               st.players[k].connId == seats[k].0 && st.players[k].playerId == seats[k].1 &&
               st.players[k].team == seats[k].2) &&
            (forall k :: 0 <= k < 4 ==>
               multiset(st.players[k].hand) == multiset(DealtHands(seed)[k]) && SortedHand(st.players[k].hand)) &&
            (forall k :: 4 <= k < |seats| ==> st.players[k].hand == []) &&
            SeatCards(st.players) == multiset(FullDeck()) &&
            st.phase == WaitingForPlay(0) && st.currentTrick == 1 && st.table == [] &&
            st.score == Score(0, 0) && st.history == []
  {
    var hands := DealtHands(seed);
    DealtHandsCoverDeck(seed);
    DealtPlayersHoldDeck(NewState(seats).players, hands);
    forall k | 0 <= k < 4
      ensures multiset(SortHand(hands[k])) == multiset(hands[k]) && SortedHand(SortHand(hands[k]))
    {
      SortHandPermutes(hands[k]);
      SortHandSorted(hands[k]);
    }
  }

  lemma DealKeepsSeats(st: EngineState, hands: seq<seq<Card>>)
    requires SeatsOk(st) && PhaseOk(st) && st.phase == WaitingToDeal && |st.players| >= 4 && |hands| == 4
    ensures SeatsOk(AfterDeal(st, hands))
  {
    var ps := DealtPlayers(st.players, hands);
    assert forall s :: 4 <= s < |ps| ==> ps[s] == st.players[s];
  }

  lemma DealKeepsPhase(st: EngineState, hands: seq<seq<Card>>)
    requires SeatsOk(st) && PhaseOk(st) && st.phase == WaitingToDeal && |st.players| >= 4 && DealsDeck(hands)
    ensures PhaseOk(AfterDeal(st, hands))
  {
    var st' := AfterDeal(st, hands);
    DealtPlayersHoldDeck(st.players, hands);
    assert forall s :: 0 <= s < 4 ==> !HasPlayed(st', s);
    assert HandSizes(st');
  }

  /** Dealing a whole deck from the initial state establishes the invariant: from here on the
      hands, the table and the resolved tricks always hold the 52 cards. */
  lemma DealKeepsInv(st: EngineState, hands: seq<seq<Card>>)
    requires Inv(st) && st.phase == WaitingToDeal && |st.players| >= 4 && DealsDeck(hands)
    ensures Inv(AfterDeal(st, hands))
  {
    DealKeepsSeats(st, hands);
    DealKeepsPhase(st, hands);
    DealtPlayersHoldDeck(st.players, hands);
    assert AllCards(AfterDeal(st, hands)) == multiset(FullDeck());
    FullDeckIsFullDeck();
  }

  /** The state after seat `idx` plays `card`. */
  ghost function AfterPlay(st: EngineState, idx: nat, card: Card): EngineState
    requires idx < |st.players| && card in st.players[idx].hand
  {
    var ps := st.players[idx := st.players[idx].(hand := RemoveFirst(st.players[idx].hand, card))];
    var t := st.table + [(idx, card)];
    st.(players := ps, table := t,
        phase := if |t| == 4 then GamePhase.TrickComplete else WaitingForPlay((idx + 1) % 4))
  }

  /** Multiset bookkeeping of a move: taking `c` from one hand and putting it elsewhere. */
  lemma MoveOne(h': multiset<Card>, h: multiset<Card>, ph: multiset<Card>, hi: multiset<Card>, c: Card)
    requires ph + multiset{c} == hi && h' + hi == h + ph
    ensures h' + multiset{c} == h
  {
    forall x
      ensures (h' + multiset{c})[x] == h[x]
    {
      assert (ph + multiset{c})[x] == hi[x];
      assert (h' + hi)[x] == (h + ph)[x];
    }
  }

  lemma PlayKeepsCards(st: EngineState, idx: nat, card: Card)
    requires idx < |st.players| && card in st.players[idx].hand
    requires |st.players| >= 4 && idx < 4
    ensures AllCards(AfterPlay(st, idx, card)) == AllCards(st)
  {
    var st' := AfterPlay(st, idx, card);
    var p := st.players[idx].(hand := RemoveFirst(st.players[idx].hand, card));
    SeatCardsUpdate(st.players, idx, p);
    var h, h' := SeatCards(st.players), SeatCards(st'.players);
    MoveOne(h', h, multiset(p.hand), multiset(st.players[idx].hand), card);
    assert TableCards(st'.table) == TableCards(st.table) + [card];
    var t, t' := multiset(TableCards(st.table)), multiset(TableCards(st'.table));
    assert t' == t + multiset{card};
    assert AllCards(st') == h' + t' + multiset(st.played);
  }

  /** A play keeps the whole deck among the hands, the table and the resolved tricks. */
  lemma PlayKeepsDeck(st: EngineState, idx: nat, card: Card)
    requires idx < |st.players| && card in st.players[idx].hand
    requires |st.players| >= 4 && idx < 4 && HoldsDeck(st)
    ensures HoldsDeck(AfterPlay(st, idx, card))
  {
    PlayKeepsCards(st, idx, card);
    forall c: Card
      ensures DeckCount(AllCards(AfterPlay(st, idx, card)), c)
    {
      assert DeckCount(AllCards(st), c);
    }
  }

  lemma PlayKeepsSeats(st: EngineState, idx: nat, card: Card)
    requires SeatsOk(st) && |st.table| < 4 && idx == (st.leader + |st.table|) % 4
    requires idx < |st.players| && card in st.players[idx].hand
    ensures SeatsOk(AfterPlay(st, idx, card))
  {
  }

  /** Seat `(leader + k) % 4` is `k` places after the leader. */
  lemma SeatOffset(leader: nat, k: nat)
    requires leader < 4 && k < 4
    ensures ((leader + k) % 4 + 4 - leader) % 4 == k
  {
  }

  lemma OffsetInjective(leader: nat, s: nat, t: nat)
    requires leader < 4 && s < 4 && t < 4 && s != t
    ensures (s + 4 - leader) % 4 != (t + 4 - leader) % 4
  {
  }

  lemma PlayKeepsHandSizes(st: EngineState, idx: nat, card: Card)
    requires SeatsOk(st) && HandSizes(st) && |st.table| < 4 && idx == (st.leader + |st.table|) % 4
    requires card in st.players[idx].hand
    ensures HandSizes(AfterPlay(st, idx, card))
  {
    var st' := AfterPlay(st, idx, card);
    forall s | 0 <= s < 4
      ensures |st'.players[s].hand| == 14 - st'.currentTrick - (if HasPlayed(st', s) then 1 else 0)
    {
      PlayKeepsSeatSize(st, idx, card, s);
    }
  }

  /** The player who moves loses one card and is now marked as having played; nobody else changes. */
  lemma PlayKeepsSeatSize(st: EngineState, idx: nat, card: Card, s: nat)
    requires st.leader < 4 && |st.table| < 4 && idx == (st.leader + |st.table|) % 4
    requires idx < |st.players| && card in st.players[idx].hand && s < 4 && s < |st.players|
    requires |st.players[s].hand| == 14 - st.currentTrick - (if HasPlayed(st, s) then 1 else 0)
    ensures var st' := AfterPlay(st, idx, card);
            |st'.players[s].hand| == 14 - st'.currentTrick - (if HasPlayed(st', s) then 1 else 0)
  {
    SeatOffset(st.leader, |st.table|);
    if s != idx {
      OffsetInjective(st.leader, s, idx);
    }
  }

  lemma PlayKeepsInv(st: EngineState, idx: nat, card: Card)
    requires Inv(st) && st.phase == WaitingForPlay(idx) && idx < |st.players|
    requires card in st.players[idx].hand
    ensures Inv(AfterPlay(st, idx, card))
  {
    var st' := AfterPlay(st, idx, card);
    assert HoldsDeck(st') by {
      PlayKeepsDeck(st, idx, card);
    }
    assert SeatsOk(st') by {
      PlayKeepsSeats(st, idx, card);
    }
    assert PhaseOk(st') by {
      PlayKeepsPhase(st, idx, card);
    }
  }

  lemma PlayKeepsPhase(st: EngineState, idx: nat, card: Card)
    requires SeatsOk(st) && PhaseOk(st) && st.phase == WaitingForPlay(idx) && idx < |st.players|
    requires card in st.players[idx].hand
    ensures PhaseOk(AfterPlay(st, idx, card))
  {
    PlayKeepsHandSizes(st, idx, card);
    var st' := AfterPlay(st, idx, card);
    if |st'.table| < 4 {
      assert (idx + 1) % 4 == (st.leader + |st'.table|) % 4;
    }
  }

  /** The state after the full trick on the table is resolved. */
  ghost function AfterResolve(st: EngineState): EngineState
    requires |st.table| > 0 && forall j :: 0 <= j < |st.table| ==> st.table[j].0 < |st.players|
  {
    ResolvedBy(st, st.table[TrickWinner(st.table)].0)
  }

  /** The state after the trick on the table is resolved in favour of seat `w`. */
  ghost function ResolvedBy(st: EngineState, w: nat): EngineState
    requires w < |st.players|
  {
    var last := st.currentTrick >= TOTAL_TRICKS;
    st.(score := AddPoint(st.score, st.players[w].team),
        history := st.history + [TrickHistory(st.currentTrick, st.players[w].playerId, CardStrings(TableCards(st.table)))],
        played := st.played + TableCards(st.table),
        table := [],
        leader := w,
        currentTrick := if last then st.currentTrick else st.currentTrick + 1,
        phase := if last then GamePhase.GameOver else WaitingForPlay(w))
  }

  lemma ResolveKeepsCards(st: EngineState)
    requires |st.players| >= 4
    requires |st.table| > 0 && forall j :: 0 <= j < |st.table| ==> st.table[j].0 < |st.players|
    ensures AllCards(AfterResolve(st)) == AllCards(st)
  {
    var st' := AfterResolve(st);
    assert TableCards(st'.table) == [];
    assert multiset(st'.played) == multiset(st.played) + multiset(TableCards(st.table));
  }

  /** In a complete trick every seat 0..3 has played once. */
  lemma FullTableSeats(st: EngineState)
    requires SeatsOk(st) && |st.table| == 4
    ensures forall s :: 0 <= s < 4 ==> HasPlayed(st, s)
    ensures forall j :: 0 <= j < 4 ==> st.table[j].0 < 4
  {
  }

  lemma ResolveKeepsSeats(st: EngineState)
    requires SeatsOk(st) && PhaseOk(st) && st.phase == GamePhase.TrickComplete
    ensures SeatsOk(AfterResolve(st))
  {
    FullTableSeats(st);
  }

  /** Resolving the thirteenth trick ends the game with every hand empty. */
  lemma ResolveLastTrick(st: EngineState)
    requires SeatsOk(st) && PhaseOk(st) && st.phase == GamePhase.TrickComplete
    requires st.currentTrick >= TOTAL_TRICKS
    ensures PhaseOk(AfterResolve(st))
  {
    FullTableSeats(st);
    var st' := AfterResolve(st);
    assert st'.players == st.players && st'.phase == GamePhase.GameOver;
    forall s | 0 <= s < |st'.players|
      ensures st'.players[s].hand == []
    {
      if s < 4 {
        assert HasPlayed(st, s);
      }
    }
  }

  /** A trick that opens after a complete one, led by `st'.leader`, finds every hand as the
      complete trick left it and nobody having played. */
  lemma NextTrickPhase(st: EngineState, st': EngineState)
    requires SeatsOk(st) && HandSizes(st) && |st.table| == 4 && st.currentTrick < TOTAL_TRICKS
    requires st'.players == st.players && st'.table == [] && st'.leader < 4
    requires st'.phase == WaitingForPlay(st'.leader) && st'.currentTrick == st.currentTrick + 1
    requires |st'.history| == st'.currentTrick - 1
    ensures PhaseOk(st')
  {
    FullTableSeats(st);
    forall s | 0 <= s < 4
      ensures |st'.players[s].hand| == 14 - st'.currentTrick - (if HasPlayed(st', s) then 1 else 0)
    {
      assert HasPlayed(st, s) && !HasPlayed(st', s);
    }
    assert HandSizes(st');
  }

  /** Resolving an earlier trick opens the next one, led by the winner, with nobody having played. */
  lemma ResolveEarlierTrick(st: EngineState)
    requires SeatsOk(st) && PhaseOk(st) && st.phase == GamePhase.TrickComplete
    requires st.currentTrick < TOTAL_TRICKS
    ensures PhaseOk(AfterResolve(st))
  {
    FullTableSeats(st);
    NextTrickPhase(st, AfterResolve(st));
  }

  lemma ResolveKeepsInv(st: EngineState)
    requires Inv(st) && st.phase == GamePhase.TrickComplete
    ensures forall j :: 0 <= j < |st.table| ==> st.table[j].0 < |st.players|
    ensures st.table[TrickWinner(st.table)].0 < 4
    ensures Inv(AfterResolve(st))
  {
    FullTableSeats(st);
    ResolveKeepsCards(st);
    ResolveKeepsSeats(st);
    if st.currentTrick >= TOTAL_TRICKS {
      ResolveLastTrick(st);
    } else {
      ResolveEarlierTrick(st);
    }
  }

  // ---------------------------------------------------------------- one move and its progress

  /** The plays still to come: none once the game is over; during trick `t`, four for every
      later trick plus the seats of this trick that have not played yet. */
  function PlaysLeft(st: EngineState): nat
  {
    if st.phase == GamePhase.GameOver || st.currentTrick > TOTAL_TRICKS || |st.table| > 4 then 0
    else 4 * (TOTAL_TRICKS - st.currentTrick) + 4 - |st.table|
  }

  /** The seat whose turn it is has not played in this trick, so it still holds a card. */
  lemma DueSeatHoldsCard(st: EngineState, idx: nat)
    requires Inv(st) && st.phase == WaitingForPlay(idx)
    ensures idx < 4 && idx < |st.players| && |st.players[idx].hand| > 0
  {
    SeatOffset(st.leader, |st.table|);
    assert !HasPlayed(st, idx);
  }

  /** The state after seat `idx` plays `card` and, when that completes the trick, the trick is
      resolved: what the server does in one step of `handle_play` or `process_ai_turns`. */
  ghost function AfterMove(st: EngineState, idx: nat, card: Card): EngineState
    requires Inv(st) && st.phase == WaitingForPlay(idx) && idx < |st.players|
    requires card in st.players[idx].hand
  {
    PlayKeepsInv(st, idx, card);
    var st' := AfterPlay(st, idx, card);
    if |st'.table| == 4 then AfterResolve(st') else st'
  }

  /** A move keeps the invariant and leaves the game waiting for a play or over. */
  lemma MoveKeepsInv(st: EngineState, idx: nat, card: Card)
    requires Inv(st) && st.phase == WaitingForPlay(idx) && idx < |st.players|
    requires card in st.players[idx].hand
    ensures var st' := AfterMove(st, idx, card);
            Inv(st') && (st'.phase.WaitingForPlay? || st'.phase == GamePhase.GameOver)
  {
    PlayKeepsInv(st, idx, card);
    var st1 := AfterPlay(st, idx, card);
    if |st1.table| == 4 {
      ResolveKeepsInv(st1);
    }
  }

  /** A move uses up one of the plays left, or more when it ends the game; the game is over
      exactly when the move was the fourth card of the thirteenth trick. */
  lemma MoveProgress(st: EngineState, idx: nat, card: Card)
    requires Inv(st) && st.phase == WaitingForPlay(idx) && idx < |st.players|
    requires card in st.players[idx].hand
    ensures var st' := AfterMove(st, idx, card);
            PlaysLeft(st') < PlaysLeft(st) &&
            (st'.phase == GamePhase.GameOver <==> st.currentTrick == TOTAL_TRICKS && |st.table| == 3)
  {
    assert 1 <= st.currentTrick <= TOTAL_TRICKS && |st.table| < 4;
  }

  // ---------------------------------------------------------------- the engine

  /** `GameEngine`: seats in join order, the phase, the trick counter (1-based), the table of
      (seat, card) plays of the current trick, the score and the trick history. */
  class GameEngine {
    var seed: u64
    var players: seq<GamePlayer>
    var phase: GamePhase
    var currentTrick: nat
    var table: seq<(nat, Card)>
    var score: Score
    var history: seq<TrickHistory>
    var lastTrickWinner: Option<nat>

    /** The cards of the tricks already resolved, in play order. */
    ghost var played: seq<Card>
    /** The seat that led the current trick. */
    ghost var leader: nat

    ghost function State(): EngineState
      reads this
    {
      EngineState(players, phase, currentTrick, table, score, history, played, leader)
    }

    ghost predicate Valid()
      reads this
    {
      Inv(State())
    }

    /** `GameEngine::new`: one seat per (connection, player id, team), all hands empty. */
    constructor(seed: u64, seats: seq<(ConnectionId, PlayerId, Team)>)
      ensures Valid()
      ensures this.seed == seed && phase == WaitingToDeal && currentTrick == 0
      ensures |players| == |seats|
      ensures forall k :: 0 <= k < |seats| ==> players[k] == GamePlayer(seats[k].0, seats[k].1, seats[k].2, [])
      ensures table == [] && score == Score(0, 0) && history == [] && lastTrickWinner == None
      ensures State() == NewState(seats)
    {
      this.seed := seed;
      players := seq(|seats|, k requires 0 <= k < |seats| => GamePlayer(seats[k].0, seats[k].1, seats[k].2, []));
      phase := WaitingToDeal;
      currentTrick := 0;
      table := [];
      score := Score(0, 0);
      history := [];
      lastTrickWinner := None;
      played := [];
      leader := 0;
    }

    /** `current_player_idx`: the seat that must play, if any. */
    function CurrentPlayerIdx(): (r: Option<nat>)
      reads this
      ensures r.Some? <==> phase.WaitingForPlay?
      ensures r.Some? ==> phase == WaitingForPlay(r.value)
    {
      match phase
      case WaitingForPlay(i) => Some(i)
      case _ => None
    }

    /** `get_legal_moves`: the whole hand when leading or when the hand has no card of the lead
        suit, otherwise exactly the hand's cards of the lead suit. */
    function GetLegalMoves(idx: nat): (r: seq<Card>)
      reads this
      requires idx < |players|
      ensures forall c :: c in r ==> c in players[idx].hand
      ensures table == [] ==> r == players[idx].hand
      ensures table != [] ==>
        forall c :: c in r <==>
          c in players[idx].hand && (c.suit == table[0].1.suit || !HasSuit(players[idx].hand, table[0].1.suit))
      ensures |players[idx].hand| > 0 ==> |r| > 0
    {
      LegalMoves(players[idx].hand, table)
    }

    /** `validate_play`: checks, in this order, that the connection has a seat, that this seat is
        due, that the token parses, that the card is in the hand, and that it follows suit. */
    function ValidatePlay(conn: ConnectionId, cardStr: string): (r: Result<(nat, Card), PlayError>)
      reads this
      ensures r == Err(NotInGame) <==> FindSeat(players, conn).None?
      ensures r == Err(PlayError.NotYourTurn) <==>
        FindSeat(players, conn).Some? && phase != WaitingForPlay(FindSeat(players, conn).value)
      ensures r == Err(InvalidCard) <==>
        FindSeat(players, conn).Some? && phase == WaitingForPlay(FindSeat(players, conn).value)
        && FromProtocolString(cardStr).None?
      ensures r == Err(PlayError.NotInHand) ==>
        FindSeat(players, conn).Some? && phase == WaitingForPlay(FindSeat(players, conn).value)
        && FromProtocolString(cardStr).Some?
        && FromProtocolString(cardStr).value !in players[FindSeat(players, conn).value].hand
      ensures r == Err(PlayError.NotLegal) ==>
        FindSeat(players, conn).Some? && phase == WaitingForPlay(FindSeat(players, conn).value)
        && FromProtocolString(cardStr).Some?
        && FromProtocolString(cardStr).value in players[FindSeat(players, conn).value].hand
        && FromProtocolString(cardStr).value !in GetLegalMoves(FindSeat(players, conn).value)
      ensures r.Ok? ==>
        r.value.0 < |players| && players[r.value.0].connId == conn && phase == WaitingForPlay(r.value.0)
        && FromProtocolString(cardStr) == Some(r.value.1)
        && r.value.1 in players[r.value.0].hand && r.value.1 in GetLegalMoves(r.value.0)
    {
      var seat := FindSeat(players, conn);
      if seat.None? then Err(NotInGame)
      else
        var idx := seat.value;
        var cur := CurrentPlayerIdx();
        if cur.None? || idx != cur.value then Err(PlayError.NotYourTurn)
        else
          var card := FromProtocolString(cardStr);
          if card.None? then Err(InvalidCard)
          else if card.value !in players[idx].hand then Err(PlayError.NotInHand)
          else if card.value !in GetLegalMoves(idx) then Err(PlayError.NotLegal)
          else Ok((idx, card.value))
    }

    /** `your_turn_message`: the trick number, the table, the seat's legal moves and the 30 s timeout. */
    function YourTurnMessage(idx: nat): (m: ServerMessage)
      reads this
      requires idx < |players|
      requires forall j :: 0 <= j < |table| ==> table[j].0 < |players|
      ensures m.YourTurn? && m.trick == currentTrick && m.timeoutMs == TIMEOUT_MS
      ensures m.table == TablePlays(table, players)
      ensures m.legal == CardStrings(GetLegalMoves(idx))
    {
      YourTurn(currentTrick, TablePlays(table, players), CardStrings(GetLegalMoves(idx)), TIMEOUT_MS)
    }

    /** `game_over_message`: the final score, the winning team (ties go to the humans) and the history. */
    function GameOverMessage(): (m: ServerMessage)
      reads this
      ensures m.GameOver? && m.finalScore == score && m.history == history
      ensures m.winningTeam == Team.Ai <==> score.ai > score.human
    {
      ServerMessage.GameOver(score, WinningTeam(score), history)
    }

    /** `deal`: shuffle a fresh deck with the engine's seed, give seats 0..3 thirteen cards each
        (round-robin), sort every hand, and open trick 1 with seat 0 to play. */
    method Deal() returns (msgs: seq<(ConnectionId, ServerMessage)>)
      requires Valid() && phase == WaitingToDeal && |players| >= 4
      modifies this
      ensures Valid()
      ensures phase == WaitingForPlay(0) && currentTrick == 1
      ensures State() == AfterDeal(old(State()), DealtHands(seed))
      ensures seed == old(seed) && lastTrickWinner == old(lastTrickWinner)
      ensures msgs == DealMessages(players)
    {
      var hands := DealFromShuffledDeck(seed);
      DealKeepsInv(State(), hands);
      SeatHands(hands);
      msgs := DealMessages(players);
    }

    /** The loop of `deal` that gives seats 0..3 their hands, sorted, and opens trick 1. */
    method SeatHands(hands: seq<seq<Card>>)
      requires |hands| == 4 && |players| >= 4
      modifies this
      ensures State() == AfterDeal(old(State()), hands)
      ensures seed == old(seed) && lastTrickWinner == old(lastTrickWinner)
    {
      var ps := players;
      var i := 0;
      while i < 4
        invariant 0 <= i <= 4
        invariant |ps| == |players|
        invariant forall p :: 0 <= p < |ps| ==> ps[p] == if p < i then players[p].(hand := SortHand(hands[p])) else players[p]
      {
        ps := ps[i := ps[i].(hand := SortHand(hands[i]))];
        i := i + 1;
      }
      players, currentTrick, phase, leader := ps, 1, WaitingForPlay(0), 0;
    }

    /** `play_card`: take the first copy of `card` out of the seat's hand, put (seat, card) on the
        table, and either pass the turn to the next seat or, with four cards down, complete the trick. */
    method PlayCard(idx: nat, card: Card) returns (r: PlayResult)
      requires Valid() && phase == WaitingForPlay(idx) && idx < |players|
      requires card in players[idx].hand
      modifies this
      ensures Valid()
      ensures State() == AfterPlay(old(State()), idx, card)
      ensures players == old(players)[idx := old(players[idx]).(hand := RemoveFirst(old(players[idx].hand), card))]
      ensures table == old(table) + [(idx, card)]
      ensures |table| == 4 ==> phase == GamePhase.TrickComplete
      ensures |table| < 4 ==> phase == WaitingForPlay((idx + 1) % 4)
      ensures var b := PlayBroadcast(players[idx].playerId, ToProtocolString(card), currentTrick);
              r == if |table| == 4 then PlayResult.TrickComplete(b) else Continue(b, (idx + 1) % 4)
      ensures currentTrick == old(currentTrick) && score == old(score) && history == old(history)
      ensures seed == old(seed) && lastTrickWinner == old(lastTrickWinner)
    {
      PlayKeepsInv(State(), idx, card);
      r := MoveToTable(idx, card);
    }

    /** The state change of `play_card`. */
    method MoveToTable(idx: nat, card: Card) returns (r: PlayResult)
      requires idx < |players| && card in players[idx].hand
      modifies this
      ensures State() == AfterPlay(old(State()), idx, card)
      ensures var b := PlayBroadcast(players[idx].playerId, ToProtocolString(card), currentTrick);
              r == if |table| == 4 then PlayResult.TrickComplete(b) else Continue(b, (idx + 1) % 4)
      ensures seed == old(seed) && lastTrickWinner == old(lastTrickWinner)
    {
      var hand := players[idx].hand;
      players := players[idx := players[idx].(hand := RemoveFirst(hand, card))];
      table := table + [(idx, card)];
      var b := PlayBroadcast(players[idx].playerId, ToProtocolString(card), currentTrick);
      if |table| == 4 {
        phase := GamePhase.TrickComplete;
        r := PlayResult.TrickComplete(b);
      } else {
        phase := WaitingForPlay((idx + 1) % 4);
        r := Continue(b, (idx + 1) % 4);
      }
    }

    /** `resolve_trick`: the highest card of the lead suit takes the trick; its seat's team scores
        one point, the trick joins the history, the table is cleared, and either the game ends
        (after trick 13) or the winner leads the next trick. */
    method ResolveTrick() returns (r: TrickResolution)
      requires Valid() && phase == GamePhase.TrickComplete
      modifies this
      ensures Valid()
      ensures State() == AfterResolve(old(State()))
      ensures var w := old(table)[TrickWinner(old(table))].0;
              w < 4 && lastTrickWinner == Some(w) &&
              var msg := TrickResult(old(currentTrick), TablePlays(old(table), old(players)), players[w].playerId, score);
              r == if old(currentTrick) >= TOTAL_TRICKS then TrickResolution.GameOver(msg) else NextTrick(msg, w)
      ensures players == old(players) && seed == old(seed)
    {
      ResolveKeepsInv(State());
      var t0, ps0, n0 := table, players, currentTrick;
      var w := table[TrickWinner(table)].0;
      CloseTrick(w);
      var msg := TrickResult(n0, TablePlays(t0, ps0), players[w].playerId, score);
      r := if n0 >= TOTAL_TRICKS then TrickResolution.GameOver(msg) else NextTrick(msg, w);
    }

    /** The state change of `resolve_trick`, once the winning seat `w` is known. */
    method CloseTrick(w: nat)
      requires w < |players|
      modifies this
      ensures State() == ResolvedBy(old(State()), w) && lastTrickWinner == Some(w)
      ensures players == old(players) && seed == old(seed)
    {
      ghost var st' := ResolvedBy(State(), w);
      var last := currentTrick >= TOTAL_TRICKS;
      var trick := TrickHistory(currentTrick, players[w].playerId, CardStrings(TableCards(table)));
      score, history, table, lastTrickWinner, phase, currentTrick, played, leader :=
        AddPoint(score, players[w].team), history + [trick], [], Some(w),
        if last then GamePhase.GameOver else WaitingForPlay(w),
        if last then currentTrick else currentTrick + 1,
        st'.played, st'.leader;
      assert State() == st';
    }
  }
}

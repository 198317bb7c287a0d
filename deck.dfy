/** Cards, their protocol tokens ("AS", "10H", "KC"), the 52-card deck, the seeded
    Fisher-Yates shuffle driven by a linear congruential generator, and the round-robin deal
    (server/src/game/deck.rs). */
module Deck {
  import opened Types
  import opened Strings

  datatype Suit = Spades | Hearts | Diamonds | Clubs

  /** `Suit::all()`: the suit order of a fresh deck. */
  const AllSuits: seq<Suit> := [Spades, Hearts, Diamonds, Clubs]

  /** `suit as u8`: the declaration order, used as the primary sort key. */
  function SuitIndex(s: Suit): (i: nat)
    ensures i < 4 && AllSuits[i] == s
  {
    match s
    case Spades => 0
    case Hearts => 1
    case Diamonds => 2
    case Clubs => 3
  }

  function SuitSymbol(s: Suit): char
  {
    match s
    case Spades => 'S'
    case Hearts => 'H'
    case Diamonds => 'D'
    case Clubs => 'C'
  }

  /** `Suit::from_char`: case-insensitive; exactly the four suit letters are accepted. */
  function SuitFromChar(c: char): (r: Option<Suit>)
    ensures r.Some? <==> UpperChar(c) in {'S', 'H', 'D', 'C'}
    ensures r.Some? ==> SuitSymbol(r.value) == UpperChar(c)
  {
    match UpperChar(c)
    case 'S' => Some(Spades)
    case 'H' => Some(Hearts)
    case 'D' => Some(Diamonds)
    case 'C' => Some(Clubs)
    case _ => None
  }

  /** A card; the rank is Rust's `Rank(pub u8)`, meaningful for 2..14 (11=J, 12=Q, 13=K, 14=A). */
  datatype Card = Card(suit: Suit, rank: u8)

  predicate ValidRank(r: u8) { 2 <= r <= 14 }

  /** `Rank::symbol`: decimal for 2..10, a face letter for 11..14, "?" otherwise. */
  function RankSymbol(r: u8): string
  {
    if 2 <= r <= 10 then NatToString(r)
    else if r == 11 then "J"
    else if r == 12 then "Q"
    else if r == 13 then "K"
    else if r == 14 then "A"
    else "?"
  }

  /** The rank spelled by an upper-case token, if any. */
  function RankOfUpper(u: string): (r: Option<u8>)
    ensures r.Some? ==> ValidRank(r.value) && RankSymbol(r.value) == u
  {
    if u == "2" then Some(2)
    else if u == "3" then Some(3)
    else if u == "4" then Some(4)
    else if u == "5" then Some(5)
    else if u == "6" then Some(6)
    else if u == "7" then Some(7)
    else if u == "8" then Some(8)
    else if u == "9" then Some(9)
    else if u == "10" then Some(10)
    else if u == "J" then Some(11)
    else if u == "Q" then Some(12)
    else if u == "K" then Some(13)
    else if u == "A" then Some(14)
    else None
  }

  /** `Rank::from_str`: the upper-cased text must be one of the thirteen rank symbols. */
  function RankFromStr(s: string): (r: Option<u8>)
    ensures r.Some? ==> ValidRank(r.value) && RankSymbol(r.value) == Upper(s)
  {
    RankOfUpper(Upper(s))
  }

  /** Every rank symbol is already upper case and parses back to its rank. */
  lemma {:induction false} RankFromStrOfSymbol(r: u8)
    requires ValidRank(r)
    ensures Upper(RankSymbol(r)) == RankSymbol(r)
    ensures RankFromStr(RankSymbol(r)) == Some(r)
  {
    if r <= 9 {
      assert RankSymbol(r) == [DigitChar(r)];
    } else if r == 10 {
      assert RankSymbol(r) == "10" by {
        assert NatToString(10) == NatToString(1) + [DigitChar(0)];
      }
    }
  }

  lemma RankSymbolInjective(a: u8, b: u8)
    requires ValidRank(a) && ValidRank(b) && RankSymbol(a) == RankSymbol(b)
    ensures a == b
  {
    RankFromStrOfSymbol(a);
    RankFromStrOfSymbol(b);
  }

  /** `CardData::to_protocol_string`: rank symbol followed by suit letter. */
  function ToProtocolString(c: Card): (s: string)
    ensures |s| >= 2 && s[|s| - 1] == SuitSymbol(c.suit)
  {
    RankSymbol(c.rank) + [SuitSymbol(c.suit)]
  }

  /** `CardData::from_protocol_string`: the last character is the suit, the rest the rank. */
  function FromProtocolString(s: string): Option<Card>
  {
    if |s| < 2 then None
    else
      var suit := SuitFromChar(s[|s| - 1]);
      var rank := RankFromStr(s[..|s| - 1]);
      if suit.None? || rank.None? then None else Some(Card(suit.value, rank.value))
  }

  lemma UpperAppend(a: string, b: string)
    ensures Upper(a + b) == Upper(a) + Upper(b)
  {
  }

  /** Parsing accepts exactly the case variants of the printed tokens of real cards;
      in particular it rejects strings shorter than two characters, an unknown suit letter
      and an unknown rank, and it accepts lower case. */
  lemma {:induction false} FromProtocolStringExactly(s: string, c: Card)
    ensures FromProtocolString(s) == Some(c) <==> ValidRank(c.rank) && Upper(s) == ToProtocolString(c)
  {
    if |s| >= 2 {
      var n := |s|;
      assert s == s[..n - 1] + [s[n - 1]];
      UpperAppend(s[..n - 1], [s[n - 1]]);
      assert Upper(s) == Upper(s[..n - 1]) + [UpperChar(s[n - 1])];
      if ValidRank(c.rank) && Upper(s) == ToProtocolString(c) {
        var sym := RankSymbol(c.rank);
        assert Upper(s) == sym + [SuitSymbol(c.suit)];
        assert |sym| == n - 1;
        assert Upper(s)[..n - 1] == sym;
        assert Upper(s)[..n - 1] == Upper(s[..n - 1]);
        RankFromStrOfSymbol(c.rank);
        assert UpperChar(s[n - 1]) == SuitSymbol(c.suit);
      }
    }
  }

  /** The printed token of every real card parses back to that card. */
  lemma ProtocolStringRoundTrip(c: Card)
    requires ValidRank(c.rank)
    ensures FromProtocolString(ToProtocolString(c)) == Some(c)
  {
    RankFromStrOfSymbol(c.rank);
    UpperAppend(RankSymbol(c.rank), [SuitSymbol(c.suit)]);
    FromProtocolStringExactly(ToProtocolString(c), c);
  }

  /** The unshuffled deck of `Deck::new`: suit-major in the order S, H, D, C, ranks 2..14. */
  function FullDeck(): (d: seq<Card>)
    ensures |d| == 52
  {
    seq(52, i requires 0 <= i < 52 => Card(AllSuits[i / 13], (i % 13 + 2) as u8))
  }

  /** The deck holds 52 different real cards, and every real card is among them. */
  lemma FullDeckComplete()
    ensures forall i, j :: 0 <= i < j < 52 ==> FullDeck()[i] != FullDeck()[j]
    ensures forall i :: 0 <= i < 52 ==> ValidRank(FullDeck()[i].rank)
    ensures forall c: Card :: ValidRank(c.rank) ==> c in FullDeck()
  {
    forall c: Card | ValidRank(c.rank)
      ensures c in FullDeck()
    {
      var k := SuitIndex(c.suit) * 13 + c.rank - 2;
      assert FullDeck()[k] == c;
    }
  }

  /** Rust's `u64` wrap-around (`wrapping_mul`, `wrapping_add`). */
  function Wrap64(x: int): u64
  {
    x % 0x1_0000_0000_0000_0000
  }

  const LCG_A: u64 := 1103515245
  const LCG_C: u64 := 12345
  const LCG_M: u64 := 0x8000_0000

  /** `SimpleLcg::next` on the state, with the 64-bit wrapping written out. */
  function LcgStep(state: u64): u64
  {
    Wrap64(Wrap64(LCG_A * state) + LCG_C) % LCG_M
  }

  /** Adding a multiple of 2^64 does not change a remainder modulo 2^31. */
  lemma ModShift64(x: int, q: int)
    ensures (x + q * 0x1_0000_0000_0000_0000) % 0x8000_0000 == x % 0x8000_0000
  {
    var d := x / 0x8000_0000;
    var r := x % 0x8000_0000;
    assert x + q * 0x1_0000_0000_0000_0000 == (d + q * 0x2_0000_0000) * 0x8000_0000 + r;
  }

  lemma ModOfMod64(x: int)
    ensures x % 0x1_0000_0000_0000_0000 % 0x8000_0000 == x % 0x8000_0000
  {
    var q := x / 0x1_0000_0000_0000_0000;
    assert x == x % 0x1_0000_0000_0000_0000 + q * 0x1_0000_0000_0000_0000;
    ModShift64(x % 0x1_0000_0000_0000_0000, q);
  }

  /** The wrapping cannot change the result, since 2^31 divides 2^64: the generator is the
      textbook `(A * state + C) mod 2^31`, and its output is below 2^31. */
  lemma LcgStepIsAffineMod(state: u64)
    ensures LcgStep(state) == (LCG_A * state + LCG_C) % LCG_M
    ensures LcgStep(state) < 0x8000_0000
  {
    var m := Wrap64(LCG_A * state);
    ModOfMod64(m + LCG_C);
    var q := (LCG_A * state) / 0x1_0000_0000_0000_0000;
    assert LCG_A * state + LCG_C == (m + LCG_C) + q * 0x1_0000_0000_0000_0000;
    ModShift64(m + LCG_C, q);
  }

  /** `SimpleLcg`: the generator object whose state each call advances. */
  class SimpleLcg {
    var state: u64

    constructor(seed: u64)
      ensures state == seed
    {
      state := seed;
    }

    method Next() returns (r: u64)
      modifies this
      ensures state == LcgStep(old(state)) && r == state
    {
      state := Wrap64(Wrap64(LCG_A * state) + LCG_C) % LCG_M;
      r := state;
    }
  }

  function Swap<T>(s: seq<T>, i: nat, j: nat): (r: seq<T>)
    requires i < |s| && j < |s|
    ensures |r| == |s| && r[i] == s[j] && r[j] == s[i]
    ensures forall k :: 0 <= k < |s| && k != i && k != j ==> r[k] == s[k]
  {
    s[i := s[j]][j := s[i]]
  }

  lemma SwapPermutes<T>(s: seq<T>, i: nat, j: nat)
    requires i < |s| && j < |s|
    ensures multiset(Swap(s, i, j)) == multiset(s)
  {
    var t := s[i := s[j]];
    assert multiset(t) == multiset(s) - multiset{s[i]} + multiset{s[j]};
    assert t[j] == s[j] || i == j;
  }

  /** The rest of the shuffle from position `i` down to 1, with generator state `state`. */
  function ShuffleFrom<T>(s: seq<T>, i: nat, state: u64): (r: seq<T>)
    requires i < |s| || i == 0
    ensures |r| == |s|
    decreases i
  {
    if i == 0 then s
    else
      var next := LcgStep(state);
      ShuffleFrom(Swap(s, i, next % (i + 1)), i - 1, next)
  }

  /** `Deck::shuffle(seed)` as a function of the deck: a function of the seed alone, so the
      same seed always yields the same order. */
  function ShuffleSpec<T>(s: seq<T>, seed: u64): (r: seq<T>)
    ensures |r| == |s|
  {
    ShuffleFrom(s, if |s| == 0 then 0 else |s| - 1, seed)
  }

  lemma {:induction false} ShuffleFromPermutes<T>(s: seq<T>, i: nat, state: u64)
    requires i < |s| || i == 0
    ensures |ShuffleFrom(s, i, state)| == |s|
    ensures multiset(ShuffleFrom(s, i, state)) == multiset(s)
    decreases i
  {
    if i > 0 {
      var next := LcgStep(state);
      var j := next % (i + 1);
      var t := Swap(s, i, j);
      SwapPermutes(s, i, j);
      ShuffleFromPermutes(t, i - 1, next);
    }
  }

  /** Only positions `j <= i < n` are ever swapped, so the shuffled deck is a permutation. */
  lemma ShufflePermutes<T>(s: seq<T>, seed: u64)
    ensures |ShuffleSpec(s, seed)| == |s|
    ensures multiset(ShuffleSpec(s, seed)) == multiset(s)
  {
    ShuffleFromPermutes(s, if |s| == 0 then 0 else |s| - 1, seed);
  }

  /** Cards of `s` at the positions `i` with `i % n == p`, in order: what `deal` gives seat `p`. */
  function Column<T>(s: seq<T>, n: nat, p: nat): seq<T>
    requires n > 0
    decreases |s|
  {
    if s == [] then []
    else Column(s[..|s| - 1], n, p) + (if (|s| - 1) % n == p then [s[|s| - 1]] else [])
  }

  /** With four seats, seat `p` gets the cards at positions p, p+4, p+8, …, and as many as there
      are such positions. */
  lemma {:induction false} ColumnOfFour<T>(s: seq<T>, p: nat)
    requires p < 4
    ensures |Column(s, 4, p)| == (|s| + 3 - p) / 4
    ensures forall j :: 0 <= j < |Column(s, 4, p)| ==> p + 4 * j < |s| && Column(s, 4, p)[j] == s[p + 4 * j]
    decreases |s|
  {
    if s != [] {
      var m := |s| - 1;
      ColumnOfFour(s[..m], p);
    }
  }

  /** The four seats' hands together hold exactly the dealt cards. */
  lemma {:induction false} ColumnsPartition<T>(s: seq<T>)
    ensures multiset(Column(s, 4, 0)) + multiset(Column(s, 4, 1)) + multiset(Column(s, 4, 2))
            + multiset(Column(s, 4, 3)) == multiset(s)
    decreases |s|
  {
    if s != [] {
      var m := |s| - 1;
      ColumnsPartition(s[..m]);
      assert s == s[..m] + [s[m]];
    }
  }

  /** `Deck`: the deck object whose card vector `shuffle` permutes in place. */
  class Deck {
    var cards: array<Card>

    /** `Deck::new`: all suits in order, all ranks in order within a suit. */
    constructor()
      ensures fresh(cards)
      ensures cards[..] == FullDeck()
    {
      var a := new Card[52](_ => Card(Spades, 2));
      var si := 0;
      while si < 4
        invariant 0 <= si <= 4
        invariant forall k :: 0 <= k < si * 13 ==> a[k] == FullDeck()[k]
      {
        var ri := 0;
        while ri < 13
          invariant 0 <= ri <= 13
          invariant forall k :: 0 <= k < si * 13 + ri ==> a[k] == FullDeck()[k]
        {
          a[si * 13 + ri] := Card(AllSuits[si], (ri + 2) as u8);
          ri := ri + 1;
        }
        si := si + 1;
      }
      cards := a;
    }

    /** `Deck::shuffle`: Fisher-Yates from the last position down to 1, each swap partner drawn
        from the generator seeded with `seed`. */
    method Shuffle(seed: u64)
      modifies cards
      ensures cards[..] == ShuffleSpec(old(cards[..]), seed)
    {
      var rng := new SimpleLcg(seed);
      var n := cards.Length;
      if n == 0 {
        return;
      }
      var i := n - 1;
      while i >= 1
        invariant 0 <= i < n
        invariant ShuffleFrom(cards[..], i, rng.state) == ShuffleSpec(old(cards[..]), seed)
        decreases i
      {
        ghost var before, state := cards[..], rng.state;
        var r := rng.Next();
        var j := r % (i + 1);
        assert ShuffleFrom(before, i, state) == ShuffleFrom(Swap(before, i, j), i - 1, r);
        cards[i], cards[j] := cards[j], cards[i];
        assert cards[..] == Swap(before, i, j);
        i := i - 1;
      }
    }

    /** `Deck::deal(n, k)`: the first `n * k` cards (or all, if fewer) dealt round-robin, card `i`
        to seat `i % n`. */
    method Deal(numPlayers: nat, cardsPerPlayer: nat) returns (hands: seq<seq<Card>>)
      ensures |hands| == numPlayers
      ensures var taken := if numPlayers * cardsPerPlayer < cards.Length
                           then numPlayers * cardsPerPlayer else cards.Length;
              forall p :: 0 <= p < numPlayers ==> hands[p] == Column(cards[..taken], numPlayers, p)
    {
      hands := seq(numPlayers, _ => []);
      var taken := if numPlayers * cardsPerPlayer < cards.Length
                   then numPlayers * cardsPerPlayer else cards.Length;
      var i := 0;
      while i < taken
        invariant 0 <= i <= taken
        invariant |hands| == numPlayers
        invariant i > 0 ==> numPlayers > 0
        invariant forall p :: 0 <= p < numPlayers ==> hands[p] == Column(cards[..i], numPlayers, p)
      {
        var p := i % numPlayers;
        hands := hands[p := hands[p] + [cards[i]]];
        assert cards[..i + 1][..i] == cards[..i];
        i := i + 1;
      }
    }
  }
}

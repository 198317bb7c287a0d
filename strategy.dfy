/** The server's AI seat policy, `SmartStrategy` (server/src/ai/strategy.rs). A leader plays
    the lowest card of the longest suit of its hand. A follower plays the cheapest lead-suit card
    that beats the table's best lead-suit card by at least three ranks, or else its lowest lead-suit
    card. A follower without the lead suit discards its lowest card. */
module Strategy {
  import opened Types
  import opened Deck
  import opened Engine

  /** How many cards of suit `s` the hand holds: the per-suit counter of `find_longest_suit`. */
  function CountSuit(h: seq<Card>, s: Suit): (n: nat)
    ensures n <= |h|
    ensures n == 0 <==> forall j :: 0 <= j < |h| ==> h[j].suit != s
  {
    if h == [] then 0
    else CountSuit(h[..|h| - 1], s) + (if h[|h| - 1].suit == s then 1 else 0)
  }

  function Max(a: nat, b: nat): nat { if a < b then b else a }

  /** `find_longest_suit`: a suit of maximal count in the whole hand; ties go to the first suit
      in the order Spades, Hearts, Diamonds, Clubs, so an empty hand gives Spades. */
  function LongestSuit(hand: seq<Card>): (s: Suit)
    ensures forall t: Suit :: CountSuit(hand, t) <= CountSuit(hand, s)
    ensures forall t: Suit :: SuitIndex(t) < SuitIndex(s) ==> CountSuit(hand, t) < CountSuit(hand, s)
  {
    var m := Max(Max(CountSuit(hand, Spades), CountSuit(hand, Hearts)),
                 Max(CountSuit(hand, Diamonds), CountSuit(hand, Clubs)));
    if CountSuit(hand, Spades) == m then Spades
    else if CountSuit(hand, Hearts) == m then Hearts
    else if CountSuit(hand, Diamonds) == m then Diamonds
    else if CountSuit(hand, Clubs) == m then Clubs
    else Spades
  }

  /** The position `min_by_key(|c| c.rank)` picks: a card of least rank, and the first one when
      several share that rank (the fold only replaces its candidate on a strictly smaller key). */
  function FirstMinIndex(cards: seq<Card>): (k: nat)
    requires |cards| > 0
    ensures k < |cards|
    ensures forall j :: 0 <= j < |cards| ==> cards[k].rank <= cards[j].rank
    ensures forall j :: 0 <= j < k ==> cards[k].rank < cards[j].rank
  {
    if |cards| == 1 then 0
    else
      var k := FirstMinIndex(cards[..|cards| - 1]);
      if cards[|cards| - 1].rank < cards[k].rank then |cards| - 1 else k
  }

  /** `find_smallest`: the first card of least rank, if any. */
  function Smallest(cards: seq<Card>): (r: Option<Card>)
    ensures r.None? <==> |cards| == 0
    ensures r.Some? ==> exists k :: 0 <= k < |cards| && cards[k] == r.value &&
                          forall j :: 0 <= j < k ==> r.value.rank < cards[j].rank
    ensures r.Some? ==> forall c :: c in cards ==> r.value.rank <= c.rank
  {
    if |cards| == 0 then None else Some(cards[FirstMinIndex(cards)])
  }

  /** `find_smallest_of_suit`: the lowest card of suit `s`, if any. */
  function SmallestOfSuit(cards: seq<Card>, s: Suit): (r: Option<Card>)
    ensures r.None? <==> forall c :: c in cards ==> c.suit != s
    ensures r.Some? ==> r.value in cards && r.value.suit == s
    ensures r.Some? ==> forall c :: c in cards && c.suit == s ==> r.value.rank <= c.rank
  {
    var f := FilterSuit(cards, s);
    assert forall c :: c in cards && c.suit == s ==> c in f;
    Smallest(f)
  }

  /** `u8::saturating_add`: the sum never wraps below either operand, and it is exact
      unless it is pinned at 255. */
  function SaturatingAdd(a: u8, b: u8): (r: u8)
    ensures a <= r && b <= r && r <= a + b
    ensures r < 0xFF ==> r == a + b
  {
    if a + b <= 0xFF then a + b else 0xFF
  }

  /** The cards of rank at least `t`, in their original order. */
  function RankAtLeast(cards: seq<Card>, t: u8): (r: seq<Card>)
    ensures forall c :: c in r <==> c in cards && c.rank >= t
  {
    if cards == [] then []
    else
      var last := cards[|cards| - 1];
      RankAtLeast(cards[..|cards| - 1], t) + (if last.rank >= t then [last] else [])
  }

  /** `find_smallest_above_threshold`: the lowest card whose rank is at least
      `threshold + minDiff`, the sum saturating at 255. */
  function SmallestAboveThreshold(cards: seq<Card>, threshold: u8, minDiff: u8): (r: Option<Card>)
    ensures var t := SaturatingAdd(threshold, minDiff);
            && (r.None? <==> forall c :: c in cards ==> c.rank < t)
            && (r.Some? ==> r.value in cards && r.value.rank >= t)
            && (r.Some? ==> forall c :: c in cards && c.rank >= t ==> r.value.rank <= c.rank)
  {
    Smallest(RankAtLeast(cards, SaturatingAdd(threshold, minDiff)))
  }

  /** The highest rank of suit `s` on the table (`max()` of the ranks), or 2 when there is none. */
  function HighestOnTable(table: seq<(nat, Card)>, s: Suit): (r: u8)
    ensures forall j :: 0 <= j < |table| && table[j].1.suit == s ==> table[j].1.rank <= r
    ensures (forall j :: 0 <= j < |table| ==> table[j].1.suit != s) ==> r == 2
  {
    match LastMaxOfSuit(table, s, |table|)
    case Some(k) => table[k].1.rank
    case None => 2
  }

  /** When suit `s` is on the table, the bound is attained: it is the rank of one of its cards. */
  lemma HighestOnTableAttained(table: seq<(nat, Card)>, s: Suit, j: nat)
    requires j < |table| && table[j].1.suit == s
    ensures exists k :: 0 <= k < |table| && table[k].1.suit == s && table[k].1.rank == HighestOnTable(table, s)
  {
    var k := LastMaxOfSuit(table, s, |table|).value;
    assert table[k].1.rank == HighestOnTable(table, s);
  }

  /** `Option::unwrap_or`. */
  function UnwrapOr(o: Option<Card>, d: Card): (r: Card)
    ensures r == if o.Some? then o.value else d
  {
    match o
    case Some(c) => c
    case None => d
  }

  /** `SmartStrategy::choose_card`. The Rust code indexes `table[0]` for a non-leader and so
      panics on an empty table; that case is excluded. */
  function ChooseCard(hand: seq<Card>, legal: seq<Card>, table: seq<(nat, Card)>, isLeader: bool): (r: Card)
    requires |legal| > 0 && !isLeader ==> |table| > 0
    ensures |legal| == 0 ==> r == if |hand| > 0 then hand[0] else Card(Clubs, 2)
    ensures |legal| > 0 ==> r in legal
  {
    if |legal| == 0 then
      if |hand| > 0 then hand[0] else Card(Clubs, 2)
    else if isLeader then
      match SmallestOfSuit(legal, LongestSuit(hand))
      case Some(c) => c
      case None => UnwrapOr(Smallest(legal), legal[0])
    else
      var lead := table[0].1.suit;
      var same := FilterSuit(legal, lead);
      if |same| > 0 then
        match SmallestAboveThreshold(same, HighestOnTable(table, lead), 3)
        case Some(c) => c
        case None => UnwrapOr(Smallest(same), legal[0])
      else
        UnwrapOr(Smallest(legal), legal[0])
  }

  /** A leader plays the lowest legal card of its longest suit; with no legal card of that suit,
      the first legal card of least rank. */
  lemma LeaderChoice(hand: seq<Card>, legal: seq<Card>, table: seq<(nat, Card)>)
    requires |legal| > 0
    ensures var r := ChooseCard(hand, legal, table, true);
            var s := LongestSuit(hand);
            if exists c :: c in legal && c.suit == s then
              r.suit == s && forall c :: c in legal && c.suit == s ==> r.rank <= c.rank
            else
              r == legal[FirstMinIndex(legal)]
  {
  }

  /** A follower holding the lead suit plays the cheapest lead-suit card that reaches the table's
      best lead-suit rank plus three; if none does, its lowest lead-suit card. */
  lemma FollowerWithLeadSuit(hand: seq<Card>, legal: seq<Card>, table: seq<(nat, Card)>)
    requires |legal| > 0 && |table| > 0
    requires exists c :: c in legal && c.suit == table[0].1.suit
    ensures var r := ChooseCard(hand, legal, table, false);
            var lead := table[0].1.suit;
            var t := SaturatingAdd(HighestOnTable(table, lead), 3);
            r.suit == lead &&
            if exists c :: c in legal && c.suit == lead && c.rank >= t then
              r.rank >= t && forall c :: c in legal && c.suit == lead && c.rank >= t ==> r.rank <= c.rank
            else
              forall c :: c in legal && c.suit == lead ==> r.rank <= c.rank
  {
    var lead := table[0].1.suit;
    var same := FilterSuit(legal, lead);
    var c :| c in legal && c.suit == lead;
    assert c in same;
    var t := SaturatingAdd(HighestOnTable(table, lead), 3);
    if exists c :: c in legal && c.suit == lead && c.rank >= t {
      var d :| d in legal && d.suit == lead && d.rank >= t;
      assert d in same;
    }
  }

  /** A follower void in the lead suit discards the first legal card of least rank. */
  lemma FollowerDiscard(hand: seq<Card>, legal: seq<Card>, table: seq<(nat, Card)>)
    requires |legal| > 0 && |table| > 0
    requires forall c :: c in legal ==> c.suit != table[0].1.suit
    ensures ChooseCard(hand, legal, table, false) == legal[FirstMinIndex(legal)]
  {
    var lead := table[0].1.suit;
    var same := FilterSuit(legal, lead);
    assert same == [];
    assert ChooseCard(hand, legal, table, false) == UnwrapOr(Smallest(legal), legal[0]);
  }
}

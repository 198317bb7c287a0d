/** The Python AI client's rule-based fallback (clients/ai_cli/fallback.py): when the language
    model fails, play the legal card of least value, the first such card on a tie. Cards are
    protocol tokens such as "10H". */
module Fallback {
  import opened Types
  import opened Strings
  import opened Deck

  /** `_card_value`: the value of the rank part (the token without its last character); the
      lookup table holds the upper-case rank symbols 2..10, J, Q, K, A; anything else is 0. */
  function CardValue(card: string): (v: nat)
    ensures v == 0 || 2 <= v <= 14
    ensures |card| < 2 ==> v == 0
  {
    if card == [] then 0
    else match RankOfUpper(card[..|card| - 1])
      case Some(r) => r
      case None => 0
  }

  /** The value of a real card's token is its rank. */
  lemma CardValueOfToken(c: Card)
    requires ValidRank(c.rank)
    ensures CardValue(ToProtocolString(c)) == c.rank
  {
    var s := ToProtocolString(c);
    assert s[..|s| - 1] == RankSymbol(c.rank);
    RankFromStrOfSymbol(c.rank);
  }

  predicate SortedByValue(s: seq<string>)
  {
    forall i, j :: 0 <= i < j < |s| ==> CardValue(s[i]) <= CardValue(s[j])
  }

  /** One step of a stable insertion sort: `x`, which came before every card of `s` in the
      input, goes in front of the first card whose value is not smaller. */
  function InsertByValue(x: string, s: seq<string>): (r: seq<string>)
    ensures |r| == |s| + 1
  {
    if s == [] || CardValue(x) <= CardValue(s[0]) then [x] + s
    else [s[0]] + InsertByValue(x, s[1..])
  }

  /** `sorted(moves, key=_card_value)`: Python's sort is stable, so cards of equal value keep
      their input order. */
  function SortByValue(s: seq<string>): (r: seq<string>)
    ensures |r| == |s|
  {
    if s == [] then [] else InsertByValue(s[0], SortByValue(s[1..]))
  }

  lemma {:induction false} InsertByValuePermutes(x: string, s: seq<string>)
    ensures multiset(InsertByValue(x, s)) == multiset(s) + multiset{x}
  {
    if s != [] && CardValue(x) > CardValue(s[0]) {
      InsertByValuePermutes(x, s[1..]);
      assert s == [s[0]] + s[1..];
    }
  }

  lemma {:induction false} InsertByValueSorted(x: string, s: seq<string>)
    requires SortedByValue(s)
    ensures SortedByValue(InsertByValue(x, s))
  {
    if s != [] && CardValue(x) > CardValue(s[0]) {
      InsertByValueSorted(x, s[1..]);
      InsertByValuePermutes(x, s[1..]);
      var r := InsertByValue(x, s[1..]);
      forall k | 0 <= k < |r|
        ensures CardValue(s[0]) <= CardValue(r[k])
      {
        assert r[k] in multiset(r);
        assert r[k] == x || r[k] in s[1..];
      }
    }
  }

  /** The sorted list holds the same cards. */
  lemma {:induction false} SortByValuePermutes(s: seq<string>)
    ensures multiset(SortByValue(s)) == multiset(s)
  {
    if s != [] {
      SortByValuePermutes(s[1..]);
      InsertByValuePermutes(s[0], SortByValue(s[1..]));
      assert s == [s[0]] + s[1..];
    }
  }

  /** The sorted list is in non-decreasing order of value. */
  lemma {:induction false} SortByValueSorted(s: seq<string>)
    ensures SortedByValue(SortByValue(s))
  {
    if s != [] {
      SortByValueSorted(s[1..]);
      InsertByValueSorted(s[0], SortByValue(s[1..]));
    }
  }

  /** The position of the first card of least value. */
  function FirstMinValueIndex(s: seq<string>): (k: nat)
    requires |s| > 0
    ensures k < |s|
    ensures forall j :: 0 <= j < |s| ==> CardValue(s[k]) <= CardValue(s[j])
    ensures forall j :: 0 <= j < k ==> CardValue(s[k]) < CardValue(s[j])
  {
    if |s| == 1 then 0
    else
      var k := 1 + FirstMinValueIndex(s[1..]);
      if CardValue(s[0]) <= CardValue(s[k]) then 0 else k
  }

  /** The head of the stable sort is the first card of least value. */
  lemma {:induction false} SortByValueHead(s: seq<string>)
    requires |s| > 0
    ensures SortByValue(s)[0] == s[FirstMinValueIndex(s)]
  {
    if |s| > 1 {
      SortByValueHead(s[1..]);
    }
  }

  /** `FallbackStrategy.choose`. The table and the trick number are accepted and ignored. */
  function Choose(legal: seq<string>, hand: seq<string>, tableCards: seq<(string, string)>, trickNum: int): (r: string)
  {
    if |legal| == 0 then
      if |hand| > 0 then hand[0] else ""
    else
      SortByValue(legal)[0]
  }

  /** With legal moves, the choice is the first legal card of least value; without, the first
      card of the hand, or "" for an empty hand. */
  lemma ChooseSmallest(legal: seq<string>, hand: seq<string>, tableCards: seq<(string, string)>, trickNum: int)
    ensures var r := Choose(legal, hand, tableCards, trickNum);
            if |legal| == 0 then r == (if |hand| > 0 then hand[0] else "")
            else
              exists k :: 0 <= k < |legal| && legal[k] == r &&
                (forall j :: 0 <= j < |legal| ==> CardValue(r) <= CardValue(legal[j])) &&
                (forall j :: 0 <= j < k ==> CardValue(r) < CardValue(legal[j]))
  {
    if |legal| > 0 {
      SortByValueHead(legal);
      var k := FirstMinValueIndex(legal);
      assert legal[k] == Choose(legal, hand, tableCards, trickNum);
    }
  }

  /** The choice does not depend on the table or the trick number. */
  lemma ChooseIgnoresTable(legal: seq<string>, hand: seq<string>, t1: seq<(string, string)>, n1: int,
                           t2: seq<(string, string)>, n2: int)
    ensures Choose(legal, hand, t1, n1) == Choose(legal, hand, t2, n2)
  {
  }

  /** The client's unit test: from KS, 2H, 10D, AC the fallback plays 2H. */
  lemma ChooseExample()
    ensures Choose(["KS", "2H", "10D", "AC"], ["KS", "2H", "10D", "AC"], [], 1) == "2H"
  {
    var legal := ["KS", "2H", "10D", "AC"];
    assert CardValue("KS") == 13 && CardValue("2H") == 2 && CardValue("10D") == 10 && CardValue("AC") == 14 by {
      assert "KS"[..1] == "K" && "2H"[..1] == "2" && "10D"[..2] == "10" && "AC"[..1] == "A";
    }
    SortByValueHead(legal);
    assert FirstMinValueIndex(legal) == 1;
  }
}

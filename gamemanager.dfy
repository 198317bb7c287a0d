/** The C++ client's game manager (clients/cpp_cli/src/game/game_manager.cpp) over the state it
    keeps (clients/cpp_cli/src/game/state.hpp): server messages update the state in place, and
    typed input becomes PLAY messages. What the client sends through its TCP connection is kept
    as an outbox of messages; console output is not modelled. */
module GameManager {
  import Types
  import opened Strings
  import JsonHelper
  import Deck
  import Fallback

  /** `Card`: a protocol card code such as "AS" or "10H". */
  datatype Card = Card(code: string)

  /** `TablePlay`: who played which card in the current trick. */
  datatype TablePlay = TablePlay(playerId: string, card: string)

  /** `Score`: tricks won by the human and the AI team. */
  datatype Score = Score(human: int, ai: int)

  /** The fields of a `GameState`, as one value. */
  datatype StateView = StateView(
    playerId: string, nickname: string, room: string,
    hand: seq<Card>, table: seq<TablePlay>, legalMoves: seq<Card>,
    score: Score, currentTrick: int, totalTricks: int, myTurn: bool)

  /** The cards of a list of codes, in order. */
  function Cards(codes: seq<string>): (r: seq<Card>)
    ensures |r| == |codes| && forall i :: 0 <= i < |r| ==> r[i].code == codes[i]
  {
    seq(|codes|, i requires 0 <= i < |codes| => Card(codes[i]))
  }

  /** One more code gives one more card. */
  lemma CardsSnoc(codes: seq<string>, i: nat)
    requires i < |codes|
    ensures Cards(codes[..i + 1]) == Cards(codes[..i]) + [Card(codes[i])]
  {
    assert codes[..i + 1][..i] == codes[..i];
  }

  /** The hand after `erase(remove_if(.., c.code == code))`: every card with that code is gone
      and every other card keeps its multiplicity. */
  function Without(hand: seq<Card>, code: string): (r: seq<Card>)
    ensures multiset(r) == multiset(hand)[Card(code) := 0]
  {
    if hand == [] then []
    else
      assert hand == [hand[0]] + hand[1..];
      if hand[0].code == code then Without(hand[1..], code)
      else [hand[0]] + Without(hand[1..], code)
  }

  /** The removal keeps the order of the remaining cards: removing from a concatenation removes
      from each part. */
  lemma {:induction false} WithoutAppend(a: seq<Card>, b: seq<Card>, code: string)
    ensures Without(a + b, code) == Without(a, code) + Without(b, code)
  {
    if a == [] {
      assert a + b == b;
    } else {
      assert (a + b)[0] == a[0] && (a + b)[1..] == a[1..] + b;
      WithoutAppend(a[1..], b, code);
    }
  }

  // ---------------------------------------------------------------- the state

  /** `GameState`. */
  class GameState {
    var playerId: string
    var nickname: string
    var room: string
    var hand: seq<Card>
    var table: seq<TablePlay>
    var legalMoves: seq<Card>
    var score: Score
    var currentTrick: int
    var totalTricks: int
    var myTurn: bool

    function View(): StateView
      reads this
    {
      StateView(playerId, nickname, room, hand, table, legalMoves, score, currentTrick, totalTricks, myTurn)
    }

    /** A fresh state: no identity, no cards, no score, trick 0, not this player's turn. */
    constructor()
      ensures View() == StateView([], [], [], [], [], [], Score(0, 0), 0, 0, false)
    {
      playerId, nickname, room := [], [], [];
      hand, table, legalMoves := [], [], [];
      score := Score(0, 0);
      currentTrick, totalTricks := 0, 0;
      myTurn := false;
    }

    /** `reset_table`. */
    method ResetTable()
      modifies this
      ensures View() == old(View()).(table := [])
    {
      table := [];
    }
  }

  // ---------------------------------------------------------------- message handlers, as values

  /** `on_welcome`: the identity the server assigned. */
  function Welcome(v: StateView, json: string): StateView
  {
    v.(playerId := JsonHelper.GetString(json, "player_id"),
       nickname := JsonHelper.GetString(json, "nickname"),
       room := JsonHelper.GetString(json, "room"))
  }

  /** `on_deal`: the dealt hand, the number of tricks, trick 1, no score, an empty table. */
  function Deal(v: StateView, json: string): StateView
  {
    v.(hand := Cards(JsonHelper.ArrayOf(json, "hand")),
       totalTricks := JsonHelper.GetInt(json, "total_tricks"),
       currentTrick := 1, score := Score(0, 0), table := [])
  }

  /** `on_your_turn`: this player's turn, the trick number, the legal moves. */
  function YourTurn(v: StateView, json: string): StateView
  {
    v.(myTurn := true, currentTrick := JsonHelper.GetInt(json, "trick"),
       legalMoves := Cards(JsonHelper.ArrayOf(json, "legal")))
  }

  /** `on_play_broadcast`: the play goes on the table; this player's own play also ends the
      turn and takes the card out of the hand. */
  function PlayBroadcast(v: StateView, json: string): StateView
  {
    var pid := JsonHelper.GetString(json, "player_id");
    var card := JsonHelper.GetString(json, "card");
    var v1 := v.(table := v.table + [TablePlay(pid, card)]);
    if pid == v.playerId then v1.(myTurn := false, hand := Without(v.hand, card)) else v1
  }

  /** `on_trick_result`: the running score, and an empty table. */
  function TrickResult(v: StateView, json: string): StateView
  {
    v.(score := Score(JsonHelper.GetInt(json, "human_score"), JsonHelper.GetInt(json, "ai_score")),
       table := [])
  }

  /** `handle_message`: dispatch on the message type; GAME_OVER and ERROR only print, and any
      other type is ignored. */
  function Step(v: StateView, json: string): (r: StateView)
    ensures var t := JsonHelper.GetString(json, "type");
            (t != "WELCOME" ==> r.playerId == v.playerId && r.nickname == v.nickname && r.room == v.room) &&
            (t !in {"DEAL", "PLAY_BROADCAST"} ==> r.hand == v.hand) &&
            (t !in {"DEAL", "PLAY_BROADCAST", "TRICK_RESULT"} ==> r.table == v.table) &&
            (t != "YOUR_TURN" ==> r.legalMoves == v.legalMoves) &&
            (t !in {"DEAL", "TRICK_RESULT"} ==> r.score == v.score) &&
            (t !in {"DEAL", "YOUR_TURN"} ==> r.currentTrick == v.currentTrick) &&
            (t != "DEAL" ==> r.totalTricks == v.totalTricks) &&
            (t !in {"YOUR_TURN", "PLAY_BROADCAST"} ==> r.myTurn == v.myTurn)
  {
    var t := JsonHelper.GetString(json, "type");
    if t == "WELCOME" then Welcome(v, json)
    else if t == "DEAL" then Deal(v, json)
    else if t == "YOUR_TURN" then YourTurn(v, json)
    else if t == "PLAY_BROADCAST" then PlayBroadcast(v, json)
    else if t == "TRICK_RESULT" then TrickResult(v, json)
    else v
  }

  // ---------------------------------------------------------------- card values and input

  /** The characters `trim` strips: space, tab, carriage return, line feed. */
  const TRIM_SPACE: set<char> := {' ', '\t', '\r', '\n'}

  /** `trim`: the text from the first to the last character that is not one of `TRIM_SPACE`; a
      text made only of those (or empty) comes back unchanged. */
  function Trim(s: string): (r: string)
    ensures |r| <= |s|
    ensures r == [] <==> s == []
  {
    match IndexNotOf(s, TRIM_SPACE, 0)
    case None => s
    case Some(first) =>
      match LastIndexNotOf(s, TRIM_SPACE, |s|)
      case None => s
      case Some(last) => s[first..last + 1]
  }

  /** Some character of `s` is not one `trim` strips. */
  predicate HasText(s: string)
  {
    exists k :: 0 <= k < |s| && s[k] !in TRIM_SPACE
  }

  /** `r` sits in `s` at `i` with only white space before and after it. */
  predicate PaddedAt(s: string, i: nat, r: string)
  {
    i + |r| <= |s| && s[i..i + |r|] == r &&
    (forall k :: 0 <= k < i ==> s[k] in TRIM_SPACE) &&
    (forall k :: i + |r| <= k < |s| ==> s[k] in TRIM_SPACE)
  }

  /** What `trim` does: a text with something besides white space loses exactly its leading and
      trailing white space (the result starts and ends with something else and sits in `s`
      between two runs of white space); any other text is returned unchanged. */
  lemma TrimStrips(s: string)
    ensures !HasText(s) ==> Trim(s) == s
    ensures HasText(s) ==>
      var r := Trim(s);
      r != [] && r[0] !in TRIM_SPACE && r[|r| - 1] !in TRIM_SPACE &&
      exists i :: 0 <= i <= |s| - |r| && PaddedAt(s, i, r)
  {
    if HasText(s) {
      var k :| 0 <= k < |s| && s[k] !in TRIM_SPACE;
      var first := IndexNotOf(s, TRIM_SPACE, 0).value;
      var last := LastIndexNotOf(s, TRIM_SPACE, |s|).value;
      assert first <= k <= last;
      assert Trim(s) == s[first..last + 1];
      assert PaddedAt(s, first, Trim(s));
    }
  }

  /** Trimming twice is trimming once. */
  lemma TrimIdempotent(s: string)
    ensures Trim(Trim(s)) == Trim(s)
  {
    TrimStrips(s);
    var r := Trim(s);
    if HasText(s) {
      assert IndexNotOf(r, TRIM_SPACE, 0) == Types.Some(0);
      assert LastIndexNotOf(r, TRIM_SPACE, |r|) == Types.Some(|r| - 1);
      assert r[0..|r|] == r;
    }
  }

  /** `get_card_value`: the rank part (all but the last character) as A=14, K=13, Q=12, J=11, or
      else as `stoi` reads it, 0 when `stoi` throws; a code shorter than two characters is 0. */
  function GetCardValue(code: string): (v: int)
    ensures INT_MIN <= v <= INT_MAX
    ensures |code| < 2 ==> v == 0
  {
    if |code| < 2 then 0
    else
      var rank := code[..|code| - 1];
      if rank == "A" then 14
      else if rank == "K" then 13
      else if rank == "Q" then 12
      else if rank == "J" then 11
      else match Stoi(rank) case Some(n) => n case None => 0
  }

  /** The value of a real card's protocol code is its rank, as the server numbers ranks. */
  lemma CardValueOfToken(c: Deck.Card)
    requires Deck.ValidRank(c.rank)
    ensures GetCardValue(Deck.ToProtocolString(c)) == c.rank as int
  {
    var s := Deck.ToProtocolString(c);
    assert s[..|s| - 1] == Deck.RankSymbol(c.rank);
    if c.rank <= 10 {
      var d := NatToString(c.rank as nat);
      assert d == Deck.RankSymbol(c.rank);
      DigitsOfNatToString(c.rank as nat);
      StoiOfNatToString(c.rank as nat);
    }
  }

  /** The digits of a number are no face letter. */
  lemma DigitsOfNatToString(n: nat)
    ensures NatToString(n) != "A" && NatToString(n) != "K" && NatToString(n) != "Q" && NatToString(n) != "J"
  {
    var d := NatToString(n);
    if |d| == 1 {
      assert IsDigit(d[0]);
    }
  }

  /** On real card codes the client ranks cards as the Python AI client's fallback does. */
  lemma CardValueAgreesWithFallback(c: Deck.Card)
    requires Deck.ValidRank(c.rank)
    ensures GetCardValue(Deck.ToProtocolString(c)) == Fallback.CardValue(Deck.ToProtocolString(c)) as int
  {
    CardValueOfToken(c);
    Fallback.CardValueOfToken(c);
  }

  /** A rank part that is no face letter and does not start like a number is worth 0. */
  lemma CardValueOfUnknownRank(code: string)
    requires |code| >= 2
    requires var rank := code[..|code| - 1];
             rank != "A" && rank != "K" && rank != "Q" && rank != "J" &&
             !IsSpace(rank[0]) && !IsDigit(rank[0]) && rank[0] != '+' && rank[0] != '-'
    ensures GetCardValue(code) == 0
  {
    StoiOfNonNumber(code[..|code| - 1]);
  }

  /** `k` is the first legal move of greatest value, and that value is above -1. */
  predicate IsFirstMax(legal: seq<Card>, k: nat)
  {
    k < |legal| && GetCardValue(legal[k].code) > -1 &&
    (forall j :: 0 <= j < |legal| ==> GetCardValue(legal[j].code) <= GetCardValue(legal[k].code)) &&
    (forall j :: 0 <= j < k ==> GetCardValue(legal[j].code) < GetCardValue(legal[k].code))
  }

  /** The card auto-play picks: the first legal move of greatest value; but when no value is
      above -1 (the scan starts from -1 and only a greater value replaces the pick), the first
      legal move. */
  predicate IsAutoPick(legal: seq<Card>, best: string)
  {
    |legal| > 0 &&
    (((forall j :: 0 <= j < |legal| ==> GetCardValue(legal[j].code) <= -1) && best == legal[0].code) ||
     (exists k :: 0 <= k < |legal| && IsFirstMax(legal, k) && best == legal[k].code))
  }

  /** The auto-play pick is determined by the legal moves. */
  lemma AutoPickUnique(legal: seq<Card>, a: string, b: string)
    requires IsAutoPick(legal, a) && IsAutoPick(legal, b)
    ensures a == b
  {
    if ka :| 0 <= ka < |legal| && IsFirstMax(legal, ka) && a == legal[ka].code {
      var kb :| 0 <= kb < |legal| && IsFirstMax(legal, kb) && b == legal[kb].code;
    } else if kb :| 0 <= kb < |legal| && IsFirstMax(legal, kb) && b == legal[kb].code {
      assert GetCardValue(legal[kb].code) <= -1;
    }
  }

  /** Among real cards, auto-play picks a legal move of the highest rank. */
  lemma AutoPickHighest(legal: seq<Card>, best: string)
    requires IsAutoPick(legal, best)
    requires forall j :: 0 <= j < |legal| ==> GetCardValue(legal[j].code) >= 0
    ensures exists k :: 0 <= k < |legal| && legal[k].code == best &&
              forall j :: 0 <= j < |legal| ==> GetCardValue(legal[j].code) <= GetCardValue(best)
  {
    assert GetCardValue(legal[0].code) >= 0;
    var k :| 0 <= k < |legal| && IsFirstMax(legal, k) && best == legal[k].code;
    assert legal[k].code == best;
  }

  /** The auto-play scan over the legal moves. */
  method AutoPick(legal: seq<Card>) returns (best: string)
    requires |legal| > 0
    ensures IsAutoPick(legal, best)
  {
    best := legal[0].code;
    var maxVal := -1;
    ghost var k: int := -1;
    var i := 0;
    while i < |legal|
      invariant 0 <= i <= |legal| && Scanned(legal, i, k, maxVal, best)
    {
      var val := GetCardValue(legal[i].code);
      ScanStep(legal, i, k, maxVal, best);
      if val > maxVal {
        maxVal := val;
        best := legal[i].code;
        k := i;
      }
      i := i + 1;
    }
    ScannedAll(legal, k, maxVal, best);
  }

  /** After the first `i` legal moves, the scan holds the greatest value so far (or -1) and the
      first move that reached it (`k`), or still the first move when none went above -1. */
  ghost predicate Scanned(legal: seq<Card>, i: nat, k: int, maxVal: int, best: string)
    requires 0 < |legal| && i <= |legal|
  {
    (forall j :: 0 <= j < i ==> GetCardValue(legal[j].code) <= maxVal) &&
    (k == -1 ==> maxVal == -1 && best == legal[0].code) &&
    (k != -1 ==> 0 <= k < i && maxVal == GetCardValue(legal[k].code) > -1 && best == legal[k].code &&
                 forall j :: 0 <= j < k ==> GetCardValue(legal[j].code) < maxVal)
  }

  /** One more legal move scanned: a greater value replaces the pick, any other keeps it. */
  lemma ScanStep(legal: seq<Card>, i: nat, k: int, maxVal: int, best: string)
    requires 0 < |legal| && i < |legal| && Scanned(legal, i, k, maxVal, best)
    ensures GetCardValue(legal[i].code) > maxVal ==>
              Scanned(legal, i + 1, i, GetCardValue(legal[i].code), legal[i].code)
    ensures GetCardValue(legal[i].code) <= maxVal ==> Scanned(legal, i + 1, k, maxVal, best)
  {
    if GetCardValue(legal[i].code) > maxVal {
      ScanGreater(legal, i, k, maxVal, best, GetCardValue(legal[i].code));
    } else {
      ScanNotGreater(legal, i, k, maxVal, best, GetCardValue(legal[i].code));
    }
  }

  /** The step that replaces the pick. */
  lemma ScanGreater(legal: seq<Card>, i: nat, k: int, maxVal: int, best: string, v: int)
    requires 0 < |legal| && i < |legal| && Scanned(legal, i, k, maxVal, best)
    requires v == GetCardValue(legal[i].code) > maxVal
    ensures Scanned(legal, i + 1, i, v, legal[i].code)
  {
    assert forall j :: 0 <= j < i + 1 ==> GetCardValue(legal[j].code) <= v;
  }

  /** The step that keeps the pick. */
  lemma ScanNotGreater(legal: seq<Card>, i: nat, k: int, maxVal: int, best: string, v: int)
    requires 0 < |legal| && i < |legal| && Scanned(legal, i, k, maxVal, best)
    requires v == GetCardValue(legal[i].code) <= maxVal
    ensures Scanned(legal, i + 1, k, maxVal, best)
  {
    assert forall j :: 0 <= j < i + 1 ==> GetCardValue(legal[j].code) <= maxVal;
  }

  /** A finished scan holds the auto-play pick. */
  lemma ScannedAll(legal: seq<Card>, k: int, maxVal: int, best: string)
    requires 0 < |legal| && Scanned(legal, |legal|, k, maxVal, best)
    ensures IsAutoPick(legal, best)
  {
    if k != -1 {
      assert IsFirstMax(legal, k as nat);
    }
  }

  /** The search for a card by code, stopping at the first match. */
  method HasCode(cards: seq<Card>, code: string) returns (found: bool)
    ensures found <==> Card(code) in cards
  {
    found := false;
    var i := 0;
    while i < |cards|
      invariant 0 <= i <= |cards|
      invariant Card(code) !in cards[..i]
    {
      if cards[i].code == code {
        found := true;
        break;
      }
      i := i + 1;
    }
    assert found || cards[..i] == cards;
  }

  // ---------------------------------------------------------------- the manager

  /** `GameManager`: the state and the messages handed to the TCP client. */
  class GameManager {
    const state: GameState
    var sent: seq<string>

    constructor()
      ensures fresh(state) && sent == []
      ensures state.View() == StateView([], [], [], [], [], [], Score(0, 0), 0, 0, false)
    {
      state := new GameState();
      sent := [];
    }

    /** `handle_message`. */
    method HandleMessage(json: string)
      modifies state
      ensures state.View() == Step(old(state.View()), json)
    {
      var t := JsonHelper.GetString(json, "type");
      if t == "WELCOME" {
        OnWelcome(json);
      } else if t == "DEAL" {
        OnDeal(json);
      } else if t == "YOUR_TURN" {
        OnYourTurn(json);
      } else if t == "PLAY_BROADCAST" {
        OnPlayBroadcast(json);
      } else if t == "TRICK_RESULT" {
        OnTrickResult(json);
      }
    }

    method OnWelcome(json: string)
      modifies state
      ensures state.View() == Welcome(old(state.View()), json)
    {
      state.playerId := JsonHelper.GetString(json, "player_id");
      state.nickname := JsonHelper.GetString(json, "nickname");
      state.room := JsonHelper.GetString(json, "room");
    }

    method OnDeal(json: string)
      modifies state
      ensures state.View() == Deal(old(state.View()), json)
    {
      state.hand := [];
      var cards := JsonHelper.GetArray(json, "hand");
      ghost var v0 := state.View();
      var i := 0;
      while i < |cards|
        invariant 0 <= i <= |cards|
        invariant state.hand == Cards(cards[..i])
        invariant state.View() == v0.(hand := state.hand)
      {
        CardsSnoc(cards, i);
        state.hand := state.hand + [Card(cards[i])];
        i := i + 1;
      }
      assert cards[..i] == cards;
      state.totalTricks := JsonHelper.GetInt(json, "total_tricks");
      state.currentTrick := 1;
      state.score := Score(0, 0);
      state.ResetTable();
    }

    method OnYourTurn(json: string)
      modifies state
      ensures state.View() == YourTurn(old(state.View()), json)
    {
      state.myTurn := true;
      state.currentTrick := JsonHelper.GetInt(json, "trick");
      state.legalMoves := [];
      var legals := JsonHelper.GetArray(json, "legal");
      ghost var v0 := state.View();
      var i := 0;
      while i < |legals|
        invariant 0 <= i <= |legals|
        invariant state.legalMoves == Cards(legals[..i])
        invariant state.View() == v0.(legalMoves := state.legalMoves)
      {
        CardsSnoc(legals, i);
        state.legalMoves := state.legalMoves + [Card(legals[i])];
        i := i + 1;
      }
      assert legals[..i] == legals;
    }

    method OnPlayBroadcast(json: string)
      modifies state
      ensures state.View() == PlayBroadcast(old(state.View()), json)
    {
      var pid := JsonHelper.GetString(json, "player_id");
      var card := JsonHelper.GetString(json, "card");
      state.table := state.table + [TablePlay(pid, card)];
      if pid == state.playerId {
        state.myTurn := false;
        state.hand := Without(state.hand, card);
      }
    }

    method OnTrickResult(json: string)
      modifies state
      ensures state.View() == TrickResult(old(state.View()), json)
    {
      state.score := Score(JsonHelper.GetInt(json, "human_score"), JsonHelper.GetInt(json, "ai_score"));
      state.ResetTable();
    }

    /** `process_input`: nothing outside this player's turn or for blank input; "AUTO" or "A"
        in any case plays the auto-play pick (nothing without legal moves); any other text,
        upper-cased, is played when it is the code of a card both in the hand and among the
        legal moves. The state is left as it is: the turn ends only when the server's
        PLAY_BROADCAST comes back. */
    method ProcessInput(raw: string)
      modifies this
      ensures !state.myTurn || Trim(raw) == [] ==> sent == old(sent)
      ensures state.myTurn && Trim(raw) != [] && Upper(Trim(raw)) in {"AUTO", "A"} ==>
                if state.legalMoves == [] then sent == old(sent)
                else exists best :: IsAutoPick(state.legalMoves, best) && sent == old(sent) + [JsonHelper.BuildPlay(best)]
      ensures state.myTurn && Trim(raw) != [] && Upper(Trim(raw)) !in {"AUTO", "A"} ==>
                sent == old(sent) +
                  (if Card(Upper(Trim(raw))) in state.hand && Card(Upper(Trim(raw))) in state.legalMoves
                   then [JsonHelper.BuildPlay(Upper(Trim(raw)))] else [])
    {
      if !state.myTurn {
        return;
      }
      var input := Trim(raw);
      if input == [] {
        return;
      }
      var cardCode := Upper(input);
      if cardCode == "AUTO" || cardCode == "A" {
        if state.legalMoves == [] {
          return;
        }
        var best := AutoPick(state.legalMoves);
        sent := sent + [JsonHelper.BuildPlay(best)];
        return;
      }
      var inHand := HasCode(state.hand, cardCode);
      if !inHand {
        return;
      }
      var isLegal := HasCode(state.legalMoves, cardCode);
      if isLegal {
        sent := sent + [JsonHelper.BuildPlay(cardCode)];
      }
    }
  }

  // ---------------------------------------------------------------- properties of the handlers

  /** Whatever the input, what the client sends is a PLAY of one of the legal moves. */
  lemma SentPlayIsLegal(v: StateView, raw: string, best: string)
    requires v.myTurn && Trim(raw) != []
    requires Upper(Trim(raw)) in {"AUTO", "A"} ==> v.legalMoves != [] && IsAutoPick(v.legalMoves, best)
    requires Upper(Trim(raw)) !in {"AUTO", "A"} ==>
               best == Upper(Trim(raw)) && Card(best) in v.hand && Card(best) in v.legalMoves
    ensures Card(best) in v.legalMoves
  {
    if Upper(Trim(raw)) in {"AUTO", "A"} {
      if k :| 0 <= k < |v.legalMoves| && IsFirstMax(v.legalMoves, k) && best == v.legalMoves[k].code {
        assert v.legalMoves[k] == Card(best);
      } else {
        assert v.legalMoves[0] == Card(best);
      }
    }
  }

  /** A DEAL whose hand is written as a JSON array of codes (no quote, comma or bracket in
      them) gives exactly those cards, on an empty table at trick 1 with no score. */
  lemma DealGivesHand(v: StateView, json: string, before: string, codes: seq<string>, after: string)
    requires json == before + JsonHelper.SearchKey("hand", "[") + JsonHelper.JoinQuoted(codes) + "]" + after
    requires JsonHelper.GetString(json, "type") == "DEAL"
    requires IndexOf(json, JsonHelper.SearchKey("hand", "["), 0) == Types.Some(|before|)
    requires forall i :: 0 <= i < |codes| ==> '"' !in codes[i] && ',' !in codes[i] && ']' !in codes[i]
    ensures Step(v, json).hand == Cards(codes)
    ensures Step(v, json).table == [] && Step(v, json).currentTrick == 1 && Step(v, json).score == Score(0, 0)
  {
    JsonHelper.ArrayRoundTrip(before, "hand", codes, after);
    assert Step(v, json) == Deal(v, json);
  }

  /** A YOUR_TURN whose legal moves are written as a JSON array of codes makes it this player's
      turn with exactly those moves, and leaves the hand and the table alone. */
  lemma YourTurnGivesMoves(v: StateView, json: string, before: string, codes: seq<string>, after: string)
    requires json == before + JsonHelper.SearchKey("legal", "[") + JsonHelper.JoinQuoted(codes) + "]" + after
    requires JsonHelper.GetString(json, "type") == "YOUR_TURN"
    requires IndexOf(json, JsonHelper.SearchKey("legal", "["), 0) == Types.Some(|before|)
    requires forall i :: 0 <= i < |codes| ==> '"' !in codes[i] && ',' !in codes[i] && ']' !in codes[i]
    ensures Step(v, json).myTurn && Step(v, json).legalMoves == Cards(codes)
    ensures Step(v, json).hand == v.hand && Step(v, json).table == v.table
  {
    JsonHelper.ArrayRoundTrip(before, "legal", codes, after);
    assert Step(v, json) == YourTurn(v, json);
  }

  /** A TRICK_RESULT clears the table and touches neither the hand, the legal moves nor the
      turn. */
  lemma TrickResultClears(v: StateView, json: string)
    requires JsonHelper.GetString(json, "type") == "TRICK_RESULT"
    ensures Step(v, json).table == []
    ensures Step(v, json).hand == v.hand && Step(v, json).legalMoves == v.legalMoves
    ensures Step(v, json).myTurn == v.myTurn && Step(v, json).playerId == v.playerId
  {
  }

  /** This player's own PLAY_BROADCAST ends the turn, puts the play on the table and takes every
      copy of the card out of the hand; anyone else's play only goes on the table. */
  lemma PlayBroadcastEffect(v: StateView, json: string)
    requires JsonHelper.GetString(json, "type") == "PLAY_BROADCAST"
    ensures var w := Step(v, json);
            var pid, card := JsonHelper.GetString(json, "player_id"), JsonHelper.GetString(json, "card");
            w.table == v.table + [TablePlay(pid, card)] &&
            (pid == v.playerId ==>
               !w.myTurn && Card(card) !in w.hand &&
               forall c :: c != Card(card) ==> multiset(w.hand)[c] == multiset(v.hand)[c]) &&
            (pid != v.playerId ==> w.hand == v.hand && w.myTurn == v.myTurn)
  {
    var card := JsonHelper.GetString(json, "card");
    var r := Without(v.hand, card);
    assert multiset(r)[Card(card)] == 0;
  }

  /** GAME_OVER, ERROR and unknown messages change nothing. */
  lemma OtherMessagesChangeNothing(v: StateView, json: string)
    requires JsonHelper.GetString(json, "type") !in {"WELCOME", "DEAL", "YOUR_TURN", "PLAY_BROADCAST", "TRICK_RESULT"}
    ensures Step(v, json) == v
  {
  }
}

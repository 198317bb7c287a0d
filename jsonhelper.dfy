/** The C++ client's minimal JSON helper (clients/cpp_cli/src/protocol/json_helper.hpp): field
    extraction by plain substring search, and the two messages the client builds. Positions are
    the results of `std::string::find`; a search that fails (`npos`) is `None`, and a substring
    taken up to `npos` runs to the end of the text. */
module JsonHelper {
  import opened Types
  import opened Strings

  /** The search key `"key":` followed by `tail`. */
  function SearchKey(key: string, tail: string): string
  {
    "\"" + key + "\":" + tail
  }

  /** The field `"key":"v"`. */
  function Field(key: string, v: string): string
  {
    SearchKey(key, "\"") + v + "\""
  }

  /** `r` is the text of `json` from `st` up to the first of the `stops` or the end. */
  predicate TextAt(json: string, st: nat, r: string, stops: set<char>)
  {
    st + |r| <= |json| && json[st..st + |r|] == r &&
    (forall i :: 0 <= i < |r| ==> r[i] !in stops) &&
    (st + |r| == |json| || json[st + |r|] in stops)
  }

  /** `json.substr(st, json.find_first_of(stops, st) - st)`. */
  function TextUntil(json: string, st: nat, stops: set<char>): (r: string)
    requires st <= |json|
    ensures TextAt(json, st, r, stops) && Contains(json, r)
  {
    var r := json[st..Until(json, stops, st)];
    assert OccursAt(json, r, st);
    r
  }

  /** The value `get_string` finds after the first `"key":` when `"key":"` occurs nowhere: up
      to the next comma or closing brace, with its first and last characters dropped if it
      starts with a quote (the `val.substr(1, val.length() - 2)` of a one-character value is
      empty). */
  function BareValue(json: string, st: nat): (r: string)
    requires st <= |json|
    ensures r != [] ==> Contains(json, r)
  {
    var v := TextUntil(json, st, {',', '}'});
    if v != [] && v[0] == '"' then
      if |v| >= 2 then
        assert OccursAt(json, v[1..|v| - 1], st + 1) by { assert json[st + 1..st + |v| - 1] == v[1..|v| - 1]; }
        v[1..|v| - 1]
      else []
    else v
  }

  /** `get_string`: the text after the first `"key":"` up to the next quote; failing that, the
      text after the first `"key":` up to the next comma or brace; failing both, "". */
  function GetString(json: string, key: string): (r: string)
    ensures r != [] ==> IndexOf(json, SearchKey(key, ""), 0).Some?
    ensures IndexOf(json, SearchKey(key, "\""), 0).Some? ==> '"' !in r
    ensures r != [] ==> Contains(json, r)
  {
    match IndexOf(json, SearchKey(key, "\""), 0)
    case Some(p) =>
      BareWhereQuoted(json, key);
      TextUntil(json, p + |SearchKey(key, "\"")|, {'"'})
    case None => BareString(json, key)
  }

  /** The second search of `get_string`, for `"key":` alone. */
  function BareString(json: string, key: string): (r: string)
    ensures r != [] ==> IndexOf(json, SearchKey(key, ""), 0).Some? && Contains(json, r)
  {
    match IndexOf(json, SearchKey(key, ""), 0)
    case None => []
    case Some(p) => BareValue(json, p + |SearchKey(key, "")|)
  }

  /** Where `"key":"` occurs, the value read runs from the end of its first occurrence up to
      the next quote. */
  lemma GetStringQuoted(json: string, key: string)
    requires IndexOf(json, SearchKey(key, "\""), 0).Some?
    ensures GetString(json, key) ==
      TextUntil(json, IndexOf(json, SearchKey(key, "\""), 0).value + |SearchKey(key, "\"")|, {'"'})
  {
    var pat := SearchKey(key, "\"");
    match IndexOf(json, pat, 0)
    case Some(p) =>
      assert GetString(json, key) == TextUntil(json, p + |pat|, {'"'});
  }

  /** Where `"key":` occurs nowhere, neither search finds it and the value read is empty. */
  lemma GetStringMissing(json: string, key: string)
    requires IndexOf(json, SearchKey(key, ""), 0).None?
    ensures GetString(json, key) == []
  {
    if IndexOf(json, SearchKey(key, "\""), 0).Some? {
      BareWhereQuoted(json, key);
    }
  }

  /** Where only `"key":` occurs, the value read is the raw text after its first occurrence up
      to the next comma or closing brace. */
  lemma GetStringBare(json: string, key: string)
    requires IndexOf(json, SearchKey(key, "\""), 0).None?
    requires IndexOf(json, SearchKey(key, ""), 0).Some?
    ensures GetString(json, key) ==
      TextUntil(json, IndexOf(json, SearchKey(key, ""), 0).value + |SearchKey(key, "")|, {',', '}'})
  {
    BareValueNeverQuoted(json, key);
  }

  /** Where `"key":"` occurs, `"key":` occurs too. */
  lemma BareWhereQuoted(json: string, key: string)
    requires IndexOf(json, SearchKey(key, "\""), 0).Some?
    ensures IndexOf(json, SearchKey(key, ""), 0).Some?
  {
    var quoted, bare := SearchKey(key, "\""), SearchKey(key, "");
    var p := IndexOf(json, quoted, 0).value;
    assert quoted[..|bare|] == bare;
    assert json[p..p + |quoted|][..|bare|] == json[p..p + |bare|];
    assert OccursAt(json, bare, p);
  }

  /** The quote stripping of `get_string`'s second search never applies: a value after the first
      `"key":` that started with a quote would make `"key":"` occur there, so the first search
      would have found it. The second search therefore returns the raw text. */
  lemma BareValueNeverQuoted(json: string, key: string)
    requires IndexOf(json, SearchKey(key, "\""), 0).None? && IndexOf(json, SearchKey(key, ""), 0).Some?
    ensures BareValue(json, IndexOf(json, SearchKey(key, ""), 0).value + |SearchKey(key, "")|) ==
      TextUntil(json, IndexOf(json, SearchKey(key, ""), 0).value + |SearchKey(key, "")|, {',', '}'})
  {
    var bare := SearchKey(key, "");
    var p := IndexOf(json, bare, 0).value;
    var st := p + |bare|;
    if st < |json| && json[st] == '"' {
      assert json[p..st + 1] == json[p..st] + [json[st]];
      assert json[p..st + 1] == SearchKey(key, "\"");
      assert OccursAt(json, SearchKey(key, "\""), p);
    }
  }

  /** `get_int`: `stoi` of the extracted text, 0 when that text is empty or `stoi` throws. */
  function GetInt(json: string, key: string): (r: int)
    ensures INT_MIN <= r <= INT_MAX
    ensures r == match Stoi(GetString(json, key)) case Some(v) => v case None => 0
  {
    var v := GetString(json, key);
    if v == [] then 0
    else match Stoi(v) case Some(n) => n case None => 0
  }

  /** One `std::getline(ss, item, ',')`: the text up to the next comma (or the end), and what
      is left after that comma. */
  function GetLine(s: string): (r: (string, string))
    ensures ',' !in r.0 && |r.1| < |s| + 1
    ensures s != [] ==> |r.1| < |s|
  {
    match IndexOfAny(s, {','}, 0)
    case None => (s, [])
    case Some(i) => (s[..i], s[i + 1..])
  }

  /** The items `getline` reads from `s` one after another: the text between commas, where a
      final comma ends the last item rather than starting an empty one. */
  function Pieces(s: string): seq<string>
    decreases |s|
  {
    if s == [] then [] else [GetLine(s).0] + Pieces(GetLine(s).1)
  }

  /** The text between the first two quotes of an item, if it has two. */
  function Quoted(item: string): (r: Option<string>)
    ensures r.Some? ==> '"' !in r.value
  {
    match IndexOfAny(item, {'"'}, 0)
    case None => None
    case Some(q1) =>
      match IndexOfAny(item, {'"'}, q1 + 1)
      case None => None
      case Some(q2) => Some(item[q1 + 1..q2])
  }

  /** The quoted texts of the items, in order; items without two quotes are dropped. */
  function Unquote(items: seq<string>): seq<string>
  {
    if items == [] then []
    else (match Quoted(items[0]) case Some(x) => [x] case None => []) + Unquote(items[1..])
  }

  /** The text between the first `"key":[` and the next `]` (or the end), if the key occurs. */
  function ArrayContent(json: string, key: string): Option<string>
  {
    match IndexOf(json, SearchKey(key, "["), 0)
    case None => None
    case Some(p) =>
      var st := p + |SearchKey(key, "[")|;
      Some(json[st..Until(json, {']'}, st)])
  }

  /** What `get_array` returns. */
  function ArrayOf(json: string, key: string): seq<string>
  {
    match ArrayContent(json, key)
    case None => []
    case Some(content) => Unquote(Pieces(content))
  }

  /** `get_array`: the quoted texts of the comma-separated items of the array after `"key":`,
      in order; items without two quotes are dropped, and a missing key gives none. */
  method GetArray(json: string, key: string) returns (result: seq<string>)
    ensures result == ArrayOf(json, key)
  {
    var found := ArrayContent(json, key);
    if found.None? {
      return [];
    }
    result := ReadItems(found.value);
  }

  /** The `getline` loop of `get_array` over the array's text. */
  method ReadItems(content: string) returns (result: seq<string>)
    ensures result == Unquote(Pieces(content))
  {
    result := [];
    var rest := content;
    while rest != []
      invariant result + Unquote(Pieces(rest)) == Unquote(Pieces(content))
      decreases |rest|
    {
      var line := GetLine(rest);
      ReadStep(result, rest);
      var q := Quoted(line.0);
      if q.Some? {
        result := result + [q.value];
      }
      rest := line.1;
    }
  }

  /** One `getline` of the loop: the first item's quoted text, if any, joins what was read. */
  lemma ReadStep(result: seq<string>, rest: string)
    requires rest != []
    ensures Quoted(GetLine(rest).0).Some? ==>
      result + Unquote(Pieces(rest)) == (result + [Quoted(GetLine(rest).0).value]) + Unquote(Pieces(GetLine(rest).1))
    ensures Quoted(GetLine(rest).0).None? ==>
      result + Unquote(Pieces(rest)) == result + Unquote(Pieces(GetLine(rest).1))
  {
    UnquoteStep(rest);
    if Quoted(GetLine(rest).0).Some? {
      Regroup(result, [Quoted(GetLine(rest).0).value], Unquote(Pieces(GetLine(rest).1)));
    } else {
      assert [] + Unquote(Pieces(GetLine(rest).1)) == Unquote(Pieces(GetLine(rest).1));
    }
  }

  /** The items read from a non-empty text: the first one's quoted text, if any, then the rest. */
  lemma UnquoteStep(rest: string)
    requires rest != []
    ensures Unquote(Pieces(rest)) ==
      (match Quoted(GetLine(rest).0) case Some(v) => [v] case None => []) + Unquote(Pieces(GetLine(rest).1))
  {
    UnquoteCons(GetLine(rest).0, Pieces(GetLine(rest).1));
  }

  /** Unquoting item by item. */
  lemma UnquoteCons(x: string, xs: seq<string>)
    ensures Unquote([x] + xs) == (match Quoted(x) case Some(v) => [v] case None => []) + Unquote(xs)
  {
    assert ([x] + xs)[1..] == xs;
  }

  /** Unquoting neither adds a comma nor keeps a quote: the text between two quotes is part of
      its item. */
  lemma {:induction false} UnquoteNoComma(items: seq<string>)
    requires forall i :: 0 <= i < |items| ==> ',' !in items[i]
    ensures forall i :: 0 <= i < |Unquote(items)| ==> ',' !in Unquote(items)[i] && '"' !in Unquote(items)[i]
  {
    if items != [] {
      UnquoteNoComma(items[1..]);
    }
  }

  /** No item `getline` reads holds a comma. */
  lemma {:induction false} PiecesNoComma(s: string)
    decreases |s|
    ensures forall i :: 0 <= i < |Pieces(s)| ==> ',' !in Pieces(s)[i]
  {
    if s != [] {
      PiecesNoComma(GetLine(s).1);
    }
  }

  /** What `get_array` returns holds neither quotes nor commas, and a missing key gives nothing. */
  lemma ArrayOfItems(json: string, key: string)
    ensures ArrayContent(json, key).None? ==> ArrayOf(json, key) == []
    ensures forall i :: 0 <= i < |ArrayOf(json, key)| ==> '"' !in ArrayOf(json, key)[i] && ',' !in ArrayOf(json, key)[i]
  {
    if ArrayContent(json, key).Some? {
      PiecesNoComma(ArrayContent(json, key).value);
      UnquoteNoComma(Pieces(ArrayContent(json, key).value));
    }
  }

  /** The items as a JSON array body writes them: each in quotes, separated by commas. */
  function JoinQuoted(items: seq<string>): string
  {
    if items == [] then []
    else if |items| == 1 then "\"" + items[0] + "\""
    else "\"" + items[0] + "\"," + JoinQuoted(items[1..])
  }

  /** An item without quotes or commas, wrapped in quotes, reads back by `Quoted`. */
  lemma QuotedOfWrapped(x: string)
    requires '"' !in x
    ensures Quoted("\"" + x + "\"") == Some(x)
  {
    var w := "\"" + x + "\"";
    assert IndexOfAny(w, {'"'}, 0) == Some(0);
    assert w[|x| + 1] == '"' && forall k :: 1 <= k < |x| + 1 ==> w[k] == x[k - 1];
    assert IndexOfAny(w, {'"'}, 1) == Some(|x| + 1);
    assert w[1..|x| + 1] == x;
  }

  /** `getline` reads a comma-free text whole. */
  lemma GetLineWhole(w: string)
    requires ',' !in w
    ensures GetLine(w) == (w, [])
  {
    assert forall k :: 0 <= k < |w| ==> w[k] != ',';
  }

  /** `getline` stops at the comma after a comma-free text. */
  lemma GetLineBefore(w: string, tail: string)
    requires ',' !in w
    ensures GetLine(w + "," + tail) == (w, tail)
  {
    var s := w + "," + tail;
    assert s[|w|] == ',' && forall k :: 0 <= k < |w| ==> s[k] == w[k];
    assert IndexOfAny(s, {','}, 0) == Some(|w|);
    assert s[..|w|] == w && s[|w| + 1..] == tail;
  }

  /** Splitting a JSON array body and unquoting its items gives back the items, when none of
      them holds a quote or a comma. */
  lemma {:induction false} UnquoteJoinQuoted(items: seq<string>)
    requires forall i :: 0 <= i < |items| ==> '"' !in items[i] && ',' !in items[i]
    ensures Unquote(Pieces(JoinQuoted(items))) == items
  {
    if items != [] {
      var x := items[0];
      var w := "\"" + x + "\"";
      QuotedOfWrapped(x);
      assert ',' !in w;
      if |items| == 1 {
        GetLineWhole(w);
        UnquoteCons(w, []);
      } else {
        var tail := JoinQuoted(items[1..]);
        assert JoinQuoted(items) == w + "," + tail;
        GetLineBefore(w, tail);
        UnquoteCons(w, Pieces(tail));
        UnquoteJoinQuoted(items[1..]);
      }
    }
  }

  /** An array field written as a JSON array of strings reads back by `get_array`, when its
      key's search text first occurs where the field starts and no item holds a quote, a comma
      or a closing bracket. */
  lemma ArrayRoundTrip(before: string, key: string, items: seq<string>, after: string)
    requires forall i :: 0 <= i < |items| ==> '"' !in items[i] && ',' !in items[i] && ']' !in items[i]
    requires IndexOf(before + SearchKey(key, "[") + JoinQuoted(items) + "]" + after, SearchKey(key, "["), 0) == Some(|before|)
    ensures ArrayOf(before + SearchKey(key, "[") + JoinQuoted(items) + "]" + after, key) == items
  {
    var json := before + SearchKey(key, "[") + JoinQuoted(items) + "]" + after;
    var st := |before| + |SearchKey(key, "[")|;
    var body := JoinQuoted(items);
    JoinQuotedNoBracket(items);
    assert json[st + |body|] == ']' && forall k :: st <= k < st + |body| ==> json[k] == body[k - st];
    assert Until(json, {']'}, st) == st + |body|;
    assert json[st..st + |body|] == body;
    assert ArrayContent(json, key) == Some(body);
    UnquoteJoinQuoted(items);
  }

  lemma {:induction false} JoinQuotedNoBracket(items: seq<string>)
    requires forall i :: 0 <= i < |items| ==> ']' !in items[i]
    ensures ']' !in JoinQuoted(items)
  {
    if |items| > 1 {
      JoinQuotedNoBracket(items[1..]);
    }
  }

  /** `build_play`: the fields type and card between braces. Read back, it says PLAY, and it
      gives the card played whenever the card code holds no quote. */
  function BuildPlay(card: string): (r: string)
    ensures GetString(r, "type") == "PLAY"
    ensures '"' !in card ==> GetString(r, "card") == card
  {
    PlayType(card);
    var r := "{" + Field("type", "PLAY") + "," + Field("card", card) + "}";
    if '"' !in card then PlayRoundTrip(card); r else r
  }

  /** `build_hello`: a HUMAN hello with protocol version 1, that is the fields type, role and
      nickname, then proto 1, between braces. Read back, it says HELLO from a HUMAN, and it
      gives the nickname whenever that holds no quote. */
  function BuildHello(name: string): (r: string)
    ensures GetString(r, "type") == "HELLO" && GetString(r, "role") == "HUMAN"
    ensures '"' !in name ==> GetString(r, "nickname") == name
  {
    HelloType(name);
    HelloRole(name);
    var r := "{" + Field("type", "HELLO") + "," + Field("role", "HUMAN") + "," + Field("nickname", name) + ",\"proto\":1}";
    if '"' !in name then HelloRoundTrip(name); r else r
  }

  /** A pattern whose first two characters differ is first found at `p` when it occurs there
      and its second character does not occur before `p`. */
  lemma FirstAt(s: string, pat: string, p: nat)
    requires |pat| >= 2 && pat[0] != pat[1] && OccursAt(s, pat, p)
    requires forall k :: 0 <= k < p ==> s[k] != pat[1]
    ensures IndexOf(s, pat, 0) == Some(p)
  {
  }

  /** The first quote at or after `st` ends a quote-free text `v` written there. */
  lemma UntilQuote(json: string, st: nat, v: string)
    requires st + |v| < |json| && json[st..st + |v|] == v && json[st + |v|] == '"' && '"' !in v
    ensures Until(json, {'"'}, st) == st + |v|
  {
  }


  /** Where a field `"key":"v"` sits in a text: its search key right after `pre`, then `v`,
      then a quote. */
  lemma FieldAt(pre: string, key: string, v: string, post: string)
    ensures var json, pat := pre + Field(key, v) + post, SearchKey(key, "\"");
            OccursAt(json, pat, |pre|) && |pre| + |pat| + |v| < |json| &&
            json[|pre| + |pat|..|pre| + |pat| + |v|] == v && json[|pre| + |pat| + |v|] == '"' &&
            forall k :: 0 <= k < |pre| ==> json[k] == pre[k]
  {
    var pat := SearchKey(key, "\"");
    var f := Field(key, v);
    var json := pre + f + post;
    var p, st := |pre|, |pre| + |pat|;
    assert f[..|pat|] == pat && f[|pat|..|pat| + |v|] == v && f[|pat| + |v|] == '"';
    assert json[p..p + |f|] == f;
    assert json[p..st] == json[p..p + |f|][..|pat|];
    assert json[st..st + |v|] == json[p..p + |f|][|pat|..|pat| + |v|];
    assert json[st + |v|] == f[|pat| + |v|];
  }

  /** A field `"key":"v"` reads back as `v` when `v` holds no quote and the key's first
      character, not itself a quote, does not occur before the field. */
  lemma QuotedField(pre: string, key: string, v: string, post: string)
    requires key != [] && key[0] != '"' && key[0] !in pre && '"' !in v
    ensures GetString(pre + Field(key, v) + post, key) == v
  {
    var pat := SearchKey(key, "\"");
    var json := pre + Field(key, v) + post;
    var st := |pre| + |pat|;
    FieldAt(pre, key, v, post);
    assert pat[0] == '"' && pat[1] == key[0];
    FirstAt(json, pat, |pre|);
    GetStringQuoted(json, key);
    assert GetString(json, key) == TextUntil(json, st, {'"'});
    UntilQuote(json, st, v);
    assert TextUntil(json, st, {'"'}) == json[st..st + |v|];
  }

  /** Concatenation is associative. */
  lemma Regroup<T>(a: seq<T>, b: seq<T>, c: seq<T>)
    ensures a + b + c == a + (b + c)
  {
    assert |a + b + c| == |a + (b + c)|;
  }

  /** The fields of the client's PLAY message spell out its text, character for character. */
  lemma PlayLayout(card: string)
    ensures "{" + Field("type", "PLAY") + "," + Field("card", card) + "}" == "{\"type\":\"PLAY\",\"card\":\"" + card + "\"}"
  {
    assert "{\"type\":\"PLAY\",\"card\":\"" == "{" + Field("type", "PLAY") + "," + SearchKey("card", "\"");
  }

  /** A PLAY message, as the client lays it out, says it is one. */
  lemma PlayType(card: string)
    ensures GetString("{" + Field("type", "PLAY") + "," + Field("card", card) + "}", "type") == "PLAY"
  {
    var f1, f2 := Field("type", "PLAY"), Field("card", card);
    assert "{" + f1 + "," + f2 + "}" == "{" + f1 + ("," + f2 + "}");
    QuotedField("{", "type", "PLAY", "," + f2 + "}");
  }

  /** A PLAY message, as the client lays it out, reads back as the card played, for a card code
      without quotes. */
  lemma PlayRoundTrip(card: string)
    requires '"' !in card
    ensures GetString("{" + Field("type", "PLAY") + "," + Field("card", card) + "}", "card") == card
  {
    var pre := "{" + Field("type", "PLAY") + ",";
    assert 'c' !in pre;
    QuotedField(pre, "card", card, "}");
  }

  /** The text before the nickname in the client's HELLO message, field by field. */
  lemma HelloHead()
    ensures "{\"type\":\"HELLO\",\"role\":\"HUMAN\",\"nickname\":\"" ==
      "{" + Field("type", "HELLO") + "," + Field("role", "HUMAN") + "," + SearchKey("nickname", "\"")
  {
    HelloSplit();
    HelloPieces();
  }

  /** The text before the nickname in the client's HELLO message, cut at the field boundaries. */
  lemma HelloSplit()
    ensures "{\"type\":\"HELLO\",\"role\":\"HUMAN\",\"nickname\":\"" ==
      "{\"type\":\"HELLO\"," + "\"role\":\"HUMAN\"," + "\"nickname\":\""
  {
    var a, b, c := "{\"type\":\"HELLO\",", "\"role\":\"HUMAN\",", "\"nickname\":\"";
    assert "{\"type\":\"HELLO\",\"role\":\"HUMAN\",\"nickname\":\"" == a + b + c;
  }

  /** The three pieces of the text before the nickname in the client's HELLO message. */
  lemma HelloPieces()
    ensures "{\"type\":\"HELLO\"," == "{" + Field("type", "HELLO") + ","
    ensures "\"role\":\"HUMAN\"," == Field("role", "HUMAN") + ","
    ensures "\"nickname\":\"" == SearchKey("nickname", "\"")
  {
    assert "{\"type\":\"HELLO\"," == "{" + Field("type", "HELLO") + ",";
    assert "\"role\":\"HUMAN\"," == Field("role", "HUMAN") + ",";
  }

  /** The fields of the client's HELLO message spell out its text, character for character. */
  lemma HelloLayout(name: string)
    ensures "{" + Field("type", "HELLO") + "," + Field("role", "HUMAN") + "," + Field("nickname", name) + ",\"proto\":1}" == "{\"type\":\"HELLO\",\"role\":\"HUMAN\",\"nickname\":\"" + name + "\",\"proto\":1}"
  {
    HelloHead();
  }

  /** A HELLO message, as the client lays it out, says it is one. */
  lemma HelloType(name: string)
    ensures GetString("{" + Field("type", "HELLO") + "," + Field("role", "HUMAN") + "," + Field("nickname", name) + ",\"proto\":1}", "type") == "HELLO"
  {
    var f1, f2, f3 := Field("type", "HELLO"), Field("role", "HUMAN"), Field("nickname", name);
    var tail := ",\"proto\":1}";
    var x := "{" + f1;
    Regroup(x, ",", f2);
    Regroup(x, "," + f2, ",");
    Regroup(x, "," + f2 + ",", f3);
    Regroup(x, "," + f2 + "," + f3, tail);
    QuotedField("{", "type", "HELLO", "," + f2 + "," + f3 + tail);
  }

  /** A HELLO message, as the client lays it out, comes from a human. */
  lemma HelloRole(name: string)
    ensures GetString("{" + Field("type", "HELLO") + "," + Field("role", "HUMAN") + "," + Field("nickname", name) + ",\"proto\":1}", "role") == "HUMAN"
  {
    var f1, f2, f3 := Field("type", "HELLO"), Field("role", "HUMAN"), Field("nickname", name);
    var tail := ",\"proto\":1}";
    assert "{" + f1 + "," + f2 + "," + f3 + tail == "{" + f1 + "," + f2 + ("," + f3 + tail);
    assert 'r' !in "{" + f1 + ",";
    QuotedField("{" + f1 + ",", "role", "HUMAN", "," + f3 + tail);
  }

  /** A HELLO message, as the client lays it out, reads back as the nickname given, for a name
      without quotes. */
  lemma HelloRoundTrip(name: string)
    requires '"' !in name
    ensures GetString("{" + Field("type", "HELLO") + "," + Field("role", "HUMAN") + "," + Field("nickname", name) + ",\"proto\":1}", "nickname") == name
  {
    var pre := "{" + Field("type", "HELLO") + "," + Field("role", "HUMAN") + ",";
    assert 'n' !in pre;
    QuotedField(pre, "nickname", name, ",\"proto\":1}");
  }
}

/** The admin console's command language (server/src/admin/commands.rs): the line parser,
    the responses the game loop sends back, and their one-line rendering. */
module Commands {
  import Types
  import opened Strings
  import opened Logger

  /** `RoomInfo`. */
  datatype RoomInfo = RoomInfo(id: string, state: string, playerCount: nat, humanCount: nat)

  /** `PlayerInfo` of the admin console. */
  datatype PlayerInfo = PlayerInfo(playerId: string, nickname: string, roomId: string, role: string, isAi: bool)

  /** `AdminResponse`. */
  datatype AdminResponse =
    | Status(totalConnections: nat, totalRooms: nat, gamesInProgress: nat)
    | Rooms(rooms: seq<RoomInfo>)
    | Players(players: seq<PlayerInfo>)
    | Ok(message: string)
    | Error(message: string)

  /** `ParsedCommand`. */
  datatype ParsedCommand =
    | Help
    | Auth(token: string)
    | Status
    | Rooms
    | Players
    | Logs(count: nat, eventType: Types.Option<EventType>)
    | Kick(playerId: string)
    | Reset(roomId: Types.Option<string>)
    | Quit
    | Unknown(message: string)

  /** The count `LOGS` falls back to. */
  const DEFAULT_LOG_COUNT: nat := 20

  /** White space as `split_whitespace` sees it (the ASCII part). */
  predicate IsSpace(c: char)
  {
    c == ' ' || c == '\t' || c == '\n' || c == '\r' || c == '\U{000B}' || c == '\U{000C}'
  }

  /** A token: non-empty, with no white space. */
  predicate Word(w: string)
  {
    w != [] && forall i :: 0 <= i < |w| ==> !IsSpace(w[i])
  }

  /** The length of the run of non-space characters `s` starts with. */
  function WordLen(s: string): (n: nat)
    ensures n <= |s|
    ensures forall i :: 0 <= i < n ==> !IsSpace(s[i])
    ensures n == |s| || IsSpace(s[n])
  {
    if s == [] || IsSpace(s[0]) then 0 else 1 + WordLen(s[1..])
  }

  /** `trim().split_whitespace()`: the maximal runs of non-space characters, in order. */
  function Tokens(s: string): (r: seq<string>)
    decreases |s|
    ensures forall k :: 0 <= k < |r| ==> Word(r[k])
    ensures r == [] <==> forall i :: 0 <= i < |s| ==> IsSpace(s[i])
  {
    if s == [] then []
    else if IsSpace(s[0]) then
      var r := Tokens(s[1..]);
      assert forall i :: 1 <= i < |s| ==> s[i] == s[1..][i - 1];
      r
    else
      var n := WordLen(s);
      [s[..n]] + Tokens(s[n..])
  }

  /** Tokens joined by single spaces. */
  function Spaced(ws: seq<string>): string
  {
    if ws == [] then ""
    else if |ws| == 1 then ws[0]
    else ws[0] + " " + Spaced(ws[1..])
  }

  /** A word followed by nothing or by white space is read as that word first. */
  lemma {:induction false} WordLenOfWord(w: string, rest: string)
    requires Word(w) && (rest == [] || IsSpace(rest[0]))
    ensures WordLen(w + rest) == |w|
    decreases |w|
  {
    if |w| > 1 {
      assert (w + rest)[1..] == w[1..] + rest;
      WordLenOfWord(w[1..], rest);
    } else {
      assert (w + rest)[1..] == rest;
    }
  }

  /** A word followed by nothing or by white space is the first token. */
  lemma TokensAfterWord(w: string, rest: string)
    requires Word(w) && (rest == [] || IsSpace(rest[0]))
    ensures Tokens(w + rest) == [w] + Tokens(rest)
  {
    var s := w + rest;
    WordLenOfWord(w, rest);
    assert s[0] == w[0] && s[..|w|] == w && s[|w|..] == rest;
  }

  /** A leading space is skipped. */
  lemma TokensAfterSpace(rest: string)
    ensures Tokens(" " + rest) == Tokens(rest)
  {
    assert (" " + rest)[1..] == rest;
  }

  /** Tokenising spaced words gives the words back. */
  lemma {:induction false} TokensOfSpaced(ws: seq<string>)
    requires forall k :: 0 <= k < |ws| ==> Word(ws[k])
    ensures Tokens(Spaced(ws)) == ws
    decreases |ws|
  {
    if ws == [] {
    } else if |ws| == 1 {
      TokensAfterWord(ws[0], "");
      assert ws[0] + "" == ws[0];
    } else {
      var tail := Spaced(ws[1..]);
      TokensAfterWord(ws[0], " " + tail);
      TokensAfterSpace(tail);
      TokensOfSpaced(ws[1..]);
      assert ws[0] + " " + tail == ws[0] + (" " + tail);
      assert ws == [ws[0]] + ws[1..];
    }
  }

  /** `str::parse::<usize>()` on a 64-bit target: an optional `+`, then one or more decimal
      digits whose value fits. */
  function ParseUsize(s: string): (r: Types.Option<nat>)
    ensures r.Some? ==> r.value < 0x1_0000_0000_0000_0000
  {
    var d := if |s| > 0 && s[0] == '+' then s[1..] else s;
    if d != [] && AllDigits(d) && DigitsValue(d) < 0x1_0000_0000_0000_0000 then Types.Some(DigitsValue(d))
    else Types.None
  }

  /** A printed count reads back as itself. */
  lemma ParseUsizeOfNatToString(n: nat)
    requires n < 0x1_0000_0000_0000_0000
    ensures ParseUsize(NatToString(n)) == Types.Some(n)
  {
    DigitsValueOfNatToString(n);
  }

  /** The command words `parse_command` recognises, upper-cased. */
  const COMMAND_WORDS: set<string> :=
    {"HELP", "?", "AUTH", "STATUS", "ROOMS", "PLAYERS", "LOGS", "KICK", "RESET", "QUIT", "EXIT", "BYE"}

  /** The command a line's tokens spell: the command word, upper-cased, chooses the command;
      its arguments are the following tokens, and tokens beyond those are ignored. */
  function ParseTokens(parts: seq<string>): (r: ParsedCommand)
    requires forall k :: 0 <= k < |parts| ==> Word(parts[k])
    ensures r == ParsedCommand.Unknown("") <==> parts == []
    ensures parts != [] ==>
              var cmd := Upper(parts[0]);
              (r == ParsedCommand.Help <==> cmd == "HELP" || cmd == "?") &&
              (r == ParsedCommand.Quit <==> cmd == "QUIT" || cmd == "EXIT" || cmd == "BYE") &&
              (r.Auth? <==> cmd == "AUTH" && |parts| >= 2) &&
              (r.Kick? <==> cmd == "KICK" && |parts| >= 2) &&
              (r.Logs? <==> cmd == "LOGS") &&
              (r.Reset? <==> cmd == "RESET")
    ensures r.Auth? ==> r.token == parts[1]
    ensures r.Kick? ==> r.playerId == parts[1]
    ensures r.Reset? ==> r.roomId == if |parts| >= 2 then Types.Some(parts[1]) else Types.None
    ensures r.Logs? ==> r.eventType == if |parts| >= 3 then FromStr(parts[2]) else Types.None
    ensures r.Logs? ==> (|parts| >= 2 && ParseUsize(parts[1]).Some? ==> r.count == ParseUsize(parts[1]).value) &&
                        (|parts| < 2 || ParseUsize(parts[1]).None? ==> r.count == DEFAULT_LOG_COUNT)
  {
    if parts == [] then ParsedCommand.Unknown("")
    else
      var cmd := Upper(parts[0]);
      if cmd == "HELP" || cmd == "?" then ParsedCommand.Help
      else if cmd == "AUTH" then
        if |parts| < 2 then ParsedCommand.Unknown("AUTH requires a token") else ParsedCommand.Auth(parts[1])
      else if cmd == "STATUS" then ParsedCommand.Status
      else if cmd == "ROOMS" then ParsedCommand.Rooms
      else if cmd == "PLAYERS" then ParsedCommand.Players
      else if cmd == "LOGS" then
        var count := if |parts| >= 2 && ParseUsize(parts[1]).Some? then ParseUsize(parts[1]).value else DEFAULT_LOG_COUNT;
        ParsedCommand.Logs(count, if |parts| >= 3 then FromStr(parts[2]) else Types.None)
      else if cmd == "KICK" then
        if |parts| < 2 then ParsedCommand.Unknown("KICK requires a player_id") else ParsedCommand.Kick(parts[1])
      else if cmd == "RESET" then
        ParsedCommand.Reset(if |parts| >= 2 then Types.Some(parts[1]) else Types.None)
      else if cmd == "QUIT" || cmd == "EXIT" || cmd == "BYE" then ParsedCommand.Quit
      else ParsedCommand.Unknown("Unknown command: " + cmd)
  }

  /** The remaining commands: STATUS, ROOMS and PLAYERS by their words, the fixed replies to
      AUTH and KICK without an argument, and any other word reported back upper-cased. */
  lemma ParseTokensOthers(parts: seq<string>)
    requires parts != [] && forall k :: 0 <= k < |parts| ==> Word(parts[k])
    ensures ParseTokens(parts) == ParsedCommand.Status <==> Upper(parts[0]) == "STATUS"
    ensures ParseTokens(parts) == ParsedCommand.Rooms <==> Upper(parts[0]) == "ROOMS"
    ensures ParseTokens(parts) == ParsedCommand.Players <==> Upper(parts[0]) == "PLAYERS"
    ensures Upper(parts[0]) == "AUTH" && |parts| < 2 ==>
              ParseTokens(parts) == ParsedCommand.Unknown("AUTH requires a token")
    ensures Upper(parts[0]) == "KICK" && |parts| < 2 ==>
              ParseTokens(parts) == ParsedCommand.Unknown("KICK requires a player_id")
    ensures Upper(parts[0]) !in COMMAND_WORDS ==>
              ParseTokens(parts) == ParsedCommand.Unknown("Unknown command: " + Upper(parts[0]))
  {
  }

  /** `parse_command`: an empty or all-white line is `Unknown("")`; otherwise the line's tokens
      decide. */
  function ParseCommand(input: string): (r: ParsedCommand)
    ensures r == ParsedCommand.Unknown("") <==> forall i :: 0 <= i < |input| ==> IsSpace(input[i])
  {
    ParseTokens(Tokens(input))
  }

  /** A line of words separated by single spaces parses as those words. */
  lemma ParseSpaced(ws: seq<string>)
    requires forall k :: 0 <= k < |ws| ==> Word(ws[k])
    ensures ParseCommand(Spaced(ws)) == ParseTokens(ws)
  {
    TokensOfSpaced(ws);
  }

  /** `AUTH <token>` reads back as that token. */
  lemma ParseAuthLine(token: string)
    requires Word(token)
    ensures ParseCommand("AUTH " + token) == ParsedCommand.Auth(token)
  {
    assert Spaced(["AUTH", token]) == "AUTH " + token;
    ParseSpaced(["AUTH", token]);
    UpperOfUpperCase("AUTH");
  }

  /** `KICK <player>` reads back as that player. */
  lemma ParseKickLine(playerId: string)
    requires Word(playerId)
    ensures ParseCommand("KICK " + playerId) == ParsedCommand.Kick(playerId)
  {
    assert Spaced(["KICK", playerId]) == "KICK " + playerId;
    ParseSpaced(["KICK", playerId]);
    UpperOfUpperCase("KICK");
  }

  /** `RESET <room>` reads back as that room. */
  lemma ParseResetLine(roomId: string)
    requires Word(roomId)
    ensures ParseCommand("RESET " + roomId) == ParsedCommand.Reset(Types.Some(roomId))
  {
    assert Spaced(["RESET", roomId]) == "RESET " + roomId;
    ParseSpaced(["RESET", roomId]);
    UpperOfUpperCase("RESET");
  }

  /** Three words, spaced. */
  lemma SpacedThree(a: string, b: string, c: string)
    ensures Spaced([a, b, c]) == a + " " + b + " " + c
  {
    assert [a, b, c][1..] == [b, c] && [b, c][1..] == [c];
    assert Spaced([b, c]) == b + " " + c;
    assert a + " " + (b + " " + c) == a + " " + b + " " + c;
  }

  /** The tokens `LOGS`, a count printed in decimal and a kind's name. */
  lemma ParseLogsTokens(count: nat, t: EventType)
    requires count < 0x1_0000_0000_0000_0000
    ensures forall k :: 0 <= k < 3 ==> Word(["LOGS", NatToString(count), AsStr(t)][k])
    ensures ParseTokens(["LOGS", NatToString(count), AsStr(t)]) == ParsedCommand.Logs(count, Types.Some(t))
  {
    var digits := NatToString(count);
    assert forall i :: 0 <= i < |digits| ==> IsDigit(digits[i]);
    assert Word("LOGS") && Word(digits) && Word(AsStr(t));
    var ws := ["LOGS", digits, AsStr(t)];
    assert ws[0] == "LOGS" && ws[1] == digits && ws[2] == AsStr(t);
    UpperOfUpperCase("LOGS");
    ParseUsizeOfNatToString(count);
    FromStrAsStr(t);
  }

  /** `LOGS <count> <kind>`, with the count printed in decimal and the kind by its name, reads
      back as that count and kind. */
  lemma ParseLogsLine(count: nat, t: EventType)
    requires count < 0x1_0000_0000_0000_0000
    ensures ParseCommand("LOGS " + NatToString(count) + " " + AsStr(t)) == ParsedCommand.Logs(count, Types.Some(t))
  {
    SpacedThree("LOGS", NatToString(count), AsStr(t));
    assert "LOGS" + " " == "LOGS ";
    ParseLogsTokens(count, t);
    ParseSpaced(["LOGS", NatToString(count), AsStr(t)]);
  }

  /** `format_result`. */
  function FormatResult(response: AdminResponse): (s: string)
    ensures response.Ok? ==> s == "OK: " + response.message
    ensures response.Error? ==> s == "ERROR: " + response.message
    ensures !response.Ok? && !response.Error? ==> s == "Invalid response"
  {
    match response
    case Ok(m) => "OK: " + m
    case Error(m) => "ERROR: " + m
    case _ => "Invalid response"
  }

  /** A formatted `Ok` or `Error` line tells the two kinds apart and gives the message back:
      two such responses format alike only when they are the same response. */
  lemma FormatResultReadsBack(a: AdminResponse, b: AdminResponse)
    requires (a.Ok? || a.Error?) && (b.Ok? || b.Error?)
    ensures FormatResult(a) == FormatResult(b) <==> a == b
  {
    if a != b {
      var sa, sb := FormatResult(a), FormatResult(b);
      if a.Ok? != b.Ok? {
        assert sa[0] != sb[0];
      } else if a.Ok? {
        assert sa[4..] == a.message && sb[4..] == b.message;
      } else {
        assert sa[7..] == a.message && sb[7..] == b.message;
      }
    }
  }
}

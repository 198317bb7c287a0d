/** Validation of a client's HELLO and the choice of its final nickname
    (server/src/lobby/handshake.rs). */
module Handshake {
  import opened Types
  import opened Strings

  const MIN_NICKNAME_LEN: nat := 1
  const MAX_NICKNAME_LEN: nat := 16
  const PROTOCOL_VERSION: u32 := 1

  /** `HandshakeResult`: the WELCOME to send, or the ERROR to send back (named `Error` in Rust). */
  datatype HandshakeResult = Success(msg: ServerMessage) | Failure(msg: ServerMessage)

  /** `format!("{}_{}", nick, i)`. */
  function Suffixed(nick: string, i: nat): string
  {
    nick + "_" + NatToString(i)
  }

  /** The nickname the suffix search settles on when it starts at suffix `i`: the first free
      `nick_i .. nick_99`, or `nick_` followed by four hex digits of `rnd` when all are taken.
      `rnd` stands for `rand_u16()`, which reads the clock. */
  function SuffixSearch(nick: string, existing: set<string>, i: nat, rnd: nat): string
    requires 2 <= i <= 100 && rnd < 0x10000
    decreases 100 - i
  {
    if i == 100 then nick + "_" + Hex4(rnd)
    else if Suffixed(nick, i) !in existing then Suffixed(nick, i)
    else SuffixSearch(nick, existing, i + 1, rnd)
  }

  /** What `ensure_unique_nickname` returns. */
  function UniqueNickname(nick: string, existing: set<string>, rnd: nat): string
    requires rnd < 0x10000
  {
    if nick !in existing then nick else SuffixSearch(nick, existing, 2, rnd)
  }

  /** `ensure_unique_nickname`: the nickname itself when unused, else the first free suffixed
      form, trying `_2` up to `_99`. */
  method EnsureUniqueNickname(nick: string, existing: set<string>, rnd: nat) returns (r: string)
    requires rnd < 0x10000
    ensures r == UniqueNickname(nick, existing, rnd)
  {
    if nick !in existing {
      return nick;
    }
    for i := 2 to 100
      invariant SuffixSearch(nick, existing, i, rnd) == SuffixSearch(nick, existing, 2, rnd)
    {
      var name := Suffixed(nick, i);
      if name !in existing {
        return name;
      }
    }
    return nick + "_" + Hex4(rnd);
  }

  /** From suffix `i` on, the search returns the first free suffix at or after `i`, if there is one. */
  lemma {:induction false} SuffixSearchFirstFree(nick: string, existing: set<string>, i: nat, rnd: nat, f: nat)
    requires 2 <= i <= f <= 99 && rnd < 0x10000 && Suffixed(nick, f) !in existing
    ensures var r := SuffixSearch(nick, existing, i, rnd);
            r !in existing &&
            exists k :: i <= k <= f && r == Suffixed(nick, k) &&
                        forall j :: i <= j < k ==> Suffixed(nick, j) in existing
    decreases 100 - i
  {
    if Suffixed(nick, i) in existing {
      SuffixSearchFirstFree(nick, existing, i + 1, rnd, f);
    }
  }

  /** When every suffix `_2 .. _99` is taken, the search falls back to the random suffix. */
  lemma {:induction false} SuffixSearchExhausted(nick: string, existing: set<string>, i: nat, rnd: nat)
    requires 2 <= i <= 100 && rnd < 0x10000
    requires forall j :: i <= j < 100 ==> Suffixed(nick, j) in existing
    ensures SuffixSearch(nick, existing, i, rnd) == nick + "_" + Hex4(rnd)
    decreases 100 - i
  {
    if i < 100 {
      SuffixSearchExhausted(nick, existing, i + 1, rnd);
    }
  }

  /** An unused nickname is kept. A used one gets the smallest free suffix in 2..99, which is
      therefore unused; when all 98 are taken, the clock-derived hex suffix (which may collide). */
  lemma UniqueNicknameChoice(nick: string, existing: set<string>, rnd: nat)
    requires rnd < 0x10000
    ensures var r := UniqueNickname(nick, existing, rnd);
            if nick !in existing then r == nick
            else if exists f :: 2 <= f <= 99 && Suffixed(nick, f) !in existing then
              r !in existing &&
              exists k :: 2 <= k <= 99 && r == Suffixed(nick, k) &&
                          forall j :: 2 <= j < k ==> Suffixed(nick, j) in existing
            else r == nick + "_" + Hex4(rnd)
  {
    if nick in existing {
      if f :| 2 <= f <= 99 && Suffixed(nick, f) !in existing {
        SuffixSearchFirstFree(nick, existing, 2, rnd, f);
      } else {
        SuffixSearchExhausted(nick, existing, 2, rnd);
      }
    }
  }

  /** A second "Alice" becomes "Alice_2". */
  lemma UniqueNicknameExample(rnd: nat)
    requires rnd < 0x10000
    ensures UniqueNickname("Alice", {"Alice"}, rnd) == "Alice_2"
  {
    assert Suffixed("Alice", 2) == "Alice_2";
  }

  /** Different suffixes give different nicknames, so the search never retries a name. */
  lemma SuffixedInjective(nick: string, i: nat, j: nat)
    requires Suffixed(nick, i) == Suffixed(nick, j)
    ensures i == j
  {
    var a, b := Suffixed(nick, i), Suffixed(nick, j);
    assert a[|nick| + 1..] == NatToString(i);
    assert b[|nick| + 1..] == NatToString(j);
    NatToStringInjective(i, j);
  }

  /** The AI token check: only an AI client is checked, and only when a token is configured. */
  predicate AuthOk(role: Role, auth: Option<string>, aiToken: Option<string>)
  {
    role == Role.Ai && aiToken.Some? ==> auth == Some(aiToken.value)
  }

  predicate BadVersionOrLength(proto: u32, nickname: string)
  {
    proto != PROTOCOL_VERSION || |nickname| < MIN_NICKNAME_LEN || |nickname| > MAX_NICKNAME_LEN
  }

  /** `process_hello`: the protocol version first, then the nickname length (counted in
      characters, before any suffix), then the AI token; on success WELCOME with player id
      "P<slot>", the de-duplicated nickname and the room id unchanged. */
  function ProcessHello(role: Role, nickname: string, proto: u32, auth: Option<string>,
                        existing: set<string>, slot: u32, roomId: RoomId,
                        aiToken: Option<string>, rnd: nat): (r: HandshakeResult)
    requires rnd < 0x10000
    ensures r.Success? <==> !BadVersionOrLength(proto, nickname) && AuthOk(role, auth, aiToken)
    ensures r.Success? ==> r.msg == Welcome("P" + NatToString(slot), UniqueNickname(nickname, existing, rnd), roomId)
    ensures r.Failure? ==> r.msg.Error?
    ensures r.Failure? ==> (r.msg.code == InvalidHello <==> BadVersionOrLength(proto, nickname))
    ensures r.Failure? ==> (r.msg.code == AuthFailed <==> !BadVersionOrLength(proto, nickname))
  {
    if proto != PROTOCOL_VERSION then
      Failure(Error(InvalidHello, "Unsupported protocol version: " + NatToString(proto)
                                  + ". Expected: " + NatToString(PROTOCOL_VERSION)))
    else if |nickname| < MIN_NICKNAME_LEN || |nickname| > MAX_NICKNAME_LEN then
      Failure(Error(InvalidHello, "Nickname must be " + NatToString(MIN_NICKNAME_LEN) + "-"
                                  + NatToString(MAX_NICKNAME_LEN) + " characters, got: "
                                  + NatToString(|nickname|)))
    else if role == Role.Ai && aiToken.Some? && auth.Some? && auth.value != aiToken.value then
      Failure(Error(AuthFailed, "Invalid AI authentication token"))
    else if role == Role.Ai && aiToken.Some? && auth.None? then
      Failure(Error(AuthFailed, "AI client requires authentication token"))
    else
      Success(Welcome("P" + NatToString(slot), UniqueNickname(nickname, existing, rnd), roomId))
  }

  /** The length limit is checked before suffixing: a 16-character nickname that is taken is
      accepted as an 18-character one. */
  lemma SuffixedNicknameMayExceedLimit(existing: set<string>, rnd: nat)
    requires rnd < 0x10000
    requires "ABCDEFGHIJKLMNOP" in existing && "ABCDEFGHIJKLMNOP_2" !in existing
    ensures var r := ProcessHello(Role.Human, "ABCDEFGHIJKLMNOP", 1, None, existing, 1, "R001", None, rnd);
            r.Success? && |r.msg.nickname| == 18 > MAX_NICKNAME_LEN
  {
    assert Suffixed("ABCDEFGHIJKLMNOP", 2) == "ABCDEFGHIJKLMNOP_2";
  }
}

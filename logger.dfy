/** The admin event log (server/src/admin/logger.rs): a bounded ring buffer of timestamped
    entries and its queries. The buffer is a sequence the methods reassign; the mutex around
    it and the wall clock are not modelled (the timestamp of an entry is a parameter). */
module Logger {
  import opened Types
  import opened Strings

  /** `DEFAULT_CAPACITY`. */
  const DEFAULT_CAPACITY: nat := 500

  datatype EventType = PlayerJoin | PlayerLeave | GameStart | GameEnd | Play | TrickResult | AdminAction | Error

  /** `EventType::as_str`. */
  function AsStr(e: EventType): (s: string)
    ensures forall i :: 0 <= i < |s| ==> 'A' <= s[i] <= 'Z' || s[i] == '_'
  {
    match e
    case PlayerJoin => "PLAYER_JOIN"
    case PlayerLeave => "PLAYER_LEAVE"
    case GameStart => "GAME_START"
    case GameEnd => "GAME_END"
    case Play => "PLAY"
    case TrickResult => "TRICK_RESULT"
    case AdminAction => "ADMIN"
    case Error => "ERROR"
  }

  /** `EventType::from_str`: the upper-cased text, looked up among the eight names. */
  function FromStr(s: string): (r: Option<EventType>)
    ensures forall e :: r == Some(e) <==> Upper(s) == AsStr(e)
  {
    var u := Upper(s);
    if u == "PLAYER_JOIN" then Some(PlayerJoin)
    else if u == "PLAYER_LEAVE" then Some(PlayerLeave)
    else if u == "GAME_START" then Some(GameStart)
    else if u == "GAME_END" then Some(GameEnd)
    else if u == "PLAY" then Some(EventType.Play)
    else if u == "TRICK_RESULT" then Some(EventType.TrickResult)
    else if u == "ADMIN" then Some(AdminAction)
    else if u == "ERROR" then Some(EventType.Error)
    else None
  }

  /** A string without lower-case letters is its own upper case. */
  lemma UpperOfUpperCase(s: string)
    requires forall i :: 0 <= i < |s| ==> !('a' <= s[i] <= 'z')
    ensures Upper(s) == s
  {
    assert forall i :: 0 <= i < |s| ==> Upper(s)[i] == s[i];
  }

  /** Every kind reads back from its own name. */
  lemma FromStrAsStr(e: EventType)
    ensures FromStr(AsStr(e)) == Some(e)
  {
    UpperOfUpperCase(AsStr(e));
  }

  /** `from_str` ignores case: a name in lower case reads as the same kind. */
  lemma FromStrIgnoresCase(s: string)
    ensures FromStr(Lower(s)) == FromStr(s)
  {
    assert forall i :: 0 <= i < |s| ==> Upper(Lower(s))[i] == Upper(s)[i];
    assert Upper(Lower(s)) == Upper(s);
  }

  datatype LogEntry = LogEntry(timestamp: u64, eventType: EventType, message: string)

  /** The calendar fields `format_timestamp` prints. */
  datatype DateTime = DateTime(year: nat, month: nat, day: nat, hours: nat, minutes: nat, seconds: nat)

  /** The simplified UTC calendar of `format_timestamp`: 365-day years and 30-day months, so a
      day of the year from 360 on falls in a thirteenth month. The fields give back the
      timestamp. */
  function Clock(t: u64): (d: DateTime)
    ensures d.hours < 24 && d.minutes < 60 && d.seconds < 60
    ensures 1 <= d.day <= 30 && 1 <= d.month <= 13 && 1970 <= d.year
    ensures d.month == 13 <==> t / 86400 % 365 >= 360
    ensures ((d.year - 1970) * 365 + (d.month - 1) * 30 + d.day - 1) * 86400 +
            (d.hours * 60 + d.minutes) * 60 + d.seconds == t
  {
    var secs := t % 86400;
    var days := t / 86400;
    var dayOfYear := days % 365;
    DateTime(1970 + days / 365, dayOfYear / 30 + 1, dayOfYear % 30 + 1, secs / 3600, secs % 3600 / 60, secs % 60)
  }

  /** The calendar fields written "YYYY-MM-DD HH:MM:SS", each zero-padded. */
  function Stamp(d: DateTime): (s: string)
    ensures |s| >= 19
  {
    ZeroPadded(d.year, 4) + ("-" + (ZeroPadded(d.month, 2) + ("-" + (ZeroPadded(d.day, 2) + (" " +
    (ZeroPadded(d.hours, 2) + (":" + (ZeroPadded(d.minutes, 2) + (":" + ZeroPadded(d.seconds, 2))))))))))
  }

  /** Before the year 10000 a stamp has 19 characters, the separators in their places, and each
      field reads back as the calendar field it prints. */
  lemma StampReadsBack(d: DateTime)
    requires d.year < 10000 && d.month < 100 && d.day < 100 && d.hours < 100 && d.minutes < 100 && d.seconds < 100
    ensures var s := Stamp(d);
            |s| == 19 && s[4] == '-' && s[7] == '-' && s[10] == ' ' && s[13] == ':' && s[16] == ':' &&
            AllDigits(s[..4]) && DigitsValue(s[..4]) == d.year &&
            AllDigits(s[5..7]) && DigitsValue(s[5..7]) == d.month &&
            AllDigits(s[8..10]) && DigitsValue(s[8..10]) == d.day &&
            AllDigits(s[11..13]) && DigitsValue(s[11..13]) == d.hours &&
            AllDigits(s[14..16]) && DigitsValue(s[14..16]) == d.minutes &&
            AllDigits(s[17..]) && DigitsValue(s[17..]) == d.seconds
  {
    var y, mo, dd := ZeroPadded(d.year, 4), ZeroPadded(d.month, 2), ZeroPadded(d.day, 2);
    var h, mi, se := ZeroPadded(d.hours, 2), ZeroPadded(d.minutes, 2), ZeroPadded(d.seconds, 2);
    ZeroPaddedFits(d.year, 4);
    ZeroPaddedFits(d.month, 2);
    ZeroPaddedFits(d.day, 2);
    ZeroPaddedFits(d.hours, 2);
    ZeroPaddedFits(d.minutes, 2);
    ZeroPaddedFits(d.seconds, 2);
    var r5 := ":" + se;
    var r4 := mi + r5;
    var r3 := ":" + r4;
    var r2 := h + r3;
    var q3 := " " + r2;
    var q2 := dd + q3;
    var q1 := "-" + q2;
    var p2 := mo + q1;
    var p1 := "-" + p2;
    var s := y + p1;
    assert s == Stamp(d);
    FieldThen(y, "-", p2);
    FieldThen(mo, "-", q2);
    FieldThen(dd, " ", r2);
    FieldThen(h, ":", r4);
    FieldThen(mi, ":", se);
    assert s[5..7] == p2[..2] && s[8..10] == q2[..2] && s[11..13] == r2[..2] && s[14..16] == r4[..2];
  }

  /** A field, a one-character separator and the rest: each can be sliced back out. */
  lemma FieldThen(f: string, sep: string, rest: string)
    requires |sep| == 1
    ensures var s := f + (sep + rest);
            s[..|f|] == f && s[|f|] == sep[0] && s[|f| + 1..] == rest
  {
  }

  /** `format_timestamp`: the simplified calendar's fields of `t`, stamped. */
  function FormatTimestamp(t: u64): (s: string)
    ensures |s| >= 19
    ensures var d := Clock(t);
            d.year < 10000 ==>
              |s| == 19 && AllDigits(s[..4]) && DigitsValue(s[..4]) == d.year &&
              AllDigits(s[5..7]) && DigitsValue(s[5..7]) == d.month &&
              AllDigits(s[8..10]) && DigitsValue(s[8..10]) == d.day &&
              AllDigits(s[11..13]) && DigitsValue(s[11..13]) == d.hours &&
              AllDigits(s[14..16]) && DigitsValue(s[14..16]) == d.minutes &&
              AllDigits(s[17..]) && DigitsValue(s[17..]) == d.seconds
  {
    var d := Clock(t);
    if d.year < 10000 then StampReadsBack(d); Stamp(d) else Stamp(d)
  }

  /** `s` is the line "[ts] name: msg": each part sits at the position the lengths of the
      parts before it give, so each can be cut back out. */
  predicate LaidOut(s: string, ts: string, name: string, msg: string)
  {
    var n := |ts| + 3;
    |s| == n + |name| + 2 + |msg| &&
    s[0] == '[' && s[1..|ts| + 1] == ts && s[|ts| + 1..n] == "] " &&
    s[n..n + |name|] == name && s[n + |name|..n + |name| + 2] == ": " && s[n + |name| + 2..] == msg
  }

  /** `LogEntry::format`: "[timestamp] KIND: message". The bracketed timestamp comes first, then
      the kind's name (which reads back as the kind, `FromStrAsStr`), and the message ends the
      line. */
  function Format(entry: LogEntry): (s: string)
    ensures LaidOut(s, FormatTimestamp(entry.timestamp), AsStr(entry.eventType), entry.message)
  {
    var ts := FormatTimestamp(entry.timestamp);
    var name := AsStr(entry.eventType);
    FormatLayout(ts, name, entry.message);
    "[" + (ts + ("] " + (name + (": " + entry.message))))
  }

  /** Where the parts of a formatted line sit. */
  lemma FormatLayout(ts: string, name: string, msg: string)
    ensures LaidOut("[" + (ts + ("] " + (name + (": " + msg)))), ts, name, msg)
  {
    var tail := name + (": " + msg);
    var s := "[" + (ts + ("] " + tail));
    assert s[1..] == ts + ("] " + tail);
    assert s[1..|ts| + 1] == ts && s[|ts| + 1..|ts| + 3] == "] " && s[|ts| + 3..] == tail;
    assert tail[..|name|] == name && tail[|name|..|name| + 2] == ": " && tail[|name| + 2..] == msg;
  }

  function Max(a: nat, b: nat): nat { if a < b then b else a }

  function Min(a: nat, b: nat): nat { if a < b then a else b }

  /** The buffer after `log`: when it holds `cap` entries or more, the oldest is dropped (if
      there is one), and the new entry goes at the back. */
  function Logged(es: seq<LogEntry>, cap: nat, e: LogEntry): (r: seq<LogEntry>)
    ensures |r| >= 1 && r[|r| - 1] == e
    ensures |es| < cap ==> r[..|r| - 1] == es
    ensures |es| >= cap ==> r[..|r| - 1] == es[Min(1, |es|)..]
    ensures |es| <= Max(cap, 1) ==> |r| == Min(|es| + 1, Max(cap, 1))
  {
    (if |es| >= cap && es != [] then es[1..] else es) + [e]
  }

  /** The entries of one kind, in order. */
  function OfType(es: seq<LogEntry>, t: EventType): (r: seq<LogEntry>)
    ensures |r| <= |es|
    ensures forall k :: 0 <= k < |r| ==> r[k].eventType == t
    ensures forall x :: x in r <==> x in es && x.eventType == t
  {
    if es == [] then []
    else OfType(es[..|es| - 1], t) + (if es[|es| - 1].eventType == t then [es[|es| - 1]] else [])
  }

  /** `message.to_lowercase().contains(keyword.to_lowercase())`. */
  predicate Mentions(e: LogEntry, keyword: string)
  {
    Contains(Lower(e.message), Lower(keyword))
  }

  /** The entries whose message mentions the keyword, in order. */
  function Mentioning(es: seq<LogEntry>, keyword: string): (r: seq<LogEntry>)
    ensures |r| <= |es|
    ensures forall k :: 0 <= k < |r| ==> Mentions(r[k], keyword)
    ensures forall x :: x in r <==> x in es && Mentions(x, keyword)
  {
    if es == [] then []
    else Mentioning(es[..|es| - 1], keyword) + (if Mentions(es[|es| - 1], keyword) then [es[|es| - 1]] else [])
  }

  /** `s` back to front. */
  function Reverse<T>(s: seq<T>): (r: seq<T>)
    ensures |r| == |s|
    ensures forall i :: 0 <= i < |s| ==> r[i] == s[|s| - 1 - i]
  {
    if s == [] then [] else Reverse(s[1..]) + [s[0]]
  }

  /** The `rev().take(n).collect().into_iter().rev()` chain: the last `n` elements of `s` (all
      of them when there are fewer), oldest first. */
  function Last<T>(s: seq<T>, n: nat): (r: seq<T>)
    ensures |r| == Min(n, |s|)
    ensures r == s[|s| - |r|..]
  {
    Reverse(Reverse(s)[..Min(n, |s|)])
  }

  /** `GameLogger`: the entries, oldest first, and the capacity. */
  class GameLogger {
    var entries: seq<LogEntry>
    const capacity: nat

    /** The buffer never holds more than the capacity, or one entry when the capacity is 0. */
    predicate Valid()
      reads this
    {
      |entries| <= Max(capacity, 1)
    }

    /** `GameLogger::with_capacity`. */
    constructor WithCapacity(capacity: nat)
      ensures Valid() && entries == [] && this.capacity == capacity
    {
      entries := [];
      this.capacity := capacity;
    }

    /** `GameLogger::new`. */
    constructor New()
      ensures Valid() && entries == [] && capacity == DEFAULT_CAPACITY
    {
      entries := [];
      capacity := DEFAULT_CAPACITY;
    }

    /** `log`: the entry (stamped with `timestamp`, the clock's reading) goes at the back, after
        the oldest entry was dropped if the buffer was full. */
    method Log(eventType: EventType, message: string, timestamp: u64)
      requires Valid()
      modifies this
      ensures Valid()
      ensures entries == Logged(old(entries), capacity, LogEntry(timestamp, eventType, message))
    {
      var e := LogEntry(timestamp, eventType, message);
      if |entries| >= capacity && entries != [] {
        entries := entries[1..];
      }
      entries := entries + [e];
    }

    /** `get_recent`: the last `n` entries, oldest first. */
    function GetRecent(n: nat): (r: seq<LogEntry>)
      reads this
      ensures |r| == Min(n, |entries|) && r == entries[|entries| - |r|..]
    {
      Last(entries, n)
    }

    /** `get_recent_by_type`: the last `n` entries of kind `t`, oldest first. */
    function GetRecentByType(n: nat, t: EventType): (r: seq<LogEntry>)
      reads this
      ensures |r| == Min(n, |OfType(entries, t)|)
      ensures r == OfType(entries, t)[|OfType(entries, t)| - |r|..]
      ensures forall k :: 0 <= k < |r| ==> r[k].eventType == t && r[k] in entries
    {
      Last(OfType(entries, t), n)
    }

    /** `search`: the last `limit` entries whose message mentions `keyword`, ignoring case,
        oldest first. */
    function Search(keyword: string, limit: nat): (r: seq<LogEntry>)
      reads this
      ensures |r| == Min(limit, |Mentioning(entries, keyword)|)
      ensures r == Mentioning(entries, keyword)[|Mentioning(entries, keyword)| - |r|..]
      ensures forall k :: 0 <= k < |r| ==> Mentions(r[k], keyword) && r[k] in entries
    {
      Last(Mentioning(entries, keyword), limit)
    }

    /** `len`. */
    function Len(): (r: nat)
      reads this
      ensures r == 0 <==> entries == []
      ensures Valid() ==> r <= Max(capacity, 1)
    {
      |entries|
    }

    /** `clear`. */
    method Clear()
      modifies this
      ensures Valid() && Len() == 0
    {
      entries := [];
    }
  }

  /** The entries of a kind after logging: the new entry joins them exactly when it is of that
      kind. */
  lemma {:induction false} OfTypeAppend(es: seq<LogEntry>, e: LogEntry, t: EventType)
    ensures OfType(es + [e], t) == OfType(es, t) + (if e.eventType == t then [e] else [])
  {
    assert (es + [e])[..|es + [e]| - 1] == es;
  }

  /** `get_recent_by_type(1, t)` right after logging an entry of kind `t` gives that entry. */
  lemma RecentByTypeAfterLog(es: seq<LogEntry>, cap: nat, e: LogEntry)
    ensures Last(OfType(Logged(es, cap, e), e.eventType), 1) == [e]
  {
    var r := Logged(es, cap, e);
    assert r == r[..|r| - 1] + [e];
    OfTypeAppend(r[..|r| - 1], e, e.eventType);
  }
}

/** The reply that the PHP endpoint prints, and the device that scans it by substring. */
module Scanner {
  import opened Basics
  import opened Json

  // ---------------------------------------------------------------------
  // The printed reply
  // ---------------------------------------------------------------------

  /** A command as listed in a reply; params is its JSON text. */
  datatype Listed = Listed(id: string, action: string, params: string)

  function Key(name: string): string { "\"" + name + "\":" }

  function Quote(text: string): string { "\"" + text + "\"" }

  function Item(c: Listed): string {
    "{" + Key("command_id") + Quote(Escape(c.id)) + Remainder(c)
  }

  function Remainder(c: Listed): string {
    "," + Key("action") + Quote(Escape(c.action)) + "," + Key("params") + c.params + "}"
  }

  function Items(cs: seq<Listed>): string {
    if cs == [] then "" else if |cs| == 1 then Item(cs[0]) else Item(cs[0]) + "," + Items(cs[1..])
  }

  function FromCommands(cs: seq<Listed>): string { Key("commands") + "[" + Items(cs) + "]}" }

  function FromInterval(interval: int, cs: seq<Listed>): string {
    Key("sleep_interval_sec") + Decimal(interval) + "," + FromCommands(cs)
  }

  function FromTime(time: int, interval: int, cs: seq<Listed>): string {
    Key("server_time") + Decimal(time) + "," + FromInterval(interval, cs)
  }

  function Reply(time: int, interval: int, cs: seq<Listed>): string {
    "{" + (Key("status") + Quote("OK") + "," +
        (Key("message") + Quote("Telemetry accepted") + "," + FromTime(time, interval, cs)))
  }

  /** The text of a reply, literally. */
  lemma ReplySpelled(time: int, interval: int, cs: seq<Listed>)
    ensures Reply(time, interval, cs) ==
            "{" + ("\"status\":" + "\"OK\"" + "," +
                   ("\"message\":" + "\"Telemetry accepted\"" + "," +
                    ("\"server_time\":" + Decimal(time) + "," +
                     ("\"sleep_interval_sec\":" + Decimal(interval) + "," +
                      ("\"commands\":" + "[" + Items(cs) + "]}")))))
  {
    WordsSpelled();
    MessageSpelled();
    NumbersSpelled();
    hide Decimal, Items, Key, Quote;
  }

  lemma WordsSpelled()
    ensures Key("status") == "\"status\":" && Quote("OK") == "\"OK\"" && Key("message") == "\"message\":"
  {
  }

  lemma MessageSpelled()
    ensures Quote("Telemetry accepted") == "\"Telemetry accepted\""
  {
  }

  lemma NumbersSpelled()
    ensures Key("server_time") == "\"server_time\":" && Key("sleep_interval_sec") == "\"sleep_interval_sec\":"
    ensures Key("commands") == "\"commands\":"
  {
  }

  /** The listed commands, literally: separated by commas, each with its id, action and parameters. */
  lemma ItemsSpelled(cs: seq<Listed>)
    ensures cs == [] ==> Items(cs) == ""
    ensures cs != [] ==>
              var c := cs[0];
              Items(cs) ==
              "{" + "\"command_id\":" + ("\"" + Escape(c.id) + "\"") +
              ("," + "\"action\":" + ("\"" + Escape(c.action) + "\"") + "," + "\"params\":" + c.params + "}") +
              (if |cs| == 1 then "" else "," + Items(cs[1..]))
  {
    if cs != [] {
      ItemSpelled(cs[0]);
      hide Item, Escape;
      assert Item(cs[0]) + "" == Item(cs[0]);
      var rest := if |cs| == 1 then "" else "," + Items(cs[1..]);
      assert |cs| > 1 ==> Item(cs[0]) + "," + Items(cs[1..]) == Item(cs[0]) + rest;
    }
  }

  lemma ItemSpelled(c: Listed)
    ensures Item(c) ==
            "{" + "\"command_id\":" + ("\"" + Escape(c.id) + "\"") +
            ("," + "\"action\":" + ("\"" + Escape(c.action) + "\"") + "," + "\"params\":" + c.params + "}")
  {
    hide Escape;
    assert Key("command_id") == "\"command_id\":";
    assert Key("action") == "\"action\":" && Key("params") == "\"params\":";
  }

  // ---------------------------------------------------------------------
  // Substring search
  // ---------------------------------------------------------------------

  /** String.indexOf. */
  function Find(s: string, key: string): (p: Option<nat>)
    ensures p.Some? ==> p.value + |key| <= |s|
    decreases |s|
  {
    if key <= s then Some(0)
    else if s == "" || Find(s[1..], key).None? then None
    else Some(1 + Find(s[1..], key).value)
  }

  /** It finds the first occurrence, whenever there is one. */
  lemma {:induction false} FindsFirst(s: string, key: string, p: nat)
    requires p + |key| <= |s|
    ensures Find(s, key) == Some(p) <==> First(s, key, p)
    decreases p
  {
    assert s[0..] == s;
    if p > 0 && !(key <= s) {
      FindsFirst(s[1..], key, p - 1);
      ShiftFirst(s, key, p);
    }
  }

  predicate First(s: string, key: string, p: nat)
    requires p <= |s|
  {
    key <= s[p..] && forall q | 0 <= q < p :: !(key <= s[q..])
  }

  /** Without an occurrence at its start, a text has its first one where the rest has it. */
  lemma ShiftFirst(s: string, key: string, p: nat)
    requires 0 < p <= |s| && !(key <= s)
    ensures First(s, key, p) <==> First(s[1..], key, p - 1)
  {
    assert s[0..] == s && s[p..] == s[1..][p - 1..];
    assert forall q | 0 <= q < p :: s[1..][q..] == s[q + 1..];
    if First(s[1..], key, p - 1) {
      forall q | 0 <= q < p ensures !(key <= s[q..]) {
        if q > 0 { assert s[q..] == s[1..][q - 1..]; }
      }
    }
  }

  /** What follows the first occurrence of key. */
  function Behind(s: string, key: string): Option<string>
    decreases |s|
  {
    if key <= s then Some(s[|key|..]) else if s == "" then None else Behind(s[1..], key)
  }

  lemma {:induction false} BehindFind(s: string, key: string)
    ensures Behind(s, key) == if Find(s, key).Some? then Some(s[Find(s, key).value + |key|..]) else None
    decreases |s|
  {
    if !(key <= s) && s != "" {
      BehindFind(s[1..], key);
      if Find(s[1..], key).Some? {
        assert s[1..][Find(s[1..], key).value + |key|..] == s[Find(s, key).value + |key|..];
      }
    }
  }

  predicate QuoteFree(s: string) { '\"' !in s }

  /** key begins with name between quotes. */
  predicate Names(key: string, name: string) {
    QuoteFree(name) && Quote(name) <= key
  }

  lemma {:induction false} SkipText(t: string, rest: string, key: string)
    requires QuoteFree(t) && key != "" && key[0] == '\"'
    ensures Behind(t + rest, key) == Behind(rest, key)
    decreases |t|
  {
    if t == "" {
      assert t + rest == rest;
    } else {
      assert (t + rest)[0] == t[0];
      assert (t + rest)[1..] == t[1..] + rest;
      SkipText(t[1..], rest, key);
    }
  }

  lemma TokenIsName(u: string, rest: string, key: string, name: string)
    requires Names(key, name) && QuoteFree(u)
    requires rest == "" || rest[0] == '\"'
    requires key <= "\"" + u + rest
    ensures u == name
  {
    var s, q := "\"" + u + rest, Quote(name);
    var n := |name|;
    assert forall i | 0 <= i < |q| :: s[i] == key[i] == q[i];
    assert forall i | 0 <= i < n :: q[i + 1] == name[i];
    assert q[n + 1] == '\"';
    assert forall i | 0 <= i < |u| :: s[i + 1] == u[i];
    assert |s| > |u| + 1 ==> s[|u| + 1] == '\"';
    assert n == |u|;
  }

  /** A token between two quotes that is not the name sought holds no occurrence. */
  lemma SkipToken(u: string, rest: string, key: string, name: string)
    requires Names(key, name) && QuoteFree(u) && u != name
    requires rest == "" || rest[0] == '\"'
    ensures Behind("\"" + u + rest, key) == Behind(rest, key)
  {
    var s := "\"" + u + rest;
    if key <= s { TokenIsName(u, rest, key, name); }
    KeyOpens(key, name);
    assert s[1..] == u + rest;
    SkipText(u, rest, key);
  }

  predicate Letter(c: char) { 'a' <= c <= 'z' }

  lemma SkipNumber(u: string, v: string, rest: string, key: string, name: string)
    requires Names(key, name) && name != "" && Letter(name[0])
    requires QuoteFree(u) && QuoteFree(v) && u != name
    requires rest == "" || rest[0] == '\"'
    ensures Behind(Key(u) + v + rest, key) == Behind(rest, key)
  {
    var w := ":" + v;
    assert Key(u) + v + rest == "\"" + u + ("\"" + w + rest);
    SkipToken(u, "\"" + w + rest, key, name);
    assert w[0] == ':';
    SkipToken(w, rest, key, name);
  }

  lemma SkipString(u: string, v: string, rest: string, key: string, name: string)
    requires Names(key, name) && name != "" && Letter(name[0])
    requires QuoteFree(u) && QuoteFree(v) && u != name && v != name
    requires rest != "" && rest[0] == '\"'
    ensures Behind(Key(u) + Quote(v) + "," + rest, key) == Behind(rest, key)
  {
    assert Key(u) + Quote(v) + "," + rest == Key(u) + "" + ("\"" + v + ("\"" + "," + rest));
    SkipNumber(u, "", "\"" + v + ("\"" + "," + rest), key, name);
    SkipToken(v, "\"" + "," + rest, key, name);
    SkipToken(",", rest, key, name);
  }

  // ---------------------------------------------------------------------
  // The scanner
  // ---------------------------------------------------------------------

  const SERVER_TIME: string := Key("server_time")
  const SLEEP_INTERVAL: string := Key("sleep_interval_sec")
  const COMMAND_ID: string := Key("command_id") + "\""

  const TO_INT_MAX: int := 0x7FFF_FFFF
  const MIN_SERVER_TIME: int := 1_000_000_000
  const MAX_INTERVAL: int := 86400

  function SkipSeparators(s: string): string
    decreases |s|
  {
    if s != "" && (s[0] == ' ' || s[0] == ':') then SkipSeparators(s[1..]) else s
  }

  function DigitPrefix(s: string): (d: string)
    ensures d <= s && AllDigits(d) && (|d| < |s| ==> !IsDigit(s[|d|]))
    decreases |s|
  {
    if s != "" && IsDigit(s[0]) then [s[0]] + DigitPrefix(s[1..]) else ""
  }

  /** String.toInt on digits: it saturates at the 32-bit maximum. */
  function ToInt(d: string): nat
    requires AllDigits(d)
  {
    Min(Value(d), TO_INT_MAX)
  }

  function NumberBehind(resp: string, key: string): Option<nat> {
    if Behind(resp, key).None? then None
    else
      var d := DigitPrefix(SkipSeparators(Behind(resp, key).value));
      if d == "" then None else Some(ToInt(d))
  }

  function ScannedClock(clock: int, resp: string): int {
    var n := NumberBehind(resp, SERVER_TIME);
    if n.Some? && n.value > MIN_SERVER_TIME then n.value else clock
  }

  function Adopted(interval: uint32, n: int): uint32 { if 1 <= n <= MAX_INTERVAL then n else interval }

  function ScannedInterval(interval: uint32, resp: string): uint32 {
    var n := NumberBehind(resp, SLEEP_INTERVAL);
    if n.Some? then Adopted(interval, n.value) else interval
  }

  /** The text up to the first quote, if there is one. */
  function UpToQuote(s: string): Option<string> {
    if Find(s, "\"").Some? then Some(s[..Find(s, "\"").value]) else None
  }

  /** The id that is acknowledged, if any. */
  function ScannedId(resp: string): Option<string> {
    var r := Behind(resp, COMMAND_ID);
    if r.Some? && UpToQuote(r.value).Some? && UpToQuote(r.value).value != "" then UpToQuote(r.value) else None
  }

  class Device {
    var clock: int
    var interval: uint32

    constructor (clock: int)
      ensures this.clock == clock && interval == 15
    {
      this.clock := clock;
      interval := 15;
    }

    method SkipFrom(resp: string, start: nat) returns (valStart: nat)
      requires start <= |resp|
      ensures start <= valStart <= |resp| && resp[valStart..] == SkipSeparators(resp[start..])
    {
      valStart := start;
      while valStart < |resp| && (resp[valStart] == ' ' || resp[valStart] == ':')
        invariant start <= valStart <= |resp|
        invariant SkipSeparators(resp[valStart..]) == SkipSeparators(resp[start..])
      {
        assert resp[valStart..][1..] == resp[valStart + 1..];
        valStart := valStart + 1;
      }
    }

    method DigitsFrom(resp: string, valStart: nat) returns (valEnd: nat)
      requires valStart <= |resp|
      ensures valStart <= valEnd <= |resp| && resp[valStart..valEnd] == DigitPrefix(resp[valStart..])
    {
      hide DigitPrefix;
      valEnd := valStart;
      while valEnd < |resp| && IsDigit(resp[valEnd])
        invariant valStart <= valEnd <= |resp|
        invariant AllDigits(resp[valStart..valEnd])
      {
        assert resp[valStart..valEnd + 1] == resp[valStart..valEnd] + [resp[valEnd]];
        valEnd := valEnd + 1;
      }
      DigitPrefixOf(resp[valStart..valEnd], resp[valEnd..]);
      assert resp[valStart..valEnd] + resp[valEnd..] == resp[valStart..];
    }

    /** One number: find the key, skip separators, take the digits. */
    method ScanNumber(resp: string, key: string) returns (n: Option<nat>)
      ensures n == NumberBehind(resp, key)
    {
      hide Find, Behind, Value, SkipSeparators, DigitPrefix;
      var pos := Find(resp, key);
      BehindFind(resp, key);
      if pos.None? { return None; }
      var valStart := SkipFrom(resp, pos.value + |key|);
      var valEnd := DigitsFrom(resp, valStart);
      n := if valEnd > valStart then Some(ToInt(resp[valStart..valEnd])) else None;
    }

    /** process_server_response: sets the clock, adopts the interval, and returns the id to acknowledge. */
    method ProcessServerResponse(resp: string) returns (ack: Option<string>)
      modifies this
      ensures clock == ScannedClock(old(clock), resp)
      ensures interval == ScannedInterval(old(interval), resp)
      ensures ack == ScannedId(resp)
    {
      hide Find, Behind, NumberBehind;
      var time := ScanNumber(resp, SERVER_TIME);
      if time.Some? && time.value > MIN_SERVER_TIME { clock := time.value; }
      var sleep := ScanNumber(resp, SLEEP_INTERVAL);
      if sleep.Some? && 1 <= sleep.value <= MAX_INTERVAL && interval != sleep.value { interval := sleep.value; }
      var cmdIdPos := Find(resp, COMMAND_ID);
      BehindFind(resp, COMMAND_ID);
      ack := None;
      if cmdIdPos.Some? {
        var idStart := cmdIdPos.value + |COMMAND_ID|;
        var len := Find(resp[idStart..], "\"");
        if len.Some? && len.value > 0 { ack := Some(resp[idStart..][..len.value]); }
      }
    }
  }

  // ---------------------------------------------------------------------
  // What the scanner gets from any text
  // ---------------------------------------------------------------------

  lemma KeyTexts()
    ensures SERVER_TIME == "\"server_time\":" && SLEEP_INTERVAL == "\"sleep_interval_sec\":"
    ensures COMMAND_ID == "\"command_id\":\""
  {
  }

  /** key occurs first at p; behind it blanks and colons reach up to a, and digits from a up to b. */
  predicate NumberStands(s: string, key: string, p: nat, a: nat, b: nat) {
    && p + |key| <= a <= b <= |s|
    && key <= s[p..] && (forall q | 0 <= q < p :: !(key <= s[q..]))
    && (forall i | p + |key| <= i < a :: s[i] == ' ' || s[i] == ':')
    && (a < |s| ==> s[a] != ' ' && s[a] != ':')
    && (forall i | a <= i < b :: '0' <= s[i] <= '9')
    && (b < |s| ==> !('0' <= s[b] <= '9'))
  }

  predicate NowhereIn(s: string, key: string) { forall p | 0 <= p <= |s| :: !(key <= s[p..]) }

  lemma {:induction false} Skipped(s: string, n: nat)
    requires n <= |s| && (forall i | 0 <= i < n :: s[i] == ' ' || s[i] == ':')
    requires n < |s| ==> s[n] != ' ' && s[n] != ':'
    ensures SkipSeparators(s) == s[n..]
    decreases n
  {
    if n > 0 {
      Skipped(s[1..], n - 1);
      assert s[1..][n - 1..] == s[n..];
    }
  }

  lemma NumberBehindStands(s: string, key: string, p: nat, a: nat, b: nat)
    requires NumberStands(s, key, p, a, b)
    ensures a <= b
    ensures NumberBehind(s, key) == if a == b then None else Some(Min(Value(s[a..b]), 2147483647))
  {
    hide Find, Behind, DigitPrefix, SkipSeparators, Value, ToInt;
    FindsFirst(s, key, p);
    BehindFind(s, key);
    DigitsStand(s, p + |key|, a, b);
    Saturates(s[a..b]);
  }

  lemma Saturates(d: string)
    requires AllDigits(d)
    ensures ToInt(d) == Min(Value(d), 2147483647)
  {
  }

  lemma DigitsStand(s: string, start: nat, a: nat, b: nat)
    requires start <= a <= b <= |s|
    requires forall i | start <= i < a :: s[i] == ' ' || s[i] == ':'
    requires a < |s| ==> s[a] != ' ' && s[a] != ':'
    requires forall i | a <= i < b :: '0' <= s[i] <= '9'
    requires b < |s| ==> !('0' <= s[b] <= '9')
    ensures DigitPrefix(SkipSeparators(s[start..])) == s[a..b]
  {
    hide DigitPrefix, SkipSeparators;
    var rest := s[start..];
    Skipped(rest, a - start);
    assert rest[a - start..] == s[a..] == s[a..b] + s[b..];
    DigitPrefixOf(s[a..b], s[b..]);
  }

  lemma NowhereBehind(s: string, key: string)
    requires NowhereIn(s, key)
    ensures Behind(s, key).None? && NumberBehind(s, key).None?
  {
    BehindFind(s, key);
    if Find(s, key).Some? { FindsFirst(s, key, Find(s, key).value); }
  }

  /** Whatever the text, the key does not occur or there are such positions. */
  lemma StandsOrNowhere(s: string, key: string)
    ensures NowhereIn(s, key) || exists p: nat, a: nat, b: nat :: NumberStands(s, key, p, a, b)
  {
    hide Find, DigitPrefix;
    if !NowhereIn(s, key) {
      var q :| 0 <= q <= |s| && key <= s[q..];
      var p := FirstPlace(s, key, q);
      var start := p + |key|;
      var a := SeparatorsEnd(s, start);
      var d := DigitPrefix(s[a..]);
      var b := a + |d|;
      assert forall i | a <= i < b :: s[i] == d[i - a];
      assert NumberStands(s, key, p, a, b);
    }
  }

  lemma {:induction false} FirstPlace(s: string, key: string, q: nat) returns (p: nat)
    requires q <= |s| && key <= s[q..]
    ensures p + |key| <= |s| && key <= s[p..] && forall j | 0 <= j < p :: !(key <= s[j..])
    decreases q
  {
    if j :| 0 <= j < q && key <= s[j..] { p := FirstPlace(s, key, j); } else { p := q; }
  }

  lemma {:induction false} SeparatorsEnd(s: string, start: nat) returns (a: nat)
    requires start <= |s|
    ensures start <= a <= |s| && (forall i | start <= i < a :: s[i] == ' ' || s[i] == ':')
    ensures a < |s| ==> s[a] != ' ' && s[a] != ':'
    decreases |s| - start
  {
    if start < |s| && (s[start] == ' ' || s[start] == ':') { a := SeparatorsEnd(s, start + 1); } else { a := start; }
  }

  /**
   * From any text: the number behind the first server_time sets the clock when it is more than 10^9, at
   * most to 2^31 - 1; the one behind the first sleep_interval_sec sets the interval when it is from 1 to
   * 86400; otherwise both stay.
   */
  lemma ScanOfText(resp: string, clock: int, interval: uint32, p: nat, a: nat, b: nat)
    ensures NumberStands(resp, "\"server_time\":", p, a, b) ==>
              ScannedClock(clock, resp) ==
              if a < b && Value(resp[a..b]) > 1_000_000_000 then Min(Value(resp[a..b]), 2147483647) else clock
    ensures NumberStands(resp, "\"sleep_interval_sec\":", p, a, b) ==>
              ScannedInterval(interval, resp) ==
              if a < b && 1 <= Value(resp[a..b]) <= 86400 then Value(resp[a..b]) else interval
    ensures NowhereIn(resp, "\"server_time\":") ==> ScannedClock(clock, resp) == clock
    ensures NowhereIn(resp, "\"sleep_interval_sec\":") ==> ScannedInterval(interval, resp) == interval
  {
    hide NumberStands, NumberBehind, NowhereIn;
    KeyTexts();
    if NumberStands(resp, SERVER_TIME, p, a, b) { NumberBehindStands(resp, SERVER_TIME, p, a, b); }
    if NumberStands(resp, SLEEP_INTERVAL, p, a, b) { NumberBehindStands(resp, SLEEP_INTERVAL, p, a, b); }
    if NowhereIn(resp, SERVER_TIME) { NowhereBehind(resp, SERVER_TIME); }
    if NowhereIn(resp, SLEEP_INTERVAL) { NowhereBehind(resp, SLEEP_INTERVAL); }
  }

  /** The key occurs first at p, and the first quote behind it stands at b. */
  predicate IdStands(s: string, p: nat, b: nat) {
    && p + 14 <= b < |s|
    && "\"command_id\":\"" <= s[p..] && (forall q | 0 <= q < p :: !("\"command_id\":\"" <= s[q..]))
    && s[b] == '\"' && forall i | p + 14 <= i < b :: s[i] != '\"'
  }

  /** The acknowledged id is the text up to that quote, unless that is empty; without the key there is none. */
  lemma IdOfText(resp: string, p: nat, b: nat)
    ensures IdStands(resp, p, b) ==> ScannedId(resp) == if b == p + 14 then None else Some(resp[p + 14..b])
    ensures NowhereIn(resp, "\"command_id\":\"") ==> ScannedId(resp) == None
    ensures ScannedId(resp).Some? ==> exists q: nat, e: nat :: IdStands(resp, q, e)
  {
    hide Find, Behind, NumberBehind, UpToQuote;
    KeyTexts();
    BehindFind(resp, COMMAND_ID);
    if IdStands(resp, p, b) {
      FindsFirst(resp, COMMAND_ID, p);
      var t, rest := resp[p + 14..b], resp[b + 1..];
      assert resp[p + 14..] == t + "\"" + rest;
      assert QuoteFree(t);
      FirstQuote(t, rest);
    }
    if NowhereIn(resp, COMMAND_ID) { NowhereBehind(resp, COMMAND_ID); }
    if ScannedId(resp).Some? { var q, e := IdSomewhere(resp); }
  }

  lemma IdSomewhere(resp: string) returns (q: nat, e: nat)
    requires ScannedId(resp).Some?
    ensures IdStands(resp, q, e)
  {
    hide Find, Behind;
    KeyTexts();
    BehindFind(resp, COMMAND_ID);
    q := Find(resp, COMMAND_ID).value;
    FindsFirst(resp, COMMAND_ID, q);
    var r := resp[q + 14..];
    var len := Find(r, "\"").value;
    FindsFirst(r, "\"", len);
    e := q + 14 + len;
    assert r[len] == '\"';
    forall i | q + 14 <= i < e ensures resp[i] != '\"' { assert r[i - (q + 14)..][0] == resp[i]; }
  }

  // ---------------------------------------------------------------------
  // What the scanner gets from a printed reply
  // ---------------------------------------------------------------------

  lemma CommaQuoteFree(n: int)
    ensures QuoteFree(Decimal(n) + ",")
  {
  }

  lemma {:induction false} DigitPrefixOf(d: string, rest: string)
    requires AllDigits(d) && (rest == "" || !IsDigit(rest[0]))
    ensures DigitPrefix(d + rest) == d
    decreases |d|
  {
    if d == "" {
      assert d + rest == rest;
    } else {
      assert (d + rest)[1..] == d[1..] + rest;
      DigitPrefixOf(d[1..], rest);
    }
  }

  lemma NoDigits(s: string)
    requires s != "" && !IsDigit(s[0])
    ensures DigitPrefix(s) == ""
  {
  }

  /** A printed number is read back, up to saturation; a negative one is not read at all. */
  lemma ReadsDecimal(n: int, rest: string)
    requires rest != "" && !IsDigit(rest[0])
    ensures var d := DigitPrefix(SkipSeparators(Decimal(n) + rest));
            if n < 0 then d == "" else d != "" && ToInt(d) == Min(n, TO_INT_MAX)
  {
    hide Digits, DigitPrefix, Value;
    var s := Decimal(n) + rest;
    assert s[0] == Decimal(n)[0];
    if n >= 0 {
      assert s == Digits(n) + rest && IsDigit(s[0]);
      DigitPrefixOf(Digits(n), rest);
      ValueOfDigits(n);
    } else {
      assert s[0] == '-';
      NoDigits(s);
    }
  }

  /** The words of the fixed part of a reply. */
  lemma Words()
    ensures QuoteFree("status") && QuoteFree("OK") && QuoteFree("message") && QuoteFree("Telemetry accepted")
    ensures QuoteFree("server_time") && QuoteFree("sleep_interval_sec") && QuoteFree("commands") &&
        QuoteFree("command_id")
    ensures QuoteFree("[{") && QuoteFree("[]}")
    ensures "Telemetry accepted" != "sleep_interval_sec"
  {
    assert "Telemetry accepted"[0] == 'T' && "sleep_interval_sec"[0] == 's';
  }

  predicate Sought(key: string, name: string) {
    && Names(key, name) && (name == "server_time" || name == "sleep_interval_sec" || name == "command_id")
  }

  /** Nothing before the server_time member matches any of the three keys. */
  lemma SkipHead(time: int, interval: int, cs: seq<Listed>, key: string, name: string)
    requires Sought(key, name)
    ensures Behind(Reply(time, interval, cs), key) == Behind(FromTime(time, interval, cs), key)
  {
    hide Behind, FromTime, QuoteFree, Names;
    Words();
    var c := FromTime(time, interval, cs);
    FromTimeOpens(time, interval, cs);
    var b := Key("message") + Quote("Telemetry accepted") + "," + c;
    var a := Key("status") + Quote("OK") + "," + b;
    KeyOpens(key, name);
    NoQuote("{");
    SkipText("{", a, key);
    SkipString("status", "OK", b, key, name);
    SkipString("message", "Telemetry accepted", c, key, name);
  }

  lemma NoQuote(s: string)
    requires s == "{"
    ensures QuoteFree(s)
  {
  }

  lemma KeyOpens(key: string, name: string)
    requires Names(key, name)
    ensures key != "" && key[0] == '\"'
  {
    assert Quote(name)[0] == '\"';
  }

  lemma FromTimeOpens(time: int, interval: int, cs: seq<Listed>)
    ensures FromTime(time, interval, cs) != "" && FromTime(time, interval, cs)[0] == '\"'
    ensures FromInterval(interval, cs) != "" && FromInterval(interval, cs)[0] == '\"'
    ensures FromCommands(cs) != "" && FromCommands(cs)[0] == '\"'
  {
  }

  lemma Found(name: string, rest: string, suffix: string)
    ensures Behind(Key(name) + suffix + rest, Key(name) + suffix) == Some(rest)
  {
    var k := Key(name) + suffix;
    assert k <= k + rest && (k + rest)[|k|..] == rest;
  }

  lemma KeyNames(name: string, suffix: string)
    requires QuoteFree(name)
    ensures Names(Key(name) + suffix, name)
  {
    var q, k := Quote(name), Key(name) + suffix;
    assert k[..|q|] == q;
  }

  lemma TimeFound(time: int, interval: int, cs: seq<Listed>)
    ensures Behind(Reply(time, interval, cs), SERVER_TIME) == Some(Decimal(time) + "," + FromInterval(interval, cs))
  {
    hide Behind, Reply, FromInterval, Decimal, Names, QuoteFree;
    Words();
    KeyNames("server_time", "");
    assert SERVER_TIME == Key("server_time") + "";
    SkipHead(time, interval, cs, SERVER_TIME, "server_time");
    var rest := Decimal(time) + "," + FromInterval(interval, cs);
    Found("server_time", rest, "");
    assert FromTime(time, interval, cs) == Key("server_time") + "" + rest;
  }

  /** Nothing in the server_time member matches the other two keys. */
  lemma SkipTime(time: int, interval: int, cs: seq<Listed>, key: string, name: string)
    requires Sought(key, name) && name != "server_time"
    ensures Behind(FromTime(time, interval, cs), key) == Behind(FromInterval(interval, cs), key)
  {
    hide Behind, FromInterval, Decimal, Names, QuoteFree;
    CommaQuoteFree(time);
    Words();
    FromTimeOpens(time, interval, cs);
    SkipNumber("server_time", Decimal(time) + ",", FromInterval(interval, cs), key, name);
    assert FromTime(time, interval, cs) == Key("server_time") + (Decimal(time) + ",") + FromInterval(interval, cs);
  }

  lemma IntervalFound(time: int, interval: int, cs: seq<Listed>)
    ensures Behind(Reply(time, interval, cs), SLEEP_INTERVAL) == Some(Decimal(interval) + "," + FromCommands(cs))
  {
    hide Behind, Reply, FromTime, FromCommands, Decimal, Names, QuoteFree;
    Words();
    KeyNames("sleep_interval_sec", "");
    assert SLEEP_INTERVAL == Key("sleep_interval_sec") + "";
    SkipHead(time, interval, cs, SLEEP_INTERVAL, "sleep_interval_sec");
    SkipTime(time, interval, cs, SLEEP_INTERVAL, "sleep_interval_sec");
    var rest := Decimal(interval) + "," + FromCommands(cs);
    Found("sleep_interval_sec", rest, "");
    assert FromInterval(interval, cs) == Key("sleep_interval_sec") + "" + rest;
  }

  lemma SkipInterval(interval: int, cs: seq<Listed>, key: string)
    requires Names(key, "command_id")
    ensures Behind(FromInterval(interval, cs), key) == Behind(FromCommands(cs), key)
  {
    hide Behind, FromCommands, Decimal, Names, QuoteFree;
    CommaQuoteFree(interval);
    Words();
    FromTimeOpens(0, interval, cs);
    SkipNumber("sleep_interval_sec", Decimal(interval) + ",", FromCommands(cs), key, "command_id");
    assert FromInterval(interval, cs) == Key("sleep_interval_sec") + (Decimal(interval) + ",") + FromCommands(cs);
  }

  /** What follows the id of the first item. */
  function BehindId(cs: seq<Listed>): string
    requires cs != []
  {
    Remainder(cs[0]) + (if |cs| == 1 then "" else "," + Items(cs[1..])) + "]}"
  }

  lemma FirstItem(cs: seq<Listed>)
    requires cs != []
    ensures FromCommands(cs) == Key("commands") + "[{" + (COMMAND_ID + (Escape(cs[0].id) + "\"" + BehindId(cs)))
  {
    hide Key, Escape, Remainder;
    var k, e, r := Key("command_id"), Escape(cs[0].id), Remainder(cs[0]);
    var more := if |cs| == 1 then "" else "," + Items(cs[1..]);
    assert Items(cs) == "{" + k + Quote(e) + r + more;
    Regroup(Key("commands"), k, e, r, more);
  }

  lemma Regroup(c: string, k: string, e: string, r: string, more: string)
    ensures c + "[" + ("{" + k + Quote(e) + r + more) + "]}" == c + "[{" + (k + "\"" + (e + "\"" + (r + more + "]}")))
  {
    assert "[{" == "[" + "{";
  }

  lemma NoItems()
    ensures FromCommands([]) == Key("commands") + "[]}" + "" && Behind("", COMMAND_ID) == None
  {
  }

  lemma IdFound(time: int, interval: int, cs: seq<Listed>)
    ensures Behind(Reply(time, interval, cs), COMMAND_ID) ==
            if cs == [] then None else Some(Escape(cs[0].id) + "\"" + BehindId(cs))
  {
    hide Behind, Reply, FromTime, FromInterval, Names, QuoteFree, Escape, Items, BehindId;
    Words();
    KeyNames("command_id", "\"");
    SkipHead(time, interval, cs, COMMAND_ID, "command_id");
    SkipTime(time, interval, cs, COMMAND_ID, "command_id");
    SkipInterval(interval, cs, COMMAND_ID);
    if cs == [] {
      NoItems();
      SkipNumber("commands", "[]}", "", COMMAND_ID, "command_id");
    } else {
      FirstItem(cs);
      var rest := Escape(cs[0].id) + "\"" + BehindId(cs);
      assert (COMMAND_ID + rest)[0] == '\"';
      SkipNumber("commands", "[{", COMMAND_ID + rest, COMMAND_ID, "command_id");
      Found("command_id", rest, "\"");
    }
  }

  lemma FirstQuote(t: string, rest: string)
    requires QuoteFree(t)
    ensures UpToQuote(t + "\"" + rest) == Some(t)
  {
    var s := t + "\"" + rest;
    assert s[|t|..] == "\"" + rest;
    forall q | 0 <= q < |t| ensures !("\"" <= s[q..]) { assert s[q..][0] == t[q]; }
    assert "\"" <= s[|t|..];
    FindsFirst(s, "\"", |t|);
    assert s[..|t|] == t;
  }

  /**
   * The round trip: from any printed reply, whatever its commands and their
   * parameters contain, the scan takes the server time (when it is past the
   * threshold, up to saturation), the top-level interval exactly when it is in
   * 1..86400, and the id text of exactly the first listed command.
   */
  lemma ScanOfReply(time: int, sleep: int, cs: seq<Listed>, clock: int, interval: uint32)
    ensures var resp := Reply(time, sleep, cs);
            && ScannedClock(clock, resp) == (if time > 1_000_000_000 then Min(time, 2147483647) else clock)
            && ScannedInterval(interval, resp) == (if 1 <= sleep <= 86400 then sleep else interval)
            && ScannedId(resp) == if cs == [] || cs[0].id == "" then None else Some(IdText(cs[0].id))
  {
    hide Reply, Behind, DigitPrefix, SkipSeparators, UpToQuote, Escape, BehindId;
    TimeFound(time, sleep, cs);
    ReadsDecimalMember(time, FromInterval(sleep, cs));
    IntervalFound(time, sleep, cs);
    ReadsDecimalMember(sleep, FromCommands(cs));
    IdFound(time, sleep, cs);
    if cs != [] { IdTextScanned(cs[0].id, BehindId(cs)); }
  }

  lemma ReadsDecimalMember(n: int, rest: string)
    ensures var d := DigitPrefix(SkipSeparators(Decimal(n) + "," + rest));
            if n < 0 then d == "" else d != "" && ToInt(d) == Min(n, TO_INT_MAX)
  {
    assert Decimal(n) + "," + rest == Decimal(n) + ("," + rest);
    ReadsDecimal(n, "," + rest);
  }

  /** What the device takes for the id: its printed text, cut at the first quote. */
  function IdText(id: string): string {
    if id == "" then "" else if id[0] == '\"' then "\\" else EscapeChar(id[0]) + IdText(id[1..])
  }

  lemma {:induction false} IdTextCut(id: string, rest: string)
    ensures QuoteFree(IdText(id)) && IdText(id) + "\"" <= Escape(id) + "\"" + rest && (IdText(id) == "" <==> id == "")
  {
    hide EscapeChar, QuoteFree;
    QuoteFreeConcat();
    if id != "" {
      IdTextCut(id[1..], rest);
      EscapedQuote();
      var e := EscapeChar(id[0]);
      assert Escape(id) + "\"" + rest == e + (Escape(id[1..]) + "\"" + rest);
      if id[0] == '\"' {
        assert e == IdText(id) + "\"";
      } else {
        EscapeQuoteFree(id[0]);
        PrefixUnder(e, IdText(id[1..]) + "\"", Escape(id[1..]) + "\"" + rest);
        assert IdText(id) + "\"" == e + (IdText(id[1..]) + "\"");
      }
    }
  }

  lemma EscapedQuote()
    ensures EscapeChar('\"') == "\\" + "\""
  {
  }

  lemma QuoteFreeConcat()
    ensures QuoteFree("") && QuoteFree("\\")
    ensures forall a, b | QuoteFree(a) && QuoteFree(b) :: QuoteFree(a + b)
  {
  }

  lemma PrefixUnder(e: string, a: string, b: string)
    requires a <= b
    ensures e + a <= e + b
  {
    assert (e + b)[..|e + a|] == e + a;
  }

  lemma EscapeQuoteFree(c: char)
    requires c != '\"'
    ensures QuoteFree(EscapeChar(c))
  {
  }

  lemma IdTextScanned(id: string, rest: string)
    ensures UpToQuote(Escape(id) + "\"" + rest) == Some(IdText(id)) && (IdText(id) == "" <==> id == "")
  {
    IdTextCut(id, rest);
    var s, t := Escape(id) + "\"" + rest, IdText(id);
    assert s == t + "\"" + s[|t| + 1..];
    FirstQuote(t, s[|t| + 1..]);
  }
}

/** The acknowledgement: an id spliced unescaped into a JSON body, and the server that reads the body. */
module Acknowledgement {
  import opened Basics
  import opened Json
  import opened Scanner

  /** The body the device posts for the id text it scanned. */
  function AckBody(idText: string, device: string): string {
    "{" + (Key("command_id") + Quote(idText) + "," +
        (Key("device_id") + Quote(device) + "," + (Key("status") + Quote("SUCCESS") + "}")))
  }

  /** The text of that body, literally. */
  lemma AckSpelled(idText: string, device: string)
    ensures AckBody(idText, device) ==
            "{" + ("\"command_id\":" + ("\"" + idText + "\"") + "," +
                   ("\"device_id\":" + ("\"" + device + "\"") + "," + ("\"status\":" + "\"SUCCESS\"" + "}")))
  {
    assert Key("command_id") == "\"command_id\":" && Key("device_id") == "\"device_id\":";
    assert Key("status") == "\"status\":" && Quote("SUCCESS") == "\"SUCCESS\"";
    hide Key;
  }

  datatype Member = Member(name: string, value: string)

  /** The members of a flat object of strings, after its opening brace and up to the end of the text. */
  function Members(s: string): Option<seq<Member>>
    decreases |s|
  {
    if s == "" || s[0] != '\"' || ReadString(s[1..]).None? then None
    else
      var n := ReadString(s[1..]).value;
      if !(":\"" <= n.rest) || ReadString(n.rest[2..]).None? then None
      else
        var v := ReadString(n.rest[2..]).value;
        var m := Member(n.text, v.text);
        if v.rest == "}" then Some([m])
        else if v.rest == "" || v.rest[0] != ',' || Members(v.rest[1..]).None? then None
        else Some([m] + Members(v.rest[1..]).value)
  }

  function Object(s: string): Option<seq<Member>> { if "{" <= s then Members(s[1..]) else None }

  function Lookup(ms: seq<Member>, name: string): string
    decreases |ms|
  {
    if ms == [] then "" else if ms[|ms| - 1].name == name then ms[|ms| - 1].value else Lookup(ms[..|ms| - 1], name)
  }

  /** PHP's empty() on a string. */
  predicate Empty(s: string) { s == "" || s == "0" }

  /** Which device and command an acknowledgement body names, if the endpoint acts on it. */
  function AckOf(body: string): Option<(string, string)> {
    var ms := Object(body);
    if ms.None? || Empty(Lookup(ms.value, "device_id")) || Empty(Lookup(ms.value, "command_id")) then None
    else Some((Lookup(ms.value, "device_id"), Lookup(ms.value, "command_id")))
  }

  predicate Plain(s: string) { forall i | 0 <= i < |s| :: PlainChar(s[i]) }

  lemma {:induction false} PlainEscapes(s: string)
    requires Plain(s)
    ensures Escape(s) == s
    decreases |s|
  {
    if s != "" { PlainEscapes(s[1..]); }
  }

  lemma {:induction false} EscapeConcat(a: string, b: string)
    ensures Escape(a + b) == Escape(a) + Escape(b)
    decreases |a|
  {
    if a == "" {
      assert a + b == b;
    } else {
      assert (a + b)[1..] == a[1..] + b;
      EscapeConcat(a[1..], b);
    }
  }

  /** One member, up to what follows its value. */
  lemma ReadMember(name: string, value: string, rest: string)
    requires Plain(name)
    ensures var s := Key(name) + Quote(Escape(value)) + rest;
            var m := Member(name, value);
            Members(s) == if rest == "}" then Some([m])
                          else if rest == "" || rest[0] != ',' || Members(rest[1..]).None? then None
                          else Some([m] + Members(rest[1..]).value)
  {
    hide ReadString, Escape;
    var s := Key(name) + Quote(Escape(value)) + rest;
    var after := ":\"" + (Escape(value) + "\"" + rest);
    PlainEscapes(name);
    assert s[1..] == Escape(name) + "\"" + after;
    StringRoundTrip(name, after);
    assert after[2..] == Escape(value) + "\"" + rest;
    StringRoundTrip(value, rest);
  }

  lemma PlainNames()
    ensures Plain("command_id") && Plain("device_id") && Plain("status") && Plain("SUCCESS")
  {
  }

  /** The members after the first one. */
  lemma ReadTail(device: string)
    requires Plain(device)
    ensures Members(Key("device_id") + Quote(device) + "," + (Key("status") + Quote("SUCCESS") + "}")) ==
            Some([Member("device_id", device), Member("status", "SUCCESS")])
  {
    hide Members;
    PlainNames();
    PlainEscapes(device);
    PlainEscapes("SUCCESS");
    var last := Key("status") + Quote("SUCCESS") + "}";
    ReadMember("status", "SUCCESS", "}");
    ReadMember("device_id", device, "," + last);
    assert ("," + last)[1..] == last;
    assert Key("device_id") + Quote(device) + "," + last == Key("device_id") + Quote(device) + ("," + last);
    assert [Member("device_id", device)] + [Member("status", "SUCCESS")] ==
        [Member("device_id", device), Member("status", "SUCCESS")];
  }

  lemma {:induction false} IdTextWhole(id: string)
    requires QuoteFree(id)
    ensures IdText(id) == Escape(id)
    decreases |id|
  {
    if id != "" { IdTextWhole(id[1..]); }
  }

  /** An id with a quote is cut in the middle of that quote's escape. */
  lemma {:induction false} IdTextBroken(id: string) returns (head: string)
    requires !QuoteFree(id)
    ensures IdText(id) == Escape(head) + "\\"
    decreases |id|
  {
    if id[0] == '\"' {
      head := "";
    } else {
      var t := IdTextBroken(id[1..]);
      head := [id[0]] + t;
      assert head[1..] == t;
    }
  }

  /** The body from its second member on. */
  function Tail(device: string): string {
    Key("device_id") + Quote(device) + "," + (Key("status") + Quote("SUCCESS") + "}")
  }

  function Sent(id: string, device: string): seq<Member> {
    [Member("command_id", id)] + [Member("device_id", device), Member("status", "SUCCESS")]
  }

  lemma BodyTail(t: string, device: string)
    ensures AckBody(t, device)[1..] == Key("command_id") + Quote(t) + ("," + Tail(device))
    ensures "{" <= AckBody(t, device)
  {
    hide Key, Quote;
  }

  lemma WholeBody(id: string, device: string)
    requires QuoteFree(id) && Plain(device)
    ensures Object(AckBody(IdText(id), device)) == Some(Sent(id, device))
    ensures Sent(id, device) == [Member("command_id", id), Member("device_id", device), Member("status", "SUCCESS")]
  {
    hide Members, Escape, AckBody, Key, Quote, Plain;
    IdTextWhole(id);
    PlainNames();
    ReadTail(device);
    ReadMember("command_id", id, "," + Tail(device));
    assert ("," + Tail(device))[1..] == Tail(device);
    assert ("," + Tail(device))[0] == ',';
    BodyTail(IdText(id), device);
  }

  /** A quote that was cut open swallows the separator up to the next quote. */
  lemma Swallow(k: string, e: string, device: string)
    ensures k + Quote(e + "\\") + ("," + Tail(device)) == k + Quote(e + ("\\\"" + ",")) + Tail(device)[1..]
  {
    hide Key;
    assert "\\\"" == "\\" + "\"";
    KeyOpensQuote("device_id");
    assert Tail(device) == "\"" + Tail(device)[1..];
  }

  lemma KeyOpensQuote(name: string)
    ensures Key(name) != "" && Key(name)[0] == '\"'
  {
  }

  lemma TailName(device: string)
    ensures Tail(device) != "" && Tail(device)[1..] != "" && Tail(device)[1..][0] == 'd'
  {
    assert Key("device_id")[1] == 'd';
  }

  lemma EscapeQuoteComma()
    ensures Escape("\",") == "\\\"" + ","
  {
    assert "\","[1..] == "," && ","[1..] == "";
    assert Escape(",") == "," + "";
  }

  lemma BrokenBody(id: string, device: string)
    requires !QuoteFree(id)
    ensures Object(AckBody(IdText(id), device)).None?
  {
    hide Members, Escape, AckBody, Key, Quote, Tail, Plain;
    var head := IdTextBroken(id);
    PlainNames();
    EscapeConcat(head, "\",");
    EscapeQuoteComma();
    TailName(device);
    ReadMember("command_id", head + "\",", Tail(device)[1..]);
    BodyTail(IdText(id), device);
    Swallow(Key("command_id"), Escape(head), device);
  }

  /**
   * What the endpoint makes of the device's acknowledgement of a scanned id: it
   * names the device and exactly that id, unless the id holds a quote or is
   * empty in PHP's sense; then it changes nothing.
   */
  lemma AckIdentifies(id: string, device: string)
    requires Plain(device) && !Empty(device)
    ensures AckOf(AckBody(IdText(id), device)) ==
            if '\"' !in id && id != "" && id != "0" then Some((device, id)) else None
  {
    if QuoteFree(id) {
      WholeBody(id, device);
      LookupThree(id, device);
    } else {
      BrokenBody(id, device);
    }
  }

  lemma LookupThree(id: string, device: string)
    ensures Lookup(Sent(id, device), "command_id") == id && Lookup(Sent(id, device), "device_id") == device
  {
    var a, b, c := Member("command_id", id), Member("device_id", device), Member("status", "SUCCESS");
    assert Sent(id, device) == [a, b, c] && [a, b, c][..2] == [a, b] && [a, b][..1] == [a];
    assert |"command_id"| == 10 && |"device_id"| == 9 && |"status"| == 6;
    assert Lookup([a, b], "device_id") == device && Lookup([a], "command_id") == id;
  }

  /** Every id the queue endpoint generates is acknowledged as itself. */
  lemma GeneratedIdsAreAcknowledged(millis: nat, device: string)
    requires Plain(device) && !Empty(device)
    ensures var id := "cmd-" + Digits(millis);
            AckOf(AckBody(IdText(id), device)) == Some((device, id))
  {
    var id := "cmd-" + Digits(millis);
    assert id[0] == 'c' && |id| > 1;
    AckIdentifies(id, device);
  }
}

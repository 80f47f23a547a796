/**
 * What a SIP message is on the wire, line by line, and that its Content-Length is the
 * number of octets of its body.
 */
module SipLayout {
  import opened Bits
  import opened Dicts
  import opened SipMessages
  import opened Text
  import opened Wrappers

  // ---- UTF-8 (section 3 of RFC 3629) --------------------------------------

  /** A leading octet's mark and six bits at a time */
  function CharOctets(c: char): (bs: seq<byte>)
    ensures |bs| == Octets(c)
  {
    var n := c as nat;
    if n < 0x80 then [n]
    else if n < 0x800 then [0xC0 + n / 64, 0x80 + n % 64]
    else if n < 0x1_0000 then [0xE0 + n / 4096, 0x80 + n / 64 % 64, 0x80 + n % 64]
    else [0xF0 + n / 262144, 0x80 + n / 4096 % 64, 0x80 + n / 64 % 64, 0x80 + n % 64]
  }

  function Utf8(s: string): seq<byte> {
    if s == "" then [] else CharOctets(s[0]) + Utf8(s[1..])
  }

  lemma {:induction false} Utf8Append(s: string, c: char)
    ensures Utf8(s + [c]) == Utf8(s) + CharOctets(c)
  {
    hide CharOctets;
    if s == "" {
      assert ([] + [c])[1..] == [];
    } else {
      Utf8Append(s[1..], c);
      assert (s + [c])[1..] == s[1..] + [c];
    }
  }

  lemma {:induction false} Utf8Counts(s: string)
    ensures |Utf8(s)| == Utf8Length(s)
  {
    hide CharOctets, Octets;
    if s != "" {
      var n := |s| - 1;
      Utf8Counts(s[..n]);
      Utf8Append(s[..n], s[n]);
      assert s == s[..n] + [s[n]];
    }
  }

  // ---- Content-Length -----------------------------------------------------

  /**
   * A body is announced by the number of its octets, under one Content-Length, and
   * no body by 0 unless the caller set another; no other header is touched.
   */
  lemma ContentLength(m: Message)
    ensures var before, after := m.headers, Sent(m).headers;
            && (exists k :: 0 <= k < |after| && after[k].key == "Content-Length"
                            && (m.body != "" ==> ParseInt(after[k].value) == Some(|Utf8(m.body)|))
                            && (m.body == "" && (forall h :: h in before ==> h.key != "Content-Length") ==> after[k].value == "0"))
            && |before| <= |after| <= |before| + 1
            && (forall k :: 0 <= k < |before| ==> after[k].key == before[k].key)
            && (forall k :: 0 <= k < |before| && (before[k].key != "Content-Length" || m.body == "") ==> after[k] == before[k])
            && (DistinctKeys(before) ==> DistinctKeys(after))
    ensures Sent(m) == m.(headers := Sent(m).headers)
  {
    hide ParseInt, NatText, Utf8, Utf8Length;
    var name := "Content-Length";
    Utf8Counts(m.body);
    LengthText(Utf8Length(m.body));
    var k := KeyAt(m.headers, name);
    assert Sent(m).headers[k].key == name;
    if k == |m.headers| {
      assert forall i :: 0 <= i < k ==> m.headers[i].key != name;
    } else {
      assert m.headers[k] in m.headers;
    }
  }

  lemma LengthText(n: nat)
    ensures ParseInt(NatText(n)) == Some(n)
  {
    ParseIntText(n);
  }

  // ---- The text -----------------------------------------------------------

  /** Name, colon, space, value and line end for each header */
  function HeaderText(headers: seq<Header>): string {
    if headers == [] then "" else headers[0].key + ": " + headers[0].value + "\r\n" + HeaderText(headers[1..])
  }

  lemma {:induction false} HeaderTextLines(headers: seq<Header>)
    ensures HeaderText(headers) == Lines(HeaderLines(headers))
  {
    if headers != [] {
      HeaderTextLines(headers[1..]);
      assert HeaderLines(headers)[1..] == HeaderLines(headers[1..]);
    }
  }

  /** What is printed after the first line */
  function Remainder(m: Message): string {
    "\r\n" + HeaderText(Sent(m).headers) + if m.body != "" then "\r\n" + m.body else ""
  }

  lemma Spelled(m: Message)
    ensures MessageText(m) == FirstLine(m) + Remainder(m)
  {
    hide FirstLine, HeaderText, HeaderLines, Join, Sent;
    var headers, first := Sent(m).headers, FirstLine(m);
    var ls := [first] + HeaderLines(headers);
    JoinLines(ls);
    HeaderTextLines(headers);
    assert ls[1..] == HeaderLines(headers);
    assert Lines(ls) == first + CRLF + HeaderText(headers);
    var head := first + CRLF + HeaderText(headers);
    assert head == first + (CRLF + HeaderText(headers));
    if m.body != "" {
      assert MessageText(m) == head + CRLF + m.body;
      assert head + CRLF + m.body == first + (CRLF + HeaderText(headers) + (CRLF + m.body));
    }
  }

  /** A request: method, URI, version; its headers, each ended; then an empty line and the body, if there is one. */
  lemma RequestText(m: Message, word: string, uri: string)
    requires m.httpMethod == Some(word) && m.requestUri == Some(uri)
    ensures MessageText(m) == word + " " + uri + " SIP/2.0\r\n" + HeaderText(Sent(m).headers)
                              + if m.body != "" then "\r\n" + m.body else ""
  {
    hide HeaderText, Sent, MessageText;
    Spelled(m);
    var first, headers := word + " " + uri, HeaderText(Sent(m).headers);
    assert " SIP/2.0\r\n" == " SIP/2.0" + "\r\n";
    assert first + " SIP/2.0\r\n" == first + " SIP/2.0" + "\r\n";
    assert first + " SIP/2.0" + ("\r\n" + headers) == first + " SIP/2.0\r\n" + headers;
  }

  /** A response: version, code, reason; the rest as in a request. */
  lemma ResponseText(m: Message, code: int, reason: string)
    requires m.httpMethod.None? && m.statusCode == Some(code) && m.reason == Some(reason)
    ensures MessageText(m) == "SIP/2.0 " + IntText(code) + " " + reason + "\r\n" + HeaderText(Sent(m).headers)
                              + if m.body != "" then "\r\n" + m.body else ""
  {
    hide HeaderText, Sent, MessageText, IntText;
    Spelled(m);
    var first, headers := "SIP/2.0 " + IntText(code) + " " + reason, HeaderText(Sent(m).headers);
    assert first + ("\r\n" + headers) == first + "\r\n" + headers;
  }

  // ---- Reading a header line ----------------------------------------------

  /**
   * A header line with any white space around its name and value sets that header, in
   * its old place or at the end, and no other; a line without a colon sets none.
   */
  lemma HeaderLineReads(headers: seq<Header>, pad: seq<string>, name: string, value: string)
    requires |pad| == 4 && forall i :: 0 <= i < 4 ==> forall c :: c in pad[i] ==> White(c)
    requires Trimmed(name) && ':' !in name && Trimmed(value)
    ensures var after := ReadHeader(headers, pad[0] + name + pad[1] + [':'] + (pad[2] + value + pad[3]));
            && (exists k :: 0 <= k < |after| && after[k] == Entry(name, value))
            && |headers| <= |after| <= |headers| + 1
            && (forall k :: 0 <= k < |headers| ==> after[k].key == headers[k].key)
            && (forall k :: 0 <= k < |headers| && headers[k].key != name ==> after[k] == headers[k])
            && (|after| > |headers| ==> forall h :: h in headers ==> h.key != name)
  {
    hide Find;
    var left, right := pad[0] + name + pad[1], pad[2] + value + pad[3];
    assert ':' !in left by {
      assert !White(':');
      assert ':' !in pad[0] && ':' !in pad[1];
    }
    FindAfterChar(left, ':', right);
    SplitOnceAt(left, ':', right);
    assert [':'] == ":";
    assert Strip(left) == name && Strip(right) == value by {
      StripPadded(pad[0], name, pad[1], White);
      StripPadded(pad[2], value, pad[3], White);
    }
    var k := KeyAt(headers, name);
    var after := ReadHeader(headers, left + [':'] + right);
    assert after == Put(headers, name, value) && after[k] == Entry(name, value);
  }

  lemma NoColonIgnored(headers: seq<Header>, line: string)
    requires ':' !in line
    ensures ReadHeader(headers, line) == headers
  {
    FindNoChar(line, ':');
    assert [':'] == ":";
  }
}

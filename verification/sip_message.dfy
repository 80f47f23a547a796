/**
 * SIP messages as text (section 7 of RFC 3261): the parser's line loop and the
 * printer, and that they undo each other. Text stands for its UTF-8 octets.
 */
module SipMessages {
  import opened Dicts
  import opened Text
  import opened Wrappers

  const CRLF := "\r\n"

  type Header = Entry<string, string>

  /** A request has a method, a response a status code; headers in order of arrival. */
  datatype Message = Message(
    httpMethod: Option<string>,
    requestUri: Option<string>,
    statusCode: Option<int>,
    reason: Option<string>,
    headers: seq<Header>,
    body: string)

  // ---- Printing -----------------------------------------------------------

  /** Octets of the UTF-8 form */
  function Utf8Length(s: string): nat {
    if s == "" then 0 else Utf8Length(s[..|s| - 1]) + Octets(s[|s| - 1])
  }

  function Octets(c: char): nat {
    if c < '\U{80}' then 1 else if c < '\U{800}' then 2 else if c < '\U{10000}' then 3 else 4
  }

  /** The message as `serialize` leaves it: with its Content-Length. */
  function Sent(m: Message): Message {
    if m.body != "" then m.(headers := Put(m.headers, "Content-Length", NatText(Utf8Length(m.body))))
    else if KeyAt(m.headers, "Content-Length") == |m.headers| then
      m.(headers := Put(m.headers, "Content-Length", "0"))
    else m
  }

  function Shown(s: Option<string>): string {
    if s.Some? then s.value else "None"
  }

  function FirstLine(m: Message): string {
    if m.httpMethod.Some? then m.httpMethod.value + " " + Shown(m.requestUri) + " SIP/2.0"
    else "SIP/2.0 " + (if m.statusCode.Some? then IntText(m.statusCode.value) else "None") + " " + Shown(m.reason)
  }

  function HeaderLine(h: Header): string {
    h.key + ": " + h.value
  }

  function HeaderLines(headers: seq<Header>): (lines: seq<string>)
    ensures |lines| == |headers|
    ensures forall i :: 0 <= i < |headers| ==> lines[i] == HeaderLine(headers[i])
  {
    seq(|headers|, i requires 0 <= i < |headers| => HeaderLine(headers[i]))
  }

  function MessageText(m: Message): string {
    var head := Join([FirstLine(m)] + HeaderLines(Sent(m).headers) + [""], CRLF);
    if m.body != "" then head + CRLF + m.body else head
  }

  // ---- Parsing ------------------------------------------------------------

  predicate StartsWith(s: string, prefix: string) {
    |prefix| <= |s| && s[..|prefix|] == prefix
  }

  /** The message its first line announces; a status line without a number is an error. */
  function ParseFirst(line: string): Result<Message> {
    var parts := SplitTwice(line, " ");
    if StartsWith(line, "SIP/2.0") then
      if |parts| < 2 || ParseInt(parts[1]).None? then Err
      else Ok(Message(None, None, ParseInt(parts[1]), Some(if |parts| > 2 then parts[2] else ""), [], ""))
    else Ok(Message(Some(parts[0]), Some(if |parts| > 1 then parts[1] else ""), None, None, [], ""))
  }

  function ReadHeader(headers: seq<Header>, line: string): seq<Header> {
    if !Contains(line, ":") then headers
    else Put(headers, Strip(SplitOnce(line, ":")[0]), Strip(SplitOnce(line, ":")[1]))
  }

  function ReadHeaders(lines: seq<string>): seq<Header> {
    if lines == [] then [] else ReadHeader(ReadHeaders(lines[..|lines| - 1]), lines[|lines| - 1])
  }

  /** The first empty line from i on, or the end. */
  function BlankFrom(lines: seq<string>, i: nat): (r: nat)
    requires i <= |lines|
    ensures i <= r <= |lines|
    ensures r < |lines| ==> lines[r] == ""
    ensures forall k :: i <= k < r ==> lines[k] != ""
    decreases |lines| - i
  {
    if i == |lines| || lines[i] == "" then i else BlankFrom(lines, i + 1)
  }

  function ParseMessage(text: string): Result<Message> {
    var lines := Split(text, CRLF);
    match ParseFirst(lines[0])
    case Err => Err
    case Ok(m) =>
      var i := BlankFrom(lines, 1);
      Ok(m.(headers := ReadHeaders(lines[1..i]), body := if i + 1 < |lines| then Join(lines[i + 1..], CRLF) else ""))
  }

  class SipMessage {
    var httpMethod: Option<string>
    var requestUri: Option<string>
    var statusCode: Option<int>
    var reason: Option<string>
    var headers: seq<Header>
    var body: string

    constructor (m: Message)
      ensures Value() == m
    {
      httpMethod, requestUri, statusCode, reason, headers, body :=
        m.httpMethod, m.requestUri, m.statusCode, m.reason, m.headers, m.body;
    }

    function Value(): Message
      reads this
    {
      Message(httpMethod, requestUri, statusCode, reason, headers, body)
    }

    static method Parse(text: string) returns (r: Result<SipMessage>)
      ensures r.Ok? <==> ParseMessage(text).Ok?
      ensures r.Ok? ==> fresh(r.value) && r.value.Value() == ParseMessage(text).value
    {
      hide ParseFirst, Put, Split, Strip, Join;
      var lines := Split(text, CRLF);
      var first := ParseFirst(lines[0]);
      if first.Err? {
        return Err;
      }
      var msg := new SipMessage(first.value);
      var i := 1;
      msg.headers := [];
      while i < |lines| && lines[i] != ""
        invariant 1 <= i <= |lines| && fresh(msg)
        invariant forall k :: 1 <= k < i ==> lines[k] != ""
        invariant msg.Value() == first.value.(headers := ReadHeaders(lines[1..i]), body := msg.body)
      {
        assert lines[1..i + 1][..i - 1] == lines[1..i];
        if Contains(lines[i], ":") {
          var nameValue := SplitOnce(lines[i], ":");
          msg.headers := Put(msg.headers, Strip(nameValue[0]), Strip(nameValue[1]));
        }
        i := i + 1;
      }
      assert i == BlankFrom(lines, 1);
      msg.body := if i + 1 < |lines| then Join(lines[i + 1..], CRLF) else "";
      r := Ok(msg);
    }

    /** Sets Content-Length, then prints. */
    method Serialize() returns (text: string)
      modifies this`headers
      ensures Value() == Sent(old(Value()))
      ensures text == MessageText(old(Value()))
    {
      hide FirstLine, Put, HeaderLine, Join, Utf8Length;
      var lines := [FirstLine(Value())];
      if body != "" {
        headers := Put(headers, "Content-Length", NatText(Utf8Length(body)));
      } else if KeyAt(headers, "Content-Length") == |headers| {
        headers := Put(headers, "Content-Length", "0");
      }
      assert Value() == Sent(old(Value()));
      for i := 0 to |headers|
        invariant lines == [FirstLine(old(Value()))] + HeaderLines(headers)[..i]
      {
        lines := lines + [HeaderLine(headers[i])];
      }
      lines := lines + [""];
      assert lines == [FirstLine(old(Value()))] + HeaderLines(headers) + [""];
      text := Join(lines, CRLF);
      if body != "" {
        text := text + CRLF + body;
      }
    }
  }

  // ---- What survives ------------------------------------------------------

  predicate CrlfFree(s: string) {
    forall k :: 0 <= k < |s| - 1 ==> !(s[k] == '\r' && s[k + 1] == '\n')
  }

  predicate CleanHeader(h: Header) {
    Trimmed(h.key) && ':' !in h.key && CrlfFree(h.key) && Trimmed(h.value) && CrlfFree(h.value)
  }

  /** A request with a method and URI free of spaces and line ends, or a response; header names distinct. */
  ghost predicate WellFormed(m: Message) {
    && DistinctKeys(m.headers) && (forall h :: h in m.headers ==> CleanHeader(h))
    && match m.httpMethod
       case Some(word) =>
         && m.requestUri.Some? && m.statusCode.None? && m.reason.None?
         && ' ' !in word && CrlfFree(word) && !StartsWith(word, "SIP/2.0")
         && ' ' !in m.requestUri.value && CrlfFree(m.requestUri.value)
       case None =>
         m.requestUri.None? && m.statusCode.Some? && m.reason.Some? && CrlfFree(m.reason.value)
  }

  /** Each line followed by a line end */
  function Lines(ls: seq<string>): string {
    if ls == [] then "" else ls[0] + CRLF + Lines(ls[1..])
  }

  lemma {:induction false} JoinLines(ls: seq<string>)
    ensures Join(ls + [""], CRLF) == Lines(ls)
  {
    if ls != [] {
      JoinLines(ls[1..]);
      assert (ls + [""])[1..] == ls[1..] + [""];
    }
  }

  lemma {:induction false} SplitLines(ls: seq<string>, tail: string)
    requires forall l :: l in ls ==> CrlfFree(l)
    ensures Split(Lines(ls) + tail, CRLF) == ls + Split(tail, CRLF)
  {
    hide Split, CrlfFree;
    if ls == [] {
      assert "" + tail == tail;
    } else {
      assert ls[0] in ls;
      var rest := Lines(ls[1..]) + tail;
      assert Lines(ls) + tail == ls[0] + CRLF + rest;
      NoneBeforeEnd(ls[0]);
      SplitAt(ls[0], CRLF, rest);
      SplitLines(ls[1..], tail);
      assert ls == [ls[0]] + ls[1..];
    }
  }

  lemma NoneBeforeEnd(a: string)
    requires CrlfFree(a)
    ensures forall k :: 0 <= k < |a| ==> !At(a + CRLF, CRLF, k)
  {
    var s := a + CRLF;
    forall k | 0 <= k < |a|
      ensures !At(s, CRLF, k)
    {
      var two := s[k..k + 2];
      assert two[0] == s[k] && two[1] == s[k + 1];
      assert CRLF[0] == '\r' && CRLF[1] == '\n';
    }
  }

  lemma HeaderReads(headers: seq<Header>, h: Header)
    requires CleanHeader(h) && KeyAt(headers, h.key) == |headers|
    ensures ReadHeader(headers, HeaderLine(h)) == headers + [h]
  {
    hide Strip, SplitOnce, Find, CrlfFree, KeyAt;
    assert HeaderLine(h) == h.key + [':'] + (" " + h.value);
    assert [':'] == ":";
    FindAfterChar(h.key, ':', " " + h.value);
    SplitOnceAt(h.key, ':', " " + h.value);
    StripTrimmed(h.key);
    StripTrimmed(h.value);
  }

  lemma {:induction false} HeadersRead(headers: seq<Header>)
    requires DistinctKeys(headers) && forall h :: h in headers ==> CleanHeader(h)
    ensures ReadHeaders(HeaderLines(headers)) == headers
  {
    hide CleanHeader, HeaderLine, ReadHeader;
    if headers != [] {
      var n := |headers| - 1;
      HeadersRead(headers[..n]);
      assert HeaderLines(headers)[..n] == HeaderLines(headers[..n]);
      assert headers[n] in headers;
      assert KeyAt(headers[..n], headers[n].key) == n;
      HeaderReads(headers[..n], headers[n]);
      assert headers == headers[..n] + [headers[n]];
    }
  }

  lemma CrlfFreeBoth(a: string, b: string)
    requires CrlfFree(a) && CrlfFree(b) && (a == "" || a[|a| - 1] != '\r' || b == "" || b[0] != '\n')
    ensures CrlfFree(a + b)
  {
  }

  lemma HeaderLineFree(h: Header)
    requires CleanHeader(h)
    ensures CrlfFree(HeaderLine(h)) && HeaderLine(h) != ""
  {
    hide CrlfFree;
    ShortFree();
    CrlfFreeBoth(h.key, ": ");
    CrlfFreeBoth(h.key + ": ", h.value);
  }

  /** The first line is one line, and says what the message is. */
  lemma FirstLineReads(m: Message)
    requires WellFormed(m)
    ensures CrlfFree(FirstLine(m))
    ensures ParseFirst(FirstLine(m)) == Ok(m.(headers := [], body := ""))
  {
    match m.httpMethod
    case Some(word) => RequestLineReads(m, word);
    case None => StatusLineReads(m);
  }

  lemma RequestLineReads(m: Message, word: string)
    requires WellFormed(m) && m.httpMethod == Some(word)
    ensures CrlfFree(FirstLine(m))
    ensures ParseFirst(FirstLine(m)) == Ok(m.(headers := [], body := ""))
  {
    hide Find, CrlfFree;
    var uri, version := m.requestUri.value, "SIP/2.0";
    ShortFree();
    CrlfFreeBoth(word, " ");
    CrlfFreeBoth(word + " ", uri);
    CrlfFreeBoth(word + " " + uri, " SIP/2.0");
    assert FirstLine(m) == word + [' '] + (uri + [' '] + version);
    assert [' '] == " ";
    SplitOnceAt(word, ' ', uri + [' '] + version);
    SplitOnceAt(uri, ' ', version);
    NotStatus(word, uri + [' '] + version);
  }

  lemma ShortFree()
    ensures CrlfFree(" ") && CrlfFree(": ") && CrlfFree(" SIP/2.0") && CrlfFree("SIP/2.0 ")
  {
  }

  lemma NotStatus(word: string, rest: string)
    requires !StartsWith(word, "SIP/2.0")
    ensures !StartsWith(word + [' '] + rest, "SIP/2.0")
  {
    var s, version := word + [' '] + rest, "SIP/2.0";
    if |word| >= 7 {
      assert s[..7] == word[..7];
    } else if |s| >= 7 {
      assert s[..7][|word|] == ' ';
      assert version[|word|] != ' ';
    }
  }

  lemma StatusLineReads(m: Message)
    requires WellFormed(m) && m.httpMethod.None?
    ensures CrlfFree(FirstLine(m))
    ensures ParseFirst(FirstLine(m)) == Ok(m.(headers := [], body := ""))
  {
    hide Find, CrlfFree, ParseInt, IntText;
    var code, reason, version := IntText(m.statusCode.value), m.reason.value, "SIP/2.0";
    ShortFree();
    DigitsFree(code);
    CrlfFreeBoth("SIP/2.0 ", code);
    CrlfFreeBoth("SIP/2.0 " + code, " ");
    CrlfFreeBoth("SIP/2.0 " + code + " ", reason);
    assert FirstLine(m) == version + [' '] + (code + [' '] + reason);
    assert [' '] == " ";
    SplitOnceAt(version, ' ', code + [' '] + reason);
    SplitOnceAt(code, ' ', reason);
    ParseIntText(m.statusCode.value);
    assert FirstLine(m)[..7] == version;
  }

  lemma DigitsFree(s: string)
    requires forall c :: c in s ==> '0' <= c <= '9' || c == '-'
    ensures CrlfFree(s) && ' ' !in s
    ensures Trimmed(s)
  {
    assert forall k :: 0 <= k < |s| ==> s[k] in s;
  }

  lemma SetKeeps(headers: seq<Header>, name: string, value: string)
    requires DistinctKeys(headers) && forall h :: h in headers ==> CleanHeader(h)
    requires CleanHeader(Entry(name, value))
    ensures DistinctKeys(Put(headers, name, value))
    ensures forall h :: h in Put(headers, name, value) ==> CleanHeader(h)
  {
    hide CleanHeader;
  }

  lemma SentWellFormed(m: Message)
    requires WellFormed(m)
    ensures WellFormed(Sent(m))
  {
    hide CrlfFree, CleanHeader, DistinctKeys, Put;
    var name := "Content-Length";
    assert CleanHeader(Entry(name, NatText(Utf8Length(m.body)))) && CleanHeader(Entry(name, "0")) by {
      LengthClean(NatText(Utf8Length(m.body)));
      LengthClean("0");
    }
    SetKeeps(m.headers, name, NatText(Utf8Length(m.body)));
    SetKeeps(m.headers, name, "0");
  }

  lemma LengthClean(s: string)
    requires forall c :: c in s ==> '0' <= c <= '9'
    ensures CleanHeader(Entry("Content-Length", s))
  {
    DigitsFree(s);
    var name := "Content-Length";
    assert name[0] == 'C' && name[|name| - 1] == 'h';
  }

  /** Printing a well-formed message and parsing the text gives the message, with its Content-Length. */
  lemma SipRoundTrip(m: Message)
    requires WellFormed(m)
    ensures ParseMessage(MessageText(m)) == Ok(Sent(m))
  {
    hide Split, Join, FirstLine, HeaderLine, CrlfFree, CleanHeader, Sent, ReadHeaders, ParseFirst, DistinctKeys;
    var sent := Sent(m);
    SentWellFormed(m);
    SentShape(m);
    FirstLineReads(m);
    HeadersRead(sent.headers);
    var ls := [FirstLine(m)] + HeaderLines(sent.headers);
    forall l | l in ls
      ensures CrlfFree(l)
    {
      LineFree(m, sent, l);
    }
    JoinLines(ls);
    if m.body == "" {
      SplitLines(ls, "");
      assert Lines(ls) + "" == Lines(ls);
      assert Split("", CRLF) == [""] by {
        FindNone("", CRLF);
      }
      LinesRead(m, sent, ls + [""]);
    } else {
      SplitLines(ls, CRLF + m.body);
      assert Lines(ls) + (CRLF + m.body) == Lines(ls) + CRLF + m.body;
      SplitAt("", CRLF, m.body);
      assert "" + CRLF + m.body == CRLF + m.body;
      JoinSplit(m.body, CRLF);
      assert ls + ([""] + Split(m.body, CRLF)) == ls + [""] + Split(m.body, CRLF);
      LinesRead(m, sent, ls + [""] + Split(m.body, CRLF));
    }
  }

  lemma LineFree(m: Message, sent: Message, l: string)
    requires WellFormed(m) && WellFormed(sent)
    requires l in [FirstLine(m)] + HeaderLines(sent.headers)
    ensures CrlfFree(l)
  {
    hide CrlfFree, CleanHeader, FirstLine, HeaderLine;
    if l == FirstLine(m) {
      FirstLineReads(m);
    } else {
      var i :| 0 <= i < |sent.headers| && l == HeaderLines(sent.headers)[i];
      assert sent.headers[i] in sent.headers;
      HeaderLineFree(sent.headers[i]);
    }
  }

  lemma SentShape(m: Message)
    ensures Sent(m) == m.(headers := Sent(m).headers)
  {
  }

  /** The lines of a printed message give back its parts. */
  lemma LinesRead(m: Message, sent: Message, lines: seq<string>)
    requires WellFormed(sent) && sent == m.(headers := sent.headers)
    requires ParseFirst(FirstLine(m)) == Ok(m.(headers := [], body := "")) && ReadHeaders(HeaderLines(sent.headers)) == sent.headers
    requires var ls := [FirstLine(m)] + HeaderLines(sent.headers);
             if m.body == "" then lines == ls + [""]
             else |lines| > |ls| + 1 && lines[..|ls| + 1] == ls + [""] && Join(lines[|ls| + 1..], CRLF) == m.body
    ensures var i := BlankFrom(lines, 1);
            && lines[0] == FirstLine(m) && lines[1..i] == HeaderLines(sent.headers)
            && (if i + 1 < |lines| then Join(lines[i + 1..], CRLF) else "") == m.body
  {
    hide Join, FirstLine, HeaderLine, CrlfFree, CleanHeader, ReadHeaders, ParseFirst, DistinctKeys;
    var head := HeaderLines(sent.headers);
    forall l | l in head
      ensures l != ""
    {
      var k :| 0 <= k < |head| && l == head[k];
      assert sent.headers[k] in sent.headers;
      HeaderLineFree(sent.headers[k]);
    }
    var n := |head| + 1;
    BlankAfter(FirstLine(m), head, lines[n + 1..]);
    assert lines[..n + 1] == [FirstLine(m)] + head + [""];
    assert lines == [FirstLine(m)] + head + [""] + lines[n + 1..];
  }

  lemma BlankAfter(first: string, head: seq<string>, rest: seq<string>)
    requires forall l :: l in head ==> l != ""
    ensures var lines := [first] + head + [""] + rest;
            BlankFrom(lines, 1) == |head| + 1 && lines[1..|head| + 1] == head && lines[0] == first
  {
    var lines := [first] + head + [""] + rest;
    assert lines[1..|head| + 1] == head;
    forall k | 1 <= k <= |head|
      ensures lines[k] != ""
    {
      assert lines[k] == head[k - 1] && head[k - 1] in head;
    }
    assert lines[|head| + 1] == "";
  }
}

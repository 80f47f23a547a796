/**
 * The current-calls response: one pass over the bridge's JSON counts the calls, a
 * second writes their records after the count.
 */
module CurrentCalls {
  import opened Bits
  import opened JsonGrammar
  import opened JsonObjects
  import opened JsonScan
  import opened Parcels
  import opened Wrappers

  predicate Separator(c: byte) {
    Space(c) || c == COMMA
  }

  function PastSeparators(s: seq<byte>, i: nat): (r: nat)
    ensures i <= r && (i <= |s| ==> r <= |s|)
    ensures !Separator(At(s, r))
    decreases |s| - i
  {
    if i < |s| && Separator(s[i]) then PastSeparators(s, i + 1) else i
  }

  /** The first '[', or the end of the buffer. */
  function ArrayStart(s: seq<byte>, i: nat): (r: nat)
    requires i <= |s|
    ensures i <= r <= |s|
    ensures r < |s| ==> s[r] == LBRACKET
    ensures forall k :: i <= k < r ==> s[k] != LBRACKET
    decreases |s| - i
  {
    if i == |s| || s[i] == LBRACKET then i else ArrayStart(s, i + 1)
  }

  /** The first pass: objects one after another, until something else. */
  function Count(s: cstring, i: nat): (n: nat)
    ensures n == 0 || n <= |s| - i
    decreases |s| - i
  {
    var j := PastSeparators(s, i);
    match SkipObject(s, j)
    case None => 0
    case Some(end) => 1 + Count(s, end + 1)
  }

  lemma Part(s: cstring, i: nat, j: nat)
    requires i <= j <= |s|
    ensures 0 !in s[i..j] && |s[i..j]| < 0x8000_0000
  {
    assert forall c :: c in s[i..j] ==> c in s;
  }

  function Sub(s: cstring, i: nat, j: nat): cstring
    requires i <= j <= |s|
  {
    Part(s, i, j);
    s[i..j]
  }

  /** ASCII text as bytes */
  function Ascii(t: string): (bs: cstring)
    requires |t| < 100 && forall i :: 0 <= i < |t| ==> '!' <= t[i] <= '~'
    ensures |bs| == |t| && forall i :: 0 <= i < |t| ==> bs[i] == t[i] as int
  {
    var bs: seq<byte> := seq(|t|, i requires 0 <= i < |t| => t[i] as int);
    assert forall i :: 0 <= i < |bs| ==> bs[i] != 0;
    bs
  }

  /** A string field, or the empty string. */
  function TextField(json: cstring, key: cstring): cstring {
    match GetStr(json, key)
    case None => []
    case Some(text) =>
      var p := FindKey(json, key).value;
      Part(json, p + 1, QuoteFrom(json, p + 1));
      text
  }

  /** One call's record */
  function Record(json: cstring, i: nat): (items: seq<Item>)
    requires i < 0x7FFF_FFFF
    ensures |items| == 13
  {
    [I32(GetInt(json, Ascii("state"), 0)), I32(GetInt(json, Ascii("index"), i + 1)), I32(145),
     I32(GetBool(json, Ascii("isMpty"), 0)), I32(GetBool(json, Ascii("isMT"), 0)), I32(0), I32(1), I32(0),
     Str16(Some(TextField(json, Ascii("number")))), I32(GetInt(json, Ascii("numberPresentation"), 0)),
     Str16(Some(TextField(json, Ascii("name")))), I32(0), I32(0)]
  }

  /** The second pass: records k to n - 1. */
  function Records(s: cstring, i: nat, k: nat, n: nat): (records: seq<seq<Item>>)
    requires n < 0x8000_0000
    decreases |s| - i
  {
    if k >= n then []
    else
      var j := PastSeparators(s, i);
      match SkipObject(s, j)
      case None => []
      case Some(end) => [Record(Sub(s, j, end + 1), k)] + Records(s, end + 1, k + 1, n)
  }

  function Flat(records: seq<seq<Item>>): seq<Item> {
    if records == [] then [] else records[0] + Flat(records[1..])
  }

  /** Everything the response writes */
  function Response(data: cstring): seq<Item> {
    var a := ArrayStart(data, 0);
    if a == |data| then [I32(0)]
    else
      var n := Count(data, a + 1);
      [I32(n)] + Flat(Records(data, a + 1, 0, n))
  }

  // ---- The methods --------------------------------------------------------

  method CountCalls(s: cstring, start: nat) returns (n: nat)
    requires start <= |s|
    ensures n == Count(s, start)
  {
    hide SkipObject;
    n := 0;
    var scan := start;
    while scan < |s|
      invariant scan <= |s|
      invariant Count(s, start) == n + Count(s, scan)
      decreases |s| - scan
    {
      var next := NextObject(s, scan);
      if At(s, next) == RBRACKET || At(s, next) == 0 {
        NotObject(s, next);
        return;
      }
      if At(s, next) != LBRACE {
        NotObject(s, next);
        return;
      }
      var end := JsonSkipObject(s, next);
      if end.None? {
        return;
      }
      n := n + 1;
      scan := end.value + 1;
    }
    NotObject(s, |s|);
    assert PastSeparators(s, |s|) == |s|;
  }

  lemma NotObject(s: cstring, p: nat)
    requires At(s, p) != LBRACE
    ensures SkipObject(s, p).None?
  {
  }

  method NextObject(s: seq<byte>, i: nat) returns (r: nat)
    requires i <= |s|
    ensures r == PastSeparators(s, i) <= |s|
  {
    r := i;
    while Separator(At(s, r))
      invariant i <= r <= |s| && PastSeparators(s, i) == PastSeparators(s, r)
      decreases |s| - r
    {
      r := r + 1;
    }
  }

  method WriteRecord(resp: Parcel, json: cstring, i: nat)
    requires resp.Valid() && i < 0x7FFF_FFFF
    modifies resp, resp.buf
    ensures resp.Valid() && (resp.buf == old(resp.buf) || fresh(resp.buf)) && resp.pos == old(resp.pos)
    ensures resp.Contents() == old(resp.Contents()) + MessageBytes(Record(json, i))
  {
    hide GetInt, GetBool, TextField, ItemBytes, MessageBytes, Ascii;
    WriteHead(resp, json, i);
    WriteRest(resp, json);
    RecordParts(json, i);
  }

  function RecordHead(json: cstring, i: nat): seq<Item>
    requires i < 0x7FFF_FFFF
  {
    [I32(GetInt(json, Ascii("state"), 0)), I32(GetInt(json, Ascii("index"), i + 1)), I32(145),
     I32(GetBool(json, Ascii("isMpty"), 0)), I32(GetBool(json, Ascii("isMT"), 0)), I32(0), I32(1), I32(0)]
  }

  function RecordRest(json: cstring): seq<Item> {
    [Str16(Some(TextField(json, Ascii("number")))), I32(GetInt(json, Ascii("numberPresentation"), 0)),
     Str16(Some(TextField(json, Ascii("name")))), I32(0), I32(0)]
  }

  lemma RecordParts(json: cstring, i: nat)
    requires i < 0x7FFF_FFFF
    ensures MessageBytes(Record(json, i)) == MessageBytes(RecordHead(json, i)) + MessageBytes(RecordRest(json))
  {
    hide GetInt, GetBool, TextField, MessageBytes, Ascii;
    MessageJoin(RecordHead(json, i), RecordRest(json));
    assert Record(json, i) == RecordHead(json, i) + RecordRest(json);
  }

  lemma {:induction false} MessageJoin(a: seq<Item>, b: seq<Item>)
    ensures MessageBytes(a + b) == MessageBytes(a) + MessageBytes(b)
  {
    hide ItemBytes;
    if b == [] {
      assert a + b == a;
    } else {
      var n := |b| - 1;
      MessageJoin(a, b[..n]);
      assert (a + b)[..|a + b| - 1] == a + b[..n];
    }
  }

  lemma MessageNext(items: seq<Item>, k: nat)
    requires k < |items|
    ensures MessageBytes(items[..k + 1]) == MessageBytes(items[..k]) + ItemBytes(items[k])
  {
    assert items[..k + 1][..k] == items[..k];
  }

  lemma MessageNone()
    ensures MessageBytes([]) == []
  {
  }

  /** The next int32 of a list of items */
  method WriteInt(resp: Parcel, v: int32, ghost start: seq<byte>, ghost items: seq<Item>, ghost k: nat)
    requires resp.Valid() && k < |items| && items[k] == I32(v) && resp.Contents() == start + MessageBytes(items[..k])
    modifies resp, resp.buf
    ensures resp.Valid() && (resp.buf == old(resp.buf) || fresh(resp.buf)) && resp.pos == old(resp.pos)
    ensures resp.Contents() == start + MessageBytes(items[..k + 1])
  {
    hide MessageBytes, I32Bytes;
    MessageNext(items, k);
    resp.WriteI32(v);
  }

  /** The next string of a list of items */
  method WriteText(resp: Parcel, text: cstring, ghost start: seq<byte>, ghost items: seq<Item>, ghost k: nat)
    requires resp.Valid() && k < |items| && items[k] == Str16(Some(text)) && resp.Contents() == start + MessageBytes(items[..k])
    modifies resp, resp.buf
    ensures resp.Valid() && (resp.buf == old(resp.buf) || fresh(resp.buf)) && resp.pos == old(resp.pos)
    ensures resp.Contents() == start + MessageBytes(items[..k + 1])
  {
    hide MessageBytes, Str16Bytes;
    MessageNext(items, k);
    resp.WriteStr16(Some(text));
  }

  method WriteHead(resp: Parcel, json: cstring, i: nat)
    requires resp.Valid() && i < 0x7FFF_FFFF
    modifies resp, resp.buf
    ensures resp.Valid() && (resp.buf == old(resp.buf) || fresh(resp.buf)) && resp.pos == old(resp.pos)
    ensures resp.Contents() == old(resp.Contents()) + MessageBytes(RecordHead(json, i))
  {
    hide GetInt, GetBool, MessageBytes, Ascii, Parcel.Contents;
    MessageNone();
    ghost var start, items := resp.Contents(), RecordHead(json, i);
    WriteInt(resp, GetInt(json, Ascii("state"), 0), start, items, 0);
    WriteInt(resp, GetInt(json, Ascii("index"), i + 1), start, items, 1);
    WriteInt(resp, 145, start, items, 2);
    WriteInt(resp, GetBool(json, Ascii("isMpty"), 0), start, items, 3);
    WriteFlags(resp, json, start, items);
  }

  /** The other half of the head */
  method WriteFlags(resp: Parcel, json: cstring, ghost start: seq<byte>, ghost items: seq<Item>)
    requires resp.Valid() && |items| == 8 && resp.Contents() == start + MessageBytes(items[..4])
    requires items[4..] == [I32(GetBool(json, Ascii("isMT"), 0)), I32(0), I32(1), I32(0)]
    modifies resp, resp.buf
    ensures resp.Valid() && (resp.buf == old(resp.buf) || fresh(resp.buf)) && resp.pos == old(resp.pos)
    ensures resp.Contents() == start + MessageBytes(items)
  {
    hide GetBool, MessageBytes, Ascii, Parcel.Contents;
    assert forall k :: 4 <= k < 8 ==> items[k] == items[4..][k - 4];
    WriteInt(resp, GetBool(json, Ascii("isMT"), 0), start, items, 4);
    WriteInt(resp, 0, start, items, 5);
    WriteInt(resp, 1, start, items, 6);
    WriteInt(resp, 0, start, items, 7);
    assert items[..8] == items;
  }

  method WriteRest(resp: Parcel, json: cstring)
    requires resp.Valid()
    modifies resp, resp.buf
    ensures resp.Valid() && (resp.buf == old(resp.buf) || fresh(resp.buf)) && resp.pos == old(resp.pos)
    ensures resp.Contents() == old(resp.Contents()) + MessageBytes(RecordRest(json))
  {
    hide GetInt, TextField, MessageBytes, Ascii, Parcel.Contents;
    MessageNone();
    ghost var start, items := resp.Contents(), RecordRest(json);
    WriteText(resp, TextField(json, Ascii("number")), start, items, 0);
    WriteInt(resp, GetInt(json, Ascii("numberPresentation"), 0), start, items, 1);
    WriteText(resp, TextField(json, Ascii("name")), start, items, 2);
    WriteInt(resp, 0, start, items, 3);
    WriteInt(resp, 0, start, items, 4);
    assert items[..5] == items;
  }

  method ResponseCurrentCalls(resp: Parcel, data: cstring)
    requires resp.Valid()
    modifies resp, resp.buf
    ensures resp.Valid() && resp.Contents() == old(resp.Contents()) + MessageBytes(Response(data))
  {
    hide MessageBytes, Count, I32Bytes, Flat, Records;
    ghost var start := resp.Contents();
    MessageNone();
    var a := 0;
    while a < |data| && data[a] != LBRACKET
      invariant a <= |data| && ArrayStart(data, 0) == ArrayStart(data, a)
    {
      a := a + 1;
    }
    if a == |data| {
      WriteInt(resp, 0, start, Response(data), 0);
      assert Response(data)[..1] == Response(data);
      return;
    }
    var numCalls := CountCalls(data, a + 1);
    WriteInt(resp, numCalls, start, Response(data), 0);
    assert Response(data)[..1] == [I32(numCalls)];
    WriteRecords(resp, data, a + 1, numCalls);
    MessageJoin([I32(numCalls)], Flat(Records(data, a + 1, 0, numCalls)));
  }

  /** The second pass */
  method WriteRecords(resp: Parcel, data: cstring, start: nat, numCalls: nat)
    requires resp.Valid() && start <= |data| && numCalls < 0x8000_0000
    modifies resp, resp.buf
    ensures resp.Valid() && resp.Contents() == old(resp.Contents()) + MessageBytes(Flat(Records(data, start, 0, numCalls)))
  {
    hide MessageBytes, Record, SkipObject, Flat, Records;
    ghost var written := resp.Contents();
    ghost var items: seq<Item> := [];
    MessageNone();
    var scan, i := start, 0;
    while i < numCalls
      invariant 0 <= i <= numCalls && scan <= |data|
      invariant resp.Valid() && (resp.buf == old(resp.buf) || fresh(resp.buf))
      invariant resp.Contents() == written + MessageBytes(items)
      invariant Flat(Records(data, start, 0, numCalls)) == items + Flat(Records(data, scan, i, numCalls))
      decreases |data| - scan
    {
      var next := NextObject(data, scan);
      if At(data, next) != LBRACE {
        NotObject(data, next);
        RecordsStop(data, scan, i, numCalls);
        assert items + [] == items;
        return;
      }
      var end := JsonSkipObject(data, next);
      if end.None? {
        RecordsStop(data, scan, i, numCalls);
        assert items + [] == items;
        return;
      }
      var json := Sub(data, next, end.value + 1);
      WriteRecord(resp, json, i);
      MessageJoin(items, Record(json, i));
      RecordsNext(data, scan, i, numCalls);
      items := items + Record(json, i);
      scan, i := end.value + 1, i + 1;
    }
    RecordsStop(data, scan, i, numCalls);
    assert items + [] == items;
  }

  lemma RecordsStop(s: cstring, i: nat, k: nat, n: nat)
    requires n < 0x8000_0000 && (k >= n || SkipObject(s, PastSeparators(s, i)).None?)
    ensures Flat(Records(s, i, k, n)) == []
  {
  }

  lemma RecordsNext(s: cstring, i: nat, k: nat, n: nat)
    requires k < n < 0x8000_0000 && SkipObject(s, PastSeparators(s, i)).Some?
    ensures var j := PastSeparators(s, i);
            var end := SkipObject(s, j).value;
            Flat(Records(s, i, k, n)) == Record(Sub(s, j, end + 1), k) + Flat(Records(s, end + 1, k + 1, n))
  {
    hide SkipObject, Record;
    var j := PastSeparators(s, i);
    var end := SkipObject(s, j).value;
    assert Records(s, i, k, n)[1..] == Records(s, end + 1, k + 1, n);
  }

  // ---- What the two passes do ---------------------------------------------

  /** For every buffer, the second pass writes exactly as many records as the first counted. */
  lemma {:induction false} TwoPassesAgree(s: cstring, i: nat, k: nat)
    requires k + Count(s, i) < 0x8000_0000
    ensures |Records(s, i, k, k + Count(s, i))| == Count(s, i)
    decreases |s| - i
  {
    hide SkipObject, Record;
    var j := PastSeparators(s, i);
    if SkipObject(s, j).Some? {
      TwoPassesAgree(s, SkipObject(s, j).value + 1, k + 1);
    }
  }

  lemma {:induction false} FlatLength(records: seq<seq<Item>>)
    requires forall r :: r in records ==> |r| == 13
    ensures |Flat(records)| == 13 * |records|
  {
    if records != [] {
      FlatLength(records[1..]);
    }
  }

  lemma {:induction false} RecordsAreWhole(s: cstring, i: nat, k: nat, n: nat)
    requires n < 0x8000_0000
    ensures forall r :: r in Records(s, i, k, n) ==> |r| == 13
    decreases |s| - i
  {
    hide SkipObject, Record;
    var j := PastSeparators(s, i);
    if k < n && SkipObject(s, j).Some? {
      RecordsAreWhole(s, SkipObject(s, j).value + 1, k + 1, n);
    }
  }

  /** For every buffer, the response is a count and then that many records of thirteen values. */
  lemma CountMatchesRecords(data: cstring)
    ensures exists n: int32 :: 0 <= n && Response(data)[..1] == [I32(n)] && |Response(data)| == 1 + 13 * n
  {
    hide Count, Records;
    var a := ArrayStart(data, 0);
    if a == |data| {
      assert Response(data) == [I32(0)];
    } else {
      var n := Count(data, a + 1);
      TwoPassesAgree(data, a + 1, 0);
      RecordsAreWhole(data, a + 1, 0, n);
      FlatLength(Records(data, a + 1, 0, n));
      assert Response(data)[..1] == [I32(n)];
    }
  }

  // ---- Well-formed call lists ---------------------------------------------

  /** A list of objects: one call each */
  predicate CallList(items: Items) {
    match items
    case Done(_) => true
    case Next(_, value, _, rest) => value.Obj? && CallList(rest)
  }

  function CallCount(items: Items): nat {
    match items
    case Done(_) => 0
    case Next(_, _, _, rest) => 1 + CallCount(rest)
  }

  /** The record of every element, in order, from its own printed text */
  function ElementRecords(items: Items, k: nat): seq<seq<Item>>
    requires NoNul(items) && k + CallCount(items) < 0x8000_0000
  {
    match items
    case Done(_) => []
    case Next(_, value, _, rest) => [Record(Print(value), k)] + ElementRecords(rest, k + 1)
  }

  /** Each element's text is a C string. */
  predicate NoNul(items: Items) {
    match items
    case Done(_) => true
    case Next(_, value, _, rest) => 0 !in Print(value) && |Print(value)| < 0x8000_0000 && NoNul(rest)
  }

  lemma {:induction false} SeparatorsPast(s: seq<byte>, i: nat, t: seq<byte>)
    requires Here(s, i, t) && forall c :: c in t ==> Separator(c)
    ensures PastSeparators(s, i) == PastSeparators(s, i + |t|)
    decreases |t|
  {
    hide Separator;
    if t != [] {
      assert t == [t[0]] + t[1..];
      HereSplit(s, i, [t[0]], t[1..]);
      HereAt(s, i, t, 0);
      assert t[0] in t && forall c :: c in t[1..] ==> c in t;
      SeparatorsPast(s, i + 1, t[1..]);
    }
  }

  lemma BlankSeparates(t: seq<byte>)
    requires Blank(t)
    ensures forall c :: c in t ==> Separator(c)
  {
  }

  /** Both passes find the elements of a printed list one by one, and stop at its bracket. */
  lemma {:induction false} ListPasses(s: cstring, i: nat, items: Items, k: nat)
    requires ItemsOk(items, false) && CallList(items) && NoNul(items)
    requires Here(s, i, PrintItems(items)) && At(s, i + |PrintItems(items)|) == RBRACKET
    requires k + CallCount(items) < 0x8000_0000
    ensures Count(s, i) == CallCount(items)
    ensures Records(s, i, k, k + CallCount(items)) == ElementRecords(items, k)
    decreases items
  {
    hide Here, Blank, SkipObject, Record, Print, PastSeparators, At, Separator, Count, Records;
    match items
    case Done(space) =>
      BlankSeparates(space);
      SeparatorsPast(s, i, space);
      AtBracket(s, i + |space|);
      NothingThere(s, i, k, k + CallCount(items));
    case Next(head, value, after, rest) =>
      ItemInPlace(s, i, items);
      var v := i + |LabelText(head)|;
      var w := v + |Print(value)|;
      var r := w + |after| + |Comma(rest)|;
      BlankSeparates(head.before);
      SeparatorsPast(s, i, head.before);
      AtObject(s, v, value.items);
      ObjectEnd(s, v, value.items);
      SubIs(s, v, Print(value));
      OneThere(s, i, v, w - 1, k, k + CallCount(items));
      BeforeNext(s, w, after, rest);
      ListPasses(s, r, rest, k + 1);
      CountFrom(s, w, r, k + 1, k + 1 + CallCount(rest));
  }

  lemma NothingThere(s: cstring, i: nat, k: nat, n: nat)
    requires SkipObject(s, PastSeparators(s, i)).None? && n < 0x8000_0000
    ensures Count(s, i) == 0 && Records(s, i, k, n) == []
  {
    hide SkipObject, PastSeparators, Record, Sub;
  }

  lemma OneThere(s: cstring, i: nat, v: nat, end: nat, k: nat, n: nat)
    requires PastSeparators(s, i) == v && SkipObject(s, v) == Some(end) && k < n < 0x8000_0000
    ensures Count(s, i) == 1 + Count(s, end + 1)
    ensures Records(s, i, k, n) == [Record(Sub(s, v, end + 1), k)] + Records(s, end + 1, k + 1, n)
  {
    hide SkipObject, PastSeparators, Record, Sub;
  }

  lemma AtBracket(s: cstring, i: nat)
    requires At(s, i) == RBRACKET
    ensures PastSeparators(s, i) == i && SkipObject(s, i).None?
  {
  }

  lemma AtObject(s: seq<byte>, i: nat, items: Items)
    requires Here(s, i, Print(Obj(items)))
    ensures PastSeparators(s, i) == i
  {
    HereAt(s, i, Print(Obj(items)), 0);
  }

  lemma SubIs(s: cstring, i: nat, t: seq<byte>)
    requires Here(s, i, t)
    ensures i + |t| <= |s| && Sub(s, i, i + |t|) == t
  {
  }

  /** White space and the comma after an element are separators. */
  lemma BeforeNext(s: seq<byte>, w: nat, after: seq<byte>, rest: Items)
    requires Blank(after) && Here(s, w, after) && Here(s, w + |after|, Comma(rest))
    ensures PastSeparators(s, w) == PastSeparators(s, w + |after| + |Comma(rest)|)
  {
    hide Here, Blank, PastSeparators;
    BlankSeparates(after);
    SeparatorsPast(s, w, after);
    SeparatorsPast(s, w + |after|, Comma(rest));
  }

  /** Both passes look at a position only through what follows its separators. */
  lemma CountFrom(s: cstring, i: nat, j: nat, k: nat, n: nat)
    requires PastSeparators(s, i) == PastSeparators(s, j) && n < 0x8000_0000
    ensures Count(s, i) == Count(s, j) && Records(s, i, k, n) == Records(s, j, k, n)
  {
    hide PastSeparators, SkipObject, Record;
  }

  /**
   * For a printed list of objects, with no '[' before it, the response is their
   * number and then the record of each object, read from that object's own text.
   */
  lemma CallsWritten(before: seq<byte>, items: Items, rest: seq<byte>)
    requires WellFormed(Arr(items)) && CallList(items) && NoNul(items) && LBRACKET !in before
    requires var data := before + (Print(Arr(items)) + rest); 0 !in data && |data| < 0x8000_0000
    requires CallCount(items) < 0x8000_0000
    ensures Response(before + (Print(Arr(items)) + rest)) == [I32(CallCount(items))] + Flat(ElementRecords(items, 0))
  {
    hide Here, Count, Records, ElementRecords, ItemsOk, PrintItems, Flat, At, CallCount, NoNul, CallList, ArrayStart, Response;
    var data: cstring := before + (Print(Arr(items)) + rest);
    var a := |before|;
    InPlace(before, Print(Arr(items)), rest);
    HereSplit(data, a, [LBRACKET], PrintItems(items) + [RBRACKET]);
    HereSplit(data, a + 1, PrintItems(items), [RBRACKET]);
    HereAt(data, a, [LBRACKET], 0);
    HereAt(data, a + 1 + |PrintItems(items)|, [RBRACKET], 0);
    HereInside(data, a + 1 + |PrintItems(items)|, [RBRACKET]);
    FirstBracket(before, Print(Arr(items)) + rest);
    AtIs(data, a + 1 + |PrintItems(items)|);
    ListPasses(data, a + 1, items, 0);
    ResponseIs(data, a);
  }

  lemma ResponseIs(data: cstring, a: nat)
    requires ArrayStart(data, 0) == a < |data|
    ensures var n := Count(data, a + 1); Response(data) == [I32(n)] + Flat(Records(data, a + 1, 0, n))
  {
    hide Count, Records, Flat, ArrayStart;
  }

  lemma FirstBracket(before: seq<byte>, rest: seq<byte>)
    requires LBRACKET !in before && rest != [] && rest[0] == LBRACKET
    ensures ArrayStart(before + rest, 0) == |before|
  {
    var data := before + rest;
    assert data[|before|] == LBRACKET;
    forall k | 0 <= k < |before|
      ensures data[k] != LBRACKET
    {
      assert data[k] == before[k] && before[k] in before;
    }
  }

  lemma InPlace(before: seq<byte>, t: seq<byte>, rest: seq<byte>)
    ensures Here(before + (t + rest), |before|, t)
  {
  }

  /** A record's string field is the object's own member, or empty when that is missing or not a string. */
  lemma FieldIsMember(items: Items, key: cstring)
    requires WellFormed(Obj(items)) && QUOTE !in key
    requires 0 !in Print(Obj(items)) && |Print(Obj(items))| < 0x8000_0000
    ensures TextField(Print(Obj(items)), key)
            == match Member(items, key, 1)
               case Some((_, Str(text))) => text
               case _ => []
  {
    hide Print, Member, FindKey, QuoteFrom;
    assert Print(Obj(items)) + [] == Print(Obj(items));
    if Member(items, key, 1).Some? {
      StringLookup(items, key, []);
    } else {
      KeyAbsent(items, key);
    }
  }

  /** What the phone reads from a written response: the values it was made of, to its last byte. */
  lemma ResponseArrives(data: cstring)
    ensures ReadItems(MessageBytes(Response(data)), Response(data))
            == (AllAsRead(Response(data)), |MessageBytes(Response(data))|)
  {
    hide ReadItems, MessageBytes, Response;
    ParcelRoundTrip(Response(data));
  }
}

/**
 * What the phone reads of each current call: every value of every record, in terms of
 * the members of that call's JSON object.
 */
module CallRecords {
  import opened Bits
  import opened CurrentCalls
  import opened JsonGrammar
  import opened JsonScan
  import opened Parcels
  import opened Wrappers

  // ---- What a member is worth ---------------------------------------------

  const STATE: cstring := Ascii("state")
  const INDEX: cstring := Ascii("index")
  const IS_MPTY: cstring := Ascii("isMpty")
  const IS_MT: cstring := Ascii("isMT")
  const NUMBER: cstring := Ascii("number")
  const PRESENTATION: cstring := Ascii("numberPresentation")
  const NAME: cstring := Ascii("name")

  /** The value of the first outer member of this name */
  function ValueOf(items: Items, name: cstring): Option<Json> {
    match Member(items, name, 1)
    case None => None
    case Some((_, value)) => Some(value)
  }

  predicate AllDigits(t: seq<byte>) {
    t != [] && forall c :: c in t ==> Digit(c)
  }

  /**
   * The int of a value: an integer that fits is itself, text that starts with neither
   * digit nor sign is 0, and a missing member is its default.
   */
  predicate IntOf(value: Option<Json>, def: int32, v: int32) {
    match value
    case None => v == def
    case Some(Atom(t)) =>
      && (AllDigits(t) ==> Decimal(t) <= 0x7FFF_FFFF ==> v == Decimal(t))
      && (t != [] && t[0] == MINUS && AllDigits(t[1..]) ==> Decimal(t[1..]) <= 0x8000_0000 ==> v == 0 - Decimal(t[1..]))
      && (t != [] && !Digit(t[0]) && t[0] != MINUS && t[0] != PLUS ==> v == 0)
    case Some(_) => v == 0
  }

  /** The truth of a value: true is 1, false is 0, and anything else as an int. */
  predicate TruthOf(value: Option<Json>, def: int32, v: int32) {
    match value
    case Some(Atom(t)) =>
      if t == TRUE then v == 1
      else if t == FALSE then v == 0
      else t != [] && t[0] != TRUE[0] && t[0] != FALSE[0] ==> IntOf(value, def, v)
    case _ => IntOf(value, def, v)
  }

  /** The text of a value as it is read from a parcel: a string's characters, '?' outside ASCII, or nothing. */
  predicate TextOf(value: Option<Json>, got: Got) {
    && got.GotStr16? && got.s.Some?
    && var text := match value case Some(Str(t)) => t case _ => [];
       |got.s.value| == |text| && forall i :: 0 <= i < |text| ==> got.s.value[i] == if text[i] < 128 then text[i] else 63
  }

  lemma NoNumber(s: seq<byte>, p: nat)
    requires p < |s| && !Digit(s[p]) && s[p] != MINUS && s[p] != PLUS && !CSpace(s[p])
    ensures Atoi(s, p) == 0
  {
    hide ToInt32, Saturated;
    FitsInt(false, 0);
    assert PastCSpace(s, p) == p && DigitsFrom(s, p, 0) == 0;
  }

  /** Where a member's value is, and what stands around it */
  lemma ValueHere(items: Items, key: cstring)
    requires WellFormed(Obj(items)) && QUOTE !in key && CText(Print(Obj(items))) && Member(items, key, 1).Some?
    ensures var s: cstring := Print(Obj(items));
            var (p, value) := Member(items, key, 1).value;
            && FindKey(s, key) == Some(p) && WellFormed(value) && Here(s, p, Print(value)) && |Print(value)| > 0 && p < |s|
            && s[p] == Print(value)[0] && !Digit(At(s, p + |Print(value)|))
  {
    hide FindKey, Print, PrintItems, ItemsOk, Member, NoBackslash, Here, Digit, KeyFrom;
    KeyLookup(items, key, []);
    var s := Print(Obj(items));
    assert s + [] == s;
    var (p, value) := Member(items, key, 1).value;
    ObjectInPlace(items, []);
    ObjectCloses(items, []);
    MemberInPlace(s, 1, items, key);
    MemberEnds(s, 1, items, key);
    NotDigits();
    FirstByte(value);
    HereAt(s, p, Print(value), 0);
    HereInside(s, p, Print(value));
  }

  lemma IntRead(items: Items, key: cstring, def: int32)
    requires WellFormed(Obj(items)) && QUOTE !in key && CText(Print(Obj(items)))
    ensures IntOf(match Member(items, key, 1) case None => None case Some((_, value)) => Some(value), def,
                  GetInt(Print(Obj(items)), key, def))
  {
    hide FindKey, Member, Here, Atoi, WellFormed, Decimal;
    var s := Print(Obj(items));
    if Member(items, key, 1).None? {
      KeyAbsent(items, key);
    } else {
      ValueHere(items, key);
      var (p, value) := Member(items, key, 1).value;
      AtoiOf(s, p, value, def);
    }
  }

  lemma AtoiOf(s: seq<byte>, p: nat, value: Json, def: int32)
    requires WellFormed(value) && Here(s, p, Print(value)) && |Print(value)| > 0 && p < |s| && s[p] == Print(value)[0]
    requires !Digit(At(s, p + |Print(value)|))
    ensures IntOf(Some(value), def, Atoi(s, p))
  {
    hide Here, Atoi, Decimal, At, PrintItems, ItemsOk, Quoted;
    match value
    case Atom(t) =>
      assert t[0] in t;
      if AllDigits(t) {
        if Decimal(t) <= 0x7FFF_FFFF {
          PositiveAtoi(s, p, t);
        }
      } else if t[0] == MINUS {
        assert t == [MINUS] + t[1..];
        if AllDigits(t[1..]) && Decimal(t[1..]) <= 0x8000_0000 {
          NegativeAtoi(s, p, t[1..]);
        }
      } else if !Digit(t[0]) && t[0] != PLUS {
        NoNumber(s, p);
      }
      DigitFirst(t);
    case Str(t) =>
      QuoteFirst(t);
      NoNumber(s, p);
    case Arr(_) => NoNumber(s, p);
    case Obj(_) => NoNumber(s, p);
  }

  lemma DigitFirst(t: seq<byte>)
    requires t != []
    ensures AllDigits(t) ==> Digit(t[0])
  {
    assert t[0] in t;
  }

  lemma QuoteFirst(t: seq<byte>)
    ensures Quoted(t)[0] == QUOTE
  {
  }

  lemma TruthRead(items: Items, key: cstring, def: int32)
    requires WellFormed(Obj(items)) && QUOTE !in key && CText(Print(Obj(items)))
    ensures TruthOf(match Member(items, key, 1) case None => None case Some((_, value)) => Some(value), def,
                    GetBool(Print(Obj(items)), key, def))
  {
    hide FindKey, Member, Atoi, WellFormed, Decimal, IntOf, Print;
    var s: cstring := Print(Obj(items));
    IntRead(items, key, def);
    if Member(items, key, 1).None? {
      KeyAbsent(items, key);
    } else {
      ValueHere(items, key);
      var (p, value) := Member(items, key, 1).value;
      WordFirst(s, p, value);
    }
  }

  /** The words true and false at a value are the atoms true and false. */
  lemma WordFirst(s: seq<byte>, p: nat, value: Json)
    requires WellFormed(value) && Here(s, p, Print(value)) && |Print(value)| > 0 && p < |s| && s[p] == Print(value)[0]
    ensures value == Atom(TRUE) ==> Here(s, p, TRUE)
    ensures value == Atom(FALSE) ==> Here(s, p, FALSE) && !Here(s, p, TRUE)
    ensures s[p] != TRUE[0] ==> !Here(s, p, TRUE)
    ensures s[p] != FALSE[0] ==> !Here(s, p, FALSE)
    ensures value.Atom? ==> s[p] == value.text[0]
    ensures !value.Atom? ==> s[p] != TRUE[0] && s[p] != FALSE[0]
  {
    hide PrintItems, ItemsOk;
    if Here(s, p, TRUE) {
      HereAt(s, p, TRUE, 0);
    }
    if Here(s, p, FALSE) {
      HereAt(s, p, FALSE, 0);
    }
    FirstByte(value);
  }

  lemma TextRead(items: Items, key: cstring)
    requires WellFormed(Obj(items)) && QUOTE !in key && CText(Print(Obj(items)))
    ensures TextOf(match Member(items, key, 1) case None => None case Some((_, value)) => Some(value),
                   AsRead(Str16(Some(TextField(Print(Obj(items)), key)))))
  {
    hide Member, TextField, Print;
    FieldIsMember(items, key);
  }

  // ---- Records in their places --------------------------------------------

  /** The members of the k-th object of a list */
  function ElementAt(items: Items, k: nat): Items
    requires CallList(items) && k < CallCount(items)
  {
    if k == 0 then items.value.items else ElementAt(items.rest, k - 1)
  }

  lemma {:induction false} ElementFine(items: Items, k: nat)
    requires ItemsOk(items, false) && CallList(items) && NoNul(items) && k < CallCount(items)
    ensures WellFormed(Obj(ElementAt(items, k))) && CText(Print(Obj(ElementAt(items, k))))
  {
    hide Print;
    if k > 0 {
      ElementFine(items.rest, k - 1);
    }
  }

  lemma {:induction false} ElementRecordAt(items: Items, from: nat, k: nat)
    requires ItemsOk(items, false) && CallList(items) && NoNul(items) && k < CallCount(items) && from + CallCount(items) < 0x8000_0000
    ensures WellFormed(Obj(ElementAt(items, k))) && CText(Print(Obj(ElementAt(items, k))))
    ensures |ElementRecords(items, from)| == CallCount(items)
    ensures ElementRecords(items, from)[k] == Record(Print(Obj(ElementAt(items, k))), from + k)
  {
    hide Record, Print;
    ElementFine(items, k);
    if k > 0 {
      ElementRecordAt(items.rest, from + 1, k - 1);
    } else if CallCount(items) > 1 {
      ElementRecordAt(items.rest, from + 1, 0);
    }
  }

  lemma {:induction false} FlatAt(records: seq<seq<Item>>, k: nat, j: nat)
    requires k < |records| && j < 13 && forall r :: r in records ==> |r| == 13
    ensures |Flat(records)| == 13 * |records| && Flat(records)[13 * k + j] == records[k][j]
  {
    FlatLength(records);
    assert records[0] in records;
    FlatLength(records[1..]);
    if k > 0 {
      FlatAt(records[1..], k - 1, j);
    }
  }

  // ---- Reading ------------------------------------------------------------

  /** The kinds of a record's thirteen values: numbers but for the ninth and the eleventh */
  const RecordShape: seq<Item> := [I32(0), I32(0), I32(0), I32(0), I32(0), I32(0), I32(0), I32(0), Str16(None), I32(0), Str16(None), I32(0), I32(0)]

  function Shapes(n: nat): (shapes: seq<Item>)
    ensures |shapes| == 13 * n
    ensures forall i :: 0 <= i < |shapes| ==> shapes[i] == RecordShape[i % 13]
  {
    seq(13 * n, i requires 0 <= i => RecordShape[i % 13])
  }

  lemma {:induction false} SameKinds(data: seq<byte>, a: seq<Item>, b: seq<Item>)
    requires |a| == |b| && forall i :: 0 <= i < |a| ==> (a[i].I32? <==> b[i].I32?)
    ensures ReadItems(data, a) == ReadItems(data, b)
  {
    hide ReadI32At, ReadStr16At;
    if a != [] {
      SameKinds(data, a[..|a| - 1], b[..|b| - 1]);
    }
  }

  lemma RecordKinds(json: cstring, i: nat)
    requires i < 0x7FFF_FFFF
    ensures forall j :: 0 <= j < 13 ==> (Record(json, i)[j].I32? <==> RecordShape[j].I32?)
  {
    hide GetInt, GetBool, TextField, Ascii;
  }

  /** What the phone reads of the k-th call */
  predicate RecordReads(got: seq<Got>, o: Items, k: nat)
    requires |got| == 13
  {
    && (forall j :: 0 <= j < 13 && j != 8 && j != 10 ==> got[j].GotI32?)
    && IntOf(ValueOf(o, STATE), 0, got[0].v)
    && k < 0x7FFF_FFFF && IntOf(ValueOf(o, INDEX), k + 1, got[1].v)
    && got[2].v == 145
    && TruthOf(ValueOf(o, IS_MPTY), 0, got[3].v)
    && TruthOf(ValueOf(o, IS_MT), 0, got[4].v)
    && got[5].v == 0 && got[6].v == 1 && got[7].v == 0
    && TextOf(ValueOf(o, NUMBER), got[8])
    && IntOf(ValueOf(o, PRESENTATION), 0, got[9].v)
    && TextOf(ValueOf(o, NAME), got[10])
    && got[11].v == 0 && got[12].v == 0
  }

  lemma RecordOfObject(o: Items, k: nat)
    requires WellFormed(Obj(o)) && CText(Print(Obj(o))) && k < 0x7FFF_FFFF
    ensures RecordReads(AllAsRead(Record(Print(Obj(o)), k)), o, k)
  {
    hide Print, GetInt, GetBool, TextField, IntOf, TruthOf, TextOf, Member, Ascii;
    QuoteFree();
    IntRead(o, Ascii("state"), 0);
    IntRead(o, Ascii("index"), k + 1);
    TruthRead(o, Ascii("isMpty"), 0);
    TruthRead(o, Ascii("isMT"), 0);
    TextRead(o, Ascii("number"));
    IntRead(o, Ascii("numberPresentation"), 0);
    TextRead(o, Ascii("name"));
  }

  lemma QuoteFree()
    ensures QUOTE !in Ascii("state") && QUOTE !in Ascii("index") && QUOTE !in Ascii("isMpty") && QUOTE !in Ascii("isMT")
    ensures QUOTE !in Ascii("number") && QUOTE !in Ascii("numberPresentation") && QUOTE !in Ascii("name")
  {
    hide Ascii;
    NoQuote("state");
    NoQuote("index");
    NoQuote("isMpty");
    NoQuote("isMT");
    NoQuote("number");
    NoQuote("numberPresentation");
    NoQuote("name");
  }

  lemma NoQuote(t: string)
    requires |t| < 100 && forall i :: 0 <= i < |t| ==> '#' <= t[i] <= '~'
    ensures QUOTE !in Ascii(t)
  {
  }

  /**
   * For a printed list of call objects, the phone reads their number, and then for
   * each of them, in order, the values its members have.
   */
  lemma CallsRead(before: seq<byte>, items: Items, rest: seq<byte>, k: nat)
    requires WellFormed(Arr(items)) && CallList(items) && NoNul(items) && LBRACKET !in before
    requires var data := before + (Print(Arr(items)) + rest); 0 !in data && |data| < 0x8000_0000
    requires CallCount(items) < 0x8000_0000 && k < CallCount(items)
    ensures var n := CallCount(items);
            var response := MessageBytes(Response(before + (Print(Arr(items)) + rest)));
            var (got, end) := ReadItems(response, [I32(0)] + Shapes(n));
            && |got| == 1 + 13 * n && end == |response| && got[0] == GotI32(n)
            && RecordReads(got[1 + 13 * k..1 + 13 * k + 13], ElementAt(items, k), k)
  {
    hide Print, Response, Record, MessageBytes, ReadItems, RecordReads, ElementRecords, Flat, AsRead, NoNul, CallCount, CallList, ElementAt,
         Shapes, ItemsOk;
    var data: cstring := before + (Print(Arr(items)) + rest);
    var n := CallCount(items);
    var records := ElementRecords(items, 0);
    CallsWritten(before, items, rest);
    var written := Response(data);
    ParcelRoundTrip(written);
    ListOk(items);
    ResponseKinds(items);
    SameKinds(MessageBytes(written), written, [I32(0)] + Shapes(n));
    ElementRecordAt(items, 0, k);
    RecordPart(items, k);
    var o := ElementAt(items, k);
    RecordOfObject(o, k);
    var got := AllAsRead(written);
    NumberAsRead(n);
    assert got[1 + 13 * k..1 + 13 * k + 13] == AllAsRead(Record(Print(Obj(o)), k)) by {
      assert written[1 + 13 * k..1 + 13 * k + 13] == Record(Print(Obj(o)), k);
    }
  }

  lemma NumberAsRead(n: int32)
    ensures AsRead(I32(n)) == GotI32(n)
  {
  }

  lemma ListOk(items: Items)
    requires WellFormed(Arr(items))
    ensures ItemsOk(items, false)
  {
  }

  lemma {:induction false} AllThirteen(items: Items, from: nat)
    requires NoNul(items) && from + CallCount(items) < 0x8000_0000
    ensures forall r :: r in ElementRecords(items, from) ==> |r| == 13
    ensures |ElementRecords(items, from)| == CallCount(items)
  {
    hide Record, Print;
    if items.Next? {
      AllThirteen(items.rest, from + 1);
    }
  }

  /** The response's kinds are a number and then the record shape, over and over. */
  lemma ResponseKinds(items: Items)
    requires ItemsOk(items, false) && CallList(items) && NoNul(items) && CallCount(items) < 0x8000_0000
    ensures var n := CallCount(items);
            var written, shapes := [I32(n)] + Flat(ElementRecords(items, 0)), [I32(0)] + Shapes(n);
            |written| == |shapes| && forall i :: 0 <= i < |written| ==> (written[i].I32? <==> shapes[i].I32?)
  {
    hide Record, Flat, ElementRecords, NoNul, CallList, ItemsOk, ElementAt, CallCount;
    var n, records := CallCount(items), ElementRecords(items, 0);
    AllThirteen(items, 0);
    FlatLength(records);
    forall i | 0 <= i < 13 * n
      ensures Flat(records)[i].I32? <==> Shapes(n)[i].I32?
    {
      var k, j := i / 13, i % 13;
      assert k < n;
      ElementRecordAt(items, 0, k);
      FlatAt(records, k, j);
      RecordKinds(Print(Obj(ElementAt(items, k))), k);
    }
  }

  /** Record k is thirteen values of the response. */
  lemma RecordPart(items: Items, k: nat)
    requires ItemsOk(items, false) && CallList(items) && NoNul(items) && CallCount(items) < 0x8000_0000 && k < CallCount(items)
    requires CText(Print(Obj(ElementAt(items, k))))
    ensures var written := [I32(CallCount(items))] + Flat(ElementRecords(items, 0));
            && |written| == 1 + 13 * CallCount(items)
            && written[1 + 13 * k..1 + 13 * k + 13] == Record(Print(Obj(ElementAt(items, k))), k)
  {
    hide Record, Flat, ElementRecords, NoNul, CallList, ItemsOk, ElementAt, CallCount, Print;
    var records := ElementRecords(items, 0);
    AllThirteen(items, 0);
    FlatLength(records);
    ElementRecordAt(items, 0, k);
    forall j | 0 <= j < 13
      ensures Flat(records)[13 * k + j] == records[k][j]
    {
      FlatAt(records, k, j);
    }
  }
}

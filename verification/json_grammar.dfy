/**
 * JSON texts printed from trees, with any white space: what the scanning helpers
 * find in them.
 */
module JsonGrammar {
  import opened Bits
  import opened JsonScan
  import opened Parcels
  import opened Wrappers

  // ---- Trees --------------------------------------------------------------

  /** White space before an element, or a member's name and the white space around it and its colon */
  datatype Label = Unnamed(before: seq<byte>) | Named(before: seq<byte>, name: seq<byte>, gap: seq<byte>, lead: seq<byte>)

  /** An atom is a number, true, false or null. */
  datatype Json = Str(text: seq<byte>) | Atom(text: seq<byte>) | Arr(items: Items) | Obj(items: Items)

  /** Elements or members, then white space */
  datatype Items = Done(space: seq<byte>) | Next(head: Label, value: Json, after: seq<byte>, rest: Items)

  predicate Blank(t: seq<byte>) {
    forall c :: c in t ==> Space(c)
  }

  /** Text between quotes: no quote, no backslash. */
  predicate Clean(t: seq<byte>) {
    QUOTE !in t && BACKSLASH !in t
  }

  predicate AtomByte(c: byte) {
    Digit(c) || c == MINUS || c == PLUS || c == 0x2E || 0x61 <= c <= 0x7A || 0x41 <= c <= 0x5A
  }

  predicate LabelOk(head: Label) {
    match head
    case Unnamed(before) => Blank(before)
    case Named(before, name, gap, lead) => Blank(before) && Clean(name) && Blank(gap) && Blank(lead)
  }

  predicate WellFormed(j: Json) {
    match j
    case Str(text) => Clean(text)
    case Atom(text) => text != [] && forall c :: c in text ==> AtomByte(c)
    case Arr(items) => ItemsOk(items, false)
    case Obj(items) => ItemsOk(items, true)
  }

  predicate ItemsOk(items: Items, named: bool) {
    match items
    case Done(space) => Blank(space)
    case Next(head, value, after, rest) =>
      LabelOk(head) && head.Named? == named && WellFormed(value) && Blank(after) && ItemsOk(rest, named)
  }

  // ---- Printing -----------------------------------------------------------

  function Quoted(t: seq<byte>): seq<byte> {
    [QUOTE] + (t + [QUOTE])
  }

  function LabelText(head: Label): seq<byte> {
    match head
    case Unnamed(before) => before
    case Named(before, name, gap, lead) => before + (Quoted(name) + (gap + ([COLON] + lead)))
  }

  function Print(j: Json): (t: seq<byte>)
    ensures |t| > 0 || j.Atom?
  {
    match j
    case Str(text) => Quoted(text)
    case Atom(text) => text
    case Arr(items) => [LBRACKET] + (PrintItems(items) + [RBRACKET])
    case Obj(items) => [LBRACE] + (PrintItems(items) + [RBRACE])
  }

  function Comma(rest: Items): seq<byte> {
    if rest.Done? then [] else [COMMA]
  }

  function PrintItems(items: Items): seq<byte> {
    match items
    case Done(space) => space
    case Next(head, value, after, rest) =>
      LabelText(head) + (Print(value) + (after + (Comma(rest) + PrintItems(rest))))
  }

  /** The first member of this name: where its value starts, and the value. */
  function Member(items: Items, key: seq<byte>, at: nat): Option<(nat, Json)> {
    match items
    case Done(_) => None
    case Next(head, value, after, rest) =>
      var start := at + |LabelText(head)|;
      if head.Named? && head.name == key then Some((start, value))
      else Member(rest, key, start + |Print(value)| + |after| + |Comma(rest)|)
  }

  // ---- Text in place ------------------------------------------------------

  lemma HereSplit(s: seq<byte>, i: nat, a: seq<byte>, b: seq<byte>)
    requires Here(s, i, a + b)
    ensures Here(s, i, a) && Here(s, i + |a|, b)
  {
    var t := s[i..i + |a + b|];
    assert s[i..i + |a|] == t[..|a|] && s[i + |a|..i + |a| + |b|] == t[|a|..];
  }

  lemma HereAt(s: seq<byte>, i: nat, t: seq<byte>, k: nat)
    requires Here(s, i, t) && k < |t|
    ensures s[i + k] == t[k]
  {
    assert s[i..i + |t|][k] == t[k];
  }

  /** No backslash before position n */
  predicate NoBackslash(s: seq<byte>, n: nat) {
    n <= |s| && forall k :: 0 <= k < n ==> s[k] != BACKSLASH
  }

  lemma NoBackslashBefore(s: seq<byte>, m: nat, n: nat)
    requires m <= n && NoBackslash(s, n)
    ensures NoBackslash(s, m)
  {
  }

  /** Bytes that no scanner reacts to outside a string */
  predicate Inert(t: seq<byte>) {
    forall c :: c in t ==> c != QUOTE && Deeper(c) == 0
  }

  lemma CommaInert(rest: Items)
    ensures Inert(Comma(rest))
  {
  }

  lemma BlankInert(t: seq<byte>)
    requires Blank(t)
    ensures Inert(t)
  {
  }

  // ---- Key lookup passes over what is nested ------------------------------

  lemma KeyPastByte(s: seq<byte>, key: cstring, i: nat, depth: int, c: byte)
    requires Here(s, i, [c]) && c != QUOTE
    ensures KeyFrom(s, key, i, depth, false) == KeyFrom(s, key, i + 1, depth + Deeper(c), false)
  {
    HereAt(s, i, [c], 0);
  }

  lemma {:induction false} KeyPastInert(s: seq<byte>, key: cstring, i: nat, depth: int, t: seq<byte>)
    requires Here(s, i, t) && Inert(t)
    ensures KeyFrom(s, key, i, depth, false) == KeyFrom(s, key, i + |t|, depth, false)
    decreases |t|
  {
    hide KeyFrom, Here;
    if t != [] {
      assert t == [t[0]] + t[1..];
      HereSplit(s, i, [t[0]], t[1..]);
      assert t[0] in t && forall c :: c in t[1..] ==> c in t;
      KeyPastByte(s, key, i, depth, t[0]);
      KeyPastInert(s, key, i + 1, depth, t[1..]);
    }
  }

  /** Inside a string: to its closing quote and over it. */
  lemma {:induction false} KeyPastText(s: seq<byte>, key: cstring, i: nat, depth: int, t: seq<byte>)
    requires 0 < i && Here(s, i, t + [QUOTE]) && QUOTE !in t && NoBackslash(s, i + |t| + 1)
    ensures KeyFrom(s, key, i, depth, true) == KeyFrom(s, key, i + |t| + 1, depth, false)
    decreases |t|
  {
    HereAt(s, i, t + [QUOTE], 0);
    if t != [] {
      assert t + [QUOTE] == t[..1] + (t[1..] + [QUOTE]);
      HereSplit(s, i, t[..1], t[1..] + [QUOTE]);
      KeyPastText(s, key, i + 1, depth, t[1..]);
    }
  }

  /** A whole string, unless it is the key with a colon after it at the outer level */
  lemma KeyPastQuoted(s: seq<byte>, key: cstring, i: nat, depth: int, t: seq<byte>)
    requires Here(s, i, Quoted(t)) && QUOTE !in t && NoBackslash(s, i + |t| + 2)
    requires depth != 1 || KeyValue(s, key, i).None?
    ensures KeyFrom(s, key, i, depth, false) == KeyFrom(s, key, i + |t| + 2, depth, false)
  {
    HereAt(s, i, Quoted(t), 0);
    HereSplit(s, i, [QUOTE], t + [QUOTE]);
    KeyPastText(s, key, i + 1, depth, t);
  }

  /** A value below the outer level, or one at it that is not a string followed by a colon */
  lemma {:induction false} KeyPastValue(s: seq<byte>, key: cstring, i: nat, depth: int, j: Json)
    requires WellFormed(j) && Here(s, i, Print(j)) && NoBackslash(s, i + |Print(j)|)
    requires depth >= 2 || (depth == 1 && (j.Str? ==> KeyValue(s, key, i).None?))
    ensures KeyFrom(s, key, i, depth, false) == KeyFrom(s, key, i + |Print(j)|, depth, false)
    decreases j
  {
    hide KeyFrom, KeyValue;
    match j
    case Str(text) => KeyPastQuoted(s, key, i, depth, text);
    case Atom(text) => KeyPastInert(s, key, i, depth, text);
    case Arr(items) =>
      KeyPastGroup(s, key, i, depth, LBRACKET, items, RBRACKET, false);
    case Obj(items) =>
      KeyPastGroup(s, key, i, depth, LBRACE, items, RBRACE, true);
  }

  lemma {:induction false} KeyPastGroup(s: seq<byte>, key: cstring, i: nat, depth: int, open: byte, items: Items, close: byte, named: bool)
    requires ItemsOk(items, named) && depth >= 1
    requires open != QUOTE && close != QUOTE && Deeper(open) == 1 && Deeper(close) == -1
    requires Here(s, i, [open] + (PrintItems(items) + [close])) && NoBackslash(s, i + |PrintItems(items)| + 2)
    ensures KeyFrom(s, key, i, depth, false) == KeyFrom(s, key, i + |PrintItems(items)| + 2, depth, false)
    decreases items, 1
  {
    hide KeyFrom;
    HereSplit(s, i, [open], PrintItems(items) + [close]);
    HereSplit(s, i + 1, PrintItems(items), [close]);
    KeyPastByte(s, key, i, depth, open);
    KeyPastItems(s, key, i + 1, depth + 1, items, named);
    KeyPastByte(s, key, i + 1 + |PrintItems(items)|, depth + 1, close);
  }

  lemma {:induction false} KeyPastItems(s: seq<byte>, key: cstring, i: nat, depth: int, items: Items, named: bool)
    requires ItemsOk(items, named) && depth >= 2
    requires Here(s, i, PrintItems(items)) && NoBackslash(s, i + |PrintItems(items)|)
    ensures KeyFrom(s, key, i, depth, false) == KeyFrom(s, key, i + |PrintItems(items)|, depth, false)
    decreases items, 0
  {
    hide KeyFrom, Blank, Here, Inert, NoBackslash, LabelText, Print;
    match items
    case Done(space) =>
      BlankInert(space);
      KeyPastInert(s, key, i, depth, space);
    case Next(head, value, after, rest) =>
      ItemInPlace(s, i, items);
      var v := i + |LabelText(head)|;
      var w := v + |Print(value)|;
      NoBackslashBefore(s, v, i + |PrintItems(items)|);
      NoBackslashBefore(s, w, i + |PrintItems(items)|);
      CommaInert(rest);
      KeyPastLabel(s, key, i, depth, head);
      KeyPastValue(s, key, v, depth, value);
      BlankInert(after);
      KeyPastInert(s, key, w, depth, after);
      KeyPastInert(s, key, w + |after|, depth, Comma(rest));
      KeyPastItems(s, key, w + |after| + |Comma(rest)|, depth, rest, named);
  }

  /** Where an item's parts are, and what is left after it */
  lemma ItemInPlace(s: seq<byte>, i: nat, items: Items)
    requires items.Next? && Here(s, i, PrintItems(items))
    ensures var v := i + |LabelText(items.head)|;
            var w := v + |Print(items.value)|;
            var r := w + |items.after| + |Comma(items.rest)|;
            && Here(s, i, LabelText(items.head)) && Here(s, v, Print(items.value)) && Here(s, w, items.after)
            && Here(s, w + |items.after|, Comma(items.rest)) && Here(s, r, PrintItems(items.rest))
            && r + |PrintItems(items.rest)| == i + |PrintItems(items)|
  {
    hide Here, LabelText, Print, Comma;
    var c := Comma(items.rest) + PrintItems(items.rest);
    var b := items.after + c;
    var a := Print(items.value) + b;
    var v := i + |LabelText(items.head)|;
    HereSplit(s, i, LabelText(items.head), a);
    HereSplit(s, v, Print(items.value), b);
    HereSplit(s, v + |Print(items.value)|, items.after, c);
    HereSplit(s, v + |Print(items.value)| + |items.after|, Comma(items.rest), PrintItems(items.rest));
  }

  /** A label below the outer level */
  lemma KeyPastLabel(s: seq<byte>, key: cstring, i: nat, depth: int, head: Label)
    requires LabelOk(head) && Here(s, i, LabelText(head)) && NoBackslash(s, i + |LabelText(head)|) && depth >= 2
    ensures KeyFrom(s, key, i, depth, false) == KeyFrom(s, key, i + |LabelText(head)|, depth, false)
  {
    hide KeyFrom, KeyValue, Blank, Here, NoBackslash, Inert, LabelText;
    match head
    case Unnamed(before) =>
      UnnamedText(before);
      BlankInert(before);
      KeyPastInert(s, key, i, depth, before);
    case Named(before, name, gap, lead) =>
      var q := i + |before|;
      NamedInPlace(s, i, head);
      NoBackslashBefore(s, q + |name| + 2, i + |LabelText(head)|);
      BlankInert(before);
      KeyPastInert(s, key, i, depth, before);
      KeyPastQuoted(s, key, q, depth, name);
      KeyPastColon(s, key, q + |name| + 2, depth, gap, lead);
  }

  lemma UnnamedText(before: seq<byte>)
    ensures LabelText(Unnamed(before)) == before
  {
  }

  lemma NamedInPlace(s: seq<byte>, i: nat, head: Label)
    requires head.Named? && Here(s, i, LabelText(head))
    ensures var q := i + |head.before|;
            && Here(s, i, head.before) && Here(s, q, Quoted(head.name))
            && Here(s, q + |head.name| + 2, head.gap + ([COLON] + head.lead))
            && q + |head.name| + 2 + |head.gap| + 1 + |head.lead| == i + |LabelText(head)|
  {
    hide Here;
    var b := head.gap + ([COLON] + head.lead);
    HereSplit(s, i, head.before, Quoted(head.name) + b);
    HereSplit(s, i + |head.before|, Quoted(head.name), b);
  }

  lemma KeyPastColon(s: seq<byte>, key: cstring, i: nat, depth: int, gap: seq<byte>, lead: seq<byte>)
    requires Blank(gap) && Blank(lead) && Here(s, i, gap + ([COLON] + lead))
    ensures KeyFrom(s, key, i, depth, false) == KeyFrom(s, key, i + |gap| + 1 + |lead|, depth, false)
  {
    hide KeyFrom, Here;
    HereSplit(s, i, gap, [COLON] + lead);
    HereSplit(s, i + |gap|, [COLON], lead);
    BlankInert(gap);
    BlankInert(lead);
    KeyPastInert(s, key, i, depth, gap);
    KeyPastInert(s, key, i + |gap|, depth, [COLON]);
    KeyPastInert(s, key, i + |gap| + 1, depth, lead);
  }

  // ---- Key lookup at the outer level --------------------------------------

  /** A quoted text opens the key exactly when it is the key. */
  lemma QuotedIsKey(s: seq<byte>, key: cstring, q: nat, t: seq<byte>)
    requires Here(s, q, Quoted(t)) && QUOTE !in t && QUOTE !in key
    ensures Here(s, q + 1, key) && At(s, q + 1 + |key|) == QUOTE <==> key == t
  {
    HereSplit(s, q, [QUOTE], t + [QUOTE]);
    HereSplit(s, q + 1, t, [QUOTE]);
    HereAt(s, q + 1 + |t|, [QUOTE], 0);
    if |key| < |t| {
      HereAt(s, q + 1, t, |key|);
      assert t[|key|] in t;
    } else if |key| > |t| {
      assert key[|t|] in key;
      NotHere(s, q + 1, key, |t|);
    }
  }

  lemma NotHere(s: seq<byte>, i: nat, t: seq<byte>, k: nat)
    requires k < |t| && i + k < |s| && s[i + k] != t[k]
    ensures !Here(s, i, t)
  {
    assert i + |t| <= |s| ==> s[i..i + |t|][k] == s[i + k];
  }

  lemma {:induction false} SkipBlank(s: seq<byte>, i: nat, t: seq<byte>)
    requires Here(s, i, t) && Blank(t)
    ensures SkipSpace(s, i) == SkipSpace(s, i + |t|)
    decreases |t|
  {
    hide Space;
    if t != [] {
      assert t == [t[0]] + t[1..];
      HereSplit(s, i, [t[0]], t[1..]);
      HereAt(s, i, t, 0);
      assert t[0] in t && forall c :: c in t[1..] ==> c in t;
      SkipBlank(s, i + 1, t[1..]);
    }
  }

  lemma Stands(s: seq<byte>, i: nat)
    requires !Space(At(s, i))
    ensures SkipSpace(s, i) == i
  {
  }

  /** A printed value starts with a byte that is not white space; a quote exactly when it is a string. */
  lemma ValueStarts(s: seq<byte>, i: nat, j: Json)
    requires WellFormed(j) && Here(s, i, Print(j))
    ensures !Space(At(s, i)) && At(s, i) != COLON && (At(s, i) == QUOTE <==> j.Str?)
  {
    hide WellFormed, PrintItems, Here;
    FirstByte(j);
    HereAt(s, i, Print(j), 0);
    HereInside(s, i, Print(j));
  }

  lemma HereInside(s: seq<byte>, i: nat, t: seq<byte>)
    requires Here(s, i, t)
    ensures i + |t| <= |s|
  {
  }

  lemma FirstByte(j: Json)
    requires WellFormed(j)
    ensures |Print(j)| > 0
    ensures var c := Print(j)[0]; !Space(c) && c != COLON && (c == QUOTE <==> j.Str?)
  {
    if j.Atom? {
      assert j.text[0] in j.text;
    }
  }

  /** At its own quote, a member's name leads to its value. */
  lemma NameFound(s: seq<byte>, key: cstring, i: nat, head: Label, value: Json)
    requires LabelOk(head) && head.Named? && QUOTE !in key && WellFormed(value)
    requires Here(s, i, LabelText(head)) && Here(s, i + |LabelText(head)|, Print(value))
    ensures var q := i + |head.before|;
            q < |s| && KeyValue(s, key, q) == if key == head.name then Some(i + |LabelText(head)|) else None
  {
    hide Here, Blank, SkipSpace, Print, WellFormed, Quoted, LabelText, At;
    NamedInPlace(s, i, head);
    var q := i + |head.before|;
    QuotedLength(head.name);
    HereInside(s, q, Quoted(head.name));
    QuotedIsKey(s, key, q, head.name);
    if key == head.name {
      ColonFollows(s, q + |key| + 2, head.gap, head.lead, value);
    }
  }

  /** White space, the colon, white space, and then the value */
  lemma ColonFollows(s: seq<byte>, g: nat, gap: seq<byte>, lead: seq<byte>, value: Json)
    requires Blank(gap) && Blank(lead) && WellFormed(value)
    requires Here(s, g, gap + ([COLON] + lead)) && Here(s, g + |gap| + 1 + |lead|, Print(value))
    ensures var after := SkipSpace(s, g);
            At(s, after) == COLON && SkipSpace(s, after + 1) == g + |gap| + 1 + |lead|
  {
    hide Here, Blank, SkipSpace, Print, WellFormed;
    HereSplit(s, g, gap, [COLON] + lead);
    HereSplit(s, g + |gap|, [COLON], lead);
    HereAt(s, g + |gap|, [COLON], 0);
    HereInside(s, g + |gap|, [COLON]);
    SkipBlank(s, g, gap);
    Stands(s, g + |gap|);
    SkipBlank(s, g + |gap| + 1, lead);
    ValueStarts(s, g + |gap| + 1 + |lead|, value);
    Stands(s, g + |gap| + 1 + |lead|);
  }

  lemma QuotedLength(t: seq<byte>)
    ensures |Quoted(t)| == |t| + 2
  {
  }

  /** After a value at the outer level comes a comma or the closing brace, so it is no key. */
  lemma ValueIsNoKey(s: seq<byte>, key: cstring, i: nat, items: Items)
    requires items.Next? && ItemsOk(items, true) && items.value.Str? && QUOTE !in key
    requires Here(s, i, PrintItems(items)) && At(s, i + |PrintItems(items)|) == RBRACE
    ensures KeyValue(s, key, i + |LabelText(items.head)|).None?
  {
    hide Here, Blank, SkipSpace, LabelText, PrintItems, Quoted, Space, At;
    ItemInPlace(s, i, items);
    var v, t := i + |LabelText(items.head)|, items.value.text;
    QuotedLength(t);
    assert Print(items.value) == Quoted(t);
    QuotedIsKey(s, key, v, t);
    var w := v + |t| + 2;
    SkipBlank(s, w, items.after);
    match items.rest
    case Done(space) =>
      assert PrintItems(items.rest) == space by {
        PrintDone(space);
      }
      SkipBlank(s, w + |items.after|, space);
      StopsAt(s, i + |PrintItems(items)|, RBRACE);
    case Next(_, _, _, _) =>
      HereAt(s, w + |items.after|, [COMMA], 0);
      HereInside(s, w + |items.after|, [COMMA]);
      AtIs(s, w + |items.after|);
      StopsAt(s, w + |items.after|, COMMA);
  }

  lemma StrLength(t: seq<byte>)
    ensures |Print(Str(t))| == |t| + 2
  {
  }

  lemma StopsAt(s: seq<byte>, i: nat, c: byte)
    requires At(s, i) == c && (c == RBRACE || c == COMMA)
    ensures SkipSpace(s, i) == i && At(s, i) != COLON
  {
  }

  lemma AtIs(s: seq<byte>, i: nat)
    requires i < |s|
    ensures At(s, i) == s[i]
  {
  }

  lemma PrintDone(space: seq<byte>)
    ensures PrintItems(Done(space)) == space
  {
  }

  /** The members of the outer object: the scan stops at the first one of this name, or passes them all. */
  lemma {:induction false} OuterItems(s: seq<byte>, key: cstring, i: nat, items: Items)
    requires ItemsOk(items, true) && QUOTE !in key
    requires Here(s, i, PrintItems(items)) && NoBackslash(s, i + |PrintItems(items)|) && At(s, i + |PrintItems(items)|) == RBRACE
    ensures KeyFrom(s, key, i, 1, false)
            == match Member(items, key, i)
               case Some(found) => Some(found.0)
               case None => KeyFrom(s, key, i + |PrintItems(items)|, 1, false)
    decreases items
  {
    hide KeyFrom, Blank, Here, Inert, NoBackslash, LabelText, Print, KeyValue, At;
    match items
    case Done(space) =>
      BlankInert(space);
      KeyPastInert(s, key, i, 1, space);
    case Next(head, value, after, rest) =>
      ItemInPlace(s, i, items);
      var v := i + |LabelText(head)|;
      var w := v + |Print(value)|;
      NoBackslashBefore(s, v, i + |PrintItems(items)|);
      NoBackslashBefore(s, w, i + |PrintItems(items)|);
      OuterLabel(s, key, i, head, value);
      if head.name != key {
        if value.Str? {
          ValueIsNoKey(s, key, i, items);
        }
        KeyPastValue(s, key, v, 1, value);
        BlankInert(after);
        CommaInert(rest);
        KeyPastInert(s, key, w, 1, after);
        KeyPastInert(s, key, w + |after|, 1, Comma(rest));
        OuterItems(s, key, w + |after| + |Comma(rest)|, rest);
      }
  }

  /** A label at the outer level */
  lemma OuterLabel(s: seq<byte>, key: cstring, i: nat, head: Label, value: Json)
    requires LabelOk(head) && head.Named? && QUOTE !in key && WellFormed(value)
    requires Here(s, i, LabelText(head)) && Here(s, i + |LabelText(head)|, Print(value))
    requires NoBackslash(s, i + |LabelText(head)|)
    ensures KeyFrom(s, key, i, 1, false)
            == if key == head.name then Some(i + |LabelText(head)|) else KeyFrom(s, key, i + |LabelText(head)|, 1, false)
  {
    hide KeyFrom, KeyValue, Blank, Here, NoBackslash, Print, WellFormed, Inert, LabelText;
    var q := i + |head.before|;
    NamedInPlace(s, i, head);
    BlankInert(head.before);
    KeyPastInert(s, key, i, 1, head.before);
    NameFound(s, key, i, head, value);
    HereInside(s, q, Quoted(head.name));
    NoBackslashBefore(s, q + |head.name| + 2, i + |LabelText(head)|);
    if key == head.name {
      KeyStops(s, key, q, head.name);
    } else {
      KeyPastQuoted(s, key, q, 1, head.name);
      KeyPastColon(s, key, q + |head.name| + 2, 1, head.gap, head.lead);
    }
  }

  lemma KeyStops(s: seq<byte>, key: cstring, q: nat, name: seq<byte>)
    requires Here(s, q, Quoted(name)) && NoBackslash(s, q + |name| + 2) && KeyValue(s, key, q).Some?
    ensures KeyFrom(s, key, q, 1, false) == KeyValue(s, key, q)
  {
    HereAt(s, q, Quoted(name), 0);
  }

  // ---- No backslash is ever printed ---------------------------------------

  lemma {:induction false} PrintsNoBackslash(j: Json)
    requires WellFormed(j)
    ensures BACKSLASH !in Print(j)
    decreases j
  {
    match j
    case Str(_) =>
    case Atom(_) =>
    case Arr(items) => ItemsPrintNoBackslash(items, false);
    case Obj(items) => ItemsPrintNoBackslash(items, true);
  }

  lemma {:induction false} ItemsPrintNoBackslash(items: Items, named: bool)
    requires ItemsOk(items, named)
    ensures BACKSLASH !in PrintItems(items)
    decreases items
  {
    match items
    case Done(_) =>
    case Next(_, value, _, rest) =>
      PrintsNoBackslash(value);
      ItemsPrintNoBackslash(rest, named);
  }

  lemma InTheText(t: seq<byte>, rest: seq<byte>)
    requires BACKSLASH !in t
    ensures NoBackslash(t + rest, |t|) && Here(t + rest, 0, t)
  {
  }

  // ---- The main results ---------------------------------------------------

  /** The text fits a NUL-terminated buffer. */
  predicate CText(s: seq<byte>) {
    0 !in s && |s| < 0x8000_0000
  }

  /**
   * In a printed object, whatever follows it, key lookup finds the value of the first
   * outer member of that name; when there is none the scan goes on behind the object.
   */
  lemma KeyLookup(items: Items, key: cstring, rest: seq<byte>)
    requires WellFormed(Obj(items)) && QUOTE !in key && CText(Print(Obj(items)) + rest)
    ensures var s: cstring := Print(Obj(items)) + rest;
            FindKey(s, key) == match Member(items, key, 1)
                               case Some(found) => Some(found.0)
                               case None => KeyFrom(s, key, |Print(Obj(items))|, 0, false)
  {
    hide KeyFrom, ItemsOk, PrintItems, Here, NoBackslash;
    var text := Print(Obj(items));
    var s := text + rest;
    PrintsNoBackslash(Obj(items));
    InTheText(text, rest);
    HereSplit(s, 0, [LBRACE], PrintItems(items) + [RBRACE]);
    HereSplit(s, 1, PrintItems(items), [RBRACE]);
    var end := 1 + |PrintItems(items)|;
    HereAt(s, end, [RBRACE], 0);
    KeyPastByte(s, key, 0, 0, LBRACE);
    NoBackslashBefore(s, end, |text|);
    OuterItems(s, key, 1, items);
    KeyPastByte(s, key, end, 1, RBRACE);
  }

  /** Alone in the buffer, an object has the key if and only if lookup finds one. */
  lemma KeyAbsent(items: Items, key: cstring)
    requires WellFormed(Obj(items)) && QUOTE !in key && CText(Print(Obj(items)))
    ensures FindKey(Print(Obj(items)), key).None? <==> Member(items, key, 1).None?
  {
    hide Print, Member;
    KeyLookup(items, key, []);
    assert Print(Obj(items)) + [] == Print(Obj(items));
  }

  /** Where Member says the value is, it is. */
  lemma {:induction false} MemberInPlace(s: seq<byte>, i: nat, items: Items, key: seq<byte>)
    requires Here(s, i, PrintItems(items)) && ItemsOk(items, true) && Member(items, key, i).Some?
    ensures var found := Member(items, key, i).value;
            WellFormed(found.1) && Here(s, found.0, Print(found.1)) && found.0 >= i
            && found.0 + |Print(found.1)| <= i + |PrintItems(items)|
    decreases items
  {
    hide Here, Print, LabelText;
    ItemInPlace(s, i, items);
    if items.head.name != key {
      MemberInPlace(s, i + |LabelText(items.head)| + |Print(items.value)| + |items.after| + |Comma(items.rest)|, items.rest, key);
    }
  }

  lemma {:induction false} ToQuote(s: seq<byte>, i: nat, t: seq<byte>)
    requires 0 < i && Here(s, i, t + [QUOTE]) && QUOTE !in t && NoBackslash(s, i + |t|)
    ensures QuoteFrom(s, i) == i + |t|
    decreases |t|
  {
    HereAt(s, i, t + [QUOTE], 0);
    if t != [] {
      assert t + [QUOTE] == t[..1] + (t[1..] + [QUOTE]);
      HereSplit(s, i, t[..1], t[1..] + [QUOTE]);
      ToQuote(s, i + 1, t[1..]);
    }
  }

  /** A string member's text is returned exactly; any other value gives none. */
  lemma StringLookup(items: Items, key: cstring, rest: seq<byte>)
    requires WellFormed(Obj(items)) && QUOTE !in key && Member(items, key, 1).Some? && CText(Print(Obj(items)) + rest)
    ensures GetStr(Print(Obj(items)) + rest, key)
            == match Member(items, key, 1).value.1
               case Str(text) => Some(text)
               case _ => None
  {
    hide FindKey, Print, PrintItems, ItemsOk, Member, NoBackslash;
    KeyLookup(items, key, rest);
    var s := Print(Obj(items)) + rest;
    var (p, value) := Member(items, key, 1).value;
    ObjectInPlace(items, rest);
    MemberInPlace(s, 1, items, key);
    ValueStarts(s, p, value);
    if value.Str? {
      StrLength(value.text);
      StringInPlace(s, p, value.text, |Print(Obj(items))|);
    }
  }

  lemma ObjectInPlace(items: Items, rest: seq<byte>)
    requires WellFormed(Obj(items))
    ensures var s := Print(Obj(items)) + rest;
            Here(s, 1, PrintItems(items)) && NoBackslash(s, |Print(Obj(items))|) && |Print(Obj(items))| == |PrintItems(items)| + 2
            && ItemsOk(items, true)
  {
    hide Here, NoBackslash, PrintItems, ItemsOk;
    var text := Print(Obj(items));
    PrintsNoBackslash(Obj(items));
    InTheText(text, rest);
    HereSplit(text + rest, 0, [LBRACE], PrintItems(items) + [RBRACE]);
    HereSplit(text + rest, 1, PrintItems(items), [RBRACE]);
  }

  lemma StringInPlace(s: seq<byte>, p: nat, t: seq<byte>, n: nat)
    requires WellFormed(Str(t)) && Here(s, p, Print(Str(t))) && NoBackslash(s, n) && p + |t| + 2 <= n
    ensures p + 1 <= |s| && QuoteFrom(s, p + 1) == p + 1 + |t| < |s| && s[p + 1..p + 1 + |t|] == t
  {
    hide NoBackslash;
    HereSplit(s, p, [QUOTE], t + [QUOTE]);
    NoBackslashBefore(s, p + 1 + |t|, n);
    ToQuote(s, p + 1, t);
    HereSplit(s, p + 1, t, [QUOTE]);
  }

  // ---- Integers -----------------------------------------------------------

  /** A value is followed by white space, a comma or the closing brace. */
  lemma ItemEnds(s: seq<byte>, i: nat, items: Items)
    requires items.Next? && ItemsOk(items, true) && Here(s, i, PrintItems(items)) && At(s, i + |PrintItems(items)|) == RBRACE
    ensures var c := At(s, i + |LabelText(items.head)| + |Print(items.value)|);
            Space(c) || c == COMMA || c == RBRACE
  {
    hide Here, LabelText, Print, Space;
    ItemInPlace(s, i, items);
    var w := i + |LabelText(items.head)| + |Print(items.value)|;
    if items.after != [] {
      HereAt(s, w, items.after, 0);
      HereInside(s, w, items.after);
      assert items.after[0] in items.after;
    } else {
      match items.rest
      case Done(space) =>
        if space != [] {
          HereAt(s, w, space, 0);
          HereInside(s, w, space);
          assert space[0] in space;
        }
      case Next(_, _, _, _) =>
        HereAt(s, w, [COMMA], 0);
        HereInside(s, w, [COMMA]);
    }
  }

  lemma {:induction false} MemberEnds(s: seq<byte>, i: nat, items: Items, key: seq<byte>)
    requires Here(s, i, PrintItems(items)) && ItemsOk(items, true) && At(s, i + |PrintItems(items)|) == RBRACE
    requires Member(items, key, i).Some?
    ensures var found := Member(items, key, i).value;
            var c := At(s, found.0 + |Print(found.1)|);
            Space(c) || c == COMMA || c == RBRACE
    decreases items
  {
    hide Here, Print, LabelText, At, Space;
    ItemInPlace(s, i, items);
    if items.head.name == key {
      ItemEnds(s, i, items);
    } else {
      MemberEnds(s, i + |LabelText(items.head)| + |Print(items.value)| + |items.after| + |Comma(items.rest)|, items.rest, key);
    }
  }

  /** Decimal digits, most significant first */
  function Decimal(t: seq<byte>): nat
    requires forall c :: c in t ==> Digit(c)
  {
    if t == [] then 0
    else
      assert t[|t| - 1] in t;
      assert Digit(t[|t| - 1]);
      var d := t[|t| - 1] as int - 0x30;
      10 * Decimal(t[..|t| - 1]) + d
  }

  lemma {:induction false} DigitsRead(s: seq<byte>, i: nat, t: seq<byte>, n: nat)
    requires Here(s, i, t) && (forall c :: c in t ==> Digit(c)) && n <= |t|
    ensures DigitsFrom(s, i, 0) == DigitsFrom(s, i + n, Decimal(t[..n]))
  {
    if n > 0 {
      DigitsRead(s, i, t, n - 1);
      HereAt(s, i, t, n - 1);
      HereInside(s, i, t);
      assert t[n - 1] in t;
      assert t[..n][..n - 1] == t[..n - 1];
    }
  }

  lemma NumberRead(s: seq<byte>, p: nat, t: seq<byte>)
    requires t != [] && Here(s, p, t) && (forall c :: c in t ==> Digit(c)) && !Digit(At(s, p + |t|))
    ensures DigitsFrom(s, p, 0) == Decimal(t) && p < |s| && Digit(s[p])
  {
    hide Decimal;
    DigitsRead(s, p, t, |t|);
    assert t[..|t|] == t;
    HereAt(s, p, t, 0);
    HereInside(s, p, t);
    assert t[0] in t;
    assert DigitsFrom(s, p + |t|, Decimal(t)) == Decimal(t);
  }

  lemma NoSpace(s: seq<byte>, p: nat)
    requires p < |s| && (Digit(s[p]) || s[p] == MINUS)
    ensures PastCSpace(s, p) == p && At(s, p) == s[p]
  {
  }

  lemma PositiveAtoi(s: seq<byte>, p: nat, t: seq<byte>)
    requires t != [] && Here(s, p, t) && (forall c :: c in t ==> Digit(c)) && !Digit(At(s, p + |t|))
    requires Decimal(t) < 0x8000_0000
    ensures Atoi(s, p) == Decimal(t)
  {
    hide ToInt32, Saturated, Decimal, DigitsFrom, Here, PastCSpace, At;
    FitsInt(false, Decimal(t));
    NumberRead(s, p, t);
    NoSpace(s, p);
  }

  lemma NegativeAtoi(s: seq<byte>, p: nat, t: seq<byte>)
    requires t != [] && Here(s, p, [MINUS] + t) && (forall c :: c in t ==> Digit(c)) && !Digit(At(s, p + 1 + |t|))
    requires Decimal(t) <= 0x8000_0000
    ensures Atoi(s, p) == 0 - Decimal(t)
  {
    hide ToInt32, Saturated, Decimal, DigitsFrom, Here, PastCSpace, At;
    FitsInt(true, Decimal(t));
    HereSplit(s, p, [MINUS], t);
    HereAt(s, p, [MINUS], 0);
    HereInside(s, p, [MINUS]);
    NumberRead(s, p + 1, t);
    NoSpace(s, p);
  }

  /** An integer member is returned with its value and sign, if that fits an int. */
  lemma IntegerLookup(items: Items, key: cstring, rest: seq<byte>, def: int32, t: seq<byte>, negative: bool)
    requires WellFormed(Obj(items)) && QUOTE !in key && t != [] && forall c :: c in t ==> Digit(c)
    requires Member(items, key, 1).Some? && Member(items, key, 1).value.1 == Atom(if negative then [MINUS] + t else t)
    requires Decimal(t) <= (if negative then 0x8000_0000 else 0x7FFF_FFFF)
    requires CText(Print(Obj(items)) + rest)
    ensures GetInt(Print(Obj(items)) + rest, key, def) == if negative then 0 - Decimal(t) else Decimal(t)
  {
    hide FindKey, PrintItems, ItemsOk, Member, NoBackslash, Here, Atoi, Decimal, Digit;
    KeyLookup(items, key, rest);
    var s := Print(Obj(items)) + rest;
    var (p, value) := Member(items, key, 1).value;
    ObjectInPlace(items, rest);
    ObjectCloses(items, rest);
    MemberInPlace(s, 1, items, key);
    MemberEnds(s, 1, items, key);
    NotDigits();
    if negative {
      NegativeAtoi(s, p, t);
    } else {
      PositiveAtoi(s, p, t);
    }
  }

  lemma NotDigits()
    ensures forall c: byte :: Space(c) || c == COMMA || c == RBRACE ==> !Digit(c)
  {
  }

  lemma ObjectCloses(items: Items, rest: seq<byte>)
    requires WellFormed(Obj(items))
    ensures At(Print(Obj(items)) + rest, 1 + |PrintItems(items)|) == RBRACE
  {
    hide PrintItems, ItemsOk;
    var inner := PrintItems(items);
    assert Print(Obj(items)) == [LBRACE] + (inner + [RBRACE]);
    assert (inner + [RBRACE])[|inner|] == RBRACE;
  }
}

/** The end of a printed JSON object, wherever it stands in a buffer. */
module JsonObjects {
  import opened Bits
  import opened JsonGrammar
  import opened JsonScan
  import opened Parcels
  import opened Wrappers

  predicate NoBackslashIn(s: seq<byte>, from: nat, to: nat) {
    to <= |s| && forall k :: from <= k < to ==> s[k] != BACKSLASH
  }

  /** Bytes the search for an object's end does not react to outside a string */
  predicate Quiet(t: seq<byte>) {
    forall c :: c in t ==> c != QUOTE && c != LBRACE && c != RBRACE
  }

  lemma Narrower(s: seq<byte>, from: nat, to: nat, end: nat)
    requires NoBackslashIn(s, from, end) && to <= end
    ensures NoBackslashIn(s, from, to)
  {
  }

  lemma EndPastByte(s: seq<byte>, start: nat, i: nat, depth: int, c: byte)
    requires Here(s, i, [c]) && c != QUOTE && !(c == RBRACE && depth == 1)
    ensures EndFrom(s, start, i, depth, false)
            == EndFrom(s, start, i + 1, depth + (if c == LBRACE then 1 else if c == RBRACE then -1 else 0), false)
  {
    HereAt(s, i, [c], 0);
  }

  lemma {:induction false} EndPastQuiet(s: seq<byte>, start: nat, i: nat, depth: int, t: seq<byte>)
    requires Here(s, i, t) && Quiet(t)
    ensures EndFrom(s, start, i, depth, false) == EndFrom(s, start, i + |t|, depth, false)
    decreases |t|
  {
    hide EndFrom, Here;
    if t != [] {
      assert t == [t[0]] + t[1..];
      HereSplit(s, i, [t[0]], t[1..]);
      assert t[0] in t && forall c :: c in t[1..] ==> c in t;
      EndPastByte(s, start, i, depth, t[0]);
      EndPastQuiet(s, start, i + 1, depth, t[1..]);
    }
  }

  lemma {:induction false} EndPastText(s: seq<byte>, start: nat, i: nat, depth: int, t: seq<byte>)
    requires start < i && Here(s, i, t + [QUOTE]) && QUOTE !in t && NoBackslashIn(s, start, i + |t| + 1)
    ensures EndFrom(s, start, i, depth, true) == EndFrom(s, start, i + |t| + 1, depth, false)
    decreases |t|
  {
    HereAt(s, i, t + [QUOTE], 0);
    if t != [] {
      assert t + [QUOTE] == t[..1] + (t[1..] + [QUOTE]);
      HereSplit(s, i, t[..1], t[1..] + [QUOTE]);
      EndPastText(s, start, i + 1, depth, t[1..]);
    }
  }

  lemma EndPastQuoted(s: seq<byte>, start: nat, i: nat, depth: int, t: seq<byte>)
    requires start < i && Here(s, i, Quoted(t)) && QUOTE !in t && NoBackslashIn(s, start, i + |t| + 2)
    ensures EndFrom(s, start, i, depth, false) == EndFrom(s, start, i + |t| + 2, depth, false)
  {
    HereAt(s, i, Quoted(t), 0);
    HereSplit(s, i, [QUOTE], t + [QUOTE]);
    EndPastText(s, start, i + 1, depth, t);
  }

  lemma QuietKinds(t: seq<byte>)
    ensures Blank(t) || (forall c :: c in t ==> AtomByte(c)) ==> Quiet(t)
  {
  }

  lemma {:induction false} EndPastValue(s: seq<byte>, start: nat, i: nat, depth: int, j: Json)
    requires WellFormed(j) && start < i && depth >= 1 && Here(s, i, Print(j)) && NoBackslashIn(s, start, i + |Print(j)|)
    ensures EndFrom(s, start, i, depth, false) == EndFrom(s, start, i + |Print(j)|, depth, false)
    decreases j
  {
    hide EndFrom, Here, NoBackslashIn, Quiet;
    match j
    case Str(text) =>
      EndPastQuoted(s, start, i, depth, text);
    case Atom(text) =>
      QuietKinds(text);
      EndPastQuiet(s, start, i, depth, text);
    case Arr(items) =>
      EndPastGroup(s, start, i, depth, LBRACKET, items, RBRACKET, false);
    case Obj(items) =>
      EndPastGroup(s, start, i, depth, LBRACE, items, RBRACE, true);
  }

  lemma {:induction false} EndPastGroup(s: seq<byte>, start: nat, i: nat, depth: int, open: byte, items: Items, close: byte, named: bool)
    requires ItemsOk(items, named) && start < i && depth >= 1
    requires (open == LBRACE && close == RBRACE) || (open == LBRACKET && close == RBRACKET)
    requires Here(s, i, [open] + (PrintItems(items) + [close])) && NoBackslashIn(s, start, i + |PrintItems(items)| + 2)
    ensures EndFrom(s, start, i, depth, false) == EndFrom(s, start, i + |PrintItems(items)| + 2, depth, false)
    decreases items, 1
  {
    hide EndFrom, Here, NoBackslashIn;
    HereSplit(s, i, [open], PrintItems(items) + [close]);
    HereSplit(s, i + 1, PrintItems(items), [close]);
    EndPastByte(s, start, i, depth, open);
    var inner := if open == LBRACE then depth + 1 else depth;
    Narrower(s, start, i + 1 + |PrintItems(items)|, i + |PrintItems(items)| + 2);
    EndPastItems(s, start, i + 1, inner, items, named);
    EndPastByte(s, start, i + 1 + |PrintItems(items)|, inner, close);
  }

  lemma {:induction false} EndPastItems(s: seq<byte>, start: nat, i: nat, depth: int, items: Items, named: bool)
    requires ItemsOk(items, named) && start < i && depth >= 1
    requires Here(s, i, PrintItems(items)) && NoBackslashIn(s, start, i + |PrintItems(items)|)
    ensures EndFrom(s, start, i, depth, false) == EndFrom(s, start, i + |PrintItems(items)|, depth, false)
    decreases items, 0
  {
    hide EndFrom, Here, NoBackslashIn, Quiet, Blank, LabelText, Print;
    match items
    case Done(space) =>
      QuietKinds(space);
      EndPastQuiet(s, start, i, depth, space);
    case Next(head, value, after, rest) =>
      ItemInPlace(s, i, items);
      var v := i + |LabelText(head)|;
      var w := v + |Print(value)|;
      Narrower(s, start, v, i + |PrintItems(items)|);
      Narrower(s, start, w, i + |PrintItems(items)|);
      EndPastLabel(s, start, i, depth, head);
      EndPastValue(s, start, v, depth, value);
      QuietKinds(after);
      QuietComma(rest);
      EndPastQuiet(s, start, w, depth, after);
      EndPastQuiet(s, start, w + |after|, depth, Comma(rest));
      EndPastItems(s, start, w + |after| + |Comma(rest)|, depth, rest, named);
  }

  lemma QuietComma(rest: Items)
    ensures Quiet(Comma(rest))
  {
  }

  lemma EndPastLabel(s: seq<byte>, start: nat, i: nat, depth: int, head: Label)
    requires LabelOk(head) && start < i && Here(s, i, LabelText(head)) && NoBackslashIn(s, start, i + |LabelText(head)|)
    ensures EndFrom(s, start, i, depth, false) == EndFrom(s, start, i + |LabelText(head)|, depth, false)
  {
    hide EndFrom, Here, NoBackslashIn, Quiet, Blank;
    match head
    case Unnamed(before) =>
      QuietKinds(before);
      EndPastQuiet(s, start, i, depth, before);
    case Named(before, name, gap, lead) =>
      NamedInPlace(s, i, head);
      var q := i + |before|;
      Narrower(s, start, q + |name| + 2, i + |LabelText(head)|);
      QuietKinds(before);
      EndPastQuiet(s, start, i, depth, before);
      EndPastQuoted(s, start, q, depth, name);
      EndPastColon(s, start, q + |name| + 2, depth, gap, lead);
  }

  lemma EndPastColon(s: seq<byte>, start: nat, i: nat, depth: int, gap: seq<byte>, lead: seq<byte>)
    requires Blank(gap) && Blank(lead) && Here(s, i, gap + ([COLON] + lead))
    ensures EndFrom(s, start, i, depth, false) == EndFrom(s, start, i + |gap| + 1 + |lead|, depth, false)
  {
    hide EndFrom, Here, Blank;
    HereSplit(s, i, gap, [COLON] + lead);
    HereSplit(s, i + |gap|, [COLON], lead);
    QuietKinds(gap);
    QuietKinds(lead);
    EndPastQuiet(s, start, i, depth, gap);
    EndPastByte(s, start, i + |gap|, depth, COLON);
    EndPastQuiet(s, start, i + |gap| + 1, depth, lead);
  }

  lemma HereNoBackslash(s: seq<byte>, p: nat, t: seq<byte>)
    requires Here(s, p, t) && BACKSLASH !in t
    ensures NoBackslashIn(s, p, p + |t|)
  {
    forall k | p <= k < p + |t|
      ensures s[k] != BACKSLASH
    {
      HereAt(s, p, t, k - p);
      assert t[k - p] in t;
    }
  }

  /** Wherever a printed object stands, the brace found for it is its own. */
  lemma ObjectEnd(s: cstring, p: nat, items: Items)
    requires WellFormed(Obj(items)) && Here(s, p, Print(Obj(items)))
    ensures SkipObject(s, p) == Some(p + |Print(Obj(items))| - 1)
  {
    hide EndFrom, Here, NoBackslashIn, PrintItems, ItemsOk;
    var end := p + 1 + |PrintItems(items)|;
    PrintsNoBackslash(Obj(items));
    HereNoBackslash(s, p, Print(Obj(items)));
    HereSplit(s, p, [LBRACE], PrintItems(items) + [RBRACE]);
    HereSplit(s, p + 1, PrintItems(items), [RBRACE]);
    HereAt(s, p, [LBRACE], 0);
    HereInside(s, p, [LBRACE]);
    EndPastByte(s, p, p, 0, LBRACE);
    Narrower(s, p, end, p + |Print(Obj(items))|);
    EndPastItems(s, p, p + 1, 1, items, true);
    EndStops(s, p, end);
  }

  lemma EndStops(s: seq<byte>, start: nat, i: nat)
    requires Here(s, i, [RBRACE])
    ensures EndFrom(s, start, i, 1, false) == Some(i)
  {
    HereAt(s, i, [RBRACE], 0);
  }
}

/**
 * The RIL shim's JSON helpers over a NUL-terminated buffer: key lookup at the outer
 * nesting level, string and integer values, and the end of an object.
 */
module JsonScan {
  import opened Bits
  import opened Parcels
  import opened Wrappers

  const QUOTE: byte := 0x22
  const BACKSLASH: byte := 0x5C
  const LBRACE: byte := 0x7B
  const RBRACE: byte := 0x7D
  const LBRACKET: byte := 0x5B
  const RBRACKET: byte := 0x5D
  const COLON: byte := 0x3A
  const COMMA: byte := 0x2C
  const MINUS: byte := 0x2D
  const PLUS: byte := 0x2B

  /** `*(s + i)`, the terminating NUL included */
  function At(s: seq<byte>, i: nat): byte {
    if i < |s| then s[i] else 0
  }

  predicate Space(c: byte) {
    c == 0x20 || c == 0x09 || c == 0x0A || c == 0x0D
  }

  /** `strncmp(s + i, t, strlen(t)) == 0` */
  predicate Here(s: seq<byte>, i: nat, t: seq<byte>) {
    i + |t| <= |s| && s[i..i + |t|] == t
  }

  function SkipSpace(s: seq<byte>, i: nat): (r: nat)
    ensures i <= r && (i <= |s| ==> r <= |s|)
    ensures forall k :: i <= k < r ==> k < |s| && Space(s[k])
    ensures !Space(At(s, r))
    decreases |s| - i
  {
    if i < |s| && Space(s[i]) then SkipSpace(s, i + 1) else i
  }

  method PastSpace(s: seq<byte>, i: nat) returns (r: nat)
    requires i <= |s|
    ensures r == SkipSpace(s, i) <= |s|
  {
    r := i;
    while Space(At(s, r))
      invariant i <= r <= |s| && SkipSpace(s, i) == SkipSpace(s, r)
      decreases |s| - r
    {
      r := r + 1;
    }
  }

  // ---- Key lookup ---------------------------------------------------------

  /** Where the value starts, if the quote at i opens this key and a colon follows it. */
  function KeyValue(s: seq<byte>, key: cstring, i: nat): (r: Option<nat>)
    requires i < |s|
    ensures r.Some? ==> r.value <= |s|
  {
    if Here(s, i + 1, key) && At(s, i + 1 + |key|) == QUOTE then
      var after := SkipSpace(s, i + 1 + |key| + 1);
      if At(s, after) == COLON then Some(SkipSpace(s, after + 1)) else None
    else None
  }

  /** A quote that no backslash escapes */
  predicate Opens(s: seq<byte>, start: nat, i: nat)
    requires i < |s|
  {
    s[i] == QUOTE && (i <= start || s[i - 1] != BACKSLASH)
  }

  function Deeper(c: byte): int {
    if c == LBRACE || c == LBRACKET then 1 else if c == RBRACE || c == RBRACKET then -1 else 0
  }

  /** The scan from i on */
  function KeyFrom(s: seq<byte>, key: cstring, i: nat, depth: int, inString: bool): (r: Option<nat>)
    ensures r.Some? ==> r.value <= |s|
    decreases |s| - i
  {
    if i >= |s| then None
    else if Opens(s, 0, i) then
      if inString then KeyFrom(s, key, i + 1, depth, false)
      else if depth == 1 && KeyValue(s, key, i).Some? then KeyValue(s, key, i)
      else KeyFrom(s, key, i + 1, depth, true)
    else if inString then KeyFrom(s, key, i + 1, depth, true)
    else KeyFrom(s, key, i + 1, depth + Deeper(s[i]), false)
  }

  function FindKey(s: cstring, key: cstring): (r: Option<nat>)
    ensures r.Some? ==> r.value <= |s|
  {
    KeyFrom(s, key, 0, 0, false)
  }

  method JsonFindKey(s: cstring, key: cstring) returns (r: Option<nat>)
    ensures r == FindKey(s, key)
  {
    var depth, inString, p := 0, false, 0;
    while p < |s|
      invariant 0 <= p <= |s|
      invariant FindKey(s, key) == KeyFrom(s, key, p, depth, inString)
    {
      if s[p] == QUOTE && (p == 0 || s[p - 1] != BACKSLASH) {
        if inString {
          inString := false;
          p := p + 1;
          continue;
        }
        if depth == 1 {
          if Here(s, p + 1, key) && At(s, p + 1 + |key|) == QUOTE {
            var after := PastSpace(s, p + 1 + |key| + 1);
            if At(s, after) == COLON {
              var value := PastSpace(s, after + 1);
              return Some(value);
            }
          }
        }
        inString := true;
        p := p + 1;
        continue;
      }
      if inString {
        p := p + 1;
        continue;
      }
      if s[p] == LBRACE || s[p] == LBRACKET {
        depth := depth + 1;
      } else if s[p] == RBRACE || s[p] == RBRACKET {
        depth := depth - 1;
      }
      p := p + 1;
    }
    r := None;
  }

  // ---- Values -------------------------------------------------------------

  /** The closing quote from i on, or the end of the buffer. */
  function QuoteFrom(s: seq<byte>, i: nat): (r: nat)
    requires 0 < i <= |s|
    ensures i <= r <= |s|
    decreases |s| - i
  {
    if i == |s| || (s[i] == QUOTE && s[i - 1] != BACKSLASH) then i else QuoteFrom(s, i + 1)
  }

  /** `json_get_str`: none without the key, for a value that is not a string, or for one that does not end. */
  function GetStr(s: cstring, key: cstring): Option<seq<byte>> {
    match FindKey(s, key)
    case None => None
    case Some(p) =>
      if At(s, p) != QUOTE then None
      else
        var end := QuoteFrom(s, p + 1);
        if end == |s| then None else Some(s[p + 1..end])
  }

  method JsonGetStr(s: cstring, key: cstring) returns (r: Option<seq<byte>>)
    ensures r == GetStr(s, key)
  {
    var val := JsonFindKey(s, key);
    if val.None? || At(s, val.value) != QUOTE {
      return None;
    }
    var start := val.value + 1;
    var end := start;
    while end < |s| && !(s[end] == QUOTE && s[end - 1] != BACKSLASH)
      invariant start <= end <= |s| && QuoteFrom(s, start) == QuoteFrom(s, end)
    {
      end := end + 1;
    }
    if end == |s| {
      return None;
    }
    r := Some(s[start..end]);
  }

  predicate Digit(c: byte) {
    0x30 <= c <= 0x39
  }

  /** White space as `isspace` has it */
  predicate CSpace(c: byte) {
    c == 0x20 || 0x09 <= c <= 0x0D
  }

  function DigitsFrom(s: seq<byte>, i: nat, sum: nat): nat
    decreases |s| - i
  {
    if i < |s| && Digit(s[i]) then
      var d: nat := s[i] - 0x30;
      DigitsFrom(s, i + 1, 10 * sum + d)
    else sum
  }

  function PastCSpace(s: seq<byte>, i: nat): (r: nat)
    ensures i <= r
    decreases |s| - i
  {
    if i < |s| && CSpace(s[i]) then PastCSpace(s, i + 1) else i
  }

  /** `strtol` saturates at 64 bits. */
  function Saturated(negative: bool, n: nat): int {
    if negative then (if n > 0x8000_0000_0000_0000 then -0x8000_0000_0000_0000 else 0 - n)
    else if n > 0x7FFF_FFFF_FFFF_FFFF then 0x7FFF_FFFF_FFFF_FFFF
    else n
  }

  /** A long cut down to an int */
  function ToInt32(long: int): int32 {
    var low := long % 0x1_0000_0000;
    if low >= 0x8000_0000 then low - 0x1_0000_0000 else low
  }

  lemma FitsInt(negative: bool, n: nat)
    requires n <= (if negative then 0x8000_0000 else 0x7FFF_FFFF)
    ensures ToInt32(Saturated(negative, n)) == if negative then 0 - n else n
  {
  }

  /** `atoi`: as `strtol`, then truncated. */
  function Atoi(s: seq<byte>, i: nat): int32 {
    var p := PastCSpace(s, i);
    var digits := if At(s, p) == MINUS || At(s, p) == PLUS then p + 1 else p;
    ToInt32(Saturated(At(s, p) == MINUS, DigitsFrom(s, digits, 0)))
  }

  function GetInt(s: cstring, key: cstring, def: int32): int32 {
    match FindKey(s, key)
    case None => def
    case Some(p) => Atoi(s, p)
  }

  const TRUE: seq<byte> := [0x74, 0x72, 0x75, 0x65]
  const FALSE: seq<byte> := [0x66, 0x61, 0x6C, 0x73, 0x65]

  function GetBool(s: cstring, key: cstring, def: int32): int32 {
    match FindKey(s, key)
    case None => def
    case Some(p) => if Here(s, p, TRUE) then 1 else if Here(s, p, FALSE) then 0 else Atoi(s, p)
  }

  // ---- The end of an object -----------------------------------------------

  function EndFrom(s: seq<byte>, start: nat, i: nat, depth: int, inString: bool): (r: Option<nat>)
    ensures r.Some? ==> i <= r.value < |s| && s[r.value] == RBRACE
    decreases |s| - i
  {
    if i >= |s| then None
    else if Opens(s, start, i) then EndFrom(s, start, i + 1, depth, !inString)
    else if inString then EndFrom(s, start, i + 1, depth, true)
    else if s[i] == LBRACE then EndFrom(s, start, i + 1, depth + 1, false)
    else if s[i] == RBRACE then if depth == 1 then Some(i) else EndFrom(s, start, i + 1, depth - 1, false)
    else EndFrom(s, start, i + 1, depth, false)
  }

  /** The brace that closes the object at p, or none. */
  function SkipObject(s: cstring, p: nat): (r: Option<nat>)
    ensures r.Some? ==> p <= r.value < |s| && s[r.value] == RBRACE
  {
    if At(s, p) != LBRACE then None else EndFrom(s, p, p, 0, false)
  }

  method JsonSkipObject(s: cstring, start: nat) returns (r: Option<nat>)
    requires start <= |s|
    ensures r == SkipObject(s, start)
  {
    if At(s, start) != LBRACE {
      return None;
    }
    var p, depth, inString := start, 0, false;
    while p < |s|
      invariant start <= p <= |s|
      invariant SkipObject(s, start) == EndFrom(s, start, p, depth, inString)
    {
      if s[p] == QUOTE && (p == start || s[p - 1] != BACKSLASH) {
        inString := !inString;
      } else if !inString {
        if s[p] == LBRACE {
          depth := depth + 1;
        } else if s[p] == RBRACE {
          depth := depth - 1;
          if depth == 0 {
            return Some(p);
          }
        }
      }
      p := p + 1;
    }
    r := None;
  }
}

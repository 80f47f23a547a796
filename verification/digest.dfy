/**
 * Digest parameters as text: reading a WWW-Authenticate or Authorization value, and
 * the values that come back exactly as they were written.
 */
module Digest {
  import opened Text

  // ---- Reading parameters -------------------------------------------------

  /** One comma-separated part: a parameter if it has an equals sign. */
  function AddParam(params: map<string, string>, part: string): map<string, string> {
    var p := Strip(part);
    if !Contains(p, "=") then params
    else params[Strip(SplitOnce(p, "=")[0]) := StripQuotes(Strip(SplitOnce(p, "=")[1]))]
  }

  function AddParams(parts: seq<string>): map<string, string> {
    if parts == [] then map[]
    else AddParam(AddParams(parts[..|parts| - 1]), parts[|parts| - 1])
  }

  function Parts(text: string): seq<string> {
    Split(Replace(text, "Digest ", ""), ",")
  }

  function Params(text: string): map<string, string> {
    AddParams(Parts(text))
  }

  /** The parsing loop of both the SIP client and the registration */
  method ReadParams(text: string) returns (params: map<string, string>)
    ensures params == Params(text)
  {
    hide Strip, StripQuotes;
    var parts := Parts(text);
    params := map[];
    for i := 0 to |parts|
      invariant params == AddParams(parts[..i])
    {
      assert parts[..i + 1][..i] == parts[..i];
      var part := Strip(parts[i]);
      if Contains(part, "=") {
        var keyVal := SplitOnce(part, "=");
        params := params[Strip(keyVal[0]) := StripQuotes(Strip(keyVal[1]))];
      }
    }
    assert parts[..|parts|] == parts;
  }

  function Get(params: map<string, string>, key: string, default: string): string {
    if key in params then params[key] else default
  }

  // ---- Writing parameters -------------------------------------------------

  datatype Field = Field(key: string, value: string, quoted: bool)

  /** The value as written */
  function ValueText(f: Field): string {
    if f.quoted then "\"" + f.value + "\"" else f.value
  }

  function FieldText(f: Field): string {
    f.key + "=" + ValueText(f)
  }

  function FieldTexts(fields: seq<Field>): (texts: seq<string>)
    ensures |texts| == |fields|
    ensures forall i :: 0 <= i < |fields| ==> texts[i] == FieldText(fields[i])
  {
    seq(|fields|, i requires 0 <= i < |fields| => FieldText(fields[i]))
  }

  function DigestText(fields: seq<Field>): string {
    "Digest " + Join(FieldTexts(fields), ", ")
  }

  function FieldMap(fields: seq<Field>): map<string, string> {
    if fields == [] then map[]
    else FieldMap(fields[..|fields| - 1])[fields[|fields| - 1].key := fields[|fields| - 1].value]
  }

  /** No white space, comma or quote. */
  predicate Plain(s: string) {
    forall c :: c in s ==> !White(c) && c != ',' && c != '"'
  }

  predicate PlainField(f: Field) {
    Plain(f.key) && Plain(f.value) && '=' !in f.key
  }

  /** Neither a comma nor a space: what a part of the list is made of. */
  predicate OnePart(s: string) {
    ',' !in s && ' ' !in s
  }

  lemma {:induction false} CommaParts(pre: string, ps: seq<string>)
    requires ps != [] && ',' !in pre && forall p :: p in ps ==> OnePart(p)
    ensures var parts := Split(pre + Join(ps, ", "), ",");
            && |parts| == |ps| && parts[0] == pre + ps[0]
            && forall i :: 1 <= i < |ps| ==> parts[i] == " " + ps[i]
    decreases |ps|
  {
    hide Split;
    assert ps[0] in ps;
    if |ps| == 1 {
      FindNoChar(pre + ps[0], ',');
    } else {
      var rest := " " + Join(ps[1..], ", ");
      assert pre + Join(ps, ", ") == (pre + ps[0]) + [','] + rest;
      SplitAtChar(pre + ps[0], ',', rest);
      CommaParts(" ", ps[1..]);
    }
  }

  /** Every space follows a comma. */
  predicate SpacesAfterCommas(s: string) {
    forall i :: 0 <= i < |s| && s[i] == ' ' ==> i > 0 && s[i - 1] == ','
  }

  lemma {:induction false} JoinSpaces(ps: seq<string>)
    requires forall p :: p in ps ==> OnePart(p)
    ensures SpacesAfterCommas(Join(ps, ", "))
  {
    if ps != [] {
      assert ps[0] in ps;
      if |ps| > 1 {
        JoinSpaces(ps[1..]);
        var rest := Join(ps[1..], ", ");
        var s := ps[0] + ", " + rest;
        assert forall j :: 0 <= j < |ps[0]| ==> s[j] == ps[0][j] && ps[0][j] in ps[0];
        forall i | 0 <= i < |s| && s[i] == ' '
          ensures i > 0 && s[i - 1] == ','
        {
          if i >= |ps[0]| + 2 {
            assert rest[i - |ps[0]| - 2] == ' ';
          }
        }
      } else {
        assert forall i :: 0 <= i < |ps[0]| ==> ps[0][i] in ps[0];
      }
    }
  }

  /** The scheme name is taken off the front and found nowhere else. */
  lemma SchemeRemoved(body: string)
    requires SpacesAfterCommas(body)
    ensures Replace("Digest " + body, "Digest ", "") == body
  {
    var scheme := "Digest ";
    assert scheme[5] == 't' && scheme[6] == ' ' && |scheme| == 7;
    forall k | 0 <= k < |body|
      ensures !At(body, scheme, k)
    {
      if k + 7 <= |body| {
        var word := body[k..k + 7];
        assert word[5] == body[k + 5] && word[6] == body[k + 6];
      }
    }
    FindNone(body, scheme);
    SplitAt("", scheme, body);
    assert "" + scheme + body == scheme + body;
    assert Split(scheme + body, scheme) == ["", body];
    assert Join(["", body], "") == "" + "" + Join([body], "") by {
      assert ["", body][1..] == [body];
    }
  }

  lemma FieldReads(params: map<string, string>, pre: string, f: Field)
    requires PlainField(f) && (pre == "" || pre == " ")
    ensures AddParam(params, pre + FieldText(f)) == params[f.key := f.value]
  {
    hide Strip, StripQuotes, SplitOnce, Find, FieldText;
    PlainTrimmed(f.key);
    StripTrimmed(f.key);
    StripValue(f);
    FieldSplits(f);
    StripTrimmed(FieldText(f));
    assert "" + FieldText(f) == FieldText(f);
  }

  lemma FieldSplits(f: Field)
    requires PlainField(f)
    ensures Contains(FieldText(f), "=") && SplitOnce(FieldText(f), "=") == [f.key, ValueText(f)]
    ensures Trimmed(FieldText(f)) && Strip(ValueText(f)) == ValueText(f)
  {
    hide Strip, SplitOnce, Find;
    var text := f.key + ['='] + ValueText(f);
    assert FieldText(f) == text && ['='] == "=";
    PlainTrimmed(f.key);
    PlainTrimmed(f.value);
    FindAfterChar(f.key, '=', ValueText(f));
    SplitOnceAt(f.key, '=', ValueText(f));
    StripTrimmed(ValueText(f));
  }

  lemma PlainTrimmed(s: string)
    requires Plain(s)
    ensures Trimmed(s)
  {
    assert s != "" ==> s[0] in s && s[|s| - 1] in s;
  }

  lemma StripValue(f: Field)
    requires PlainField(f)
    ensures StripQuotes(ValueText(f)) == f.value
  {
    assert f.value != "" ==> f.value[0] in f.value && f.value[|f.value| - 1] in f.value;
    if f.quoted {
      StripPadded("\"", f.value, "\"", Quote);
    } else {
      StripPadded("", f.value, "", Quote);
      assert "" + f.value + "" == f.value;
    }
  }

  lemma {:induction false} FieldsRead(fields: seq<Field>, parts: seq<string>)
    requires |parts| == |fields| && forall f :: f in fields ==> PlainField(f)
    requires forall i :: 0 <= i < |fields| ==> parts[i] == FieldText(fields[i]) || parts[i] == " " + FieldText(fields[i])
    ensures AddParams(parts) == FieldMap(fields)
  {
    hide AddParam, FieldText;
    if fields != [] {
      var n := |fields| - 1;
      FieldsRead(fields[..n], parts[..n]);
      assert fields[n] in fields;
      FieldReads(AddParams(parts[..n]), "", fields[n]);
      FieldReads(AddParams(parts[..n]), " ", fields[n]);
      assert "" + FieldText(fields[n]) == FieldText(fields[n]);
    }
  }

  /** Every list of plain fields reads back as the values that were written. */
  lemma DigestRoundTrip(fields: seq<Field>)
    requires fields != [] && forall f :: f in fields ==> PlainField(f)
    ensures Params(DigestText(fields)) == FieldMap(fields)
  {
    hide Split, Replace, AddParams, FieldMap, FieldText;
    var texts := FieldTexts(fields);
    forall t | t in texts
      ensures OnePart(t)
    {
      var i :| 0 <= i < |texts| && t == texts[i];
      PartOfField(fields[i]);
    }
    CommaParts("", texts);
    assert "" + Join(texts, ", ") == Join(texts, ", ");
    JoinSpaces(texts);
    SchemeRemoved(Join(texts, ", "));
    var parts := Split(Join(texts, ", "), ",");
    assert parts[0] == "" + texts[0] == texts[0];
    FieldsRead(fields, parts);
  }

  ghost predicate DistinctKeys(fields: seq<Field>) {
    forall i, j :: 0 <= i < j < |fields| ==> fields[i].key != fields[j].key
  }

  lemma {:induction false} FieldMapAt(fields: seq<Field>, i: nat)
    requires DistinctKeys(fields) && i < |fields|
    ensures fields[i].key in FieldMap(fields) && FieldMap(fields)[fields[i].key] == fields[i].value
  {
    var n := |fields| - 1;
    if i < n {
      FieldMapAt(fields[..n], i);
    }
  }

  /** With distinct keys, every field's value is read under its key. */
  lemma FieldReadBack(fields: seq<Field>, i: nat)
    requires DistinctKeys(fields) && i < |fields| && forall f :: f in fields ==> PlainField(f)
    ensures fields[i].key in Params(DigestText(fields)) && Params(DigestText(fields))[fields[i].key] == fields[i].value
  {
    DigestRoundTrip(fields);
    FieldMapAt(fields, i);
  }

  lemma PartOfField(f: Field)
    requires PlainField(f)
    ensures OnePart(FieldText(f))
  {
  }
}

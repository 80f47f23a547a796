/**
 * Digest-AKA registration end to end: the S-CSCF helper's challenge, the UE's
 * answer, and the helper's verdict, over any hash, any base64 and any block cipher.
 */
module Registration {
  import opened Bits
  import opened Digest
  import opened Digits
  import opened Milenage
  import opened MilenageStandard
  import opened Python
  import opened Rotation
  import opened RpData
  import opened Text
  import opened Wrappers

  // ---- What is not modelled -----------------------------------------------

  /** AES, MD5's hex digest, base64 both ways */
  datatype Primitives = Primitives(
    aes: (Block, Block) -> Block,
    md5: string -> string,
    encode: seq<byte> -> string,
    decode: string -> Result<seq<byte>>)

  /** Base64 decodes what it encodes; its text and a hash are plain. */
  ghost predicate Laws(p: Primitives) {
    && (forall s :: Plain(p.md5(s)))
    && (forall bs :: p.decode(p.encode(bs)) == Ok(bs) && Plain(p.encode(bs)) && (bs != [] ==> p.encode(bs) != ""))
  }

  function Cipher(p: Primitives, key: Block): Block -> Block {
    (x: Block) => p.aes(key, x)
  }

  function Hex(bs: seq<byte>): string {
    Lower(HexUpper(bs))
  }

  // ---- The helper ---------------------------------------------------------

  /** The subscriber's security record: keys and AMF as hex text */
  datatype Subscriber = Subscriber(k: string, opType: int, opValue: string, amf: string, sqn: int)

  datatype CachedVector = CachedVector(
    rand: string, autn: string, xres: string, ck: string, ik: string, nonce: string, realm: string)

  datatype Helper = Helper(subscribers: map<string, Subscriber>, cache: map<string, CachedVector>)

  function Realm(imsi: string): string {
    "ims.mnc" + ZFill(Slice(imsi, 3, 5), 3) + ".mcc" + Slice(imsi, 0, 3) + ".3gppnetwork.org"
  }

  /** Ki and OPc, computed from OP when that is what the record holds; bad hex or lengths are errors. */
  function SubscriberKeys(p: Primitives, s: Subscriber): Result<(Block, Block)> {
    match (FromHex(s.k), FromHex(s.opValue))
    case (Ok(ki), Ok(op)) =>
      if |ki| != 16 || |op| != 16 then Err
      else if s.opType == 0 then Ok((ki, ComputeOpc(Cipher(p, ki), op)))
      else Ok((ki, op))
    case _ => Err
  }

  function VectorOf(p: Primitives, s: Subscriber, imsi: string, rand: Block): Result<CachedVector> {
    match (SubscriberKeys(p, s), FromHex(s.amf))
    case (Ok(keys), Ok(amf)) =>
      if |amf| < 2 || !SqnFits(s.sqn) then Err
      else
        var e := Cipher(p, keys.0);
        var autn := Autn(e, keys.1, rand, BigBytes(s.sqn, 6), amf);
        var answer := F234(e, keys.1, rand);
        Ok(CachedVector(Hex(rand), Hex(autn), Hex(answer.res), Hex(answer.ck), Hex(answer.ik),
                        p.encode(rand + autn), Realm(imsi)))
    case _ => Err
  }

  /** `Ok(None)` for no such subscriber or no keys; `stored` says whether the database took the new SQN. */
  function GenerateVector(p: Primitives, h: Helper, imsi: string, rand: Block, stored: bool): (r: (Helper, Result<Option<CachedVector>>)) {
    if imsi !in h.subscribers then (h, Ok(None))
    else
      var s := h.subscribers[imsi];
      if s.k == "" || s.opValue == "" then (h, Ok(None))
      else
        match VectorOf(p, s, imsi, rand)
        case Err => (h, Err)
        case Ok(v) =>
          var subscribers := if stored then h.subscribers[imsi := s.(sqn := s.sqn + 32)] else h.subscribers;
          (Helper(subscribers, h.cache[imsi := v]), Ok(Some(v)))
  }

  /** The challenge header */
  function ChallengeText(v: CachedVector): string {
    DigestText([Field("realm", v.realm, true), Field("nonce", v.nonce, true), Field("algorithm", "AKAv1-MD5", false),
                Field("qop", "auth", true)])
  }

  /** The hash both sides compute */
  function DigestResponse(p: Primitives, username: string, realm: string, password: string, httpMethod: string, uri: string,
                          nonce: string, nc: string, cnonce: string, qop: string): string {
    var ha1 := p.md5(username + ":" + realm + ":" + password);
    var ha2 := p.md5(httpMethod + ":" + uri);
    if qop != "" then p.md5(ha1 + ":" + nonce + ":" + nc + ":" + cnonce + ":" + qop + ":" + ha2)
    else p.md5(ha1 + ":" + nonce + ":" + ha2)
  }

  function VerifyDigest(p: Primitives, h: Helper, imsi: string, username: string, realm: string, uri: string,
                        nc: string, cnonce: string, qop: string, response: string): bool {
    && imsi in h.cache
    && Lower(response) == Lower(DigestResponse(p, username, realm, h.cache[imsi].xres, "REGISTER", uri,
                                               h.cache[imsi].nonce, nc, cnonce, qop))
  }

  class AuthHelper {
    const primitives: Primitives
    var subscribers: map<string, Subscriber>
    var vectorCache: map<string, CachedVector>

    constructor (primitives: Primitives, subscribers: map<string, Subscriber>)
      ensures this.primitives == primitives && this.subscribers == subscribers && vectorCache == map[]
    {
      this.primitives, this.subscribers, vectorCache := primitives, subscribers, map[];
    }

    function State(): Helper
      reads this
    {
      Helper(subscribers, vectorCache)
    }

    method GenerateAuthVector(imsi: string, rand: Block, stored: bool) returns (r: Result<Option<CachedVector>>)
      modifies this
      ensures (State(), r) == GenerateVector(primitives, old(State()), imsi, rand, stored)
    {
      hide VectorOf;
      if imsi !in subscribers {
        return Ok(None);
      }
      var sub := subscribers[imsi];
      if sub.k == "" || sub.opValue == "" {
        return Ok(None);
      }
      var vector := VectorOf(primitives, sub, imsi, rand);
      if vector.Err? {
        return Err;
      }
      if stored {
        subscribers := subscribers[imsi := sub.(sqn := sub.sqn + 32)];
      }
      vectorCache := vectorCache[imsi := vector.value];
      r := Ok(Some(vector.value));
    }
  }

  // ---- The UE -------------------------------------------------------------

  datatype Credentials = Credentials(impi: string, homeDomain: string, ki: Block, opc: Block, sqn: int)

  /** Digits of `f"{n:x}"` */
  function HexNumber(n: nat): (s: string)
    ensures forall c :: c in s ==> '0' <= c <= '9' || 'a' <= c <= 'f'
  {
    (if n < 16 then "" else HexNumber(n / 16)) + [if n % 16 < 10 then HexChar(n % 16) else (n % 16 + 87) as char]
  }

  /** `f"{nc:08x}"` */
  function CountText(nc: nat): string {
    ZFill(HexNumber(nc), 8)
  }

  /** The fields of the Authorization header, in order */
  function AuthFields(p: Primitives, challenge: string, httpMethod: string, uri: string, username: string, password: string,
                      cnonce: string, nc: nat): seq<Field> {
    var params := Params(challenge);
    var realm, nonce := Get(params, "realm", ""), Get(params, "nonce", "");
    var qop, algorithm := Get(params, "qop", "auth"), Get(params, "algorithm", "MD5");
    [Field("username", username, true), Field("realm", realm, true), Field("nonce", nonce, true), Field("uri", uri, true),
     Field("response", DigestResponse(p, username, realm, password, httpMethod, uri, nonce, CountText(nc), cnonce, qop), true),
     Field("algorithm", algorithm, false)]
    + if qop != "" then [Field("qop", qop, false), Field("nc", CountText(nc), false), Field("cnonce", cnonce, true)] else []
  }

  /** `build_auth_header`, with the client's random number given */
  method BuildAuthHeader(p: Primitives, challenge: string, httpMethod: string, uri: string, username: string, password: string,
                         cnonce: string, nc: nat) returns (header: string)
    ensures header == DigestText(AuthFields(p, challenge, httpMethod, uri, username, password, cnonce, nc))
  {
    hide Params, DigestResponse, CountText, Plain;
    var params := ReadParams(challenge);
    var realm, nonce := Get(params, "realm", ""), Get(params, "nonce", "");
    var qop, algorithm := Get(params, "qop", "auth"), Get(params, "algorithm", "MD5");
    var count := CountText(nc);
    var response := DigestResponse(p, username, realm, password, httpMethod, uri, nonce, count, cnonce, qop);
    var fields := [Field("username", username, true), Field("realm", realm, true), Field("nonce", nonce, true),
                   Field("uri", uri, true), Field("response", response, true), Field("algorithm", algorithm, false)];
    if qop != "" {
      fields := fields + [Field("qop", qop, false), Field("nc", count, false), Field("cnonce", cnonce, true)];
    }
    assert fields == AuthFields(p, challenge, httpMethod, uri, username, password, cnonce, nc);
    header := DigestText(fields);
  }

  /** The UE's answer to a challenge, or none; its SQN steps when the network is authenticated. */
  function ComputeAkaResponse(p: Primitives, creds: Credentials, challenge: string, cnonce: string): (Credentials, Option<string>) {
    var nonce := Get(Params(challenge), "nonce", "");
    if nonce == "" then (creds, None)
    else
      match p.decode(nonce)
      case Err => (creds, None)
      case Ok(bytes) =>
        if |bytes| < 32 then (creds, None)
        else
          match Authenticate(Cipher(p, creds.ki), creds.opc, bytes[..16], bytes[16..32], creds.sqn)
          case Ok(Some(answer)) =>
            (creds.(sqn := creds.sqn + 1),
             Some(DigestText(AuthFields(p, challenge, "REGISTER", "sip:" + creds.homeDomain, creds.impi, Hex(answer.res), cnonce, 1))))
          case _ => (creds, None)
  }

  class Ue {
    const primitives: Primitives
    var creds: Credentials

    constructor (primitives: Primitives, creds: Credentials)
      ensures this.primitives == primitives && this.creds == creds
    {
      this.primitives, this.creds := primitives, creds;
    }

    method ComputeResponse(challenge: string, cnonce: string) returns (header: Option<string>)
      modifies this
      ensures (creds, header) == ComputeAkaResponse(primitives, old(creds), challenge, cnonce)
    {
      hide Params, AuthFields, Authenticate, DigestText, Hex;
      var params := ReadParams(challenge);
      var nonce := Get(params, "nonce", "");
      if nonce == "" {
        return None;
      }
      var bytes := primitives.decode(nonce);
      if bytes.Err? || |bytes.value| < 32 {
        return None;
      }
      var result := Authenticate(Cipher(primitives, creds.ki), creds.opc, bytes.value[..16], bytes.value[16..32], creds.sqn);
      if result.Err? || result.value.None? {
        return None;
      }
      creds := creds.(sqn := creds.sqn + 1);
      var text := BuildAuthHeader(primitives, challenge, "REGISTER", "sip:" + creds.homeDomain, creds.impi,
                                  Hex(result.value.value.res), cnonce, 1);
      header := Some(text);
    }
  }

  // ---- Agreement ----------------------------------------------------------

  /** The verdict on an Authorization header, its parameters read by the same rules */
  function VerifyHeader(p: Primitives, h: Helper, imsi: string, header: string): bool {
    var a := Params(header);
    VerifyDigest(p, h, imsi, Get(a, "username", ""), Get(a, "realm", ""), Get(a, "uri", ""), Get(a, "nc", ""),
                 Get(a, "cnonce", ""), Get(a, "qop", ""), Get(a, "response", ""))
  }

  /** The UE holds the subscriber's keys, and its names are plain text. */
  ghost predicate SameSubscriber(p: Primitives, h: Helper, imsi: string, creds: Credentials) {
    && imsi in h.subscribers && Plain(imsi) && Plain(creds.impi) && Plain(creds.homeDomain)
    && var s := h.subscribers[imsi];
       s.k != "" && s.opValue != "" && SubscriberKeys(p, s) == Ok((creds.ki, creds.opc))
       && FromHex(s.amf).Ok? && |FromHex(s.amf).value| == 2
  }

  lemma ChallengeReads(v: CachedVector)
    requires Plain(v.realm) && Plain(v.nonce)
    ensures var params := Params(ChallengeText(v));
            && Get(params, "realm", "") == v.realm && Get(params, "nonce", "") == v.nonce
            && Get(params, "qop", "auth") == "auth" && Get(params, "algorithm", "MD5") == "AKAv1-MD5"
  {
    hide Params, DigestText, Plain;
    var fields := [Field("realm", v.realm, true), Field("nonce", v.nonce, true), Field("algorithm", "AKAv1-MD5", false),
                   Field("qop", "auth", true)];
    PlainWords();
    assert fields[0].key == "realm" && fields[1].key == "nonce" && fields[2].key == "algorithm" && fields[3].key == "qop";
    FieldReadBack(fields, 0);
    FieldReadBack(fields, 1);
    FieldReadBack(fields, 2);
    FieldReadBack(fields, 3);
  }

  lemma PlainWords()
    ensures Plain("realm") && Plain("nonce") && Plain("algorithm") && Plain("qop") && Plain("auth") && Plain("AKAv1-MD5")
    ensures Plain("username") && Plain("uri") && Plain("response") && Plain("nc") && Plain("cnonce")
  {
    hide Plain;
    WordPlain("realm");
    WordPlain("nonce");
    WordPlain("algorithm");
    WordPlain("qop");
    WordPlain("auth");
    WordPlain("AKAv1-MD5");
    WordPlain("username");
    WordPlain("uri");
    WordPlain("response");
    WordPlain("nc");
    WordPlain("cnonce");
  }

  lemma WordPlain(s: string)
    requires forall i :: 0 <= i < |s| ==> '-' <= s[i] <= 'z'
    ensures Plain(s)
  {
  }

  /** Every parameter of an Authorization header answering a challenge reads back. */
  lemma AuthReads(p: Primitives, v: CachedVector, uri: string, username: string, password: string, cnonce: string, nc: nat)
    requires Laws(p) && Plain(v.realm) && Plain(v.nonce) && Plain(uri) && Plain(username) && Plain(cnonce)
    ensures var a := Params(DigestText(AuthFields(p, ChallengeText(v), "REGISTER", uri, username, password, cnonce, nc)));
            var response := DigestResponse(p, username, v.realm, password, "REGISTER", uri, v.nonce, CountText(nc), cnonce, "auth");
            && Get(a, "username", "") == username && Get(a, "realm", "") == v.realm && Get(a, "uri", "") == uri
            && Get(a, "nonce", "") == v.nonce && Get(a, "algorithm", "") == "AKAv1-MD5"
            && Get(a, "nc", "") == CountText(nc) && Get(a, "cnonce", "") == cnonce && Get(a, "qop", "") == "auth"
            && Get(a, "response", "") == response
  {
    hide Params, DigestText, Plain, ChallengeText, DigestResponse, CountText;
    ChallengeReads(v);
    PlainWords();
    PlainCount(nc);
    var fields := AuthFields(p, ChallengeText(v), "REGISTER", uri, username, password, cnonce, nc);
    PlainResponse(p, username, v.realm, password, "REGISTER", uri, v.nonce, CountText(nc), cnonce, "auth");
    AuthKeys(fields);
    FieldReadBack(fields, 0);
    FieldReadBack(fields, 1);
    FieldReadBack(fields, 2);
    FieldReadBack(fields, 3);
    FieldReadBack(fields, 4);
    FieldReadBack(fields, 5);
    FieldReadBack(fields, 6);
    FieldReadBack(fields, 7);
    FieldReadBack(fields, 8);
  }

  lemma AuthKeys(fields: seq<Field>)
    requires |fields| == 9
    requires fields[0].key == "username" && fields[1].key == "realm" && fields[2].key == "nonce" && fields[3].key == "uri"
    requires fields[4].key == "response" && fields[5].key == "algorithm" && fields[6].key == "qop" && fields[7].key == "nc"
    requires fields[8].key == "cnonce"
    ensures DistinctKeys(fields)
  {
    assert "username"[0] == 'u' && "username"[1] == 's' && "realm"[0] == 'r' && "realm"[2] == 'a' && "nonce"[0] == 'n';
    assert "uri"[1] == 'r' && "response"[2] == 's' && "algorithm"[0] == 'a' && "qop"[0] == 'q' && "nc"[1] == 'c' && "nonce"[1] == 'o';
    assert "cnonce"[0] == 'c';
  }

  lemma PlainCount(nc: nat)
    ensures Plain(CountText(nc))
  {
    var s := HexNumber(nc);
    assert forall i :: 0 <= i < |s| ==> s[i] in s;
    WordPlain(CountText(nc));
  }

  lemma PlainResponse(p: Primitives, username: string, realm: string, password: string, httpMethod: string, uri: string,
                      nonce: string, nc: string, cnonce: string, qop: string)
    requires Laws(p)
    ensures Plain(DigestResponse(p, username, realm, password, httpMethod, uri, nonce, nc, cnonce, qop))
  {
  }

  lemma PlainRealm(imsi: string)
    requires Plain(imsi)
    ensures Plain(Realm(imsi))
  {
    hide Plain, ZFill;
    var a, b := Slice(imsi, 3, 5), Slice(imsi, 0, 3);
    WordPlain("ims.mnc");
    WordPlain(".mcc");
    WordPlain(".3gppnetwork.org");
    PlainSlice(imsi, 3, 5);
    PlainSlice(imsi, 0, 3);
    PlainPadded(a, 3);
    PlainBoth("ims.mnc", ZFill(a, 3));
    PlainBoth("ims.mnc" + ZFill(a, 3), ".mcc");
    PlainBoth("ims.mnc" + ZFill(a, 3) + ".mcc", b);
    PlainBoth("ims.mnc" + ZFill(a, 3) + ".mcc" + b, ".3gppnetwork.org");
  }

  lemma PlainBoth(a: string, b: string)
    requires Plain(a) && Plain(b)
    ensures Plain(a + b)
  {
  }

  lemma PlainSlice(s: string, i: int, j: int)
    requires Plain(s)
    ensures Plain(Slice(s, i, j))
  {
    PlainPart(s, Bound(|s|, i), if Bound(|s|, i) <= Bound(|s|, j) then Bound(|s|, j) else Bound(|s|, i));
  }

  lemma PlainPadded(s: string, width: nat)
    requires Plain(s)
    ensures Plain(ZFill(s, width))
  {
    hide Plain;
    if |s| < width {
      var zeros := Zeros(width - |s|);
      WordPlain(zeros);
      PlainBoth(zeros, s);
      if s != "" {
        PlainPart(s, 0, 1);
        PlainPart(s, 1, |s|);
        assert s[0..1] == [s[0]] && s[1..|s|] == s[1..];
        PlainBoth([s[0]], zeros);
        PlainBoth([s[0]] + zeros, s[1..]);
      }
    }
  }

  lemma PlainPart(s: string, i: nat, j: nat)
    requires Plain(s) && i <= j <= |s|
    ensures Plain(s[i..j])
  {
    var part := s[i..j];
    assert forall c :: c in part ==> c in s;
  }

  /** The challenge a subscriber gets, and what it holds. */
  lemma ChallengeMade(p: Primitives, h: Helper, imsi: string, creds: Credentials, rand: Block, stored: bool)
    requires SameSubscriber(p, h, imsi, creds)
    ensures var (h', r) := GenerateVector(p, h, imsi, rand, stored);
            var s := h.subscribers[imsi];
            if !SqnFits(s.sqn) then r.Err? && h' == h
            else
              var e := Cipher(p, creds.ki);
              var autn := Autn(e, creds.opc, rand, BigBytes(s.sqn, 6), FromHex(s.amf).value);
              r.Ok? && r.value.Some? && h'.cache == h.cache[imsi := r.value.value]
              && r.value.value.nonce == p.encode(rand + autn) && r.value.value.realm == Realm(imsi)
              && r.value.value.xres == Hex(F234(e, creds.opc, rand).res)
              && h'.subscribers == if stored then h.subscribers[imsi := s.(sqn := s.sqn + 32)] else h.subscribers
  {
    hide SubscriberKeys, FromHex, Autn, F234, Hex, Realm;
  }

  /** What the UE makes of a challenge holding RAND and AUTN. */
  lemma UeAnswers(p: Primitives, creds: Credentials, v: CachedVector, rand: Block, autn: Block, cnonce: string)
    requires Laws(p) && Plain(v.realm) && v.nonce == p.encode(rand + autn)
    ensures var r := ComputeAkaResponse(p, creds, ChallengeText(v), cnonce);
            match Authenticate(Cipher(p, creds.ki), creds.opc, rand, autn, creds.sqn)
            case Ok(Some(answer)) =>
              r.0 == creds.(sqn := creds.sqn + 1)
              && r.1 == Some(DigestText(AuthFields(p, ChallengeText(v), "REGISTER", "sip:" + creds.homeDomain, creds.impi,
                                                   Hex(answer.res), cnonce, 1)))
            case _ => r == (creds, None)
  {
    hide Params, ChallengeText, DigestText, AuthFields, Authenticate, Plain, Hex;
    assert rand + autn != [] && Plain(p.encode(rand + autn)) && p.decode(p.encode(rand + autn)) == Ok(rand + autn);
    ChallengeReads(v);
    assert (rand + autn)[..16] == rand && (rand + autn)[16..32] == autn;
  }

  /**
   * One registration: the UE answers if and only if the subscriber's SQN is at least
   * its own, its SQN then steps by one, and the helper accepts the answer it sends.
   */
  lemma DigestsAgree(p: Primitives, h: Helper, imsi: string, creds: Credentials, rand: Block, stored: bool, cnonce: string)
    requires Laws(p) && Plain(cnonce) && SameSubscriber(p, h, imsi, creds) && SqnFits(h.subscribers[imsi].sqn)
    ensures var (h', r) := GenerateVector(p, h, imsi, rand, stored);
            r.Ok? && r.value.Some?
            && var (creds', header) := ComputeAkaResponse(p, creds, ChallengeText(r.value.value), cnonce);
               && (header.Some? <==> h.subscribers[imsi].sqn >= creds.sqn)
               && creds' == (if header.Some? then creds.(sqn := creds.sqn + 1) else creds)
               && (header.Some? ==> VerifyHeader(p, h', imsi, header.value))
  {
    hide Params, ChallengeText, DigestText, AuthFields, Authenticate, Plain, Hex, F234, Autn, FromHex, DigestResponse, Realm,
         ComputeAkaResponse, GenerateVector, SubscriberKeys, Pow2, CountText, Lower;
    var (h', r) := GenerateVector(p, h, imsi, rand, stored);
    ChallengeMade(p, h, imsi, creds, rand, stored);
    PlainRealm(imsi);
    var e, s := Cipher(p, creds.ki), h.subscribers[imsi];
    var autn := Autn(e, creds.opc, rand, BigBytes(s.sqn, 6), FromHex(s.amf).value);
    Pow2Large();
    GeneratedToken(e, creds.opc, rand, s.sqn, FromHex(s.amf).value, creds.sqn);
    var v := r.value.value;
    UeAnswers(p, creds, v, rand, autn, cnonce);
    if s.sqn >= creds.sqn {
      HeaderAccepted(p, h', imsi, creds, v, cnonce);
    }
  }

  /** A header made with the cached vector's own password is accepted. */
  lemma HeaderAccepted(p: Primitives, h: Helper, imsi: string, creds: Credentials, v: CachedVector, cnonce: string)
    requires Laws(p) && imsi in h.cache && h.cache[imsi] == v
    requires Plain(v.realm) && Plain(v.nonce) && Plain(creds.impi) && Plain(creds.homeDomain) && Plain(cnonce)
    ensures VerifyHeader(p, h, imsi, DigestText(AuthFields(p, ChallengeText(v), "REGISTER", "sip:" + creds.homeDomain,
                                                           creds.impi, v.xres, cnonce, 1)))
  {
    hide Params, ChallengeText, DigestText, AuthFields, DigestResponse, CountText, Lower;
    assert Plain("sip:" + creds.homeDomain) by {
      WordPlain("sip:");
    }
    AuthReads(p, v, "sip:" + creds.homeDomain, creds.impi, v.xres, cnonce, 1);
  }

  // ---- What is refused ----------------------------------------------------

  /** A hash whose digests differ, in either case of letters, for different texts, and have no colon. */
  ghost predicate CollisionFree(p: Primitives) {
    && (forall a, b :: Lower(p.md5(a)) == Lower(p.md5(b)) ==> a == b)
    && (forall a :: ':' !in p.md5(a))
  }

  lemma SameFront(a: string, b: string, tail: string)
    requires a + tail == b + tail
    ensures a == b
  {
    assert |a| == |b|;
    assert (a + tail)[..|a|] == a && (b + tail)[..|b|] == b;
  }

  lemma SameBack(head: string, a: string, b: string)
    requires head + a == head + b
    ensures a == b
  {
    assert (head + a)[|head|..] == a && (head + b)[|head|..] == b;
  }

  lemma SameHalves(a: string, b: string, c: string, d: string)
    requires ':' !in a && ':' !in c && a + ":" + b == c + ":" + d
    ensures a == c && b == d
  {
    FindAfterChar(a, ':', b);
    FindAfterChar(c, ':', d);
    assert [':'] == ":";
    assert |a| == |c|;
    assert (a + ":" + b)[..|a|] == a && (c + ":" + d)[..|c|] == c;
    assert (a + ":" + b)[|a| + 1..] == b && (c + ":" + d)[|c| + 1..] == d;
  }

  /** Different passwords or nonces, different hashes */
  lemma HashTells(p: Primitives, user: string, pw1: string, n1: string, pw2: string, n2: string, tail: string)
    requires CollisionFree(p)
    requires Lower(p.md5(p.md5(user + pw1) + ":" + n1 + tail)) == Lower(p.md5(p.md5(user + pw2) + ":" + n2 + tail))
    ensures pw1 == pw2 && n1 == n2
  {
    hide Lower;
    var h1, h2 := p.md5(user + pw1), p.md5(user + pw2);
    assert h1 + ":" + n1 + tail == h2 + ":" + n2 + tail;
    SameFront(h1 + ":" + n1, h2 + ":" + n2, tail);
    SameHalves(h1, n1, h2, n2);
    assert Lower(h1) == Lower(h2);
    SameBack(user, pw1, pw2);
  }

  lemma Regrouped(a: string, n: string, nc: string, cnonce: string, qop: string, b: string)
    ensures a + ":" + n + ":" + nc + ":" + cnonce + ":" + qop + ":" + b
            == a + ":" + n + (":" + nc + ":" + cnonce + ":" + qop + ":" + b)
    ensures a + ":" + n + ":" + b == a + ":" + n + (":" + b)
  {
    var x := a + ":" + n;
    assert x + ":" + nc + ":" + cnonce + ":" + qop + ":" + b == x + (":" + nc + ":" + cnonce + ":" + qop + ":" + b);
  }

  /**
   * The verdict on a response with a quality of protection, written out as section
   * 3.2.2.1 of RFC 2617 does: it is accepted if and only if there is a cached vector
   * and the response was made with its RES and its nonce.
   */
  lemma VerdictExact(p: Primitives, h: Helper, imsi: string, username: string, realm: string, uri: string, nonce: string,
                     nc: string, cnonce: string, password: string)
    requires CollisionFree(p)
    ensures var response := p.md5(p.md5(username + ":" + realm + ":" + password) + ":" + nonce + ":" + nc + ":" + cnonce + ":auth:"
                                  + p.md5("REGISTER:" + uri));
            VerifyDigest(p, h, imsi, username, realm, uri, nc, cnonce, "auth", response)
            <==> imsi in h.cache && password == h.cache[imsi].xres && nonce == h.cache[imsi].nonce
  {
    hide Lower;
    if imsi in h.cache {
      var v, ha2 := h.cache[imsi], p.md5("REGISTER:" + uri);
      var user, tail := username + ":" + realm + ":", ":" + nc + ":" + cnonce + ":" + "auth" + ":" + ha2;
      var mine, ours := p.md5(user + password), p.md5(user + v.xres);
      assert "REGISTER" + ":" + uri == "REGISTER:" + uri;
      Regrouped(mine, nonce, nc, cnonce, "auth", ha2);
      Regrouped(ours, v.nonce, nc, cnonce, "auth", ha2);
      assert ":auth:" == ":" + "auth" + ":";
      assert mine + ":" + nonce + ":" + nc + ":" + cnonce + ":auth:" + ha2 == mine + ":" + nonce + tail by {
        assert (mine + ":" + nonce + ":" + nc + ":" + cnonce) + ":auth:" + ha2
               == (mine + ":" + nonce + ":" + nc + ":" + cnonce) + ":" + "auth" + ":" + ha2;
      }
      if Lower(p.md5(mine + ":" + nonce + tail)) == Lower(p.md5(ours + ":" + v.nonce + tail)) {
        HashTells(p, user, password, nonce, v.xres, v.nonce, tail);
      }
    }
  }

  /** The same for a response without one. */
  lemma PlainVerdictExact(p: Primitives, h: Helper, imsi: string, username: string, realm: string, uri: string, nonce: string,
                          nc: string, cnonce: string, password: string)
    requires CollisionFree(p)
    ensures var response := p.md5(p.md5(username + ":" + realm + ":" + password) + ":" + nonce + ":" + p.md5("REGISTER:" + uri));
            VerifyDigest(p, h, imsi, username, realm, uri, nc, cnonce, "", response)
            <==> imsi in h.cache && password == h.cache[imsi].xres && nonce == h.cache[imsi].nonce
  {
    hide Lower;
    if imsi in h.cache {
      var v, ha2 := h.cache[imsi], p.md5("REGISTER:" + uri);
      var user, tail := username + ":" + realm + ":", ":" + ha2;
      assert "REGISTER" + ":" + uri == "REGISTER:" + uri;
      var mine, ours := p.md5(user + password), p.md5(user + v.xres);
      Regrouped(mine, nonce, nc, cnonce, "", ha2);
      Regrouped(ours, v.nonce, nc, cnonce, "", ha2);
      if Lower(p.md5(mine + ":" + nonce + tail)) == Lower(p.md5(ours + ":" + v.nonce + tail)) {
        HashTells(p, user, password, nonce, v.xres, v.nonce, tail);
      }
    }
  }

  /**
   * A header that answers any challenge, the latest or an older one, is accepted if
   * and only if that challenge has the cached nonce and the answer the cached RES.
   */
  lemma HeaderVerdict(p: Primitives, h: Helper, imsi: string, v: CachedVector, username: string, domain: string, password: string,
                      cnonce: string)
    requires Laws(p) && CollisionFree(p) && Plain(v.realm) && Plain(v.nonce) && Plain(username) && Plain(domain) && Plain(cnonce)
    ensures VerifyHeader(p, h, imsi, DigestText(AuthFields(p, ChallengeText(v), "REGISTER", "sip:" + domain, username, password, cnonce, 1)))
            <==> imsi in h.cache && password == h.cache[imsi].xres && v.nonce == h.cache[imsi].nonce
  {
    hide Params, ChallengeText, DigestText, AuthFields, CountText, Lower, VerifyDigest, Plain, DigestResponse;
    var uri, nc := "sip:" + domain, CountText(1);
    assert Plain(uri) by {
      WordPlain("sip:");
      PlainBoth("sip:", domain);
    }
    AuthReads(p, v, uri, username, password, cnonce, 1);
    VerdictExact(p, h, imsi, username, v.realm, uri, v.nonce, nc, cnonce, password);
    ResponseSpelled(p, username, v.realm, password, uri, v.nonce, nc, cnonce);
  }

  /** The response a header carries, written out */
  lemma ResponseSpelled(p: Primitives, username: string, realm: string, password: string, uri: string, nonce: string, nc: string, cnonce: string)
    ensures DigestResponse(p, username, realm, password, "REGISTER", uri, nonce, nc, cnonce, "auth")
            == p.md5(p.md5(username + ":" + realm + ":" + password) + ":" + nonce + ":" + nc + ":" + cnonce + ":auth:"
                     + p.md5("REGISTER:" + uri))
  {
    var ha1, ha2 := p.md5(username + ":" + realm + ":" + password), p.md5("REGISTER:" + uri);
    assert "REGISTER" + ":" + uri == "REGISTER:" + uri;
    var x := ha1 + ":" + nonce + ":" + nc + ":" + cnonce;
    assert x + ":" + "auth" + ":" + ha2 == x + ":auth:" + ha2;
  }

  /** The realm and the count as they stand in the texts */
  lemma RealmText(imsi: string)
    requires |imsi| >= 5 && imsi[3] != '+' && imsi[3] != '-'
    ensures Realm(imsi) == "ims.mnc0" + imsi[3..5] + ".mcc" + imsi[..3] + ".3gppnetwork.org"
  {
    assert imsi[0..3] == imsi[..3];
    assert Zeros(1) == "0";
    assert "ims.mnc" + ("0" + imsi[3..5]) == "ims.mnc0" + imsi[3..5];
  }

  /** The challenge as it is written */
  lemma ChallengeSpelled(v: CachedVector)
    ensures ChallengeText(v)
            == "Digest " + ("realm=\"" + v.realm + "\"") + ", " + ("nonce=\"" + v.nonce + "\"") + ", " + "algorithm=AKAv1-MD5"
               + ", " + "qop=\"auth\""
  {
    hide FieldText, Join;
    var fields := [Field("realm", v.realm, true), Field("nonce", v.nonce, true), Field("algorithm", "AKAv1-MD5", false),
                   Field("qop", "auth", true)];
    var t := FieldTexts(fields);
    Quoted("realm", v.realm);
    Quoted("nonce", v.nonce);
    Quoted("qop", "auth");
    Bare("algorithm", "AKAv1-MD5");
    ChallengeWords();
    assert t == [t[0], t[1], t[2], t[3]];
    JoinFront("Digest ", t);
    JoinFront("Digest " + t[0] + ", ", t[1..]);
    JoinFront("Digest " + t[0] + ", " + t[1] + ", ", t[2..]);
    JoinFront("Digest " + t[0] + ", " + t[1] + ", " + t[2] + ", ", t[3..]);
  }

  /** The answer as it is written */
  lemma AnswerSpelled(p: Primitives, v: CachedVector, uri: string, username: string, password: string, cnonce: string, nc: nat)
    requires Plain(v.realm) && Plain(v.nonce)
    ensures var response := DigestResponse(p, username, v.realm, password, "REGISTER", uri, v.nonce, CountText(nc), cnonce, "auth");
            DigestText(AuthFields(p, ChallengeText(v), "REGISTER", uri, username, password, cnonce, nc))
            == "Digest " + ("username=\"" + username + "\"") + ", " + ("realm=\"" + v.realm + "\"")
               + ", " + ("nonce=\"" + v.nonce + "\"") + ", " + ("uri=\"" + uri + "\"")
               + ", " + ("response=\"" + response + "\"") + ", " + "algorithm=AKAv1-MD5"
               + ", " + "qop=auth" + ", " + ("nc=" + CountText(nc)) + ", " + ("cnonce=\"" + cnonce + "\"")
  {
    hide FieldText, Join, Params, ChallengeText, DigestResponse, CountText, Plain;
    ChallengeReads(v);
    var fields := AuthFields(p, ChallengeText(v), "REGISTER", uri, username, password, cnonce, nc);
    var t := FieldTexts(fields);
    Quoted("username", username);
    Quoted("realm", v.realm);
    Quoted("nonce", v.nonce);
    Quoted("uri", uri);
    Quoted("response", fields[4].value);
    Quoted("cnonce", cnonce);
    Bare("algorithm", "AKAv1-MD5");
    Bare("qop", "auth");
    Bare("nc", CountText(nc));
    ChallengeWords();
    AnswerWords();
    NineJoined(t);
  }

  lemma NineJoined(t: seq<string>)
    requires |t| == 9
    ensures "Digest " + Join(t, ", ")
            == "Digest " + t[0] + ", " + t[1] + ", " + t[2] + ", " + t[3] + ", " + t[4] + ", " + t[5] + ", " + t[6] + ", " + t[7] + ", " + t[8]
  {
    hide Join;
    var f := "Digest ";
    JoinFront(f, t);
    JoinFront(f + t[0] + ", ", t[1..]);
    JoinFront(f + t[0] + ", " + t[1] + ", ", t[2..]);
    JoinFront(f + t[0] + ", " + t[1] + ", " + t[2] + ", ", t[3..]);
    FiveJoined(f + t[0] + ", " + t[1] + ", " + t[2] + ", " + t[3] + ", ", t[4..]);
  }

  lemma FiveJoined(f: string, t: seq<string>)
    requires |t| == 5
    ensures f + Join(t, ", ") == f + t[0] + ", " + t[1] + ", " + t[2] + ", " + t[3] + ", " + t[4]
  {
    hide Join;
    JoinFront(f, t);
    JoinFront(f + t[0] + ", ", t[1..]);
    JoinFront(f + t[0] + ", " + t[1] + ", ", t[2..]);
    JoinFront(f + t[0] + ", " + t[1] + ", " + t[2] + ", ", t[3..]);
    JoinFront(f + t[0] + ", " + t[1] + ", " + t[2] + ", " + t[3] + ", ", t[4..]);
  }

  lemma Quoted(key: string, value: string)
    ensures FieldText(Field(key, value, true)) == key + "=\"" + value + "\""
  {
    assert key + "=" + ("\"" + value + "\"") == key + "=\"" + value + "\"";
  }

  lemma Bare(key: string, value: string)
    ensures FieldText(Field(key, value, false)) == key + "=" + value
  {
  }

  lemma ChallengeWords()
    ensures "realm" + "=\"" == "realm=\"" && "nonce" + "=\"" == "nonce=\"" && "qop" + "=\"" + "auth" + "\"" == "qop=\"auth\""
    ensures "algorithm" + "=" + "AKAv1-MD5" == "algorithm=AKAv1-MD5"
  {
  }

  lemma AnswerWords()
    ensures "username" + "=\"" == "username=\"" && "uri" + "=\"" == "uri=\"" && "response" + "=\"" == "response=\""
    ensures "cnonce" + "=\"" == "cnonce=\"" && "qop" + "=" + "auth" == "qop=auth" && "nc" + "=" == "nc="
  {
  }

  /** The first part of a list, and what joins the rest to it */
  lemma JoinFront(front: string, ps: seq<string>)
    requires ps != []
    ensures front + Join(ps, ", ") == if |ps| == 1 then front + ps[0] else front + ps[0] + ", " + Join(ps[1..], ", ")
  {
    if |ps| > 1 {
      InFront(front, ps[0], Join(ps[1..], ", "));
    }
  }

  lemma InFront(front: string, first: string, rest: string)
    ensures front + (first + ", " + rest) == front + first + ", " + rest
  {
    var comma := ", ";
    assert front + (first + comma + rest) == front + first + comma + rest;
  }

  lemma FirstCount()
    ensures CountText(1) == "00000001"
  {
    assert HexNumber(1) == "1";
    assert Zeros(7) == "0000000";
  }

  // ---- What a vector and an answer are -------------------------------------

  /** Lower-case hex text reads back. */
  lemma {:induction false} HexReads(bs: seq<byte>)
    ensures FromHex(Hex(bs)) == Ok(bs)
  {
    hide FromHex, HexChar, HexValue;
    if bs == [] {
      HexNothing();
      assert Lower("") == "";
    } else {
      var h, l := bs[0] / 16, bs[0] % 16;
      var rest := Hex(bs[1..]);
      HexReads(bs[1..]);
      LowerDigit(h);
      LowerDigit(l);
      var a, b := LowerOf(HexChar(h)), LowerOf(HexChar(l));
      assert Hex(bs) == [a, b] + rest by {
        var upper := HexUpper(bs);
        assert upper == [HexChar(h), HexChar(l)] + HexUpper(bs[1..]);
      }
      PairReads(a, b, h, l, rest);
      assert bs == [bs[0]] + bs[1..];
    }
  }

  function LowerOf(c: char): char {
    Lower([c])[0]
  }

  lemma LowerDigit(d: nat)
    requires d < 16
    ensures HexValue(LowerOf(HexChar(d))) == Some(d) && !AsciiSpace(LowerOf(HexChar(d)))
  {
  }

  lemma PairReads(a: char, b: char, h: nat, l: nat, rest: string)
    requires h < 16 && l < 16 && HexValue(a) == Some(h) && HexValue(b) == Some(l) && !AsciiSpace(a) && FromHex(rest).Ok?
    ensures FromHex([a, b] + rest) == Ok([16 * h + l] + FromHex(rest).value)
  {
    hide HexValue, AsciiSpace;
    var s := [a, b] + rest;
    assert s[0] == a && s[1] == b && s[2..] == rest;
  }

  /** The keys in force: Ki as the record holds it, and OPc as it is held or as the standard derives it from OP. */
  lemma KeysRead(p: Primitives, s: Subscriber)
    ensures SubscriberKeys(p, s).Ok? <==>
            FromHex(s.k).Ok? && FromHex(s.opValue).Ok? && |FromHex(s.k).value| == |FromHex(s.opValue).value| == 16
    ensures SubscriberKeys(p, s).Ok? ==>
              var (ki, opc) := SubscriberKeys(p, s).value;
              && Ok(ki) == FromHex(s.k)
              && (s.opType != 0 ==> Ok(opc) == FromHex(s.opValue))
              && (s.opType == 0 ==>
                    var op: Block := FromHex(s.opValue).value;
                    BitString(opc) == XorBits(BitString(p.aes(ki, op)), BitString(op)))
  {
    hide FromHex, BitString, ComputeOpc;
    if SubscriberKeys(p, s).Ok? && s.opType == 0 {
      OpcIsStandard(Cipher(p, FromHex(s.k).value), FromHex(s.opValue).value);
    }
  }

  /**
   * What asking for a vector changes: without the subscriber or its keys, or with an
   * error, nothing; else the subscriber's cached vector and, if stored, its SQN by 32.
   */
  lemma VectorEffect(p: Primitives, h: Helper, imsi: string, rand: Block, stored: bool)
    ensures var (h', r) := GenerateVector(p, h, imsi, rand, stored);
            var known := imsi in h.subscribers && h.subscribers[imsi].k != "" && h.subscribers[imsi].opValue != "";
            && (r == Ok(None) <==> !known)
            && (r.Err? <==> known && (SubscriberKeys(p, h.subscribers[imsi]).Err? || !SqnFits(h.subscribers[imsi].sqn)
                                      || FromHex(h.subscribers[imsi].amf).Err? || |FromHex(h.subscribers[imsi].amf).value| < 2))
            && (r.Err? || r == Ok(None) ==> h' == h)
            && (r.Ok? && r.value.Some? ==>
                  && h'.cache == h.cache[imsi := r.value.value]
                  && h'.subscribers.Keys == h.subscribers.Keys
                  && (forall x :: x in h.subscribers && x != imsi ==> h'.subscribers[x] == h.subscribers[x])
                  && var s := h.subscribers[imsi];
                     h'.subscribers[imsi] == Subscriber(s.k, s.opType, s.opValue, s.amf, if stored then s.sqn + 32 else s.sqn))
  {
    hide SubscriberKeys, FromHex, Autn, F234, Hex, Realm;
  }

  /**
   * What a vector holds, told by a USIM with the same keys: its nonce is RAND and a
   * token accepted for every SQN up to the subscriber's, and RES, CK and IK are those
   * the USIM answers with, each under its own name.
   */
  lemma VectorHolds(p: Primitives, s: Subscriber, imsi: string, rand: Block, ki: Block, opc: Block, sqnStored: int)
    requires Laws(p) && SubscriberKeys(p, s) == Ok((ki, opc)) && VectorOf(p, s, imsi, rand).Ok? && |FromHex(s.amf).value| == 2
    ensures var v := VectorOf(p, s, imsi, rand).value;
            && v.realm == Realm(imsi) && FromHex(v.rand) == Ok(rand)
            && FromHex(v.autn).Ok? && |FromHex(v.autn).value| == 16
            && p.decode(v.nonce) == Ok(rand + FromHex(v.autn).value)
            && var answer := Authenticate(Cipher(p, ki), opc, rand, FromHex(v.autn).value, sqnStored);
               && (answer.Ok? && answer.value.Some? <==> s.sqn >= sqnStored)
               && (s.sqn >= sqnStored ==> FromHex(v.xres) == Ok(answer.value.value.res) && FromHex(v.ck) == Ok(answer.value.value.ck)
                                          && FromHex(v.ik) == Ok(answer.value.value.ik))
  {
    hide SubscriberKeys, FromHex, Autn, F234, Hex, Realm, Authenticate, Pow2;
    var e, amf := Cipher(p, ki), FromHex(s.amf).value;
    var autn := Autn(e, opc, rand, BigBytes(s.sqn, 6), amf);
    Pow2Large();
    GeneratedToken(e, opc, rand, s.sqn, amf, sqnStored);
    HexReads(rand);
    HexReads(autn);
    HexReads(F234(e, opc, rand).res);
    HexReads(F234(e, opc, rand).ck);
    HexReads(F234(e, opc, rand).ik);
  }

  /**
   * The UE answers any text at all exactly when it has a nonce that decodes to RAND
   * and a fresh, genuine token; its SQN then steps by one, and otherwise stays.
   */
  lemma UeAnswersFresh(p: Primitives, creds: Credentials, challenge: string, cnonce: string)
    ensures var (creds', header) := ComputeAkaResponse(p, creds, challenge, cnonce);
            && creds' == Credentials(creds.impi, creds.homeDomain, creds.ki, creds.opc,
                                     if header.Some? then creds.sqn + 1 else creds.sqn)
            && (header.Some? <==>
                  "nonce" in Params(challenge) && Params(challenge)["nonce"] != ""
                  && var bytes := p.decode(Params(challenge)["nonce"]);
                     bytes.Ok? && |bytes.value| >= 32
                     && FreshToken(Cipher(p, creds.ki), creds.opc, bytes.value[..16], bytes.value[16..32], creds.sqn))
  {
    hide Params, AuthFields, Authenticate, DigestText, Hex, FreshToken;
    var bytes := p.decode(Get(Params(challenge), "nonce", ""));
    if bytes.Ok? && |bytes.value| >= 32 {
      AcceptsFreshTokens(Cipher(p, creds.ki), creds.opc, bytes.value[..16], bytes.value[16..32], creds.sqn);
    }
  }

  // ---- Every run ----------------------------------------------------------

  /** One attempt: the challenge may be lost on its way, and the database may not take the new SQN. */
  datatype Attempt = Attempt(rand: Block, cnonce: string, lost: bool, stored: bool)

  /** Both sides, the challenges the UE got, the answers accepted, and the SQNs the database did not take. */
  datatype Session = Session(helper: Helper, creds: Credentials, got: nat, accepted: nat, unstored: nat)

  function Register(p: Primitives, s: Session, imsi: string, a: Attempt): Session {
    var (h, r) := GenerateVector(p, s.helper, imsi, a.rand, a.stored);
    if r.Err? || r.value.None? then s.(helper := h)
    else
      var s' := s.(helper := h, unstored := if a.stored then s.unstored else s.unstored + 1);
      if a.lost then s'
      else
        var (creds, header) := ComputeAkaResponse(p, s.creds, ChallengeText(r.value.value), a.cnonce);
        s'.(creds := creds, got := s.got + 1,
            accepted := if header.Some? && VerifyHeader(p, h, imsi, header.value) then s.accepted + 1 else s.accepted)
  }

  function AfterAttempts(p: Primitives, start: Session, imsi: string, attempts: seq<Attempt>): Session {
    if attempts == [] then start
    else Register(p, AfterAttempts(p, start, imsi, attempts[..|attempts| - 1]), imsi, attempts[|attempts| - 1])
  }

  /** The UE is at most one ahead of the network, and then only for an SQN that was not stored. */
  ghost predicate InStep(p: Primitives, s: Session, imsi: string) {
    && SameSubscriber(p, s.helper, imsi, s.creds)
    && s.accepted <= s.got
    && var ahead := s.creds.sqn - s.helper.subscribers[imsi].sqn;
       ahead <= 1 && s.got - s.accepted + (if ahead == 1 then 1 else 0) <= s.unstored
  }

  lemma KeysIgnoreSqn(p: Primitives, s: Subscriber, sqn: int)
    ensures SubscriberKeys(p, s.(sqn := sqn)) == SubscriberKeys(p, s)
  {
    hide FromHex;
  }

  lemma RegisterKeeps(p: Primitives, s: Session, imsi: string, a: Attempt)
    requires Laws(p) && Plain(a.cnonce) && InStep(p, s, imsi)
    ensures InStep(p, Register(p, s, imsi, a), imsi)
  {
    hide Laws, Plain, ComputeAkaResponse, GenerateVector, VerifyHeader, SubscriberKeys, FromHex, ChallengeText, Autn, F234, Hex, Realm;
    ChallengeMade(p, s.helper, imsi, s.creds, a.rand, a.stored);
    KeysIgnoreSqn(p, s.helper.subscribers[imsi], s.helper.subscribers[imsi].sqn + 32);
    if SqnFits(s.helper.subscribers[imsi].sqn) {
      DigestsAgree(p, s.helper, imsi, s.creds, a.rand, a.stored, a.cnonce);
    }
  }

  /**
   * Over any number of attempts, whichever challenges are lost: at most as many
   * challenges fail at the UE as SQNs were not stored, and none when all were.
   */
  lemma {:induction false} EveryAnswerAccepted(p: Primitives, start: Session, imsi: string, attempts: seq<Attempt>)
    requires Laws(p) && InStep(p, start, imsi) && forall a :: a in attempts ==> Plain(a.cnonce)
    ensures InStep(p, AfterAttempts(p, start, imsi, attempts), imsi)
    ensures var end := AfterAttempts(p, start, imsi, attempts);
            && end.got - end.accepted <= end.unstored
            && (start.unstored == 0 && (forall a :: a in attempts ==> a.stored) ==> end.unstored == 0 && end.accepted == end.got)
  {
    hide Laws, Plain, Register, SameSubscriber;
    if attempts != [] {
      var before, last := attempts[..|attempts| - 1], attempts[|attempts| - 1];
      EveryAnswerAccepted(p, start, imsi, before);
      RegisterKeeps(p, AfterAttempts(p, start, imsi, before), imsi, last);
      StoredCounts(p, AfterAttempts(p, start, imsi, before), imsi, last);
    }
  }

  lemma StoredCounts(p: Primitives, s: Session, imsi: string, a: Attempt)
    ensures a.stored ==> Register(p, s, imsi, a).unstored == s.unstored
  {
    hide GenerateVector, ComputeAkaResponse, VerifyHeader;
  }
}

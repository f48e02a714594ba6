/**
 * Test grants as strings (internal/grant/grant.go): `Sign` prints claims and a signature in base64url,
 * `Verify` parses them back. Ed25519 and JSON are parameters; their usual laws are the predicates
 * SignatureLaw and JsonLaw.
 */
module Grants {
  import opened Wrappers
  import opened Claims
  import opened Base64Url

  /** One key pair together with the JSON codec of claims. */
  datatype Suite = Suite(
    sign: string -> seq<Byte>,
    verify: (string, seq<Byte>) -> bool,
    marshal: Claims -> seq<Byte>,
    unmarshal: seq<Byte> -> Option<Claims>
  )

  ghost predicate SignatureLaw(k: Suite) {
    forall m: string :: k.verify(m, k.sign(m))
  }

  ghost predicate JsonLaw(k: Suite) {
    forall c: Claims :: k.unmarshal(k.marshal(c)) == Some(c)
  }

  datatype Error = Invalid | NoRandomness

  const PREFIX: string := "rgtt1"

  /** The token made of a payload and a signature. */
  function Token(payload: string, signature: string): string {
    PREFIX + "." + payload + "." + signature
  }

  /** The message the signature covers. */
  function Signed(payload: string): string {
    PREFIX + "." + payload
  }

  /** The claims with the defaults `Sign` fills in. */
  function Filled(c: Claims, random: seq<Byte>): Claims {
    var c := if c.version == 0 then c.(version := 1) else c;
    if c.nonce == "" then c.(nonce := Encode(random)) else c
  }

  /** `random` is what the system's random source yields, if it works. */
  function Sign(k: Suite, c: Claims, random: Option<seq<Byte>>): Result<string, Error> {
    if c.nonce == "" && random.None? then Err(NoRandomness)
    else
      var payload := Encode(k.marshal(Filled(c, if random.Some? then random.value else [])));
      Ok(Token(payload, Encode(k.sign(Signed(payload)))))
  }

  /** Go's strings.Split for a one-character separator: always at least one part. */
  function Split(s: string, sep: char): (parts: seq<string>)
    ensures |parts| > 0
  {
    if s == [] then [[]]
    else
      var rest := Split(s[1..], sep);
      if s[0] == sep then [[]] + rest else [[s[0]] + rest[0]] + rest[1..]
  }

  predicate Timely(c: Claims, now: int) {
    c.version == 1 && c.notBefore <= now <= c.expires && c.nonce != ""
  }

  function Verify(k: Suite, token: string, now: int): Result<Claims, Error> {
    var p := Split(token, '.');
    if |p| != 3 || p[0] != PREFIX then Err(Invalid)
    else
      var b, sig := Decode(p[1]), Decode(p[2]);
      if b.None? || sig.None? || Encode(b.value) != p[1] || Encode(sig.value) != p[2] then Err(Invalid)
      else if !k.verify(Signed(p[1]), sig.value) || k.unmarshal(b.value).None? then Err(Invalid)
      else
        var c := k.unmarshal(b.value).value;
        if Timely(c, now) then Ok(c) else Err(Invalid)
  }

  /** The search loop of `HasScope`. */
  method HasScope(c: Claims, scope: string) returns (found: bool)
    ensures found <==> scope in c.scopes
  {
    for i := 0 to |c.scopes|
      invariant scope !in c.scopes[..i]
    {
      if c.scopes[i] == scope {
        return true;
      }
    }
    return false;
  }

  // ----- splitting -----

  function Join(parts: seq<string>, sep: char): string
    requires |parts| > 0
  {
    if |parts| == 1 then parts[0] else parts[0] + [sep] + Join(parts[1..], sep)
  }

  lemma {:induction false} SplitNothing(s: string, sep: char)
    requires sep !in s
    ensures Split(s, sep) == [s]
    decreases |s|
  {
    if s != [] {
      SplitNothing(s[1..], sep);
      assert [s[0]] + s[1..] == s;
    }
  }

  lemma {:induction false} SplitAfter(a: string, s: string, sep: char)
    requires sep !in a
    ensures Split(a + [sep] + s, sep) == [a] + Split(s, sep)
    decreases |a|
  {
    var t := a + [sep] + s;
    if a == [] {
      assert t[1..] == s;
    } else {
      SplitAfter(a[1..], s, sep);
      assert t[1..] == a[1..] + [sep] + s;
      assert [a[0]] + a[1..] == a;
      assert Split(t, sep) == [[a[0]] + a[1..]] + Split(s, sep);
    }
  }

  lemma JoinCons(c: char, parts: seq<string>, sep: char)
    requires |parts| > 0
    ensures Join([[c] + parts[0]] + parts[1..], sep) == [c] + Join(parts, sep)
  {
    var longer := [[c] + parts[0]] + parts[1..];
    assert longer[1..] == parts[1..];
    if |parts| > 1 {
      var tail := [sep] + Join(parts[1..], sep);
      assert Join(parts, sep) == parts[0] + tail;
      assert Join(longer, sep) == [c] + parts[0] + tail;
    }
  }

  lemma {:induction false} JoinSplit(s: string, sep: char)
    ensures Join(Split(s, sep), sep) == s
    decreases |s|
  {
    if s != [] {
      var rest := Split(s[1..], sep);
      JoinSplit(s[1..], sep);
      assert s == [s[0]] + s[1..];
      if s[0] == sep {
        assert ([[]] + rest)[1..] == rest;
      } else {
        JoinCons(s[0], rest, sep);
      }
    }
  }

  lemma SplitToken(payload: string, signature: string)
    requires '.' !in payload && '.' !in signature
    ensures Split(Token(payload, signature), '.') == [PREFIX, payload, signature]
  {
    assert Token(payload, signature) == PREFIX + ['.'] + (payload + ['.'] + signature);
    SplitAfter(PREFIX, payload + ['.'] + signature, '.');
    SplitAfter(payload, signature, '.');
    SplitNothing(signature, '.');
  }

  lemma ThreePartsAreAToken(token: string)
    requires |Split(token, '.')| == 3 && Split(token, '.')[0] == PREFIX
    ensures token == Token(Split(token, '.')[1], Split(token, '.')[2])
  {
    var p := Split(token, '.');
    JoinSplit(token, '.');
    assert p[1..][1..] == [p[2]] && p[1..][0] == p[1];
    assert Join(p[1..], '.') == p[1] + ['.'] + p[2];
    assert Join(p, '.') == PREFIX + ['.'] + (p[1] + ['.'] + p[2]);
  }

  lemma EncodedHasNoDot(bs: seq<Byte>)
    ensures '.' !in Encode(bs)
  {
    SextetsOfText(Pack(bs));
  }

  // ----- theorems -----

  /**
   * Round trip: a signed token verifies to exactly the claims that were signed, with their defaults, if
   * and only if its version is 1 and the moment lies in its window; otherwise it is refused.
   */
  lemma VerifySign(k: Suite, c: Claims, random: seq<Byte>, now: int)
    requires SignatureLaw(k) && JsonLaw(k) && |random| == 16
    ensures var full := Filled(c, random);
            && Sign(k, c, Some(random)).Ok?
            && Verify(k, Sign(k, c, Some(random)).value, now)
            == if full.version == 1 && full.notBefore <= now <= full.expires then Ok(full) else Err(Invalid)
  {
    var full := Filled(c, random);
    var b := k.marshal(full);
    var payload := Encode(b);
    var sig := k.sign(Signed(payload));
    EncodedHasNoDot(b);
    EncodedHasNoDot(sig);
    SplitToken(payload, Encode(sig));
    RoundTrip(b);
    RoundTrip(sig);
    assert |Encode(random)| > 0;
  }

  /** Every accepted token is spelled the one canonical way from its decoded parts. */
  lemma AcceptedIsCanonical(k: Suite, token: string, now: int)
    requires Verify(k, token, now).Ok?
    ensures var p := Split(token, '.');
            && |p| == 3 && Decode(p[1]).Some? && Decode(p[2]).Some?
            && token == Token(Encode(Decode(p[1]).value), Encode(Decode(p[2]).value))
            && k.verify(Signed(Encode(Decode(p[1]).value)), Decode(p[2]).value)
            && k.unmarshal(Decode(p[1]).value) == Some(Verify(k, token, now).value)
  {
    ThreePartsAreAToken(token);
  }

  /**
   * A token is accepted at most in one spelling: replace its payload or its signature by another text the
   * lenient decoder reads the same way, and it is refused.
   */
  lemma {:induction false} RespellingRefused(k: Suite, token: string, now: int, payload: string, signature: string)
    requires Verify(k, token, now).Ok?
    requires Decode(payload) == Decode(Split(token, '.')[1]) && Decode(signature) == Decode(Split(token, '.')[2])
    requires Token(payload, signature) != token
    ensures Verify(k, Token(payload, signature), now) == Err(Invalid)
  {
    AcceptedIsCanonical(k, token, now);
    DecodableHasNoDot(payload);
    DecodableHasNoDot(signature);
    SplitToken(payload, signature);
  }

  lemma PartsWithoutBreaks(payload: string, signature: string)
    requires (forall ch :: ch in payload ==> !IsBreak(ch)) && (forall ch :: ch in signature ==> !IsBreak(ch))
    ensures forall ch :: ch in Token(payload, signature) ==> !IsBreak(ch)
  {
    assert forall ch :: ch in PREFIX + "." ==> !IsBreak(ch);
    assert Token(payload, signature) == PREFIX + "." + payload + ("." + signature);
  }

  /** The texts of an accepted token carry no line break and no spare bits. */
  lemma {:induction false} AcceptedHasNoSlack(k: Suite, token: string, now: int)
    requires Verify(k, token, now).Ok?
    ensures (forall ch :: ch in token ==> !IsBreak(ch))
    ensures var p := Split(token, '.');
            SpareBitsZero(Sextets(p[1]).value) && SpareBitsZero(Sextets(p[2]).value)
  {
    AcceptedIsCanonical(k, token, now);
    var p := Split(token, '.');
    CanonicalIff(p[1]);
    CanonicalIff(p[2]);
    PartsWithoutBreaks(p[1], p[2]);
  }

  // ----- defaults -----

  /** Only a missing version and a missing nonce are filled in, the nonce with the random bytes' own text. */
  lemma OnlyDefaultsFilled(c: Claims, random: seq<Byte>)
    requires random != []
    ensures var f := Filled(c, random);
            && f == c.(version := f.version, nonce := f.nonce)
            && f.version == (if c.version == 0 then 1 else c.version)
            && (c.nonce != "" ==> f.nonce == c.nonce)
            && (c.nonce == "" ==> f.nonce != "" && f.nonce == Encode(random) && Decode(f.nonce) == Some(random))
  {
    RoundTrip(random);
  }

  /** Different random bytes give different nonces. */
  lemma NoncesDiffer(c: Claims, d: Claims, x: seq<Byte>, y: seq<Byte>)
    requires c.nonce == d.nonce == "" && x != y && x != [] && y != []
    ensures Filled(c, x).nonce != Filled(d, y).nonce
  {
    OnlyDefaultsFilled(c, x);
    OnlyDefaultsFilled(d, y);
  }

  // ----- what is accepted -----

  /** The token is the text of a payload that decodes to the claims, and of a signature of that text. */
  predicate Spells(k: Suite, token: string, payload: seq<Byte>, signature: seq<Byte>, c: Claims) {
    && token == "rgtt1." + Encode(payload) + "." + Encode(signature)
    && k.verify("rgtt1." + Encode(payload), signature)
    && k.unmarshal(payload) == Some(c)
  }

  lemma TextOfToken(payload: string, signature: string)
    ensures Token(payload, signature) == "rgtt1." + payload + "." + signature
    ensures Signed(payload) == "rgtt1." + payload
  {
  }

  lemma AcceptedIsSpelt(k: Suite, token: string, c: Claims, now: int)
    requires Verify(k, token, now) == Ok(c)
    ensures exists payload, signature :: Spells(k, token, payload, signature, c)
  {
    AcceptedIsCanonical(k, token, now);
    var p := Split(token, '.');
    var payload, signature := Decode(p[1]).value, Decode(p[2]).value;
    TextOfToken(Encode(payload), Encode(signature));
    assert Spells(k, token, payload, signature, c);
  }

  /** A token is accepted with its claims if and only if it spells them and they are in force. */
  lemma VerifyIff(k: Suite, token: string, c: Claims, now: int)
    ensures Verify(k, token, now) == Ok(c) <==>
              && (exists payload, signature :: Spells(k, token, payload, signature, c))
              && c.version == 1 && c.notBefore <= now <= c.expires && c.nonce != ""
  {
    if Verify(k, token, now) == Ok(c) {
      AcceptedIsSpelt(k, token, c, now);
    }
    if exists payload, signature :: Spells(k, token, payload, signature, c) {
      var payload, signature :| Spells(k, token, payload, signature, c);
      SpeltIsVerified(k, token, payload, signature, c, now);
    }
  }

  lemma SpeltIsVerified(k: Suite, token: string, payload: seq<Byte>, signature: seq<Byte>, c: Claims, now: int)
    requires Spells(k, token, payload, signature, c)
    ensures Verify(k, token, now) == if Timely(c, now) then Ok(c) else Err(Invalid)
  {
    EncodedHasNoDot(payload);
    EncodedHasNoDot(signature);
    TextOfToken(Encode(payload), Encode(signature));
    SplitToken(Encode(payload), Encode(signature));
    RoundTrip(payload);
    RoundTrip(signature);
  }
}

/**
 * Unpadded base64url (sections 3.3, 3.5 and 5 of RFC 4648) as Go's RawURLEncoding implements it: the
 * encoder is strict, the decoder skips line breaks and ignores the spare bits of the last symbol.
 */
module Base64Url {
  import opened Wrappers

  type Byte = b: int | 0 <= b < 256
  type Sextet = x: int | 0 <= x < 64

  // ----- symbols -----

  function Symbol(x: Sextet): char {
    if x < 26 then (x + 'A' as int) as char
    else if x < 52 then (x - 26 + 'a' as int) as char
    else if x < 62 then (x - 52 + '0' as int) as char
    else if x == 62 then '-'
    else '_'
  }

  function SymbolValue(c: char): Option<Sextet> {
    if 'A' <= c <= 'Z' then Some(c as int - 'A' as int)
    else if 'a' <= c <= 'z' then Some(c as int - 'a' as int + 26)
    else if '0' <= c <= '9' then Some(c as int - '0' as int + 52)
    else if c == '-' then Some(62)
    else if c == '_' then Some(63)
    else None
  }

  lemma SymbolsInvert(x: Sextet, c: char)
    ensures SymbolValue(Symbol(x)) == Some(x)
    ensures SymbolValue(c).Some? ==> Symbol(SymbolValue(c).value) == c
  {
  }

  predicate IsBreak(c: char) {
    c == '\r' || c == '\n'
  }

  function Text(xs: seq<Sextet>): (s: string)
    ensures |s| == |xs|
  {
    seq(|xs|, i requires 0 <= i < |xs| => Symbol(xs[i]))
  }

  /** The sextets of a text without its line breaks; None when another character is in the way. */
  function Sextets(s: string): Option<seq<Sextet>> {
    if s == [] then Some([])
    else if IsBreak(s[0]) then Sextets(s[1..])
    else
      var rest := Sextets(s[1..]);
      if rest.None? || SymbolValue(s[0]).None? then None
      else Some([SymbolValue(s[0]).value] + rest.value)
  }

  // ----- bytes and sextets -----

  // The four symbols of three bytes, and the three bytes of four symbols.
  function S0(b: Byte): Sextet { b as int / 4 }
  function S1(b: Byte, c: Byte): Sextet { (b as int % 4) * 16 + c as int / 16 }
  function S2(c: Byte, d: Byte): Sextet { (c as int % 16) * 4 + d as int / 64 }
  function S3(d: Byte): Sextet { d as int % 64 }
  function B0(x: Sextet, y: Sextet): Byte { x as int * 4 + y as int / 16 }
  function B1(y: Sextet, z: Sextet): Byte { (y as int % 16) * 16 + z as int / 4 }
  function B2(z: Sextet, w: Sextet): Byte { (z as int % 4) * 64 + w as int }

  function Pack(bs: seq<Byte>): seq<Sextet> {
    if bs == [] then []
    else if |bs| == 1 then [S0(bs[0]), S1(bs[0], 0)]
    else if |bs| == 2 then [S0(bs[0]), S1(bs[0], bs[1]), S2(bs[1], 0)]
    else [S0(bs[0]), S1(bs[0], bs[1]), S2(bs[1], bs[2]), S3(bs[2])] + Pack(bs[3..])
  }

  function Unpack(xs: seq<Sextet>): seq<Byte>
    requires |xs| % 4 != 1
  {
    if xs == [] then []
    else if |xs| == 2 then [B0(xs[0], xs[1])]
    else if |xs| == 3 then [B0(xs[0], xs[1]), B1(xs[1], xs[2])]
    else [B0(xs[0], xs[1]), B1(xs[1], xs[2]), B2(xs[2], xs[3])] + Unpack(xs[4..])
  }

  /** The bits of the last symbol that belong to no byte are zero. */
  predicate SpareBitsZero(xs: seq<Sextet>) {
    && (|xs| % 4 == 2 ==> xs[|xs| - 1] % 16 == 0)
    && (|xs| % 4 == 3 ==> xs[|xs| - 1] % 4 == 0)
  }

  function Encode(bs: seq<Byte>): string {
    Text(Pack(bs))
  }

  function Decode(s: string): Option<seq<Byte>> {
    var xs := Sextets(s);
    if xs.None? || |xs.value| % 4 == 1 then None else Some(Unpack(xs.value))
  }

  // ----- round trip -----

  lemma BytesInvert(b: Byte, c: Byte, d: Byte)
    ensures B0(S0(b), S1(b, c)) == b && B1(S1(b, c), S2(c, d)) == c && B2(S2(c, d), S3(d)) == d
  {
  }

  lemma SextetsInvert(x: Sextet, y: Sextet, z: Sextet, w: Sextet)
    ensures S0(B0(x, y)) == x && S1(B0(x, y), B1(y, z)) == y
    ensures S2(B1(y, z), B2(z, w)) == z && S3(B2(z, w)) == w
    ensures S1(B0(x, y), 0) == y <==> y as int % 16 == 0
    ensures S2(B1(y, z), 0) == z <==> z as int % 4 == 0
  {
  }

  lemma PackGroup(b: Byte, c: Byte, d: Byte, rest: seq<Byte>)
    ensures Pack([b, c, d] + rest) == [S0(b), S1(b, c), S2(c, d), S3(d)] + Pack(rest)
  {
    assert ([b, c, d] + rest)[3..] == rest;
  }

  lemma UnpackGroup(x: Sextet, y: Sextet, z: Sextet, w: Sextet, rest: seq<Sextet>)
    requires |rest| % 4 != 1
    ensures |[x, y, z, w] + rest| % 4 != 1
    ensures Unpack([x, y, z, w] + rest) == [B0(x, y), B1(y, z), B2(z, w)] + Unpack(rest)
  {
    assert ([x, y, z, w] + rest)[4..] == rest;
  }

  lemma UnpackPackGroup(b: Byte, c: Byte, d: Byte, rest: seq<Byte>)
    requires |Pack(rest)| % 4 != 1 && Unpack(Pack(rest)) == rest
    ensures var bs := [b, c, d] + rest; |Pack(bs)| % 4 != 1 && Unpack(Pack(bs)) == bs
  {
    PackGroup(b, c, d, rest);
    UnpackGroup(S0(b), S1(b, c), S2(c, d), S3(d), Pack(rest));
    BytesInvert(b, c, d);
  }

  lemma FirstInverts(b: Byte)
    ensures B0(S0(b), S1(b, 0)) == b
  {
  }

  lemma UnpackTwo(x: Sextet, y: Sextet)
    ensures Unpack([x, y]) == [B0(x, y)]
  {
  }

  lemma OneByte(b: Byte)
    ensures Pack([b]) == [S0(b), S1(b, 0)] && Unpack(Pack([b])) == [b]
  {
    UnpackTwo(S0(b), S1(b, 0));
    FirstInverts(b);
  }

  lemma TwoBytes(b: Byte, c: Byte)
    ensures Pack([b, c]) == [S0(b), S1(b, c), S2(c, 0)] && Unpack(Pack([b, c])) == [b, c]
  {
    BytesInvert(b, c, 0);
  }

  lemma UnpackPackShort(bs: seq<Byte>)
    requires |bs| < 3
    ensures |Pack(bs)| % 4 != 1 && Unpack(Pack(bs)) == bs
  {
    if |bs| == 1 {
      OneByte(bs[0]);
      assert bs == [bs[0]];
    } else if |bs| == 2 {
      TwoBytes(bs[0], bs[1]);
      assert bs == [bs[0], bs[1]];
    }
  }

  lemma {:induction false} UnpackPack(bs: seq<Byte>)
    ensures |Pack(bs)| % 4 != 1 && Unpack(Pack(bs)) == bs
    decreases |bs|
  {
    if |bs| < 3 {
      UnpackPackShort(bs);
    } else {
      var rest := bs[3..];
      UnpackPack(rest);
      UnpackPackGroup(bs[0], bs[1], bs[2], rest);
      assert bs == [bs[0], bs[1], bs[2]] + rest;
    }
  }

  lemma PackUnpackGroup(x: Sextet, y: Sextet, z: Sextet, w: Sextet, rest: seq<Sextet>)
    requires |rest| % 4 != 1
    ensures var xs := [x, y, z, w] + rest;
            |xs| % 4 != 1 && (Pack(Unpack(xs)) == xs <==> Pack(Unpack(rest)) == rest)
  {
    UnpackGroup(x, y, z, w, rest);
    PackGroup(B0(x, y), B1(y, z), B2(z, w), Unpack(rest));
    SextetsInvert(x, y, z, w);
    var head := [x, y, z, w];
    assert (head + Pack(Unpack(rest)))[4..] == Pack(Unpack(rest)) && (head + rest)[4..] == rest;
  }

  lemma TwoSextets(x: Sextet, y: Sextet)
    ensures Pack(Unpack([x, y])) == [x, y] <==> SpareBitsZero([x, y])
  {
    SextetsInvert(x, y, 0, 0);
    assert Unpack([x, y]) == [B0(x, y)];
    assert Pack([B0(x, y)]) == [S0(B0(x, y)), S1(B0(x, y), 0)];
    assert [x, S1(B0(x, y), 0)][1] == S1(B0(x, y), 0) && [x, y][1] == y;
  }

  lemma ThreeSextets(x: Sextet, y: Sextet, z: Sextet)
    ensures Pack(Unpack([x, y, z])) == [x, y, z] <==> SpareBitsZero([x, y, z])
  {
    SextetsInvert(x, y, z, 0);
    assert Unpack([x, y, z]) == [B0(x, y), B1(y, z)];
    var bs := [B0(x, y), B1(y, z)];
    assert Pack(bs) == [x, y, S2(B1(y, z), 0)];
    assert [x, y, S2(B1(y, z), 0)][2] == S2(B1(y, z), 0) && [x, y, z][2] == z;
  }

  lemma PackUnpackTwo(xs: seq<Sextet>)
    requires |xs| == 2
    ensures Pack(Unpack(xs)) == xs <==> SpareBitsZero(xs)
  {
    TwoSextets(xs[0], xs[1]);
    assert xs == [xs[0], xs[1]];
  }

  lemma PackUnpackThree(xs: seq<Sextet>)
    requires |xs| == 3
    ensures Pack(Unpack(xs)) == xs <==> SpareBitsZero(xs)
  {
    ThreeSextets(xs[0], xs[1], xs[2]);
    assert xs == [xs[0], xs[1], xs[2]];
  }

  /** A sextet sequence is what its own bytes pack to exactly when its spare bits are zero. */
  lemma {:induction false} PackUnpackIff(xs: seq<Sextet>)
    requires |xs| % 4 != 1
    ensures Pack(Unpack(xs)) == xs <==> SpareBitsZero(xs)
    decreases |xs|
  {
    if |xs| == 2 {
      PackUnpackTwo(xs);
    } else if |xs| == 3 {
      PackUnpackThree(xs);
    } else if |xs| >= 4 {
      var rest := xs[4..];
      PackUnpackIff(rest);
      PackUnpackGroup(xs[0], xs[1], xs[2], xs[3], rest);
      assert xs == [xs[0], xs[1], xs[2], xs[3]] + rest;
      SameTail(xs);
    }
  }

  lemma SameTail(xs: seq<Sextet>)
    requires |xs| >= 4 && |xs| % 4 != 1
    ensures SpareBitsZero(xs) <==> SpareBitsZero(xs[4..])
  {
  }

  lemma {:induction false} SextetsOfText(xs: seq<Sextet>)
    ensures Sextets(Text(xs)) == Some(xs)
    ensures forall c :: c in Text(xs) ==> SymbolValue(c).Some?
    decreases |xs|
  {
    if xs != [] {
      SymbolsInvert(xs[0], 'A');
      SextetsOfText(xs[1..]);
      assert Text(xs) == [Symbol(xs[0])] + Text(xs[1..]);
      assert [xs[0]] + xs[1..] == xs;
    }
  }

  /** A decodable text is the spelling of its sextets exactly when it holds no line break. */
  lemma {:induction false} TextOfSextetsIff(s: string)
    requires Sextets(s).Some?
    ensures |Sextets(s).value| <= |s|
    ensures Text(Sextets(s).value) == s <==> forall c :: c in s ==> !IsBreak(c)
    decreases |s|
  {
    if s != [] {
      TextOfSextetsIff(s[1..]);
      if IsBreak(s[0]) {
        assert |Text(Sextets(s).value)| < |s|;
      } else {
        var x := SymbolValue(s[0]).value;
        var rest := Sextets(s[1..]).value;
        SymbolsInvert(x, s[0]);
        assert Text([x] + rest) == [s[0]] + Text(rest);
        assert s == [s[0]] + s[1..];
        assert ([s[0]] + Text(rest))[1..] == Text(rest);
      }
    }
  }

  /** Decoding undoes encoding, on every byte string. */
  lemma RoundTrip(bs: seq<Byte>)
    ensures Decode(Encode(bs)) == Some(bs)
  {
    UnpackPack(bs);
    SextetsOfText(Pack(bs));
  }

  /**
   * Encoding undoes decoding exactly on the canonical texts: those without line breaks whose spare bits
   * are zero. Every other text the decoder accepts is a respelling.
   */
  lemma CanonicalIff(s: string)
    requires Decode(s).Some?
    ensures Encode(Decode(s).value) == s
       <==> (forall c :: c in s ==> !IsBreak(c)) && SpareBitsZero(Sextets(s).value)
  {
    var xs := Sextets(s).value;
    PackUnpackIff(xs);
    TextOfSextetsIff(s);
    var ys := Pack(Unpack(xs));
    if Text(ys) == s {
      SextetsOfText(ys);
      assert ys == xs;
    }
  }

  lemma SextetsCons(c: char, s: string)
    requires IsBreak(c) || SymbolValue(c).Some?
    requires Sextets(s).Some?
    ensures Sextets([c] + s) == if IsBreak(c) then Sextets(s) else Some([SymbolValue(c).value] + Sextets(s).value)
  {
    assert ([c] + s)[1..] == s;
  }

  /** Two texts can decode alike: a stray line break or stray spare bits make no difference. */
  lemma RespellingsExist()
    ensures Decode("QQ").Some? && Decode("QQ").value == [65]
    ensures Decode("QR") == Decode("Q\nQ") == Decode("QQ")
  {
    SextetsCons('Q', "");
    SextetsCons('R', "");
    SextetsCons('\n', "Q");
    SextetsCons('Q', "Q");
    SextetsCons('Q', "R");
    SextetsCons('Q', "\nQ");
    assert ['Q'] + "" == "Q" && ['R'] + "" == "R" && ['\n'] + "Q" == "\nQ";
    assert ['Q'] + "Q" == "QQ" && ['Q'] + "R" == "QR" && ['Q'] + "\nQ" == "Q\nQ";
    var plain: seq<Sextet>, spare: seq<Sextet>, a: seq<Byte> := [16, 16], [16, 17], [65];
    assert Sextets("QQ").value == Sextets("Q\nQ").value == plain && Sextets("QR").value == spare;
    assert Unpack(plain) == Unpack(spare) == a;
  }

  lemma {:induction false} DecodableHasNoDot(s: string)
    requires Sextets(s).Some?
    ensures '.' !in s
    decreases |s|
  {
    if s != [] {
      DecodableHasNoDot(s[1..]);
      assert s == [s[0]] + s[1..];
    }
  }

  // ----- the alphabet -----

  /** Table 2 of RFC 4648, section 5: A to Z, a to z, 0 to 9, - and _. */
  lemma SymbolsInOrder(x: Sextet)
    ensures Symbol(0) == 'A' && Symbol(25) == 'Z' && Symbol(26) == 'a' && Symbol(51) == 'z'
    ensures Symbol(52) == '0' && Symbol(61) == '9' && Symbol(62) == '-' && Symbol(63) == '_'
    ensures x !in {25, 51, 61, 62, 63} ==> Symbol(x + 1) as int == Symbol(x) as int + 1
  {
  }

  /** The test vectors of section 10 of RFC 4648 without their padding, and one with both special symbols. */
  lemma KnownTexts()
    ensures Encode([]) == "" && Encode([102]) == "Zg" && Encode([102, 111]) == "Zm8"
    ensures Encode([102, 111, 111]) == "Zm9v"
    ensures Encode([102, 111, 111, 98, 97, 114]) == "Zm9vYmFy"
    ensures Encode([251, 255]) == "-_8"
  {
    PackGroup(102, 111, 111, []);
    PackGroup(102, 111, 111, [98, 97, 114]);
    PackGroup(98, 97, 114, []);
    assert [102, 111, 111] + [98, 97, 114] == [102, 111, 111, 98, 97, 114];
    assert [102, 111, 111] + [] == [102, 111, 111];
    assert [98, 97, 114] + [] == [98, 97, 114];
  }
}

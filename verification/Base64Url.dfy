/** Unpadded base64url (section 5 of RFC 4648). A `char` below 256 stands for one byte. */
module Base64Url {
  import opened GoStrings

  // ---- Six-bit digits ----

  predicate Sextet(v: int) { 0 <= v < 64 }

  function EncodeSextet(v: int): char
    requires Sextet(v)
  {
    if v < 26 then 'A' + v as char
    else if v < 52 then 'a' + (v - 26) as char
    else if v < 62 then '0' + (v - 52) as char
    else if v == 62 then '-' else '_'
  }

  function DecodeSextet(c: char): (v: int)
    ensures v == -1 || Sextet(v)
  {
    if 'A' <= c <= 'Z' then (c - 'A') as int
    else if 'a' <= c <= 'z' then (c - 'a') as int + 26
    else if '0' <= c <= '9' then (c - '0') as int + 52
    else if c == '-' then 62
    else if c == '_' then 63
    else -1
  }

  lemma SextetRoundTrip(v: int)
    requires Sextet(v)
    ensures DecodeSextet(EncodeSextet(v)) == v
    ensures EncodeSextet(v) != '.' && EncodeSextet(v) != '\r' && EncodeSextet(v) != '\n'
  {
  }

  // ---- Encoding ----

  function EncodeGroup(a: int, b: int, c: int): string
    requires 0 <= a < 256 && 0 <= b < 256 && 0 <= c < 256
  {
    [EncodeSextet(a / 4), EncodeSextet(a % 4 * 16 + b / 16), EncodeSextet(b % 16 * 4 + c / 64), EncodeSextet(c % 64)]
  }

  function Encode(s: string): string
    requires IsBytes(s)
  {
    if s == "" then ""
    else if |s| == 1 then EncodeGroup(s[0] as int, 0, 0)[..2]
    else if |s| == 2 then EncodeGroup(s[0] as int, s[1] as int, 0)[..3]
    else EncodeGroup(s[0] as int, s[1] as int, s[2] as int) + Encode(s[3..])
  }

  // ---- Decoding ----

  /** Line breaks anywhere in the input are skipped. */
  function StripNewlines(s: string): string {
    if s == "" then ""
    else (if s[0] == '\r' || s[0] == '\n' then "" else [s[0]]) + StripNewlines(s[1..])
  }

  function DecodeGroup(w: int, x: int, y: int, z: int): string
    requires Sextet(w) && Sextet(x) && Sextet(y) && Sextet(z)
  {
    [(w * 4 + x / 16) as char, (x % 16 * 16 + y / 4) as char, (y % 4 * 64 + z) as char]
  }

  /** Groups of four digits; a last group of two or three ignores its spare bits, of one is an error. */
  function DecodeClean(s: string): Option<string> {
    if s == "" then Some("")
    else if |s| == 1 then None
    else
      var w, x := DecodeSextet(s[0]), DecodeSextet(s[1]);
      var y := if |s| == 2 then 0 else DecodeSextet(s[2]);
      var z := if |s| <= 3 then 0 else DecodeSextet(s[3]);
      if w < 0 || x < 0 || y < 0 || z < 0 then None
      else if |s| == 2 then Some(DecodeGroup(w, x, y, z)[..1])
      else if |s| == 3 then Some(DecodeGroup(w, x, y, z)[..2])
      else
        match DecodeClean(s[4..])
        case None => None
        case Some(rest) => Some(DecodeGroup(w, x, y, z) + rest)
  }

  function Decode(s: string): Option<string> { DecodeClean(StripNewlines(s)) }

  lemma RegroupBits(a: int, b: int, c: int)
    requires 0 <= a < 256 && 0 <= b < 256 && 0 <= c < 256
    ensures a / 4 * 4 + (a % 4 * 16 + b / 16) / 16 == a
    ensures (a % 4 * 16 + b / 16) % 16 * 16 + (b % 16 * 4 + c / 64) / 4 == b
    ensures (b % 16 * 4 + c / 64) % 4 * 64 + c % 64 == c
  {
  }

  lemma GroupRoundTrip(a: int, b: int, c: int)
    requires 0 <= a < 256 && 0 <= b < 256 && 0 <= c < 256
    ensures var g := EncodeGroup(a, b, c);
      && DecodeSextet(g[0]) == a / 4 && DecodeSextet(g[1]) == a % 4 * 16 + b / 16
      && DecodeSextet(g[2]) == b % 16 * 4 + c / 64 && DecodeSextet(g[3]) == c % 64
      && DecodeGroup(a / 4, a % 4 * 16 + b / 16, b % 16 * 4 + c / 64, c % 64) == [a as char, b as char, c as char]
  {
    var w, x, y, z := a / 4, a % 4 * 16 + b / 16, b % 16 * 4 + c / 64, c % 64;
    SextetRoundTrip(w);
    SextetRoundTrip(x);
    SextetRoundTrip(y);
    SextetRoundTrip(z);
    RegroupBits(a, b, c);
  }

  predicate UrlSafe(s: string) { forall i :: 0 <= i < |s| ==> s[i] != '.' && s[i] != '\r' && s[i] != '\n' }

  lemma EncodeGroupSafe(a: int, b: int, c: int)
    requires 0 <= a < 256 && 0 <= b < 256 && 0 <= c < 256
    ensures UrlSafe(EncodeGroup(a, b, c))
  {
    SextetRoundTrip(a / 4);
    SextetRoundTrip(a % 4 * 16 + b / 16);
    SextetRoundTrip(b % 16 * 4 + c / 64);
    SextetRoundTrip(c % 64);
  }

  /** The encoded form holds neither the token's separator nor a line break. */
  lemma {:induction false} EncodedIsSafe(s: string)
    requires IsBytes(s)
    ensures UrlSafe(Encode(s))
  {
    if |s| == 1 {
      EncodeGroupSafe(s[0] as int, 0, 0);
    } else if |s| == 2 {
      EncodeGroupSafe(s[0] as int, s[1] as int, 0);
    } else if |s| > 2 {
      EncodeGroupSafe(s[0] as int, s[1] as int, s[2] as int);
      EncodedIsSafe(s[3..]);
    }
  }

  lemma {:induction false} StripSafe(s: string)
    requires UrlSafe(s)
    ensures StripNewlines(s) == s
  {
    if s != "" {
      StripSafe(s[1..]);
    }
  }

  lemma DecodeTwoDigits(t: string, x: char)
    requires |t| == 2 && DecodeSextet(t[0]) >= 0 && DecodeSextet(t[1]) >= 0
    requires x == (DecodeSextet(t[0]) * 4 + DecodeSextet(t[1]) / 16) as char
    ensures DecodeClean(t) == Some([x])
  {
    assert DecodeGroup(DecodeSextet(t[0]), DecodeSextet(t[1]), 0, 0)[..1] == [x];
  }

  lemma DecodeThreeDigits(t: string, x: char, y: char)
    requires |t| == 3 && DecodeSextet(t[0]) >= 0 && DecodeSextet(t[1]) >= 0 && DecodeSextet(t[2]) >= 0
    requires x == (DecodeSextet(t[0]) * 4 + DecodeSextet(t[1]) / 16) as char
    requires y == (DecodeSextet(t[1]) % 16 * 16 + DecodeSextet(t[2]) / 4) as char
    ensures DecodeClean(t) == Some([x, y])
  {
    assert DecodeGroup(DecodeSextet(t[0]), DecodeSextet(t[1]), DecodeSextet(t[2]), 0)[..2] == [x, y];
  }

  /** A group of four digits in front is decoded on its own. */
  lemma DecodeAfterGroup(g: string, rest: string, group: string)
    requires |g| == 4 && forall i :: 0 <= i < 4 ==> DecodeSextet(g[i]) >= 0
    requires group == DecodeGroup(DecodeSextet(g[0]), DecodeSextet(g[1]), DecodeSextet(g[2]), DecodeSextet(g[3]))
    requires DecodeClean(rest).Some?
    ensures DecodeClean(g + rest) == Some(group + DecodeClean(rest).value)
  {
    assert (g + rest)[4..] == rest;
  }

  /** A group in front of decodable text adds its three bytes. */
  lemma GroupThenRest(x: char, y: char, z: char, rest: string)
    requires x as int < 256 && y as int < 256 && z as int < 256 && DecodeClean(rest).Some?
    ensures DecodeClean(EncodeGroup(x as int, y as int, z as int) + rest) == Some([x, y, z] + DecodeClean(rest).value)
  {
    GroupRoundTrip(x as int, y as int, z as int);
    DecodeAfterGroup(EncodeGroup(x as int, y as int, z as int), rest, [x, y, z]);
  }

  lemma LastGroup(x: char, y: char)
    requires x as int < 256 && y as int < 256
    ensures DecodeClean(EncodeGroup(x as int, 0, 0)[..2]) == Some([x])
    ensures DecodeClean(EncodeGroup(x as int, y as int, 0)[..3]) == Some([x, y])
  {
    GroupRoundTrip(x as int, 0, 0);
    DecodeTwoDigits(EncodeGroup(x as int, 0, 0)[..2], x);
    GroupRoundTrip(x as int, y as int, 0);
    DecodeThreeDigits(EncodeGroup(x as int, y as int, 0)[..3], x, y);
  }

  lemma EncodeShort(x: char, y: char)
    requires x as int < 256 && y as int < 256
    ensures Encode([x]) == EncodeGroup(x as int, 0, 0)[..2]
    ensures Encode([x, y]) == EncodeGroup(x as int, y as int, 0)[..3]
  {
  }

  lemma CleanRoundTripShort(x: char, y: char)
    requires x as int < 256 && y as int < 256
    ensures DecodeClean(Encode([x])) == Some([x])
    ensures DecodeClean(Encode([x, y])) == Some([x, y])
  {
    LastGroup(x, y);
    EncodeShort(x, y);
  }

  lemma EncodeLong(x: char, y: char, z: char, rest: string)
    requires x as int < 256 && y as int < 256 && z as int < 256 && IsBytes(rest)
    ensures IsBytes([x, y, z] + rest)
    ensures Encode([x, y, z] + rest) == EncodeGroup(x as int, y as int, z as int) + Encode(rest)
  {
    assert ([x, y, z] + rest)[3..] == rest;
  }

  lemma CleanRoundTripLong(x: char, y: char, z: char, rest: string)
    requires x as int < 256 && y as int < 256 && z as int < 256 && IsBytes(rest)
    requires DecodeClean(Encode(rest)) == Some(rest)
    ensures IsBytes([x, y, z] + rest) && DecodeClean(Encode([x, y, z] + rest)) == Some([x, y, z] + rest)
  {
    EncodeLong(x, y, z, rest);
    GroupThenRest(x, y, z, Encode(rest));
  }

  predicate RoundTrips(s: string) { IsBytes(s) && DecodeClean(Encode(s)) == Some(s) }

  lemma RoundTripShort(s: string)
    requires IsBytes(s) && |s| <= 2
    ensures RoundTrips(s)
  {
    if |s| == 1 {
      CleanRoundTripShort(s[0], s[0]);
      assert s == [s[0]];
    } else if |s| == 2 {
      CleanRoundTripShort(s[0], s[1]);
      assert s == [s[0], s[1]];
    }
  }

  lemma RoundTripLong(s: string, rest: string)
    requires IsBytes(s) && |s| > 2 && rest == s[3..] && RoundTrips(rest)
    ensures RoundTrips(s)
  {
    CleanRoundTripLong(s[0], s[1], s[2], rest);
    assert s == [s[0], s[1], s[2]] + rest;
  }

  lemma {:induction false} CleanRoundTrip(s: string)
    requires IsBytes(s)
    ensures RoundTrips(s)
  {
    if |s| > 2 {
      CleanRoundTrip(s[3..]);
      RoundTripLong(s, s[3..]);
    } else {
      RoundTripShort(s);
    }
  }

  /** Decoding undoes encoding for every byte string. */
  lemma DecodeEncode(s: string)
    requires IsBytes(s)
    ensures Decode(Encode(s)) == Some(s)
  {
    EncodedIsSafe(s);
    StripSafe(Encode(s));
    CleanRoundTrip(s);
  }

  /** The test vectors of section 10 of RFC 4648 without padding, and the two characters of its own that the
      alphabet for URLs has. */
  lemma Vectors()
    ensures Encode("f") == "Zg" && Encode("fo") == "Zm8" && Encode("foo") == "Zm9v"
    ensures EncodeSextet(62) == '-' && EncodeSextet(63) == '_'
  {
    assert EncodeGroup(102, 0, 0) == "ZgAA";
    assert EncodeGroup(102, 111, 0) == "Zm8A";
    assert EncodeGroup(102, 111, 111) == "Zm9v";
    assert Encode("foo"[3..]) == "";
  }

  lemma Associates(a: string, b: string, c: string)
    ensures a + (b + c) == (a + b) + c
  {
  }

  lemma {:induction false} StripConcat(a: string, b: string)
    ensures StripNewlines(a + b) == StripNewlines(a) + StripNewlines(b)
  {
    if a == "" {
      assert a + b == b;
    } else {
      StripConcat(a[1..], b);
      assert (a + b)[1..] == a[1..] + b;
      Associates(if a[0] == '\r' || a[0] == '\n' then "" else [a[0]], StripNewlines(a[1..]), StripNewlines(b));
    }
  }

  lemma BreakInside(a: string, c: char, b: string)
    requires c == '\n' || c == '\r'
    ensures StripNewlines(a + [c] + b) == StripNewlines(a + b)
  {
    StripConcat(a, b);
    StripConcat(a, [c]);
    StripConcat(a + [c], b);
    assert StripNewlines([c]) == "" + StripNewlines([c][1..]) == "";
    assert StripNewlines(a) + "" == StripNewlines(a);
  }

  /** Line breaks anywhere in a text, of either kind, do not change what it decodes to. */
  lemma NewlinesDoNotMatter(a: string, b: string)
    ensures Decode(a + "\n" + b) == Decode(a + b) && Decode(a + "\r" + b) == Decode(a + b)
  {
    BreakInside(a, '\n', b);
    BreakInside(a, '\r', b);
  }
}

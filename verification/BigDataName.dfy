/** File names for big data keys (storage/store.go), with the base64 of section 4 of RFC 4648. */
module BigDataName {
  newtype Byte = x: int | 0 <= x < 256

  type Bytes = seq<Byte>

  const EQUALS: Byte := 61

  // ---- Base64

  /** The alphabet: A-Z, a-z, 0-9, '+' and '/'. */
  function Letter(s: int): Byte
    requires 0 <= s < 64
  {
    if s < 26 then (65 + s) as Byte
    else if s < 52 then (97 + s - 26) as Byte
    else if s < 62 then (48 + s - 52) as Byte
    else if s == 62 then 43
    else 47
  }

  function Sextet(l: Byte): int {
    var c := l as int;
    if 65 <= c < 91 then c - 65
    else if 97 <= c < 123 then c - 97 + 26
    else if 48 <= c < 58 then c - 48 + 52
    else if c == 43 then 62
    else if c == 47 then 63
    else -1
  }

  lemma LetterRoundTrip(s: int)
    requires 0 <= s < 64
    ensures Sextet(Letter(s)) == s && Letter(s) != EQUALS
  {
  }

  function Quad(a: int, b: int, c: int): (int, int, int, int)
    requires 0 <= a < 256 && 0 <= b < 256 && 0 <= c < 256
  {
    (a / 4, (a % 4) * 16 + b / 16, (b % 16) * 4 + c / 64, c % 64)
  }

  /** Three bytes become four letters; what is left over is padded. */
  function Encode(k: Bytes): (r: Bytes)
    ensures k != [] ==> |r| >= 4
  {
    if k == [] then []
    else
      var a := k[0] as int;
      var b := if |k| > 1 then k[1] as int else 0;
      var c := if |k| > 2 then k[2] as int else 0;
      var q := Quad(a, b, c);
      [Letter(q.0), Letter(q.1), if |k| > 1 then Letter(q.2) else EQUALS, if |k| > 2 then Letter(q.3) else EQUALS]
      + if |k| > 3 then Encode(k[3..]) else []
  }

  function ToByte(n: int): Byte {
    if 0 <= n < 256 then n as Byte else 0
  }

  function Decode(t: Bytes): Bytes {
    if |t| < 4 then []
    else
      var s0, s1, s2, s3 := Sextet(t[0]), Sextet(t[1]), Sextet(t[2]), Sextet(t[3]);
      [ToByte(s0 * 4 + s1 / 16)]
      + (if t[2] == EQUALS then [] else [ToByte((s1 % 16) * 16 + s2 / 4)])
      + (if t[3] == EQUALS then [] else [ToByte((s2 % 4) * 64 + s3)])
      + Decode(t[4..])
  }

  lemma QuadRoundTrip(a: int, b: int, c: int)
    requires 0 <= a < 256 && 0 <= b < 256 && 0 <= c < 256
    ensures var q := Quad(a, b, c);
      && 0 <= q.0 < 64 && 0 <= q.1 < 64 && 0 <= q.2 < 64 && 0 <= q.3 < 64
      && q.0 * 4 + q.1 / 16 == a && (q.1 % 16) * 16 + q.2 / 4 == b && (q.2 % 4) * 64 + q.3 == c
  {
  }

  /** What four letters decode to. */
  lemma GroupRoundTrip(a: Byte, b: Byte, c: Byte)
    ensures var q := Quad(a as int, b as int, c as int);
      && 0 <= q.0 < 64 && 0 <= q.1 < 64 && 0 <= q.2 < 64 && 0 <= q.3 < 64
      && Letter(q.2) != EQUALS && Letter(q.3) != EQUALS
      && ToByte(Sextet(Letter(q.0)) * 4 + Sextet(Letter(q.1)) / 16) == a
      && ToByte((Sextet(Letter(q.1)) % 16) * 16 + Sextet(Letter(q.2)) / 4) == b
      && ToByte((Sextet(Letter(q.2)) % 4) * 64 + Sextet(Letter(q.3))) == c
  {
    var q := Quad(a as int, b as int, c as int);
    QuadRoundTrip(a as int, b as int, c as int);
    LetterRoundTrip(q.0);
    LetterRoundTrip(q.1);
    LetterRoundTrip(q.2);
    LetterRoundTrip(q.3);
  }

  lemma OneByteRoundTrip(a: Byte)
    ensures Decode(Encode([a])) == [a]
  {
    GroupRoundTrip(a, 0, 0);
    assert Encode([a])[4..] == [];
  }

  lemma TwoBytesRoundTrip(a: Byte, b: Byte)
    ensures Decode(Encode([a, b])) == [a, b]
  {
    GroupRoundTrip(a, b, 0);
    assert Encode([a, b])[4..] == [];
  }

  /** The letters for three bytes. */
  function Letters(a: Byte, b: Byte, c: Byte): Bytes {
    var q := Quad(a as int, b as int, c as int);
    [Letter(q.0), Letter(q.1), Letter(q.2), Letter(q.3)]
  }

  lemma DecodesGroup(a: Byte, b: Byte, c: Byte, t: Bytes)
    ensures Decode(Letters(a, b, c) + t) == [a, b, c] + Decode(t)
  {
    GroupRoundTrip(a, b, c);
    assert (Letters(a, b, c) + t)[4..] == t;
  }

  lemma EncodesGroup(k: Bytes)
    requires |k| > 2
    ensures Encode(k) == Letters(k[0], k[1], k[2]) + Encode(k[3..])
  {
  }

  lemma {:induction false} RoundTrip(k: Bytes)
    ensures Decode(Encode(k)) == k
  {
    if |k| == 1 {
      OneByteRoundTrip(k[0]);
      assert k == [k[0]];
    } else if |k| == 2 {
      TwoBytesRoundTrip(k[0], k[1]);
      assert k == [k[0], k[1]];
    } else if |k| > 2 {
      EncodesGroup(k);
      DecodesGroup(k[0], k[1], k[2], Encode(k[3..]));
      RoundTrip(k[3..]);
      assert k == [k[0], k[1], k[2]] + k[3..];
    }
  }

  // ---- Runes

  /** `b` can continue a rune. */
  predicate Within(t: Bytes, i: nat, lo: int, hi: int) {
    i < |t| && lo <= t[i] as int <= hi
  }

  /** The size of the first rune of UTF-8 text; bytes that are none count as one rune each. */
  function RuneSize(t: Bytes): (n: nat)
    requires t != []
    ensures 1 <= n <= |t|
  {
    var b := t[0] as int;
    if 0xC2 <= b <= 0xDF && Within(t, 1, 0x80, 0xBF) then 2
    else if 0xE0 <= b <= 0xEF
      && Within(t, 1, if b == 0xE0 then 0xA0 else 0x80, if b == 0xED then 0x9F else 0xBF) && Within(t, 2, 0x80, 0xBF) then 3
    else if 0xF0 <= b <= 0xF4
      && Within(t, 1, if b == 0xF0 then 0x90 else 0x80, if b == 0xF4 then 0x8F else 0xBF)
      && Within(t, 2, 0x80, 0xBF) && Within(t, 3, 0x80, 0xBF) then 4
    else 1
  }

  /** '.', a digit or a small letter. */
  predicate IsPlain(b: Byte) {
    b == 46 || 48 <= b <= 57 || 97 <= b <= 122
  }

  /** The key is its own file name: plain characters, and after them nothing or one last rune of any kind. */
  predicate KeptAsIs(key: Bytes) {
    key == [] || (if IsPlain(key[0]) then KeptAsIs(key[1..]) else RuneSize(key) == |key|)
  }

  function BaseName(key: Bytes): Bytes {
    if KeptAsIs(key) then key else [EQUALS] + Encode(key)
  }

  method MakeBigDataBaseName(key: Bytes) returns (name: Bytes)
    ensures name == BaseName(key)
  {
    var position := 0;
    while position < |key|
      invariant 0 <= position <= |key|
      invariant KeptAsIs(key) <==> KeptAsIs(key[position..])
    {
      var rest := key[position..];
      var size := RuneSize(rest);
      assert rest[1..] == key[position + 1..];
      var start := rest[0];
      position := position + size;
      if size != 1 {
        break;
      }
      if !(start as int < 0x80 && IsPlain(start)) {
        break;
      }
    }
    if position < |key| {
      return [EQUALS] + Encode(key);
    }
    name := key;
  }

  /** A key that is kept as it is looks like an encoded one only if it is the single character '='. */
  lemma PlainIsNotEncoded(key: Bytes)
    requires KeptAsIs(key) && key != [] && key[0] == EQUALS
    ensures key == [EQUALS]
  {
  }

  /** Different keys have different file names. */
  lemma NamesAreDistinct(a: Bytes, b: Bytes)
    requires BaseName(a) == BaseName(b)
    ensures a == b
  {
    if !KeptAsIs(a) && !KeptAsIs(b) {
      RoundTrip(a);
      RoundTrip(b);
      assert ([EQUALS] + Encode(a))[1..] == Encode(a) && ([EQUALS] + Encode(b))[1..] == Encode(b);
    } else if KeptAsIs(a) && !KeptAsIs(b) {
      assert a[0] == EQUALS;
      PlainIsNotEncoded(a);
    } else if !KeptAsIs(a) && KeptAsIs(b) {
      assert b[0] == EQUALS;
      PlainIsNotEncoded(b);
    }
  }
}

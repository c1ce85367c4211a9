/** The base64 encoding of section 4 of RFC 4648 (standard alphabet, `=`
    padding), as used by `audio_to_base64` and `base64_to_audio`. */
module Base64 {
  import opened Wrappers

  type Byte = x: int | 0 <= x < 256
  type Sextet = x: int | 0 <= x < 64

  /** The 64-character alphabet of RFC 4648 section 4, table 1. */
  function IndexToChar(i: Sextet): char {
    if i < 26 then ('A' as int + i) as char
    else if i < 52 then ('a' as int + (i - 26)) as char
    else if i < 62 then ('0' as int + (i - 52)) as char
    else if i == 62 then '+'
    else '/'
  }

  predicate IsAlphabet(c: char) {
    ('A' <= c <= 'Z') || ('a' <= c <= 'z') || ('0' <= c <= '9') || c == '+' || c == '/'
  }

  function CharToIndex(c: char): Sextet
    requires IsAlphabet(c)
  {
    if 'A' <= c <= 'Z' then c as int - 'A' as int
    else if 'a' <= c <= 'z' then c as int - 'a' as int + 26
    else if '0' <= c <= '9' then c as int - '0' as int + 52
    else if c == '+' then 62
    else 63
  }

  lemma AlphabetRoundTrip(i: Sextet)
    ensures IsAlphabet(IndexToChar(i)) && CharToIndex(IndexToChar(i)) == i
  {
  }

  /** Three bytes become four alphabet characters. */
  function EncodeGroup(b0: Byte, b1: Byte, b2: Byte): string {
    [IndexToChar(b0 / 4), IndexToChar((b0 % 4) * 16 + b1 / 16),
     IndexToChar((b1 % 16) * 4 + b2 / 64), IndexToChar(b2 % 64)]
  }

  /** `base64.b64encode`: full groups, then a final group padded with `=`. */
  function Encode(b: seq<Byte>): (s: string)
    ensures |s| == (|b| + 2) / 3 * 4
  {
    if |b| == 0 then ""
    else if |b| == 1 then [IndexToChar(b[0] / 4), IndexToChar((b[0] % 4) * 16), '=', '=']
    else if |b| == 2 then
      [IndexToChar(b[0] / 4), IndexToChar((b[0] % 4) * 16 + b[1] / 16), IndexToChar((b[1] % 16) * 4), '=']
    else EncodeGroup(b[0], b[1], b[2]) + Encode(b[3..])
  }

  predicate AllAlphabet(s: string) {
    forall i :: 0 <= i < |s| ==> IsAlphabet(s[i])
  }

  /** `b64decode` accepts a `str` only when it is ASCII. */
  predicate Ascii(s: string) {
    forall i :: 0 <= i < |s| ==> s[i] as int < 128
  }

  /** A character the decoder looks at: an alphabet character or `=`. */
  predicate Significant(c: char) {
    IsAlphabet(c) || c == '='
  }

  /** The decoder's position inside a quantum and the bits it carries over
      to the next byte. */
  predicate Carry(quad: nat, left: int) {
    && quad < 4 && 0 <= left
    && (quad == 0 ==> left == 0)
    && (quad == 1 ==> left < 64)
    && (quad == 2 ==> left < 16)
    && (quad == 3 ==> left < 4)
  }

  /** The loop of `binascii.a2b_base64` without strict mode: characters
      outside the alphabet are skipped; a `=` counts as padding only from
      the third character of a quantum on, and once the quantum is complete
      with padding the rest of the input is ignored.  Running out of input
      inside a quantum raises (`None`). */
  function Scan(s: string, quad: nat, left: int, pads: nat, out: seq<Byte>): Option<seq<Byte>>
    requires Carry(quad, left)
    decreases |s|
  {
    if s == [] then (if quad == 0 then Some(out) else None)
    else if s[0] == '=' then
      if quad < 2 then Scan(s[1..], quad, left, pads, out)
      else if quad + pads + 1 >= 4 then Some(out)
      else Scan(s[1..], quad, left, pads + 1, out)
    else if !IsAlphabet(s[0]) then Scan(s[1..], quad, left, pads, out)
    else
      var c := CharToIndex(s[0]);
      if quad == 0 then Scan(s[1..], 1, c, 0, out)
      else if quad == 1 then Scan(s[1..], 2, c % 16, 0, out + [left * 4 + c / 16])
      else if quad == 2 then Scan(s[1..], 3, c % 4, 0, out + [left * 16 + c / 4])
      else Scan(s[1..], 0, 0, 0, out + [left * 64 + c])
  }

  /** `base64.b64decode(s)`: `None` where Python raises (a non-ASCII
      character, or input that ends inside a quantum). */
  function Decode(s: string): (r: Option<seq<Byte>>)
    ensures !Ascii(s) ==> r.None?
    ensures Ascii(s) ==> r == Scan(Filter(s, Significant), 0, 0, 0, [])
  {
    ScanIgnoresNoise(s, 0, 0, 0, []);
    if Ascii(s) then Scan(s, 0, 0, 0, []) else None
  }

  function DecodeGroup(c0: Sextet, c1: Sextet, c2: Sextet, c3: Sextet): seq<Byte> {
    [c0 * 4 + c1 / 16, (c1 % 16) * 16 + c2 / 4, (c2 % 4) * 64 + c3]
  }

  /** The bit arithmetic of one group: the four sextets of three bytes
      give the three bytes back. */
  lemma GroupArithmetic(b0: Byte, b1: Byte, b2: Byte)
    ensures var c1, c2 := (b0 % 4) * 16 + b1 / 16, (b1 % 16) * 4 + b2 / 64;
      && (b0 / 4) * 4 + c1 / 16 == b0
      && (c1 % 16) * 16 + c2 / 4 == b1
      && (c2 % 4) * 64 + b2 % 64 == b2
  {
    var c1, c2 := (b0 % 4) * 16 + b1 / 16, (b1 % 16) * 4 + b2 / 64;
    assert c1 / 16 == b0 % 4 && c1 % 16 == b1 / 16;
    assert c2 / 4 == b1 % 16 && c2 % 4 == b2 / 64;
  }

  lemma GroupRoundTrip(b0: Byte, b1: Byte, b2: Byte)
    ensures AllAlphabet(EncodeGroup(b0, b1, b2))
    ensures var g := EncodeGroup(b0, b1, b2);
      DecodeGroup(CharToIndex(g[0]), CharToIndex(g[1]), CharToIndex(g[2]), CharToIndex(g[3])) == [b0, b1, b2]
  {
    var c0, c1, c2, c3 := b0 / 4, (b0 % 4) * 16 + b1 / 16, (b1 % 16) * 4 + b2 / 64, b2 % 64;
    AlphabetRoundTrip(c0);
    AlphabetRoundTrip(c1);
    AlphabetRoundTrip(c2);
    AlphabetRoundTrip(c3);
    GroupArithmetic(b0, b1, b2);
  }

  /** Four alphabet characters at the start of a quantum yield their three
      bytes, and the next quantum starts clean. */
  lemma {:induction false} ScanGroup(g: string, t: string, out: seq<Byte>)
    requires |g| == 4 && AllAlphabet(g)
    ensures Scan(g + t, 0, 0, 0, out) ==
      Scan(t, 0, 0, 0, out + DecodeGroup(CharToIndex(g[0]), CharToIndex(g[1]), CharToIndex(g[2]), CharToIndex(g[3])))
  {
    var s := g + t;
    var c0: int, c1: int, c2: int, c3: int := CharToIndex(g[0]), CharToIndex(g[1]), CharToIndex(g[2]), CharToIndex(g[3]);
    assert s[0] == g[0] && s[1..][0] == g[1] && s[2..][0] == g[2] && s[3..][0] == g[3];
    assert s[1..][1..] == s[2..] && s[2..][1..] == s[3..] && s[3..][1..] == t;
    var o1 := out + [c0 * 4 + c1 / 16];
    var o2 := o1 + [(c1 % 16) * 16 + c2 / 4];
    var o3 := o2 + [(c2 % 4) * 64 + c3];
    assert Scan(s, 0, 0, 0, out) == Scan(s[1..], 1, c0, 0, out);
    assert Scan(s[1..], 1, c0, 0, out) == Scan(s[2..], 2, c1 % 16, 0, o1);
    assert Scan(s[2..], 2, c1 % 16, 0, o1) == Scan(s[3..], 3, c2 % 4, 0, o2);
    assert Scan(s[3..], 3, c2 % 4, 0, o2) == Scan(t, 0, 0, 0, o3);
    assert o3 == out + DecodeGroup(c0, c1, c2, c3);
  }

  lemma OneByteRoundTrip(x: Byte, out: seq<Byte>)
    ensures Scan(Encode([x]), 0, 0, 0, out) == Some(out + [x])
  {
    var c0, c1 := x / 4, (x % 4) * 16;
    AlphabetRoundTrip(c0);
    AlphabetRoundTrip(c1);
    var s := Encode([x]);
    assert s[1..][0] == s[1] && s[1..][1..] == s[2..] && s[2..][0] == '=' && s[2..][1..] == s[3..] && s[3..][0] == '=';
    assert Scan(s, 0, 0, 0, out) == Scan(s[1..], 1, c0, 0, out);
    assert Scan(s[1..], 1, c0, 0, out) == Scan(s[2..], 2, 0, 0, out + [x]);
    assert Scan(s[2..], 2, 0, 0, out + [x]) == Scan(s[3..], 2, 0, 1, out + [x]);
  }

  lemma TwoByteRoundTrip(x: Byte, y: Byte, out: seq<Byte>)
    ensures Scan(Encode([x, y]), 0, 0, 0, out) == Some(out + [x, y])
  {
    var c0: int, c1: int, c2: int := x / 4, (x % 4) * 16 + y / 16, (y % 16) * 4;
    AlphabetRoundTrip(c0);
    AlphabetRoundTrip(c1);
    AlphabetRoundTrip(c2);
    var s := Encode([x, y]);
    assert s == [IndexToChar(c0), IndexToChar(c1), IndexToChar(c2), '='];
    PairSteps(s, c0, c1, c2, out);
    PairArithmetic(x, y);
  }

  /** The scan of `c0 c1 c2 =`: two bytes, then the padding ends it. */
  lemma PairSteps(s: string, c0: Sextet, c1: Sextet, c2: Sextet, out: seq<Byte>)
    requires |s| == 4 && s[3] == '='
    requires IsAlphabet(s[0]) && IsAlphabet(s[1]) && IsAlphabet(s[2])
    requires CharToIndex(s[0]) == c0 && CharToIndex(s[1]) == c1 && CharToIndex(s[2]) == c2
    ensures Scan(s, 0, 0, 0, out) == Some(out + [c0 * 4 + c1 / 16, (c1 % 16) * 16 + c2 / 4])
  {
    assert s[1..][0] == s[1] && s[1..][1..] == s[2..] && s[2..][0] == s[2] && s[2..][1..] == s[3..] && s[3..][0] == '=';
    var o1 := out + [c0 * 4 + c1 / 16];
    var o2 := o1 + [(c1 % 16) * 16 + c2 / 4];
    assert Scan(s, 0, 0, 0, out) == Scan(s[1..], 1, c0, 0, out);
    assert Scan(s[1..], 1, c0, 0, out) == Scan(s[2..], 2, c1 % 16, 0, o1);
    assert Scan(s[2..], 2, c1 % 16, 0, o1) == Scan(s[3..], 3, c2 % 4, 0, o2);
    assert o2 == out + [c0 * 4 + c1 / 16, (c1 % 16) * 16 + c2 / 4];
  }

  /** The bit arithmetic of a final pair of bytes. */
  lemma PairArithmetic(x: Byte, y: Byte)
    ensures var c1 := (x % 4) * 16 + y / 16;
      (x / 4) * 4 + c1 / 16 == x && (c1 % 16) * 16 + ((y % 16) * 4) / 4 == y
  {
    var c1 := (x % 4) * 16 + y / 16;
    assert c1 / 16 == x % 4 && c1 % 16 == y / 16;
  }

  lemma {:induction false} EncodeFullGroup(b: seq<Byte>)
    requires |b| >= 3
    ensures Encode(b) == EncodeGroup(b[0], b[1], b[2]) + Encode(b[3..])
  {
  }

  /** Scanning an encoding from a quantum boundary appends its bytes. */
  lemma {:induction false} ScanEncoding(b: seq<Byte>, out: seq<Byte>)
    ensures Scan(Encode(b), 0, 0, 0, out) == Some(out + b)
    decreases |b|
  {
    if |b| == 0 {
      assert out + b == out;
    } else if |b| == 1 {
      OneByteRoundTrip(b[0], out);
      assert b == [b[0]];
    } else if |b| == 2 {
      TwoByteRoundTrip(b[0], b[1], out);
      assert b == [b[0], b[1]];
    } else {
      ScanEncoding(b[3..], out + [b[0], b[1], b[2]]);
      ScanFullGroup(b, out);
    }
  }

  /** A leading full group is scanned whenever the rest is. */
  lemma {:induction false} ScanFullGroup(b: seq<Byte>, out: seq<Byte>)
    requires |b| >= 3 && Scan(Encode(b[3..]), 0, 0, 0, out + [b[0], b[1], b[2]]) == Some(out + [b[0], b[1], b[2]] + b[3..])
    ensures Scan(Encode(b), 0, 0, 0, out) == Some(out + b)
  {
    EncodeFullGroup(b);
    GroupRoundTrip(b[0], b[1], b[2]);
    ScanGroup(EncodeGroup(b[0], b[1], b[2]), Encode(b[3..]), out);
    assert out + [b[0], b[1], b[2]] + b[3..] == out + b;
  }

  /** Every character of an encoding is ASCII. */
  lemma {:induction false} EncodingIsAscii(b: seq<Byte>)
    ensures Ascii(Encode(b))
    decreases |b|
  {
    if |b| == 1 {
      AlphabetRoundTrip(b[0] / 4);
      AlphabetRoundTrip((b[0] % 4) * 16);
    } else if |b| == 2 {
      AlphabetRoundTrip(b[0] / 4);
      AlphabetRoundTrip((b[0] % 4) * 16 + b[1] / 16);
      AlphabetRoundTrip((b[1] % 16) * 4);
    } else if |b| >= 3 {
      EncodeFullGroup(b);
      GroupRoundTrip(b[0], b[1], b[2]);
      EncodingIsAscii(b[3..]);
      var g, rest := EncodeGroup(b[0], b[1], b[2]), Encode(b[3..]);
      assert forall i :: 0 <= i < |g + rest| ==> (g + rest)[i] == if i < 4 then g[i] else rest[i - 4];
    }
  }

  /** `base64_to_audio(audio_to_base64(b)) == b` for every byte string. */
  lemma {:induction false} RoundTrip(b: seq<Byte>)
    ensures Decode(Encode(b)) == Some(b)
  {
    EncodingIsAscii(b);
    ScanEncoding(b, []);
    assert [] + b == b;
  }

  /** Characters the decoder skips change nothing: decoding reads only the
      alphabet characters and the `=` signs. */
  lemma {:induction false} ScanIgnoresNoise(s: string, quad: nat, left: int, pads: nat, out: seq<Byte>)
    requires Carry(quad, left)
    ensures Scan(s, quad, left, pads, out) == Scan(Filter(s, Significant), quad, left, pads, out)
    decreases |s|
  {
    if s != [] {
      var f := Filter(s, Significant);
      if !Significant(s[0]) {
        assert f == Filter(s[1..], Significant);
        ScanIgnoresNoise(s[1..], quad, left, pads, out);
      } else {
        assert f == [s[0]] + Filter(s[1..], Significant);
        assert f[0] == s[0] && f[1..] == Filter(s[1..], Significant);
        if s[0] == '=' {
          ScanIgnoresNoise(s[1..], quad, left, pads, out);
          ScanIgnoresNoise(s[1..], quad, left, pads + 1, out);
        } else {
          var c := CharToIndex(s[0]);
          if quad == 0 {
            ScanIgnoresNoise(s[1..], 1, c, 0, out);
          } else if quad == 1 {
            ScanIgnoresNoise(s[1..], 2, c % 16, 0, out + [left * 4 + c / 16]);
          } else if quad == 2 {
            ScanIgnoresNoise(s[1..], 3, c % 4, 0, out + [left * 16 + c / 4]);
          } else {
            ScanIgnoresNoise(s[1..], 0, 0, 0, out + [left * 64 + c]);
          }
        }
      }
    }
  }

  /** A line break inside the text is skipped: `QUJD\n` decodes to `ABC`. */
  lemma NewlineIsSkipped()
    ensures Decode("QUJD\n") == Some([65, 66, 67])
  {
    var s := "QUJD\n";
    assert Ascii(s);
    assert CharToIndex('Q') == 16 && CharToIndex('U') == 20 && CharToIndex('J') == 9 && CharToIndex('D') == 3;
    assert s[..4] == "QUJD";
    assert AllAlphabet(s[..4]) && s == s[..4] + s[4..];
    ScanGroup(s[..4], s[4..], []);
    assert [] + DecodeGroup(16, 20, 9, 3) == [65, 66, 67];
    assert s[4..][1..] == [] && !IsAlphabet(s[4..][0]) && s[4..][0] != '=';
    assert Scan(s[4..], 0, 0, 0, [65, 66, 67]) == Scan([], 0, 0, 0, [65, 66, 67]);
  }

  /** Decoding stops at the padding that completes a quantum: `QQ==QUJD`
      decodes to the single byte of `QQ==`. */
  lemma PaddingEndsTheInput()
    ensures Decode("QQ==QUJD") == Some([65])
  {
    var s := "QQ==QUJD";
    assert Ascii(s);
    assert IsAlphabet('Q') && CharToIndex('Q') == 16;
    assert s[1..][0] == 'Q' && s[1..][1..] == s[2..] && s[2..][0] == '=' && s[2..][1..] == s[3..] && s[3..][0] == '=';
    assert Scan(s, 0, 0, 0, []) == Scan(s[1..], 1, 16, 0, []);
    var t := s[1..];
    assert t[0] == 'Q' && t[0] != '=' && IsAlphabet(t[0]) && CharToIndex(t[0]) == 16;
    assert 16 * 4 + 16 / 16 == 65 && 16 % 16 == 0;
    assert Scan(t, 1, 16, 0, []) == Scan(t[1..], 2, 0, 0, [] + [65]);
    assert [] + [65] == [65];
    assert Scan(s[1..], 1, 16, 0, []) == Scan(s[2..], 2, 0, 0, [65]);
    assert Scan(s[2..], 2, 0, 0, [65]) == Scan(s[3..], 2, 0, 1, [65]);
  }
}

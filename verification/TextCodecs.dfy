/** Base64 and percent-encoding of src/util.c: each decoder undoes its encoder, and the buffers are large enough. */
module TextCodecs {
  import opened Octets

  // ---------- base64, section 4 of RFC 4648 ----------

  type sextet = x: int | 0 <= x < 64

  const PAD: byte := 61

  function Base64Char(v: sextet): (c: byte)
    ensures c != 0 && c != PAD
  {
    if v < 26 then 65 + v
    else if v < 52 then 97 + (v - 26)
    else if v < 62 then 48 + (v - 52)
    else if v == 62 then 43 else 47
  }

  /** The value of a character; -1 for padding, -2 for anything else that is not in the alphabet. */
  function Base64Value(c: byte): (v: int)
    ensures -2 <= v < 64
    ensures v >= 0 ==> Base64Char(v) == c
  {
    if 65 <= c <= 90 then c - 65
    else if 97 <= c <= 122 then c - 97 + 26
    else if 48 <= c <= 57 then c - 48 + 52
    else if c == 43 then 62
    else if c == 47 then 63
    else if c == PAD then -1
    else -2
  }

  lemma ValueOfChar(v: sextet)
    ensures Base64Value(Base64Char(v)) == v
  {
  }

  /** The four characters for up to three bytes; what is missing counts as zero. */
  function Quad(a: byte, b: byte, c: byte, chunk: nat): (q: seq<byte>)
    ensures |q| == 4
  {
    [Base64Char(a / 4), Base64Char(a % 4 * 16 + b / 16),
     if chunk >= 2 then Base64Char(b % 16 * 4 + c / 64) else PAD,
     if chunk >= 3 then Base64Char(c % 64) else PAD]
  }

  /** The alphabet: capital letters, small letters, digits, `+` and `/`, in this order. */
  lemma Alphabet(k: nat)
    ensures k < 26 ==> Base64Char(k) == 'A' as int + k && Base64Char(26 + k) == 'a' as int + k
    ensures k < 10 ==> Base64Char(52 + k) == '0' as int + k
    ensures Base64Char(62) == '+' as int && Base64Char(63) == '/' as int
  {
  }

  /** The values of the four characters are the 24 bits of the three bytes, first bits first; padding stands for bytes that are missing. */
  lemma QuadBits(a: byte, b: byte, c: byte)
    ensures var q := Quad(a, b, c, 3);
            Base64Value(q[0]) * 262144 + Base64Value(q[1]) * 4096 + Base64Value(q[2]) * 64 + Base64Value(q[3]) == a * 65536 + b * 256 + c
    ensures Quad(a, b, 0, 2) == Quad(a, b, 0, 3)[..3] + ['=' as int]
    ensures Quad(a, 0, 0, 1) == Quad(a, 0, 0, 3)[..2] + ['=' as int, '=' as int]
  {
    hide Base64Char, Base64Value;
    ValueOfChar(a / 4);
    ValueOfChar(a % 4 * 16 + b / 16);
    ValueOfChar(b % 16 * 4 + c / 64);
    ValueOfChar(c % 64);
  }

  function Encode(s: seq<byte>): (e: seq<byte>)
    ensures |e| == (|s| + 2) / 3 * 4
  {
    if |s| >= 3 then Quad(s[0], s[1], s[2], 3) + Encode(s[3..])
    else if |s| == 2 then Quad(s[0], s[1], 0, 2)
    else if |s| == 1 then Quad(s[0], 0, 0, 1)
    else []
  }

  /** What four characters decode to: three bytes, zeros for padding, or nothing if one of them is not allowed there. */
  function Triple(q: seq<byte>): (t: seq<byte>)
    requires |q| == 4
    ensures |t| <= 3
  {
    var v0, v1, v2, v3 := Base64Value(q[0]), Base64Value(q[1]), Base64Value(q[2]), Base64Value(q[3]);
    if v0 < 0 || v1 < 0 || v2 < -1 || v3 < -1 then []
    else [v0 * 4 + v1 / 16, if v2 >= 0 then v1 % 16 * 16 + v2 / 4 else 0, if v3 >= 0 then v2 % 4 * 64 + v3 else 0]
  }

  function Decode(s: seq<byte>): (r: Option<seq<byte>>)
    ensures |s| % 4 == 0 <==> r.Some?
    ensures r.Some? ==> 4 * |r.value| <= 3 * |s|
  {
    hide Triple;
    if s == [] then Some([])
    else if |s| < 4 then None
    else
      FourLess(|s|);
      var rest := Decode(s[4..]);
      if rest.None? then None else Some(Triple(s[..4]) + rest.value)
  }

  lemma FourLess(n: nat)
    requires n >= 4
    ensures n % 4 == (n - 4) % 4
  {
  }

  /** Three bytes cut into four numbers of six bits and put together again. */
  lemma SixBits(a: byte, b: byte, c: byte)
    ensures a / 4 * 4 + (a % 4 * 16 + b / 16) / 16 == a
    ensures (a % 4 * 16 + b / 16) % 16 * 16 + (b % 16 * 4 + c / 64) / 4 == b
    ensures (b % 16 * 4 + c / 64) % 4 * 64 + c % 64 == c
  {
    assert (a % 4 * 16 + b / 16) / 16 == a % 4 && (a % 4 * 16 + b / 16) % 16 == b / 16;
    assert (b % 16 * 4 + c / 64) / 4 == b % 16 && (b % 16 * 4 + c / 64) % 4 == c / 64;
  }

  lemma TripleOfQuad(a: byte, b: byte, c: byte, chunk: nat)
    requires 1 <= chunk <= 3 && (chunk < 3 ==> c == 0) && (chunk < 2 ==> b == 0)
    ensures Triple(Quad(a, b, c, chunk)) == [a, b, c]
  {
    hide Base64Char, Base64Value;
    var v0: sextet, v1: sextet, v2: sextet, v3: sextet := a / 4, a % 4 * 16 + b / 16, b % 16 * 4 + c / 64, c % 64;
    ValueOfChar(v0);
    ValueOfChar(v1);
    ValueOfChar(v2);
    ValueOfChar(v3);
    SixBits(a, b, c);
    PadValue();
  }

  lemma PadValue()
    ensures Base64Value(PAD) == -1
  {
  }

  /** The zeros that padding decodes to, for `n` bytes. */
  function Fill(n: nat): (zeros: seq<byte>) {
    if n % 3 == 0 then [] else if n % 3 == 1 then [0, 0] else [0]
  }

  /** Decoding gives the bytes back, filled up with zeros. */
  lemma {:induction false} DecodeOfEncode(s: seq<byte>)
    ensures Decode(Encode(s)) == Some(s + Fill(|s|))
  {
    hide Triple, Quad, Decode, Fill;
    if |s| >= 3 {
      DecodeOfEncode(s[3..]);
      TripleOfQuad(s[0], s[1], s[2], 3);
      DecodeQuad(Quad(s[0], s[1], s[2], 3), Encode(s[3..]));
      FillSame(|s[3..]|);
      assert [s[0], s[1], s[2]] + (s[3..] + Fill(|s|)) == s + Fill(|s|);
    } else {
      DecodeShort(s);
    }
  }

  lemma DecodeShort(s: seq<byte>)
    requires |s| < 3
    ensures Decode(Encode(s)) == Some(s + Fill(|s|))
  {
    hide Encode, Decode, Fill;
    if |s| == 1 {
      DecodeOne(s[0]);
      assert s == [s[0]];
    } else if |s| == 2 {
      DecodeTwo(s[0], s[1]);
      assert s == [s[0], s[1]];
    } else {
      DecodeZero();
      assert s == [];
    }
  }

  lemma DecodeZero()
    ensures Decode(Encode([])) == Some([] + Fill(0))
  {
    var none: seq<byte> := [];
    assert none + Fill(0) == none && Encode(none) == none && Decode(none) == Some(none);
  }

  lemma DecodeOne(a: byte)
    ensures Decode(Encode([a])) == Some([a] + Fill(1))
  {
    hide Triple, Quad, Decode;
    TripleOfQuad(a, 0, 0, 1);
    DecodeLast(Quad(a, 0, 0, 1));
    assert [a] + Fill(1) == [a, 0, 0];
  }

  lemma DecodeTwo(a: byte, b: byte)
    ensures Decode(Encode([a, b])) == Some([a, b] + Fill(2))
  {
    hide Triple, Quad, Decode;
    TripleOfQuad(a, b, 0, 2);
    DecodeLast(Quad(a, b, 0, 2));
    assert [a, b] + Fill(2) == [a, b, 0];
  }

  lemma DecodeLast(q: seq<byte>)
    requires |q| == 4
    ensures Decode(q) == Some(Triple(q)) && Decode([]) == Some([])
  {
    hide Triple;
    assert q[..4] == q && q[4..] == [] && Triple(q) + [] == Triple(q);
  }

  lemma FillSame(n: nat)
    ensures Fill(n + 3) == Fill(n)
  {
  }

  lemma DecodeQuad(q: seq<byte>, rest: seq<byte>)
    requires |q| == 4 && Decode(rest).Some?
    ensures Decode(q + rest) == Some(Triple(q) + Decode(rest).value)
  {
    hide Triple;
    assert (q + rest)[..4] == q && (q + rest)[4..] == rest;
  }

  /** As a C string, which ends at the first NUL, it is the original. */
  lemma Base64RoundTrip(s: seq<byte>)
    requires 0 !in s
    ensures Decode(Encode(s)).Some? && CString(Decode(Encode(s)).value) == s
  {
    DecodeOfEncode(s);
    CStringOf(s, Fill(|s|));
  }

  lemma {:induction false} CStringOf(s: seq<byte>, zeros: seq<byte>)
    requires 0 !in s && (zeros == [] || zeros[0] == 0)
    ensures CString(s + zeros) == s
  {
    if s != [] {
      CStringOf(s[1..], zeros);
      assert (s + zeros)[1..] == s[1..] + zeros;
    } else {
      assert s + zeros == zeros;
    }
  }

  /** Bytes written one after the other behind the first `at`. */
  method Put(out: array<byte>, at: nat, bytes: seq<byte>) returns (next: nat)
    requires at + |bytes| <= out.Length
    modifies out
    ensures next == at + |bytes| && out[..next] == old(out[..at]) + bytes
  {
    forall k | 0 <= k < |bytes| {
      out[at + k] := bytes[k];
    }
    return at + |bytes|;
  }

  lemma EncodeStep(data: seq<byte>, i: nat, chunk: nat)
    requires i < |data| && chunk == (if |data| - i > 3 then 3 else |data| - i)
    ensures Encode(data[i..]) ==
            Quad(data[i], if chunk >= 2 then data[i + 1] else 0, if chunk >= 3 then data[i + 2] else 0, chunk) + Encode(data[i + chunk..])
  {
    hide Quad;
    var rest := data[i..];
    assert rest[0] == data[i] && (chunk >= 2 ==> rest[1] == data[i + 1]) && (chunk >= 3 ==> rest[2] == data[i + 2]);
    assert rest[chunk..] == data[i + chunk..];
  }

  lemma EncodedFits(data: seq<byte>)
    ensures |Encode(data)| < |data| * 4 / 3 + 4
    ensures |data| % 3 == 1 ==> |Encode(data)| + 1 == |data| * 4 / 3 + 4
  {
    hide Encode;
    Thirds(|data| / 3, |data| % 3);
  }

  lemma Thirds(q: nat, r: nat)
    requires r < 3
    ensures var n := 3 * q + r;
            (n + 2) / 3 == q + (if r > 0 then 1 else 0) && n * 4 / 3 == 4 * q + (if r == 0 then 0 else if r == 1 then 1 else 2)
  {
  }

  /** util_base64_encode: the result and its NUL fit the buffer that was allocated. */
  method Base64Encode(data: seq<byte>) returns (out: array<byte>, len: nat)
    ensures fresh(out) && out.Length == |data| * 4 / 3 + 4 && len < out.Length && out[..len] == Encode(data) && out[len] == 0
  {
    hide Encode, Quad;
    EncodedFits(data);
    out := new byte[|data| * 4 / 3 + 4](_ => 0);
    var i := 0;
    len := 0;
    assert data[0..] == data && [] + Encode(data) == Encode(data);
    while i < |data|
      invariant i <= |data| && len <= |Encode(data)| && out[..len] + Encode(data[i..]) == Encode(data)
      decreases |data| - i
    {
      var chunk := if |data| - i > 3 then 3 else |data| - i;
      EncodeStep(data, i, chunk);
      var q := Quad(data[i], if chunk >= 2 then data[i + 1] else 0, if chunk >= 3 then data[i + 2] else 0, chunk);
      len := Put(out, len, q);
      i := i + chunk;
    }
    out[len] := 0;
  }

  /** `done` is what the first `i` characters decode to. */
  ghost predicate Rest(data: seq<byte>, i: nat, done: seq<byte>)
    requires i <= |data|
  {
    var rest := Decode(data[i..]);
    Decode(data) == if rest.None? then None else Some(done + rest.value)
  }

  lemma RestStart(data: seq<byte>)
    ensures Rest(data, 0, [])
  {
    assert data[0..] == data;
    assert Decode(data).Some? ==> [] + Decode(data).value == Decode(data).value;
  }

  lemma RestStep(data: seq<byte>, i: nat, done: seq<byte>)
    requires i + 4 <= |data| && Rest(data, i, done)
    ensures Rest(data, i + 4, done + Triple(data[i..i + 4]))
  {
    hide Triple;
    var t, rest := Triple(data[i..i + 4]), Decode(data[i + 4..]);
    assert data[i..][..4] == data[i..i + 4] && data[i..][4..] == data[i + 4..];
    assert rest.Some? ==> done + (t + rest.value) == done + t + rest.value;
  }

  lemma RestShort(data: seq<byte>, i: nat, done: seq<byte>)
    requires i < |data| < i + 4 && Rest(data, i, done)
    ensures Decode(data).None?
  {
  }

  lemma RestEnd(data: seq<byte>, done: seq<byte>)
    requires Rest(data, |data|, done)
    ensures Decode(data) == Some(done)
  {
    assert data[|data|..] == [] && done + [] == done;
  }

  /** util_base64_decode, with its buffer. */
  method Base64Decode(data: seq<byte>) returns (out: array<byte>, len: nat, ok: bool)
    ensures fresh(out) && out.Length == |data| * 3 / 4 + 5
    ensures ok == Decode(data).Some? && (ok ==> len < out.Length && Some(out[..len]) == Decode(data) && out[len] == 0)
  {
    hide Triple, Decode;
    out := new byte[|data| * 3 / 4 + 5](_ => 0);
    var i := 0;
    len := 0;
    RestStart(data);
    while i < |data|
      invariant i <= |data| && len <= i / 4 * 3 && i % 4 == 0
      invariant Rest(data, i, out[..len])
      decreases |data| - i
    {
      if |data| - i < 4 {
        RestShort(data, i, out[..len]);
        return out, 0, false;
      }
      var t := Triple(data[i..i + 4]);
      RestStep(data, i, out[..len]);
      len := Put(out, len, t);
      i := i + 4;
    }
    RestEnd(data, out[..len]);
    out[len] := 0;
    ok := true;
  }

  // ---------- percent-encoding, section 2.1 of RFC 3986 ----------

  const PERCENT: byte := 37
  const HASH: byte := 35

  /** Letters and digits are the only characters that stay. */
  predicate Safe(c: byte) {
    48 <= c <= 57 || 65 <= c <= 90 || 97 <= c <= 122
  }

  function HexChar(d: nat): (c: byte)
    requires d < 16
  {
    if d < 10 then 48 + d else 97 + (d - 10)
  }

  function HexValue(c: byte): (d: int)
    ensures -1 <= d < 16
  {
    if 48 <= c <= 57 then c - 48
    else if 65 <= c <= 70 then c - 65 + 10
    else if 97 <= c <= 102 then c - 97 + 10
    else -1
  }

  function EscapeChar(c: byte): (e: seq<byte>)
    ensures 1 <= |e| <= 3
  {
    if Safe(c) then [c] else [PERCENT, HexChar(c / 16), HexChar(c % 16)]
  }

  function Escape(s: seq<byte>): (e: seq<byte>)
    ensures |e| <= 3 * |s|
  {
    if s == [] then [] else Escape(s[..|s| - 1]) + EscapeChar(s[|s| - 1])
  }

  /** A `#` ends the text; a `%` needs two hexadecimal digits, of either case. */
  function Unescape(s: seq<byte>): (r: Option<seq<byte>>)
    ensures r.Some? ==> |r.value| <= |s|
  {
    if s == [] || s[0] == HASH then Some([])
    else if s[0] == PERCENT then
      if |s| < 3 || HexValue(s[1]) == -1 || HexValue(s[2]) == -1 then None
      else
        var rest := Unescape(s[3..]);
        if rest.None? then None else Some([HexValue(s[1]) * 16 + HexValue(s[2])] + rest.value)
    else
      var rest := Unescape(s[1..]);
      if rest.None? then None else Some([s[0]] + rest.value)
  }

  lemma HexBack(d: nat)
    requires d < 16
    ensures HexValue(HexChar(d)) == d
  {
  }

  lemma UnescapeChar(c: byte, rest: seq<byte>)
    requires Unescape(rest).Some?
    ensures Unescape(EscapeChar(c) + rest) == Some([c] + Unescape(rest).value)
  {
    hide HexChar, HexValue;
    HexBack(c / 16);
    HexBack(c % 16);
    if Safe(c) {
      assert ([c] + rest)[1..] == rest;
    } else {
      assert ([PERCENT, HexChar(c / 16), HexChar(c % 16)] + rest)[3..] == rest;
    }
  }

  /** Every string, whatever bytes are in it, survives. */
  lemma UrlRoundTrip(s: seq<byte>)
    ensures Unescape(Escape(s)) == Some(s)
  {
    EscapedPrefix(s, []);
    assert Escape(s) + [] == Escape(s) && s + [] == s;
  }

  lemma {:induction false} EscapedPrefix(s: seq<byte>, rest: seq<byte>)
    requires Unescape(rest).Some?
    ensures Unescape(Escape(s) + rest) == Some(s + Unescape(rest).value)
    decreases |s|
  {
    hide EscapeChar, Unescape;
    if s == [] {
      assert [] + rest == rest && [] + Unescape(rest).value == Unescape(rest).value;
    } else {
      var front, c := s[..|s| - 1], s[|s| - 1];
      UnescapeChar(c, rest);
      EscapedPrefix(front, EscapeChar(c) + rest);
      assert Escape(front) + EscapeChar(c) + rest == Escape(front) + (EscapeChar(c) + rest);
      assert front + ([c] + Unescape(rest).value) == s + Unescape(rest).value;
    }
  }

  predicate LetterOrDigit(c: int) {
    'a' as int <= c <= 'z' as int || 'A' as int <= c <= 'Z' as int || '0' as int <= c <= '9' as int
  }

  lemma CharPlain(c: byte)
    ensures forall i :: 0 <= i < |EscapeChar(c)| ==> LetterOrDigit(EscapeChar(c)[i]) || EscapeChar(c)[i] == '%' as int
    ensures LetterOrDigit(c) <==> EscapeChar(c) == [c]
  {
  }

  /** Escaped text consists of letters, digits and `%` only; text of letters and digits, and no other, stays as it is. */
  lemma {:induction false} EscapedPlain(s: seq<byte>)
    ensures forall i :: 0 <= i < |Escape(s)| ==> LetterOrDigit(Escape(s)[i]) || Escape(s)[i] == '%' as int
    ensures |s| <= |Escape(s)|
    ensures (forall i :: 0 <= i < |s| ==> LetterOrDigit(s[i])) <==> Escape(s) == s
  {
    hide EscapeChar, LetterOrDigit;
    if s != [] {
      var front, c := s[..|s| - 1], s[|s| - 1];
      EscapedPlain(front);
      CharPlain(c);
      assert s == front + [c];
      if Escape(s) == s {
        assert |Escape(front)| == |front| && |EscapeChar(c)| == 1;
        assert Escape(front) == Escape(s)[..|front|] && EscapeChar(c) == Escape(s)[|front|..];
        assert Escape(front) == front && EscapeChar(c) == [c];
      } else {
        assert Escape(front) != front || EscapeChar(c) != [c];
      }
    }
  }

  /** The sixteen digits, of either case. */
  const LOWER_DIGITS := "0123456789abcdef"
  const UPPER_DIGITS := "0123456789ABCDEF"

  /** A character is a hexadecimal digit exactly when it is one of these, and its value is its place. */
  lemma HexDigits(c: byte, k: nat)
    requires k < 16
    ensures HexValue(c) == k <==> c == LOWER_DIGITS[k] as int || c == UPPER_DIGITS[k] as int
    ensures HexValue(c) == -1 || (0 <= HexValue(c) < 16 && (c == LOWER_DIGITS[HexValue(c)] as int || c == UPPER_DIGITS[HexValue(c)] as int))
  {
  }

  /** util_url_escape into 3 bytes per character. */
  method UrlEscape(source: seq<byte>) returns (dst: array<byte>, j: nat)
    ensures fresh(dst) && dst.Length == 3 * |source| + 1 && j < dst.Length && dst[..j] == Escape(source) && dst[j] == 0
  {
    hide EscapeChar;
    dst := new byte[3 * |source| + 1](_ => 0);
    j := 0;
    for i := 0 to |source|
      invariant j <= 3 * i && dst[..j] == Escape(source[..i])
    {
      var e := EscapeChar(source[i]);
      assert source[..i + 1][..i] == source[..i];
      j := Put(dst, j, e);
    }
    assert source[..|source|] == source;
    dst[j] := 0;
  }

  /** `done` is what the first `i` characters stand for. */
  ghost predicate Remains(src: seq<byte>, i: nat, done: seq<byte>)
    requires i <= |src|
  {
    var rest := Unescape(src[i..]);
    Unescape(src) == if rest.None? then None else Some(done + rest.value)
  }

  lemma RemainsStart(src: seq<byte>)
    ensures Remains(src, 0, [])
  {
    assert src[0..] == src;
    assert Unescape(src).Some? ==> [] + Unescape(src).value == Unescape(src).value;
  }

  lemma RemainsEnd(src: seq<byte>, i: nat, done: seq<byte>)
    requires i <= |src| && Remains(src, i, done) && (i == |src| || src[i] == HASH)
    ensures Unescape(src) == Some(done)
  {
    assert i < |src| ==> src[i..][0] == src[i];
    assert done + [] == done;
  }

  lemma RemainsStep(src: seq<byte>, i: nat, done: seq<byte>)
    requires i < |src| && Remains(src, i, done) && src[i] != HASH
    ensures src[i] != PERCENT ==> Remains(src, i + 1, done + [src[i]])
    ensures src[i] == PERCENT ==>
              if i + 2 >= |src| || HexValue(src[i + 1]) == -1 || HexValue(src[i + 2]) == -1 then Unescape(src).None?
              else Remains(src, i + 3, done + [HexValue(src[i + 1]) * 16 + HexValue(src[i + 2])])
  {
    hide HexValue, Unescape, Remains;
    UnescapeAt(src, i);
    if src[i] != PERCENT {
      RemainsMore(src, i, 1, done, src[i]);
    } else if i + 2 < |src| && HexValue(src[i + 1]) != -1 && HexValue(src[i + 2]) != -1 {
      RemainsMore(src, i, 3, done, HexValue(src[i + 1]) * 16 + HexValue(src[i + 2]));
    } else {
      RemainsNone(src, i, done);
    }
  }

  lemma RemainsMore(src: seq<byte>, i: nat, n: nat, done: seq<byte>, c: byte)
    requires i + n <= |src| && Remains(src, i, done)
    requires var rest := Unescape(src[i + n..]); Unescape(src[i..]) == if rest.None? then None else Some([c] + rest.value)
    ensures Remains(src, i + n, done + [c])
  {
    hide Unescape;
    var rest := Unescape(src[i + n..]);
    if rest.Some? {
      assert done + ([c] + rest.value) == done + [c] + rest.value;
    }
  }

  lemma RemainsNone(src: seq<byte>, i: nat, done: seq<byte>)
    requires i <= |src| && Remains(src, i, done) && Unescape(src[i..]).None?
    ensures Unescape(src).None?
  {
    hide Unescape;
  }

  /** What the text from place `i` on stands for, one character at a time. */
  lemma UnescapeAt(src: seq<byte>, i: nat)
    requires i < |src| && src[i] != HASH
    ensures src[i] != PERCENT ==>
              var rest := Unescape(src[i + 1..]); Unescape(src[i..]) == if rest.None? then None else Some([src[i]] + rest.value)
    ensures src[i] == PERCENT ==>
              if i + 2 >= |src| || HexValue(src[i + 1]) == -1 || HexValue(src[i + 2]) == -1 then Unescape(src[i..]).None?
              else
                var rest := Unescape(src[i + 3..]);
                Unescape(src[i..]) == if rest.None? then None else Some([HexValue(src[i + 1]) * 16 + HexValue(src[i + 2])] + rest.value)
  {
    hide HexValue;
    var s := src[i..];
    assert s[0] == src[i] && s[1..] == src[i + 1..];
    if i + 2 < |src| {
      assert s[1] == src[i + 1] && s[2] == src[i + 2] && s[3..] == src[i + 3..];
    }
  }

  /** util_url_unescape. */
  method UrlUnescape(src: seq<byte>) returns (decoded: Option<seq<byte>>)
    ensures decoded == Unescape(src)
  {
    hide Unescape, HexValue, Remains;
    var done: seq<byte>, i := [], 0;
    RemainsStart(src);
    while i < |src| && src[i] != HASH
      invariant i <= |src| && Remains(src, i, done)
    {
      RemainsStep(src, i, done);
      if src[i] == PERCENT {
        if i + 2 >= |src| {
          return None;
        }
        if HexValue(src[i + 1]) == -1 || HexValue(src[i + 2]) == -1 {
          return None;
        }
        done := done + [HexValue(src[i + 1]) * 16 + HexValue(src[i + 2])];
        i := i + 3;
      } else {
        done := done + [src[i]];
        i := i + 1;
      }
    }
    RemainsEnd(src, i, done);
    return Some(done);
  }

  // ---------- paths ----------

  predicate IsSlash(c: byte) {
    c == 47 || c == 92
  }

  const DOT: byte := 46

  predicate DotsBetween(path: seq<byte>, i: int, j: int) {
    forall m :: i < m < j && 0 <= m < |path| ==> path[m] == DOT
  }

  /** Two slashes with nothing but dots, or nothing at all, between them. */
  predicate Blocked(path: seq<byte>, i: int, j: int) {
    0 <= i < j < |path| && IsSlash(path[i]) && IsSlash(path[j]) && DotsBetween(path, i, j)
  }

  ghost predicate Allowed(path: seq<byte>) {
    forall i, j :: !Blocked(path, i, j)
  }

  /** What the flags of the scan say: the last slash is at `last`, with only dots since (`dir`: nothing at all). */
  ghost predicate Scanned(path: seq<byte>, k: nat, last: int, dir: bool, inDotSeq: bool) {
    && k <= |path| && -1 <= last < k && (last >= 0 ==> IsSlash(path[last]))
    && (forall i :: last < i < k ==> !IsSlash(path[i]))
    && (dir <==> last >= 0 && last == k - 1)
    && (inDotSeq <==> last >= 0 && last < k - 1 && DotsBetween(path, last, k))
  }

  lemma ScanSlash(path: seq<byte>, k: nat, last: int, dir: bool, inDotSeq: bool)
    requires Scanned(path, k, last, dir, inDotSeq) && k < |path| && IsSlash(path[k])
    ensures !dir && !inDotSeq ==> Scanned(path, k + 1, k, true, false) && forall i :: !Blocked(path, i, k)
    ensures dir || inDotSeq ==> Blocked(path, last, k)
  {
  }

  lemma ScanOther(path: seq<byte>, k: nat, last: int, dir: bool, inDotSeq: bool)
    requires Scanned(path, k, last, dir, inDotSeq) && k < |path| && !IsSlash(path[k])
    ensures Scanned(path, k + 1, last, false, if dir || inDotSeq then path[k] == DOT else false)
  {
  }

  /** verify_path accepts a path exactly when no two of its slashes have only dots or nothing between them. */
  method VerifyPath(path: seq<byte>) returns (ok: bool)
    ensures ok <==> Allowed(path)
  {
    hide Blocked, Scanned, DotsBetween;
    var dir, inDotSeq, k := false, false, 0;
    ghost var last := -1;
    ScanStart(path);
    while k < |path|
      invariant k <= |path| && Scanned(path, k, last, dir, inDotSeq)
      invariant forall i, j :: j < k ==> !Blocked(path, i, j)
    {
      if IsSlash(path[k]) {
        ScanSlash(path, k, last, dir, inDotSeq);
        if inDotSeq {
          return false;
        }
        if dir {
          return false;
        }
        dir := true;
        last := k;
        k := k + 1;
        continue;
      }
      ScanOther(path, k, last, dir, inDotSeq);
      NotAtSlash(path, k);
      if dir || inDotSeq {
        inDotSeq := path[k] == DOT;
      }
      dir := false;
      k := k + 1;
    }
    PastTheEnd(path);
    ok := true;
  }

  lemma ScanStart(path: seq<byte>)
    ensures Scanned(path, 0, -1, false, false) && forall i, j :: j < 0 ==> !Blocked(path, i, j)
  {
  }

  lemma NotAtSlash(path: seq<byte>, k: nat)
    requires k < |path| && !IsSlash(path[k])
    ensures forall i :: !Blocked(path, i, k)
  {
  }

  lemma PastTheEnd(path: seq<byte>)
    ensures forall i, j :: j >= |path| ==> !Blocked(path, i, j)
  {
  }

  // ---------- how far an accepted path can climb ----------

  /** The components of a path: what is before, between and after its slashes. */
  function Parts(s: seq<byte>): (parts: seq<seq<byte>>)
    ensures parts != []
  {
    if s == [] then [[]]
    else
      var front, c := Parts(s[..|s| - 1]), s[|s| - 1];
      if IsSlash(c) then front + [[]] else front[..|front| - 1] + [front[|front| - 1] + [c]]
  }

  /** How many directories a component goes down: `..` goes up. */
  function Down(part: seq<byte>): (n: int) {
    if part == [DOT, DOT] then -1 else if part == [] || part == [DOT] then 0 else 1
  }

  function Level(parts: seq<seq<byte>>): (n: int) {
    if parts == [] then 0 else Level(parts[..|parts| - 1]) + Down(parts[|parts| - 1])
  }

  /** The components between slashes all go down; `last` is where the last slash is. */
  ghost predicate Descends(s: seq<byte>, parts: seq<seq<byte>>, last: int) {
    && |parts| >= 2 && parts[0] == [] && (forall k :: 1 <= k < |parts| - 1 ==> Down(parts[k]) == 1)
    && 0 <= last < |s| && IsSlash(s[last]) && parts[|parts| - 1] == s[last + 1..]
    && (|parts| == 2 <==> last == 0)
  }

  lemma {:induction false} AllowedDescends(s: seq<byte>) returns (last: int)
    requires s != [] && IsSlash(s[0]) && Allowed(s)
    ensures Descends(s, Parts(s), last) && 0 <= last < |s| && IsSlash(s[last])
  {
    hide Allowed, DotsBetween, Down, Descends;
    var n := |s| - 1;
    var front := s[..n];
    if n == 0 {
      OnlySlash(s);
      return 0;
    }
    AllowedShorter(s);
    last := AllowedDescends(front);
    if IsSlash(s[n]) {
      NotOnlyDots(s, last, n);
      DescendsSlash(s, Parts(front), last);
      last := n;
    } else {
      DescendsOther(s, Parts(front), last);
    }
  }

  lemma OnlySlash(s: seq<byte>)
    requires |s| == 1 && IsSlash(s[0])
    ensures Descends(s, Parts(s), 0)
  {
    assert s[..0] == [] && Parts(s) == [[]] + [[]] && s[1..] == [];
  }

  lemma DescendsSlash(s: seq<byte>, parts: seq<seq<byte>>, last: int)
    requires |s| > 1 && IsSlash(s[|s| - 1]) && Descends(s[..|s| - 1], parts, last) && Down(s[last + 1..|s| - 1]) == 1
    ensures Descends(s, parts + [[]], |s| - 1)
  {
    hide Down;
    var parts', front := parts + [[]], s[..|s| - 1];
    assert front[last + 1..] == s[last + 1..|s| - 1];
    forall k | 1 <= k < |parts'| - 1 ensures Down(parts'[k]) == 1 {
      assert parts'[k] == parts[k];
    }
    assert s[|s|..] == [];
  }

  lemma DescendsOther(s: seq<byte>, parts: seq<seq<byte>>, last: int)
    requires |s| > 1 && Descends(s[..|s| - 1], parts, last)
    ensures Descends(s, parts[..|parts| - 1] + [parts[|parts| - 1] + [s[|s| - 1]]], last)
  {
    hide Down;
    var front := s[..|s| - 1];
    assert s[last + 1..] == front[last + 1..] + [s[|s| - 1]];
  }

  lemma AllowedShorter(s: seq<byte>)
    requires s != [] && Allowed(s)
    ensures Allowed(s[..|s| - 1])
  {
    var front := s[..|s| - 1];
    forall i, j ensures !Blocked(front, i, j) {
      assert Blocked(front, i, j) ==> Blocked(s, i, j);
    }
  }

  lemma NotOnlyDots(s: seq<byte>, i: int, j: int)
    requires Allowed(s) && 0 <= i < j < |s| && IsSlash(s[i]) && IsSlash(s[j])
    ensures Down(s[i + 1..j]) == 1
  {
    var part := s[i + 1..j];
    assert !Blocked(s, i, j);
    var m :| i < m < j && s[m] != DOT;
    assert part[m - i - 1] == s[m];
  }

  lemma {:induction false} LevelOf(parts: seq<seq<byte>>, k: nat)
    requires |parts| >= 2 && parts[0] == [] && (forall i :: 1 <= i < |parts| - 1 ==> Down(parts[i]) == 1) && 0 < k < |parts|
    ensures Level(parts[..k]) == k - 1
  {
    hide Down;
    if k == 1 {
      assert parts[..1] == [[]] && Down([]) == 0 by { DownNone(); }
      assert parts[..1][..0] == [];
    } else {
      LevelOf(parts, k - 1);
      assert parts[..k][..k - 1] == parts[..k - 1];
    }
  }

  lemma DownNone()
    ensures Down([]) == 0
  {
  }

  /**
   An accepted path never leaves the directory it starts in before its last component, and with that one only if
   the path is a slash followed by two dots.
   */
  lemma ClimbsAtMost(path: seq<byte>)
    requires path != [] && IsSlash(path[0]) && Allowed(path)
    ensures forall k :: 0 <= k < |Parts(path)| ==> Level(Parts(path)[..k]) >= 0
    ensures Level(Parts(path)) >= -1
    ensures Level(Parts(path)) == -1 <==> path[1..] == [DOT, DOT]
  {
    hide Allowed, Parts;
    var last := AllowedDescends(path);
    var parts := Parts(path);
    forall k | 0 <= k < |parts| ensures Level(parts[..k]) >= 0 {
      if k > 0 {
        LevelOf(parts, k);
      }
    }
    LevelOf(parts, |parts| - 1);
    if path[1..] == [DOT, DOT] {
      assert !IsSlash(path[1..][0]) && !IsSlash(path[1..][1]);
    }
  }

  /** Such a path is accepted. */
  lemma ParentAccepted(path: seq<byte>)
    requires path == [47, DOT, DOT]
    ensures Allowed(path) && Level(Parts(path)) == -1
  {
    forall i, j ensures !Blocked(path, i, j) {
    }
    ClimbsAtMost(path);
  }

  lemma SlashStays(uri: seq<byte>)
    requires uri != [] && uri[0] == 47 && Unescape(uri).Some?
    ensures var path := CString(Unescape(uri).value);
            path != [] && path[0] == 47 && (path == [47, DOT, DOT] <==> path[1..] == [DOT, DOT])
  {
    var path := CString(Unescape(uri).value);
    assert path == [path[0]] + path[1..];
  }

  /** util_normalise_uri: the decoded path, if it may be used. The decoded text ends at its first NUL. */
  method NormaliseUri(uri: seq<byte>) returns (path: Option<seq<byte>>)
    ensures path.Some? <==> uri != [] && uri[0] == 47 && Unescape(uri).Some?
                            && Allowed(CString(Unescape(uri).value))
    ensures path.Some? ==> path.value == CString(Unescape(uri).value)
    ensures path.Some? ==> Level(Parts(path.value)) >= -1 && (Level(Parts(path.value)) == -1 <==> path.value == [47, DOT, DOT])
  {
    hide Unescape, Allowed, Level, Parts;
    if uri == [] || uri[0] != 47 {
      return None;
    }
    var decoded := UrlUnescape(uri);
    if decoded.None? {
      return None;
    }
    var ok := VerifyPath(CString(decoded.value));
    if ok {
      SlashStays(uri);
      ClimbsAtMost(CString(decoded.value));
      return Some(CString(decoded.value));
    }
    return None;
  }
}

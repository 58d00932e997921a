/** `w_str` / `StrExt::to_w` of `traits/strext.rs`: a string as the
    NUL-terminated UTF-16 buffer Win32 calls expect. A Dafny `char` is a
    Unicode scalar value, as a Rust `char` is, so a string is the sequence
    of scalars `&str` holds. UTF-16 follows section 2.1 of RFC 2781. */
module StrExt {
  import opened Wrappers

  /** A UTF-16 code unit (`u16`). */
  type U16 = x: int | 0 <= x < 0x1_0000

  predicate IsHighSurrogate(u: int) { 0xD800 <= u <= 0xDBFF }
  predicate IsLowSurrogate(u: int) { 0xDC00 <= u <= 0xDFFF }

  /** The scalar a surrogate pair stands for. */
  function Combine(hi: int, lo: int): int {
    0x1_0000 + (hi - 0xD800) * 0x400 + (lo - 0xDC00)
  }

  /** How many code units a scalar takes: one below U+10000, two above. */
  function UnitCount(c: char): nat {
    if c as int < 0x1_0000 then 1 else 2
  }

  /** The UTF-16 form of one scalar. A scalar below U+10000 is its own
      unit; any other becomes a high surrogate carrying the top ten bits of
      `c - 0x10000` and a low surrogate carrying the bottom ten. (The
      original combines with `|`; on these ranges that is the same as `+`.) */
  function EncodeScalar(c: char): (r: seq<U16>)
    ensures |r| == UnitCount(c)
    ensures c as int < 0x1_0000 ==> r[0] == c as int && !IsHighSurrogate(r[0]) && !IsLowSurrogate(r[0])
    ensures c as int >= 0x1_0000 ==>
              IsHighSurrogate(r[0]) && IsLowSurrogate(r[1])
              && Combine(r[0], r[1]) == c as int
  {
    var v := c as int;
    if v < 0x1_0000 then [v]
    else [0xD800 + (v - 0x1_0000) / 0x400, 0xDC00 + (v - 0x1_0000) % 0x400]
  }

  /** `encode_utf16`: the scalars' encodings, in order. */
  function EncodeUtf16(s: string): (r: seq<U16>)
    ensures |s| <= |r| <= 2 * |s|
    decreases |s|
  {
    if |s| == 0 then [] else EncodeScalar(s[0]) + EncodeUtf16(s[1..])
  }

  /** `to_w`: the encoding followed by one terminating 0. */
  function ToW(s: string): (r: seq<U16>)
    ensures |r| >= 1 && r[|r| - 1] == 0
    ensures r[..|r| - 1] == EncodeUtf16(s)
  {
    EncodeUtf16(s) + [0]
  }

  /** `w_str` is `to_w`: the wide, NUL-terminated buffer handed to Win32. */
  function WStr(s: string): (r: seq<U16>)
    ensures r == EncodeUtf16(s) + [0]
  {
    ToW(s)
  }

  /** The number of code units of a string, scalar by scalar. */
  function Utf16Length(s: string): nat
    decreases |s|
  {
    if |s| == 0 then 0 else UnitCount(s[0]) + Utf16Length(s[1..])
  }

  lemma {:induction false} EncodeLength(s: string)
    ensures |EncodeUtf16(s)| == Utf16Length(s)
    decreases |s|
  {
    if |s| > 0 {
      EncodeLength(s[1..]);
    }
  }

  /** The buffer holds one unit per BMP scalar, two per other scalar, and
      the terminator. */
  lemma WStrLength(s: string)
    ensures |WStr(s)| == Utf16Length(s) + 1
  {
    EncodeLength(s);
  }

  /** The encoding holds a 0 exactly where the string holds U+0000: the
      terminator is the buffer's only 0 unless the string contains NUL. */
  lemma {:induction false} ZeroOnlyFromNul(s: string)
    ensures 0 in EncodeUtf16(s) <==> '\0' in s
    decreases |s|
  {
    if |s| > 0 {
      ZeroOnlyFromNul(s[1..]);
      var head := EncodeScalar(s[0]);
      assert EncodeUtf16(s) == head + EncodeUtf16(s[1..]);
      assert 0 in head <==> s[0] == '\0';
      assert s == [s[0]] + s[1..];
    }
  }

  lemma WStrSingleNul(s: string)
    requires '\0' !in s
    ensures WStr(s)[|WStr(s)| - 1] == 0
    ensures forall k :: 0 <= k < |WStr(s)| - 1 ==> WStr(s)[k] != 0
  {
    ZeroOnlyFromNul(s);
    var e := EncodeUtf16(s);
    assert WStr(s)[..|WStr(s)| - 1] == e;
    forall k | 0 <= k < |WStr(s)| - 1
      ensures WStr(s)[k] != 0
    {
      assert WStr(s)[k] == e[k];
    }
  }

  /** UTF-16 decoding, the inverse the encoder is checked against: `None`
      for a lone or reversed surrogate. */
  function DecodeUtf16(u: seq<U16>): Option<string>
    decreases |u|
  {
    if |u| == 0 then Some([])
    else if IsHighSurrogate(u[0]) then
      if |u| >= 2 && IsLowSurrogate(u[1]) then
        var c := Combine(u[0], u[1]);
        match DecodeUtf16(u[2..])
        case Some(rest) => Some([c as char] + rest)
        case None => None
      else None
    else if IsLowSurrogate(u[0]) then None
    else
      match DecodeUtf16(u[1..])
      case Some(rest) => Some([u[0] as char] + rest)
      case None => None
  }

  lemma {:induction false} DecodeEncode(s: string)
    ensures DecodeUtf16(EncodeUtf16(s)) == Some(s)
    decreases |s|
  {
    if |s| > 0 {
      DecodeEncode(s[1..]);
      var head := EncodeScalar(s[0]);
      var e := EncodeUtf16(s);
      assert e == head + EncodeUtf16(s[1..]);
      assert e[|head|..] == EncodeUtf16(s[1..]);
      assert s == [s[0]] + s[1..];
    }
  }

  /** Dropping the terminator and decoding gives back the string. */
  lemma WStrRoundTrip(s: string)
    ensures DecodeUtf16(WStr(s)[..|WStr(s)| - 1]) == Some(s)
  {
    DecodeEncode(s);
  }

  lemma WStrExample()
    ensures WStr("A\U{1F600}") == [0x41, 0xD83D, 0xDE00, 0]
  {
    assert "A\U{1F600}"[1..] == "\U{1F600}";
    assert "\U{1F600}"[1..] == "";
  }
}

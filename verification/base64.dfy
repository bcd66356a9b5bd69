/**
 * Base64 in the standard alphabet with `=` padding, as in section 4 of
 * RFC 4648, decoded the way the token step's decoder does it: carriage
 * returns and line feeds are skipped wherever they occur, every other
 * character must be in the alphabet or be padding, padding may only close
 * the last four-character group, and the unused low bits of a padded group
 * are not checked.
 */
module Base64 {
  import opened Wrappers
  import Text

  type Byte = x: int | 0 <= x < 256

  /** A character of the standard alphabet (padding excluded). */
  predicate IsBase64Char(ch: char)
  {
    ('A' <= ch <= 'Z') || ('a' <= ch <= 'z') || ('0' <= ch <= '9') || ch == '+' || ch == '/'
  }

  const Pad: char := '='

  /** The characters the decoder skips. */
  const LineBreaks: set<char> := {'\r', '\n'}

  /** The 6-bit value an alphabet character stands for. */
  function CharToSextet(ch: char): (v: int)
    requires IsBase64Char(ch)
    ensures 0 <= v < 64
  {
    if 'A' <= ch <= 'Z' then ch as int - 'A' as int
    else if 'a' <= ch <= 'z' then ch as int - 'a' as int + 26
    else if '0' <= ch <= '9' then ch as int - '0' as int + 52
    else if ch == '+' then 62
    else 63
  }

  /** The alphabet character for a 6-bit value; the inverse of `CharToSextet`. */
  function SextetToChar(v: int): (ch: char)
    requires 0 <= v < 64
    ensures IsBase64Char(ch) && CharToSextet(ch) == v
  {
    if v < 26 then ('A' as int + v) as char
    else if v < 52 then ('a' as int + (v - 26)) as char
    else if v < 62 then ('0' as int + (v - 52)) as char
    else if v == 62 then '+'
    else '/'
  }

  /** The alphabet is a bijection onto 0..63. */
  lemma SextetOfCharRoundTrip(ch: char)
    requires IsBase64Char(ch)
    ensures SextetToChar(CharToSextet(ch)) == ch
  {
  }

  // The three bytes packed into four sextets a, b, c, d (big-endian bit order).
  function FirstByte(a: int, b: int): Byte
    requires 0 <= a < 64 && 0 <= b < 64
  {
    a * 4 + b / 16
  }

  function SecondByte(b: int, c: int): Byte
    requires 0 <= b < 64 && 0 <= c < 64
  {
    (b % 16) * 16 + c / 4
  }

  function ThirdByte(c: int, d: int): Byte
    requires 0 <= c < 64 && 0 <= d < 64
  {
    (c % 4) * 64 + d
  }

  /** The number of padding characters closing `t`: two, one or none. */
  function PaddingCount(t: string): (n: nat)
    ensures n <= 2 && n <= |t|
  {
    if |t| >= 1 && t[|t| - 1] == Pad then
      if |t| >= 2 && t[|t| - 2] == Pad then 2 else 1
    else 0
  }

  /**
   * The shape the decoder accepts, stated character by character: whole
   * four-character groups, every character in the alphabet except the
   * padding that closes the input, which is one or two characters long.
   */
  predicate WellFormed(t: string)
  {
    && |t| % 4 == 0
    && forall i :: 0 <= i < |t| ==> IsBase64Char(t[i]) || (t[i] == Pad && i >= |t| - PaddingCount(t))
  }

  /**
   * Decoding of line-break-free input, one four-character group at a time.
   * Padding may only close the last group, and each group yields three bytes
   * less one per padding character.
   */
  function DecodeGroups(t: string): (r: Option<seq<Byte>>)
    ensures r.Some? ==> WellFormed(t)
    ensures r.Some? ==> |r.value| == 3 * (|t| / 4) - PaddingCount(t)
    decreases |t|
  {
    if t == [] then Some([])
    else if |t| < 4 then None
    else if IsBase64Char(t[0]) && IsBase64Char(t[1]) && IsBase64Char(t[2]) && IsBase64Char(t[3]) then
      var a, b, c, d := CharToSextet(t[0]), CharToSextet(t[1]), CharToSextet(t[2]), CharToSextet(t[3]);
      match DecodeGroups(t[4..])
      case None => None
      case Some(rest) =>
        FullGroupInFront(t);
        Some([FirstByte(a, b), SecondByte(b, c), ThirdByte(c, d)] + rest)
    else if |t| == 4 && IsBase64Char(t[0]) && IsBase64Char(t[1]) && t[2] == Pad && t[3] == Pad then
      Some([FirstByte(CharToSextet(t[0]), CharToSextet(t[1]))])
    else if |t| == 4 && IsBase64Char(t[0]) && IsBase64Char(t[1]) && IsBase64Char(t[2]) && t[3] == Pad then
      var a, b, c := CharToSextet(t[0]), CharToSextet(t[1]), CharToSextet(t[2]);
      Some([FirstByte(a, b), SecondByte(b, c)])
    else None
  }

  /** A full group in front leaves the closing padding, and the whole shape, to the rest. */
  lemma FullGroupInFront(t: string)
    requires |t| >= 4 && IsBase64Char(t[0]) && IsBase64Char(t[1]) && IsBase64Char(t[2]) && IsBase64Char(t[3])
    ensures PaddingCount(t) == PaddingCount(t[4..])
    ensures WellFormed(t) <==> WellFormed(t[4..])
  {
    var u := t[4..];
    assert PaddingCount(t) == PaddingCount(u);
    if WellFormed(u) {
      forall i | 0 <= i < |t| ensures IsBase64Char(t[i]) || (t[i] == Pad && i >= |t| - PaddingCount(t)) {
        if i >= 4 {
          assert u[i - 4] == t[i];
        }
      }
    }
    if WellFormed(t) {
      forall i | 0 <= i < |u| ensures IsBase64Char(u[i]) || (u[i] == Pad && i >= |u| - PaddingCount(u)) {
        assert u[i] == t[i + 4];
      }
    }
  }

  /** A group that is not four alphabet characters decodes only as the closing, padded one. */
  lemma PaddedGroupWellFormed(t: string)
    requires WellFormed(t) && |t| >= 4
    requires !(IsBase64Char(t[0]) && IsBase64Char(t[1]) && IsBase64Char(t[2]) && IsBase64Char(t[3]))
    ensures |t| == 4
    ensures (IsBase64Char(t[0]) && IsBase64Char(t[1]) && t[2] == Pad && t[3] == Pad)
         || (IsBase64Char(t[0]) && IsBase64Char(t[1]) && IsBase64Char(t[2]) && t[3] == Pad)
  {
    var k :| 0 <= k < 4 && !IsBase64Char(t[k]);
    assert t[k] == Pad && k >= |t| - PaddingCount(t);
    assert |t| == 4;
    assert t[0] != Pad && t[1] != Pad;
  }

  /** The group decoder succeeds exactly on well-formed input. */
  lemma {:induction false} DecodeGroupsIff(t: string)
    ensures DecodeGroups(t).Some? <==> WellFormed(t)
    decreases |t|
  {
    if t == [] {
    } else if |t| < 4 {
    } else if IsBase64Char(t[0]) && IsBase64Char(t[1]) && IsBase64Char(t[2]) && IsBase64Char(t[3]) {
      DecodeGroupsIff(t[4..]);
      FullGroupInFront(t);
    } else if WellFormed(t) {
      PaddedGroupWellFormed(t);
    }
  }

  /**
   * The decoder: `None` is the decode error. It succeeds exactly when the
   * input, line breaks removed, is well formed, and it then yields three
   * bytes per group less one per padding character.
   */
  function Decode(s: string): (r: Option<seq<Byte>>)
    ensures r.Some? <==> WellFormed(Text.RemoveAll(s, LineBreaks))
    ensures r.Some? ==> var t := Text.RemoveAll(s, LineBreaks);
      |r.value| == 3 * (|t| / 4) - PaddingCount(t)
    ensures forall i :: 0 <= i < |s| && !IsBase64Char(s[i]) && s[i] != Pad && s[i] !in LineBreaks ==> r.None?
  {
    var t := Text.RemoveAll(s, LineBreaks);
    DecodeGroupsIff(t);
    var r := DecodeGroups(t);
    forall i | 0 <= i < |s| && !IsBase64Char(s[i]) && s[i] != Pad && s[i] !in LineBreaks
      ensures r.None?
    {
      var ch := s[i];
      Text.RemoveAllKeepsOthers(s, LineBreaks, ch);
      assert ch in multiset(s);
      assert ch in multiset(t);
      var j :| 0 <= j < |t| && t[j] == ch;
    }
    r
  }

  /** Three bytes as four alphabet characters. */
  function EncodeGroup(b0: Byte, b1: Byte, b2: Byte): (q: string)
    ensures |q| == 4 && forall i :: 0 <= i < 4 ==> IsBase64Char(q[i])
  {
    [SextetToChar(b0 / 4), SextetToChar((b0 % 4) * 16 + b1 / 16),
     SextetToChar((b1 % 16) * 4 + b2 / 64), SextetToChar(b2 % 64)]
  }

  /** The canonical encoding, with zero padding bits; the partner of `Decode`. */
  function Encode(bs: seq<Byte>): (s: string)
    ensures |s| == 4 * ((|bs| + 2) / 3)
    ensures forall i :: 0 <= i < |s| ==> IsBase64Char(s[i]) || s[i] == Pad
  {
    if |bs| == 0 then ""
    else if |bs| == 1 then
      [SextetToChar(bs[0] / 4), SextetToChar((bs[0] % 4) * 16), Pad, Pad]
    else if |bs| == 2 then
      [SextetToChar(bs[0] / 4), SextetToChar((bs[0] % 4) * 16 + bs[1] / 16),
       SextetToChar((bs[1] % 16) * 4), Pad]
    else
      EncodeGroup(bs[0], bs[1], bs[2]) + Encode(bs[3..])
  }

  /** Splitting a byte into sextets and joining them back is the identity. */
  lemma BytesFromSextets(b0: Byte, b1: Byte, b2: Byte)
    ensures FirstByte(b0 / 4, (b0 % 4) * 16 + b1 / 16) == b0
    ensures SecondByte((b0 % 4) * 16 + b1 / 16, (b1 % 16) * 4 + b2 / 64) == b1
    ensures ThirdByte((b1 % 16) * 4 + b2 / 64, b2 % 64) == b2
  {
  }

  /** A full group in front of decodable input decodes to its three bytes in front. */
  lemma DecodeFullGroup(b0: Byte, b1: Byte, b2: Byte, rest: string)
    requires DecodeGroups(rest).Some?
    ensures DecodeGroups(EncodeGroup(b0, b1, b2) + rest) == Some([b0, b1, b2] + DecodeGroups(rest).value)
  {
    var q := EncodeGroup(b0, b1, b2);
    var t := q + rest;
    BytesFromSextets(b0, b1, b2);
    assert t[..4] == q && t[4..] == rest;
    assert CharToSextet(t[0]) == b0 / 4;
    assert CharToSextet(t[1]) == (b0 % 4) * 16 + b1 / 16;
    assert CharToSextet(t[2]) == (b1 % 16) * 4 + b2 / 64;
    assert CharToSextet(t[3]) == b2 % 64;
  }

  /** Two bytes encode to a group with one padding character that decodes back to them. */
  lemma DecodeLastPair(b0: Byte, b1: Byte)
    ensures DecodeGroups(Encode([b0, b1])) == Some([b0, b1])
  {
    var s := Encode([b0, b1]);
    BytesFromSextets(b0, b1, 0);
    assert !IsBase64Char(s[3]);
    assert CharToSextet(s[0]) == b0 / 4;
    assert CharToSextet(s[1]) == (b0 % 4) * 16 + b1 / 16;
    assert CharToSextet(s[2]) == (b1 % 16) * 4 + 0 / 64;
  }

  /** One byte encodes to a group with two padding characters that decodes back to it. */
  lemma DecodeLastSingle(b0: Byte)
    ensures DecodeGroups(Encode([b0])) == Some([b0])
  {
    var s := Encode([b0]);
    BytesFromSextets(b0, 0, 0);
    assert !IsBase64Char(s[2]);
    assert CharToSextet(s[0]) == b0 / 4;
    assert CharToSextet(s[1]) == (b0 % 4) * 16;
  }

  lemma SplitFirstGroup(bs: seq<Byte>)
    requires |bs| >= 3
    ensures bs == [bs[0], bs[1], bs[2]] + bs[3..]
  {
  }

  /** One induction step of the round trip: a full group in front of a decodable rest. */
  lemma DecodeGroupsEncodeStep(bs: seq<Byte>)
    requires |bs| >= 3
    requires DecodeGroups(Encode(bs[3..])) == Some(bs[3..])
    ensures DecodeGroups(Encode(bs)) == Some(bs)
  {
    SplitFirstGroup(bs);
    var rest := Encode(bs[3..]);
    var q := EncodeGroup(bs[0], bs[1], bs[2]);
    assert Encode(bs) == q + rest;
    DecodeFullGroup(bs[0], bs[1], bs[2], rest);
  }

  /** Decoding the canonical encoding gives back the bytes. */
  lemma {:induction false} DecodeGroupsEncode(bs: seq<Byte>)
    ensures DecodeGroups(Encode(bs)) == Some(bs)
  {
    if |bs| >= 3 {
      DecodeGroupsEncode(bs[3..]);
      DecodeGroupsEncodeStep(bs);
    } else if |bs| == 2 {
      DecodeLastPair(bs[0], bs[1]);
      assert bs == [bs[0], bs[1]];
    } else if |bs| == 1 {
      DecodeLastSingle(bs[0]);
      assert bs == [bs[0]];
    }
  }

  /** Round trip: every byte string survives encoding then decoding. */
  lemma DecodeEncode(bs: seq<Byte>)
    ensures Decode(Encode(bs)) == Some(bs)
  {
    var s := Encode(bs);
    Text.RemoveAllNothingToDrop(s, LineBreaks);
    DecodeGroupsEncode(bs);
  }

  /** A character outside the alphabet, other than padding or a line break, makes decoding fail. */
  lemma DecodeRejectsForeignChar(s: string, i: int)
    requires 0 <= i < |s|
    requires !IsBase64Char(s[i]) && s[i] != Pad && s[i] !in LineBreaks
    ensures Decode(s) == None
  {
  }

  /** An input whose length, line breaks aside, is not a multiple of four never decodes. */
  lemma DecodeRejectsPartialGroup(s: string)
    requires |Text.RemoveAll(s, LineBreaks)| % 4 != 0
    ensures Decode(s) == None
  {
  }

  /** Padding must close the input: "QQ=Q" and "Q===" are decode errors. */
  lemma DecodeRejectsMisplacedPadding()
    ensures Decode("QQ=Q") == None && Decode("Q===") == None
  {
    var x, y := "QQ=Q", "Q===";
    assert forall i :: 0 <= i < 4 ==> x[i] !in LineBreaks && y[i] !in LineBreaks;
    Text.RemoveAllNothingToDrop(x, LineBreaks);
    Text.RemoveAllNothingToDrop(y, LineBreaks);
    assert !IsBase64Char(x[2]) && !IsBase64Char(y[1]);
  }

  /** A carriage return or line feed anywhere in the input does not change the result. */
  lemma DecodeSkipsLineBreaks(a: string, ch: char, b: string)
    requires ch in LineBreaks
    ensures Decode(a + [ch] + b) == Decode(a + b)
  {
    Text.RemoveAllAppend(a + [ch], b, LineBreaks);
    Text.RemoveAllAppend(a, [ch], LineBreaks);
    Text.RemoveAllAppend(a, b, LineBreaks);
    assert [ch][1..] == [];
    assert Text.RemoveAll([ch], LineBreaks) == [];
    assert Text.RemoveAll(a + [ch], LineBreaks) == Text.RemoveAll(a, LineBreaks);
    assert Text.RemoveAll(a + [ch] + b, LineBreaks) == Text.RemoveAll(a + b, LineBreaks);
  }

  /** The unused bits of a padded group are not checked: "QR==" decodes like "QQ==". */
  lemma DecodeIgnoresPaddingBits()
    ensures Decode("QR==") == Decode("QQ==") == Some([65])
  {
    var qr, qq := "QR==", "QQ==";
    assert forall i :: 0 <= i < 4 ==> qr[i] !in LineBreaks && qq[i] !in LineBreaks;
    Text.RemoveAllNothingToDrop(qr, LineBreaks);
    Text.RemoveAllNothingToDrop(qq, LineBreaks);
    assert CharToSextet(qr[0]) == 16 && CharToSextet(qr[1]) == 17 && CharToSextet(qq[1]) == 16;
    assert !IsBase64Char(qr[2]) && !IsBase64Char(qq[2]);
    assert DecodeGroups(qr) == Some([FirstByte(16, 17)]);
    assert DecodeGroups(qq) == Some([FirstByte(16, 16)]);
  }

  /** The empty input decodes, to no bytes at all. */
  lemma DecodeEmpty()
    ensures Decode("") == Some([])
  {
  }

  /** A decoded byte string as a string value, one character per byte. */
  function BytesToString(bs: seq<Byte>): (s: string)
    ensures |s| == |bs|
    ensures forall i :: 0 <= i < |bs| ==> s[i] as int == bs[i]
  {
    if bs == [] then "" else [bs[0] as char] + BytesToString(bs[1..])
  }
}

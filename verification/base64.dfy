/** Base64 in the standard, padded form of RFC 4648 section 4, as Go's
    `base64.NewDecoder(base64.StdEncoding, …)` reads it: carriage returns and
    line feeds are skipped, every other character must belong to the
    alphabet or be padding, and the unused low bits of a final partial
    quantum are ignored (the decoder is not in strict mode). */
module Base64 {
  import opened Common

  /** A character of the 64-character alphabet (RFC 4648 section 4, table 1). */
  predicate IsAlphabetChar(c: char) {
    'A' <= c <= 'Z' || 'a' <= c <= 'z' || '0' <= c <= '9' || c == '+' || c == '/'
  }

  /** The 6-bit value a character of the alphabet stands for. */
  function SextetOf(c: char): (v: nat)
    requires IsAlphabetChar(c)
    ensures v < 64
  {
    if 'A' <= c <= 'Z' then c as int - 'A' as int
    else if 'a' <= c <= 'z' then c as int - 'a' as int + 26
    else if '0' <= c <= '9' then c as int - '0' as int + 52
    else if c == '+' then 62
    else 63
  }

  /** The character of the alphabet for a 6-bit value. */
  function CharOf(v: nat): (c: char)
    requires v < 64
    ensures IsAlphabetChar(c) && SextetOf(c) == v
  {
    if v < 26 then ('A' as int + v) as char
    else if v < 52 then ('a' as int + v - 26) as char
    else if v < 62 then ('0' as int + v - 52) as char
    else if v == 62 then '+'
    else '/'
  }

  const Pad: char := '='

  predicate IsNewline(c: char) {
    c == '\r' || c == '\n'
  }

  /** The input with every carriage return and line feed removed. */
  function StripNewlines(s: string): (t: string)
    ensures |t| <= |s|
    ensures forall i :: 0 <= i < |t| ==> !IsNewline(t[i])
    ensures (forall i :: 0 <= i < |s| ==> !IsNewline(s[i])) ==> t == s
  {
    if s == [] then []
    else (if IsNewline(s[0]) then [] else [s[0]]) + StripNewlines(s[1..])
  }

  /** The bytes of one quantum of four characters, or None when it is
      malformed. Padding is admitted only in the `last` quantum: one `=`
      leaves two bytes, two leave one. */
  function DecodeQuantum(q: string, last: bool): (r: Option<seq<byte>>)
    requires |q| == 4
    ensures r.Some? ==> 1 <= |r.value| <= 3 && (|r.value| < 3 ==> last)
  {
    if !IsAlphabetChar(q[0]) || !IsAlphabetChar(q[1]) then None
    else
      var v0, v1 := SextetOf(q[0]), SextetOf(q[1]);
      var b0 := (v0 * 4 + v1 / 16) as byte;
      if q[2] == Pad then
        if q[3] == Pad && last then Some([b0]) else None
      else if !IsAlphabetChar(q[2]) then None
      else
        var v2 := SextetOf(q[2]);
        var b1 := ((v1 % 16) * 16 + v2 / 4) as byte;
        if q[3] == Pad then
          if last then Some([b0, b1]) else None
        else if !IsAlphabetChar(q[3]) then None
        else Some([b0, b1, ((v2 % 4) * 64 + SextetOf(q[3])) as byte])
  }

  /** Decodes a newline-free text quantum by quantum; a trailing group of
      fewer than four characters is an unexpected end of input. */
  function DecodeQuanta(t: string): (r: Option<seq<byte>>)
    ensures r.Some? ==> |t| % 4 == 0
    ensures r.Some? ==> |t| / 4 * 3 - 2 <= |r.value| <= |t| / 4 * 3
    decreases |t|
  {
    if |t| == 0 then Some([])
    else if |t| < 4 then None
    else
      match DecodeQuantum(t[..4], |t| == 4)
      case None => None
      case Some(head) =>
        match DecodeQuanta(t[4..])
        case None => None
        case Some(tail) => Some(head + tail)
  }

  /** What reading the decoder to the end yields: the decoded bytes, or None
      for a decoding error. Once CR and LF are skipped the text must come in
      whole quanta, and every quantum gives at most three bytes. */
  function Decode(s: string): (r: Option<seq<byte>>)
    ensures r.Some? ==> |StripNewlines(s)| % 4 == 0
    ensures r.Some? ==> |r.value| <= |s| / 4 * 3
  {
    var t := StripNewlines(s);
    assert |t| / 4 <= |s| / 4;
    DecodeQuanta(t)
  }

  /** Stripping works character by character: it distributes over
      concatenation... */
  lemma {:induction false} StripNewlinesAppend(a: string, b: string)
    ensures StripNewlines(a + b) == StripNewlines(a) + StripNewlines(b)
    decreases |a|
  {
    if a == [] {
      assert a + b == b;
    } else {
      assert (a + b)[0] == a[0] && (a + b)[1..] == a[1..] + b;
      StripNewlinesAppend(a[1..], b);
    }
  }

  /** ...drops a carriage return or line feed, and keeps any other character. */
  lemma StripNewlinesChar(c: char)
    ensures StripNewlines([c]) == if IsNewline(c) then [] else [c]
  {
  }

  /** So a CR or LF anywhere in the input changes nothing in what is decoded. */
  lemma DecodeSkipsNewline(a: string, c: char, b: string)
    requires IsNewline(c)
    ensures Decode(a + [c] + b) == Decode(a + b)
  {
    StripNewlinesAppend(a + [c], b);
    StripNewlinesAppend(a, [c]);
    StripNewlinesAppend(a, b);
    StripNewlinesChar(c);
    assert StripNewlines(a) + [] == StripNewlines(a);
  }

  /** A quantum holding a character that is neither in the alphabet nor
      padding does not decode. */
  lemma DecodeQuantumRejects(q: string, last: bool, k: nat)
    requires |q| == 4 && k < 4 && !IsAlphabetChar(q[k]) && q[k] != Pad
    ensures DecodeQuantum(q, last) == None
  {
  }

  lemma {:induction false} DecodeQuantaRejects(t: string, k: nat)
    requires k < |t| && !IsAlphabetChar(t[k]) && t[k] != Pad
    ensures DecodeQuanta(t) == None
    decreases |t|
  {
    if |t| >= 4 {
      if k < 4 {
        DecodeQuantumRejects(t[..4], |t| == 4, k);
      } else {
        assert t[4..][k - 4] == t[k];
        DecodeQuantaRejects(t[4..], k - 4);
      }
    }
  }

  /** Any character outside the alphabet, other than padding, CR or LF, makes
      the whole input fail to decode, wherever it stands. */
  lemma DecodeRejectsForeign(s: string, i: nat)
    requires i < |s| && !IsAlphabetChar(s[i]) && s[i] != Pad && !IsNewline(s[i])
    ensures Decode(s) == None
  {
    assert s == s[..i] + [s[i]] + s[i + 1..];
    StripNewlinesAppend(s[..i] + [s[i]], s[i + 1..]);
    StripNewlinesAppend(s[..i], [s[i]]);
    StripNewlinesChar(s[i]);
    var t := StripNewlines(s);
    var k := |StripNewlines(s[..i])|;
    assert t[k] == s[i];
    DecodeQuantaRejects(t, k);
  }

  /** The four characters that encode three bytes. */
  function EncodeTriple(x: byte, y: byte, z: byte): (q: string)
    ensures |q| == 4 && forall i :: 0 <= i < 4 ==> IsAlphabetChar(q[i])
  {
    var x, y, z := x as int, y as int, z as int;
    [CharOf(x / 4), CharOf((x % 4) * 16 + y / 16), CharOf((y % 16) * 4 + z / 64), CharOf(z % 64)]
  }

  /** The padded encoding of a byte sequence. */
  function Encode(b: seq<byte>): (s: string)
    ensures |s| == (|b| + 2) / 3 * 4
    ensures forall i :: 0 <= i < |s| ==> IsAlphabetChar(s[i]) || s[i] == Pad
  {
    if |b| == 0 then ""
    else if |b| == 1 then
      var x := b[0] as int;
      [CharOf(x / 4), CharOf((x % 4) * 16), Pad, Pad]
    else if |b| == 2 then
      var x, y := b[0] as int, b[1] as int;
      [CharOf(x / 4), CharOf((x % 4) * 16 + y / 16), CharOf((y % 16) * 4), Pad]
    else
      assert (|b| + 2) / 3 == (|b[3..]| + 2) / 3 + 1;
      EncodeTriple(b[0], b[1], b[2]) + Encode(b[3..])
  }

  lemma SplitBits(x: int, y: int, z: int)
    requires 0 <= x < 256 && 0 <= y < 256 && 0 <= z < 256
    ensures (x / 4) * 4 + ((x % 4) * 16 + y / 16) / 16 == x
    ensures (((x % 4) * 16 + y / 16) % 16) * 16 + ((y % 16) * 4 + z / 64) / 4 == y
    ensures (((y % 16) * 4 + z / 64) % 4) * 64 + z % 64 == z
  {
  }

  /** The final quantum of a one-byte input decodes back to that byte. */
  lemma DecodeOneByte(x: byte)
    ensures DecodeQuantum(Encode([x]), true) == Some([x])
  {
    var t := Encode([x]);
    var i := x as int;
    SplitBits(i, 0, 0);
    var v0, v1 := SextetOf(t[0]), SextetOf(t[1]);
    assert v0 == i / 4 && v1 == (i % 4) * 16;
    assert (v0 * 4 + v1 / 16) as byte == x;
    assert t[2] == Pad && t[3] == Pad;
  }

  /** The final quantum of a two-byte input decodes back to those bytes. */
  lemma DecodeTwoBytes(x: byte, y: byte)
    ensures DecodeQuantum(Encode([x, y]), true) == Some([x, y])
  {
    var t := Encode([x, y]);
    var i, j := x as int, y as int;
    SplitBits(i, j, 0);
    var v0, v1, v2 := SextetOf(t[0]), SextetOf(t[1]), SextetOf(t[2]);
    assert v0 == i / 4 && v1 == (i % 4) * 16 + j / 16 && v2 == (j % 16) * 4;
    assert (v0 * 4 + v1 / 16) as byte == x;
    assert ((v1 % 16) * 16 + v2 / 4) as byte == y;
    assert t[2] != Pad && t[3] == Pad;
  }

  /** A full quantum decodes back to its three bytes, last or not. */
  lemma DecodeTriple(x: byte, y: byte, z: byte, last: bool)
    ensures DecodeQuantum(EncodeTriple(x, y, z), last) == Some([x, y, z])
  {
    var q := EncodeTriple(x, y, z);
    var i, j, k := x as int, y as int, z as int;
    SplitBits(i, j, k);
    var v0, v1, v2, v3 := SextetOf(q[0]), SextetOf(q[1]), SextetOf(q[2]), SextetOf(q[3]);
    assert v0 == i / 4 && v1 == (i % 4) * 16 + j / 16;
    assert v2 == (j % 16) * 4 + k / 64 && v3 == k % 64;
    assert (v0 * 4 + v1 / 16) as byte == x;
    assert ((v1 % 16) * 16 + v2 / 4) as byte == y;
    assert ((v2 % 4) * 64 + v3) as byte == z;
    assert q[2] != Pad && q[3] != Pad;
  }

  /** Decoding undoes encoding for every byte sequence. */
  lemma {:induction false} DecodeEncode(b: seq<byte>)
    ensures Decode(Encode(b)) == Some(b)
  {
    DecodeQuantaEncode(b);
  }

  lemma {:induction false} DecodeQuantaEncode(b: seq<byte>)
    ensures DecodeQuanta(Encode(b)) == Some(b)
    decreases |b|
  {
    if |b| == 0 {
    } else if |b| < 3 {
      if |b| == 1 {
        assert b == [b[0]];
        DecodeOneByte(b[0]);
      } else {
        assert b == [b[0], b[1]];
        DecodeTwoBytes(b[0], b[1]);
      }
      DecodeQuantaCons(Encode(b), "", b, []);
      assert Encode(b) + "" == Encode(b) && b + [] == b;
    } else {
      var rest := Encode(b[3..]);
      DecodeTriple(b[0], b[1], b[2], |rest| == 0);
      DecodeQuantaEncode(b[3..]);
      DecodeQuantaCons(EncodeTriple(b[0], b[1], b[2]), rest, [b[0], b[1], b[2]], b[3..]);
      SplitThree(b);
    }
  }

  lemma SplitThree(b: seq<byte>)
    requires |b| >= 3
    ensures b == [b[0], b[1], b[2]] + b[3..]
  {
  }

  /** A quantum that decodes, followed by text that decodes. */
  lemma DecodeQuantaCons(q: string, rest: string, head: seq<byte>, tail: seq<byte>)
    requires |q| == 4
    requires DecodeQuantum(q, |rest| == 0) == Some(head)
    requires DecodeQuanta(rest) == Some(tail)
    ensures DecodeQuanta(q + rest) == Some(head + tail)
  {
  }
}

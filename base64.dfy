/**
 * Base64 as RFC 4648 section 4 defines it, with the decoding rules of
 * CPython's `base64.b64decode(s)` (no `validate`): characters outside the
 * alphabet are skipped, a pad sequence that completes a quantum ends the
 * input, and a dangling quantum is a `binascii.Error`.
 */
module Base64 {
  import opened Wrappers

  newtype byte = x: int | 0 <= x < 256

  /** A 6-bit group, the value of one alphabet character. */
  type Sextet = x: nat | x < 64

  const Pad: char := '='

  /** The alphabet character for a 6-bit value (Table 1 of RFC 4648). */
  function CharOf(v: Sextet): char
  {
    if v < 26 then (65 + v) as char         // 'A'..'Z'
    else if v < 52 then (97 + v - 26) as char  // 'a'..'z'
    else if v < 62 then (48 + v - 52) as char  // '0'..'9'
    else if v == 62 then '+'
    else '/'
  }

  /** The value of an alphabet character; `None` for any other character. */
  function SextetOf(c: char): Option<Sextet>
  {
    if 'A' <= c <= 'Z' then Some(c as int - 65)
    else if 'a' <= c <= 'z' then Some(c as int - 97 + 26)
    else if '0' <= c <= '9' then Some(c as int - 48 + 52)
    else if c == '+' then Some(62)
    else if c == '/' then Some(63)
    else None
  }

  lemma SextetOfCharOf(v: Sextet)
    ensures SextetOf(CharOf(v)) == Some(v)
    ensures CharOf(v) != Pad
  {
  }

  /** The ways `b64decode` can fail. */
  datatype DecodeError =
    | NonAscii   // `ValueError`: a `str` argument must be ASCII only
    | Padding    // `binascii.Error`: the data characters end inside a quantum

  /** Encoding with padding: every 3 bytes become 4 characters, a final 1 or 2 bytes are padded. */
  function Encode(b: seq<byte>): (s: string)
    ensures |s| == 4 * ((|b| + 2) / 3)
  {
    if |b| == 0 then []
    else if |b| == 1 then
      [CharOf(b[0] as int / 4), CharOf(b[0] as int % 4 * 16), Pad, Pad]
    else if |b| == 2 then
      [CharOf(b[0] as int / 4), CharOf(b[0] as int % 4 * 16 + b[1] as int / 16),
       CharOf(b[1] as int % 16 * 4), Pad]
    else Quantum(b[0], b[1], b[2]) + Encode(b[3..])
  }

  /** The four characters of a full 24-bit group. */
  function Quantum(b0: byte, b1: byte, b2: byte): (s: string)
    ensures |s| == 4
  {
    [CharOf(b0 as int / 4), CharOf(b0 as int % 4 * 16 + b1 as int / 16),
     CharOf(b1 as int % 16 * 4 + b2 as int / 64), CharOf(b2 as int % 64)]
  }

  /**
   * The decoding loop over the remaining characters. `quadPos` is the number
   * of data characters read in the current quantum, `prev` the last of them,
   * and `pads` the pad characters seen since; each data character after the
   * first of a quantum completes one output byte.
   */
  function DecodeChars(s: string, quadPos: nat, prev: Sextet, pads: nat, out: seq<byte>)
    : (r: Result<seq<byte>, DecodeError>)
    requires quadPos < 4
    ensures r.Ok? ==> out <= r.value
    ensures r.Err? ==> r.error == Padding
    decreases |s|
  {
    if s == [] then
      if quadPos == 0 then Ok(out) else Err(Padding)
    else if s[0] == Pad then
      if quadPos >= 2 && quadPos + pads + 1 >= 4 then Ok(out)
      else DecodeChars(s[1..], quadPos, prev, pads + 1, out)
    else
      match SextetOf(s[0])
      case None => DecodeChars(s[1..], quadPos, prev, pads, out)
      case Some(v) =>
        if quadPos == 0 then DecodeChars(s[1..], 1, v, 0, out)
        else if quadPos == 1 then DecodeChars(s[1..], 2, v, 0, out + [(prev * 4 + v / 16) as byte])
        else if quadPos == 2 then DecodeChars(s[1..], 3, v, 0, out + [(prev % 16 * 16 + v / 4) as byte])
        else DecodeChars(s[1..], 0, v, 0, out + [(prev % 4 * 64 + v) as byte])
  }

  predicate IsAscii(s: string)
  {
    forall i :: 0 <= i < |s| ==> s[i] as int < 128
  }

  /** `base64.b64decode(s)`. */
  function Decode(s: string): (r: Result<seq<byte>, DecodeError>)
    ensures r == Err(NonAscii) <==> !IsAscii(s)
  {
    if !IsAscii(s) then Err(NonAscii)
    else DecodeChars(s, 0, 0, 0, [])
  }

  lemma EncodeIsAscii(b: seq<byte>)
    ensures IsAscii(Encode(b))
  {
  }

  /** One full quantum of four data characters appends its three bytes. */
  lemma {:induction false} DecodeQuantum(b0: byte, b1: byte, b2: byte, rest: string, prev: Sextet, out: seq<byte>)
    ensures DecodeChars(Quantum(b0, b1, b2) + rest, 0, prev, 0, out)
      == DecodeChars(rest, 0, b2 as int % 64, 0, out + [b0, b1, b2])
  {
    var v0: Sextet := b0 as int / 4;
    var v1: Sextet := b0 as int % 4 * 16 + b1 as int / 16;
    var v2: Sextet := b1 as int % 16 * 4 + b2 as int / 64;
    var v3: Sextet := b2 as int % 64;
    var s := [CharOf(v0), CharOf(v1), CharOf(v2), CharOf(v3)] + rest;
    SextetOfCharOf(v0);
    SextetOfCharOf(v1);
    SextetOfCharOf(v2);
    SextetOfCharOf(v3);
    assert s[0] == CharOf(v0) && s[1..] == [CharOf(v1), CharOf(v2), CharOf(v3)] + rest;
    assert s[1..][0] == CharOf(v1) && s[1..][1..] == [CharOf(v2), CharOf(v3)] + rest;
    assert s[1..][1..][0] == CharOf(v2) && s[1..][1..][1..] == [CharOf(v3)] + rest;
    assert s[1..][1..][1..][0] == CharOf(v3) && s[1..][1..][1..][1..] == rest;
    assert (v0 * 4 + v1 / 16) as byte == b0;
    assert (v1 % 16 * 16 + v2 / 4) as byte == b1;
    assert (v2 % 4 * 64 + v3) as byte == b2;
    calc {
      DecodeChars(s, 0, prev, 0, out);
      DecodeChars(s[1..], 1, v0, 0, out);
      DecodeChars(s[1..][1..], 2, v1, 0, out + [b0]);
      DecodeChars(s[1..][1..][1..], 3, v2, 0, out + [b0] + [b1]);
      DecodeChars(rest, 0, v3, 0, out + [b0] + [b1] + [b2]);
      { assert out + [b0] + [b1] + [b2] == out + [b0, b1, b2]; }
      DecodeChars(rest, 0, v3, 0, out + [b0, b1, b2]);
    }
  }

  /** A final single byte, encoded as two data characters and two pads. */
  lemma {:induction false} DecodeFinalOne(b: seq<byte>, prev: Sextet, out: seq<byte>)
    requires |b| == 1
    ensures DecodeChars(Encode(b), 0, prev, 0, out) == Ok(out + b)
  {
    var v0: Sextet := b[0] as int / 4;
    var v1: Sextet := b[0] as int % 4 * 16;
    var s := Encode(b);
    SextetOfCharOf(v0);
    SextetOfCharOf(v1);
    assert s[0] == CharOf(v0) && s[1..] == [CharOf(v1), Pad, Pad];
    assert s[1..][0] == CharOf(v1) && s[1..][1..] == [Pad, Pad];
    assert s[1..][1..][0] == Pad && s[1..][1..][1..] == [Pad];
    assert s[1..][1..][1..][0] == Pad;
    assert (v0 * 4 + v1 / 16) as byte == b[0];
    calc {
      DecodeChars(s, 0, prev, 0, out);
      DecodeChars(s[1..], 1, v0, 0, out);
      DecodeChars(s[1..][1..], 2, v1, 0, out + [b[0]]);
      DecodeChars(s[1..][1..][1..], 2, v1, 1, out + [b[0]]);
      Ok(out + [b[0]]);
      { assert out + [b[0]] == out + b; }
      Ok(out + b);
    }
  }

  /** A final pair of bytes, encoded as three data characters and one pad. */
  lemma {:induction false} DecodeFinalTwo(b: seq<byte>, prev: Sextet, out: seq<byte>)
    requires |b| == 2
    ensures DecodeChars(Encode(b), 0, prev, 0, out) == Ok(out + b)
  {
    var v0: Sextet := b[0] as int / 4;
    var v1: Sextet := b[0] as int % 4 * 16 + b[1] as int / 16;
    var v2: Sextet := b[1] as int % 16 * 4;
    var s := Encode(b);
    SextetOfCharOf(v0);
    SextetOfCharOf(v1);
    SextetOfCharOf(v2);
    assert s[0] == CharOf(v0) && s[1..] == [CharOf(v1), CharOf(v2), Pad];
    assert s[1..][0] == CharOf(v1) && s[1..][1..] == [CharOf(v2), Pad];
    assert s[1..][1..][0] == CharOf(v2) && s[1..][1..][1..] == [Pad];
    assert (v0 * 4 + v1 / 16) as byte == b[0];
    assert (v1 % 16 * 16 + v2 / 4) as byte == b[1];
    calc {
      DecodeChars(s, 0, prev, 0, out);
      DecodeChars(s[1..], 1, v0, 0, out);
      DecodeChars(s[1..][1..], 2, v1, 0, out + [b[0]]);
      DecodeChars(s[1..][1..][1..], 3, v2, 0, out + [b[0]] + [b[1]]);
      Ok(out + [b[0]] + [b[1]]);
      { assert out + [b[0]] + [b[1]] == out + b; }
      Ok(out + b);
    }
  }

  /** With three or more bytes, the first quantum is decoded, then the encoding of the rest. */
  lemma {:induction false} DecodeFirstQuantum(b: seq<byte>, prev: Sextet, out: seq<byte>)
    requires |b| >= 3
    requires DecodeChars(Encode(b[3..]), 0, b[2] as int % 64, 0, out + b[..3]) == Ok(out + b[..3] + b[3..])
    ensures DecodeChars(Encode(b), 0, prev, 0, out) == Ok(out + b)
  {
    assert Encode(b) == Quantum(b[0], b[1], b[2]) + Encode(b[3..]);
    DecodeQuantum(b[0], b[1], b[2], Encode(b[3..]), prev, out);
    assert out + [b[0], b[1], b[2]] == out + b[..3];
    assert out + b[..3] + b[3..] == out + b;
  }

  /** Decoding what `Encode` produced, from the start of a quantum, appends the original bytes. */
  lemma {:induction false} DecodeCharsEncode(b: seq<byte>, prev: Sextet, out: seq<byte>)
    ensures DecodeChars(Encode(b), 0, prev, 0, out) == Ok(out + b)
    decreases |b|
  {
    if |b| == 0 {
      assert out + b == out;
    } else if |b| == 1 {
      DecodeFinalOne(b, prev, out);
    } else if |b| == 2 {
      DecodeFinalTwo(b, prev, out);
    } else {
      DecodeCharsEncode(b[3..], b[2] as int % 64, out + b[..3]);
      DecodeFirstQuantum(b, prev, out);
    }
  }

  /** The round trip of RFC 4648 section 4: decoding an encoding gives back the bytes. */
  lemma DecodeEncode(b: seq<byte>)
    ensures Decode(Encode(b)) == Ok(b)
  {
    EncodeIsAscii(b);
    DecodeCharsEncode(b, 0, []);
    assert [] + b == b;
  }

  /** Line breaks, as GitHub inserts them into file contents, are skipped. */
  lemma {:induction false} LineBreaksSkipped(s: string, quadPos: nat, prev: Sextet, pads: nat, out: seq<byte>)
    requires quadPos < 4
    ensures DecodeChars("\n" + s, quadPos, prev, pads, out) == DecodeChars(s, quadPos, prev, pads, out)
  {
    assert ("\n" + s)[1..] == s;
  }

  /** The text with every line break removed. */
  function DropBreaks(s: string): (r: string)
    ensures |r| <= |s|
    ensures forall i :: 0 <= i < |r| ==> r[i] != '\n'
    ensures '\n' !in s ==> r == s
  {
    if s == [] then []
    else if s[0] == '\n' then DropBreaks(s[1..])
    else [s[0]] + DropBreaks(s[1..])
  }

  lemma AsciiCons(s: string)
    requires s != []
    ensures IsAscii(s) <==> s[0] as int < 128 && IsAscii(s[1..])
  {
    if s[0] as int < 128 && IsAscii(s[1..]) {
      forall i | 0 <= i < |s| ensures s[i] as int < 128 {
        if i > 0 {
          assert s[i] == s[1..][i - 1];
        }
      }
    }
  }

  /** Removing the line breaks keeps a text ASCII, and only an ASCII text becomes one. */
  lemma {:induction false} DropBreaksAscii(s: string)
    ensures IsAscii(DropBreaks(s)) <==> IsAscii(s)
    decreases |s|
  {
    if s != [] {
      DropBreaksAscii(s[1..]);
      AsciiCons(s);
      if s[0] != '\n' {
        AsciiCons(DropBreaks(s));
      }
    }
  }

  /** Two inputs with the same first character decode alike when what follows it does, from every state. */
  lemma SameHeadDecodesAlike(s: string, t: string, quadPos: nat, prev: Sextet, pads: nat, out: seq<byte>)
    requires quadPos < 4 && s != [] && t != [] && s[0] == t[0]
    requires forall q: nat, p: Sextet, n: nat, o: seq<byte> | q < 4 ::
      DecodeChars(s[1..], q, p, n, o) == DecodeChars(t[1..], q, p, n, o)
    ensures DecodeChars(s, quadPos, prev, pads, out) == DecodeChars(t, quadPos, prev, pads, out)
  {
  }

  /** Line breaks anywhere in the remaining input leave the decoding unchanged. */
  lemma {:induction false} BreaksSkipped(s: string, quadPos: nat, prev: Sextet, pads: nat, out: seq<byte>)
    requires quadPos < 4
    ensures DecodeChars(s, quadPos, prev, pads, out) == DecodeChars(DropBreaks(s), quadPos, prev, pads, out)
    decreases |s|, 1
  {
    if s == [] {
    } else if s[0] == '\n' {
      LineBreaksSkipped(s[1..], quadPos, prev, pads, out);
      assert s == "\n" + s[1..];
      BreaksSkipped(s[1..], quadPos, prev, pads, out);
    } else {
      var t := DropBreaks(s);
      assert t == [s[0]] + DropBreaks(s[1..]);
      assert t[0] == s[0] && t[1..] == DropBreaks(s[1..]);
      BreaksSkippedInRest(s);
      SameHeadDecodesAlike(s, t, quadPos, prev, pads, out);
    }
  }

  /** The induction hypothesis of `BreaksSkipped` for the input after its first character, in every state. */
  lemma {:induction false} BreaksSkippedInRest(s: string)
    requires s != []
    ensures forall q: nat, p: Sextet, n: nat, o: seq<byte> | q < 4 ::
      DecodeChars(s[1..], q, p, n, o) == DecodeChars(DropBreaks(s[1..]), q, p, n, o)
    decreases |s|, 0
  {
    forall q: nat, p: Sextet, n: nat, o: seq<byte> | q < 4
      ensures DecodeChars(s[1..], q, p, n, o) == DecodeChars(DropBreaks(s[1..]), q, p, n, o)
    {
      BreaksSkipped(s[1..], q, p, n, o);
    }
  }

  /** The round trip for an encoding broken into lines, as GitHub returns file contents. */
  lemma DecodeBrokenEncoding(s: string, b: seq<byte>)
    requires DropBreaks(s) == Encode(b)
    ensures Decode(s) == Ok(b)
  {
    EncodeIsAscii(b);
    DropBreaksAscii(s);
    BreaksSkipped(s, 0, 0, 0, []);
    DecodeEncode(b);
  }
}

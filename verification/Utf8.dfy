/**
  The text encoder and the fatal text decoder, over UTF-16 code units
  (used in `packages/mls/src/head.ts` and `packages/mls/src/codec.ts`).

  A string is any sequence of code units. Encoding replaces each lone surrogate by U+FFFD, so two
  strings encode alike exactly when they agree after that replacement.
 */
module Utf8 {
  import opened Wrappers
  import opened Buffers

  type Unit = x: int | 0 <= x < 0x1_0000
  type Text = seq<Unit>

  /** A scalar value and how much of the input it took. */
  datatype Taken = Taken(scalar: nat, width: nat)

  predicate High(u: Unit) { 0xD800 <= u < 0xDC00 }
  predicate Low(u: Unit) { 0xDC00 <= u < 0xE000 }

  predicate Scalar(c: nat) {
    c < 0xD800 || 0xE000 <= c < 0x11_0000
  }

  /** The scalar value at the front of a string; a lone surrogate reads as U+FFFD. */
  function First(s: Text): (t: Taken)
    requires s != []
    ensures Scalar(t.scalar) && 1 <= t.width <= |s|
  {
    if High(s[0]) && |s| > 1 && Low(s[1]) then
      Taken(0x1_0000 + (s[0] as int - 0xD800) * 0x400 + (s[1] as int - 0xDC00), 2)
    else if High(s[0]) || Low(s[0]) then Taken(0xFFFD, 1)
    else Taken(s[0], 1)
  }

  /** A scalar value as code units. */
  function Units(c: nat): (s: Text)
    requires Scalar(c)
    ensures s != []
  {
    if c < 0x1_0000 then [c]
    else [0xD800 + (c - 0x1_0000) / 0x400, 0xDC00 + (c - 0x1_0000) % 0x400]
  }

  /** The string with every lone surrogate replaced. */
  function Scrub(s: Text): Text
    decreases |s|
  {
    if s == [] then [] else Units(First(s).scalar) + Scrub(s[First(s).width..])
  }

  predicate WellFormed(s: Text)
    decreases |s|
  {
    s == [] ||
    if High(s[0]) then |s| > 1 && Low(s[1]) && WellFormed(s[2..])
    else !Low(s[0]) && WellFormed(s[1..])
  }

  function EncodeScalar(c: nat): (b: Bytes)
    requires Scalar(c)
    ensures b != []
  {
    if c < 0x80 then [c]
    else if c < 0x800 then [0xC0 + c / 0x40, 0x80 + c % 0x40]
    else if c < 0x1_0000 then [0xE0 + c / 0x40 / 0x40, 0x80 + c / 0x40 % 0x40, 0x80 + c % 0x40]
    else [0xF0 + c / 0x40 / 0x40 / 0x40, 0x80 + c / 0x40 / 0x40 % 0x40, 0x80 + c / 0x40 % 0x40, 0x80 + c % 0x40]
  }

  function Encode(s: Text): Bytes
    decreases |s|
  {
    if s == [] then [] else EncodeScalar(First(s).scalar) + Encode(s[First(s).width..])
  }

  predicate Continues(b: Byte) { 0x80 <= b < 0xC0 }

  /** Six more bits from a continuation byte. */
  function Tail(c: nat, b: Byte): nat
    requires Continues(b)
  {
    c * 0x40 + (b - 0x80)
  }

  /** The scalar value at the front of a byte string: shortest forms only, and no surrogate. */
  function Front(b: Bytes): (t: Option<Taken>)
    requires b != []
    ensures t.Some? ==> 1 <= t.value.width <= |b| && Scalar(t.value.scalar)
  {
    if b[0] < 0x80 then Some(Taken(b[0], 1))
    else if 0xC2 <= b[0] < 0xE0 && |b| >= 2 && Continues(b[1]) then
      Some(Taken(Tail(b[0] as int - 0xC0, b[1]), 2))
    else if 0xE0 <= b[0] < 0xF0 && |b| >= 3 && Continues(b[1]) && Continues(b[2]) then
      var c := Tail(Tail(b[0] as int - 0xE0, b[1]), b[2]);
      if c >= 0x800 && Scalar(c) then Some(Taken(c, 3)) else None
    else if 0xF0 <= b[0] < 0xF5 && |b| >= 4 && Continues(b[1]) && Continues(b[2]) && Continues(b[3]) then
      var c := Tail(Tail(Tail(b[0] as int - 0xF0, b[1]), b[2]), b[3]);
      if c >= 0x1_0000 && Scalar(c) then Some(Taken(c, 4)) else None
    else None
  }

  /** The fatal decoder: `None` is its exception. */
  function Decode(b: Bytes): Option<Text>
    decreases |b|
  {
    if b == [] then Some([])
    else
      var front := Front(b);
      if front.None? then None
      else
        var rest := Decode(b[front.value.width..]);
        if rest.None? then None else Some(Units(front.value.scalar) + rest.value)
  }

  // ------------------------------------------------------------------------------------------
  // Each scalar value.

  lemma FrontOfEncoded(c: nat, rest: Bytes)
    requires Scalar(c)
    ensures Front(EncodeScalar(c) + rest) == Some(Taken(c, |EncodeScalar(c)|))
  {
  }

  lemma TailSplits(c: nat, b: Byte)
    requires Continues(b)
    ensures Tail(c, b) / 0x40 == c && 0x80 + Tail(c, b) % 0x40 == b
  {
    Remainder(c, b - 0x80, 0x40);
  }

  lemma EncodedFront(b: Bytes)
    requires b != [] && Front(b).Some?
    ensures EncodeScalar(Front(b).value.scalar) == b[..Front(b).value.width]
  {
    var t := Front(b).value;
    if t.width == 2 {
      TailSplits(b[0] as int - 0xC0, b[1]);
    } else if t.width == 3 {
      var c := Tail(b[0] as int - 0xE0, b[1]);
      TailSplits(b[0] as int - 0xE0, b[1]);
      TailSplits(c, b[2]);
    } else if t.width == 4 {
      var c := Tail(b[0] as int - 0xF0, b[1]);
      TailSplits(b[0] as int - 0xF0, b[1]);
      TailSplits(c, b[2]);
      TailSplits(Tail(c, b[2]), b[3]);
    }
  }

  lemma FirstOfUnits(c: nat, rest: Text)
    requires Scalar(c)
    ensures First(Units(c) + rest) == Taken(c, |Units(c)|)
  {
  }

  lemma UnitsOfFirst(s: Text)
    requires s != []
    ensures WellFormed(s) <==> Units(First(s).scalar) == s[..First(s).width] && WellFormed(s[First(s).width..])
  {
  }

  // ------------------------------------------------------------------------------------------
  // Whole strings.

  lemma {:induction false} WellFormedIffUnchanged(s: Text)
    ensures WellFormed(Scrub(s))
    ensures WellFormed(s) <==> Scrub(s) == s
    decreases |s|
  {
    if s != [] {
      var t := First(s);
      WellFormedIffUnchanged(s[t.width..]);
      UnitsOfFirst(s);
      FirstOfUnits(t.scalar, Scrub(s[t.width..]));
      UnitsOfFirst(Scrub(s));
      assert Scrub(s)[|Units(t.scalar)|..] == Scrub(s[t.width..]);
      assert s == s[..t.width] + s[t.width..];
      if Scrub(s) == s {
        assert |Units(t.scalar)| == t.width by { FirstOfUnits(t.scalar, Scrub(s[t.width..])); }
      }
    }
  }

  /** What was encoded decodes to the string with its lone surrogates replaced. */
  lemma {:induction false} DecodeEncoded(s: Text)
    ensures Decode(Encode(s)) == Some(Scrub(s))
    decreases |s|
  {
    if s != [] {
      var t := First(s);
      DecodeEncoded(s[t.width..]);
      FrontOfEncoded(t.scalar, Encode(s[t.width..]));
      assert Encode(s)[|EncodeScalar(t.scalar)|..] == Encode(s[t.width..]);
    }
  }

  /** What decodes is well-formed, and re-encodes to the same bytes. */
  lemma {:induction false} EncodeDecoded(b: Bytes)
    ensures Decode(b).Some? ==> WellFormed(Decode(b).value) && Encode(Decode(b).value) == b
    decreases |b|
  {
    hide Front, Units, EncodeScalar;
    if b != [] && Decode(b).Some? {
      var t := Front(b).value;
      var rest := Decode(b[t.width..]).value;
      EncodeDecoded(b[t.width..]);
      EncodedFront(b);
      FirstOfUnits(t.scalar, rest);
      UnitsOfFirst(Decode(b).value);
      assert Decode(b).value[|Units(t.scalar)|..] == rest;
      assert b == b[..t.width] + b[t.width..];
    }
  }

  /** Two strings encode alike exactly when they differ only in their lone surrogates. */
  lemma EncodeAlike(s: Text, t: Text)
    ensures Encode(s) == Encode(t) <==> Scrub(s) == Scrub(t)
  {
    DecodeEncoded(s);
    DecodeEncoded(t);
    EncodeDecoded(Encode(s));
    EncodeDecoded(Encode(t));
  }
}

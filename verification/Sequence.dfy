/**
  Sequence IDs: how the stores format them (`packages/hub-server/src/memoryStore.ts`,
  `packages/hub-store/src/store.ts`) and how the tunnel compares them
  (`packages/hub-tunnel/src/sequence.ts`).

  Every other model of the hub stores uses the counters themselves; `FormattedInOrder` is why it may.
 */
module Sequence {
  import opened Utf8
  import opened StringOrder

  const ZERO: Unit := 48
  const WIDTH := 12
  const BOUND := 1_000_000_000_000

  predicate Digit(u: Unit) { ZERO <= u <= 57 }

  predicate Decimal(s: Text) {
    s != [] && forall i :: 0 <= i < |s| ==> Digit(s[i])
  }

  /** The number a decimal string denotes, leading zeros or not. */
  function Value(s: Text): nat
    requires forall i :: 0 <= i < |s| ==> Digit(s[i])
  {
    if s == [] then 0
    else
      assert Digit(s[|s| - 1]);
      Value(s[..|s| - 1]) * 10 + (s[|s| - 1] as int - ZERO)
  }

  function Precedes(a: Text, b: Text): bool {
    if |a| != |b| && Decimal(a) && Decimal(b) then Value(a) < Value(b) else Less(a, b)
  }

  function Digits(n: nat): (s: Text)
    ensures Decimal(s)
  {
    if n < 10 then [ZERO + n] else Digits(n / 10) + [ZERO + n % 10]
  }

  /** `padStart(width, '0')` */
  function PadStart(s: Text, width: nat): Text {
    if |s| >= width then s else seq(width - |s|, _ => ZERO) + s
  }

  function FormatSequenceID(n: nat): Text {
    PadStart(Digits(n), WIDTH)
  }

  function Power(n: nat): nat {
    if n == 0 then 1 else 10 * Power(n - 1)
  }

  // ------------------------------------------------------------------------------------------
  // Strings of one width compare as their numbers.

  lemma {:induction false} ValueBelow(s: Text)
    requires forall i :: 0 <= i < |s| ==> Digit(s[i])
    ensures Value(s) < Power(|s|)
  {
    if s != [] { ValueBelow(s[..|s| - 1]); }
  }

  /** The first digit weighs as much as the rest can ever count. */
  lemma {:induction false} ValueFromFront(s: Text)
    requires Decimal(s)
    ensures Value(s) == (s[0] as int - ZERO) * Power(|s| - 1) + Value(s[1..])
  {
    if |s| == 1 {
      assert s[..0] == [] && s[1..] == [];
      assert Power(0) == 1;
    } else {
      var front := s[..|s| - 1];
      ValueFromFront(front);
      assert front[1..] == s[1..][..|s| - 2];
      assert s[1..][|s| - 2] == s[|s| - 1];
      var d, p := s[0] as int - ZERO, Power(|s| - 2);
      assert Power(|s| - 1) == 10 * p;
      assert d * p * 10 == d * (10 * p);
    }
  }

  lemma {:induction false} SameWidthInOrder(a: Text, b: Text)
    requires |a| == |b| && Decimal(a) && Decimal(b)
    ensures Less(a, b) <==> Value(a) < Value(b)
    decreases |a|
  {
    hide Value, Power;
    ValueFromFront(a);
    ValueFromFront(b);
    if a[0] == b[0] {
      if |a| > 1 {
        SameWidthInOrder(a[1..], b[1..]);
      } else {
        assert a[1..] == b[1..];
      }
    } else {
      ValueBelow(a[1..]);
      ValueBelow(b[1..]);
      Leads(a[0] as int - ZERO, b[0] as int - ZERO, Power(|a| - 1), Value(a[1..]), Value(b[1..]));
    }
  }

  /** A greater leading digit wins whatever follows. */
  lemma Leads(x: nat, y: nat, p: nat, r: nat, q: nat)
    requires x != y && r < p && q < p
    ensures x * p + r < y * p + q <==> x < y
  {
    if x < y {
      assert y * p >= x * p + p by { assert (y - x) * p >= p by { Times(y - x, p); } }
    } else {
      assert x * p >= y * p + p by { assert (x - y) * p >= p by { Times(x - y, p); } }
    }
  }

  lemma Times(n: nat, p: nat)
    requires n >= 1
    ensures n * p >= p
  {
    assert (n - 1) * p >= 0;
  }

  // ------------------------------------------------------------------------------------------
  // The tunnel's comparison.

  /** On decimal strings of any widths, precedence is numeric order. */
  lemma PrecedesIsNumeric(a: Text, b: Text)
    requires Decimal(a) && Decimal(b)
    ensures Precedes(a, b) <==> Value(a) < Value(b)
  {
    if |a| == |b| { SameWidthInOrder(a, b); }
  }

  predicate Tied(a: Text, b: Text) {
    !Precedes(a, b) && !Precedes(b, a)
  }

  /** So it is a strict weak order there: irreflexive, transitive, and with transitive ties. */
  lemma StrictWeakOrder(a: Text, b: Text, c: Text)
    requires Decimal(a) && Decimal(b) && Decimal(c)
    ensures !Precedes(a, a)
    ensures Precedes(a, b) && Precedes(b, c) ==> Precedes(a, c)
    ensures Tied(a, b) && Tied(b, c) ==> Tied(a, c)
  {
    PrecedesIsNumeric(a, a);
    PrecedesIsNumeric(a, b);
    PrecedesIsNumeric(b, a);
    PrecedesIsNumeric(b, c);
    PrecedesIsNumeric(c, b);
    PrecedesIsNumeric(a, c);
    PrecedesIsNumeric(c, a);
  }

  /** Precedence on these IDs is irreflexive, transitive, and has transitive ties. */
  ghost predicate WeaklyOrdered(ids: set<Text>) {
    && (forall a :: a in ids ==> !Precedes(a, a))
    && (forall a, b, c :: a in ids && b in ids && c in ids && Precedes(a, b) && Precedes(b, c) ==> Precedes(a, c))
    && (forall a, b, c :: a in ids && b in ids && c in ids && Tied(a, b) && Tied(b, c) ==> Tied(a, c))
  }

  /**
    Two decimals of different widths that compare by value one way, and by a string between them
    that is no decimal the other way.
   */
  predicate Clash(x: Text, y: Text, z: Text) {
    && Decimal(x) && Decimal(y) && |x| != |y| && Value(x) <= Value(y)
    && !Decimal(z) && Less(y, z) && Less(z, x)
  }

  /** On any IDs, precedence is a strict weak order exactly when no three of them clash. */
  lemma OrderedIffNoClash(ids: set<Text>)
    ensures WeaklyOrdered(ids) <==> !exists x, y, z :: x in ids && y in ids && z in ids && Clash(x, y, z)
  {
    hide Precedes, Tied, Clash;
    if x, y, z :| x in ids && y in ids && z in ids && Clash(x, y, z) {
      ClashBreaksOrder(x, y, z);
    } else {
      forall a, b, c | a in ids && b in ids && c in ids && Precedes(a, b) && Precedes(b, c) ensures Precedes(a, c) {
        if !Precedes(a, c) { IntransitiveClashes(a, b, c); }
      }
      forall a, b, c | a in ids && b in ids && c in ids
        ensures !Precedes(a, a) && (Tied(a, b) && Tied(b, c) ==> Tied(a, c))
      {
        TiesAreTransitive(a, b, c);
      }
    }
  }

  /** Decimal IDs, of whatever widths, have nothing to clash with. */
  lemma DecimalsAreOrdered(ids: set<Text>)
    requires forall a :: a in ids ==> Decimal(a)
    ensures WeaklyOrdered(ids)
  {
    OrderedIffNoClash(ids);
  }

  lemma ClashBreaksOrder(x: Text, y: Text, z: Text)
    requires Clash(x, y, z)
    ensures Precedes(y, z) && Precedes(z, x) && !Precedes(y, x)
  {
  }

  /** Precedence that does not carry over is a clash: of its ends, of its first two or of its last two. */
  lemma IntransitiveClashes(a: Text, b: Text, c: Text)
    requires Precedes(a, b) && Precedes(b, c) && !Precedes(a, c)
    ensures Clash(c, a, b) || Clash(b, c, a) || Clash(a, b, c)
  {
    hide Value;
    if Decimal(a) && Decimal(b) && Decimal(c) {
      StrictWeakOrder(a, b, c);
    } else {
      LessIsTotal(a, c);
      if Less(a, b) && Less(b, c) { LessTransitive(a, b, c); }
      if Less(c, a) && Less(a, b) { LessTransitive(c, a, b); }
      if Less(b, c) && Less(c, a) { LessTransitive(b, c, a); }
      if Less(b, c) && Less(c, b) { LessIsStrict(b, c); }
      if Less(a, b) && Less(b, a) { LessIsStrict(a, b); }
    }
  }

  /** Only equal IDs and decimals of one value tie, so nothing precedes itself and ties carry over. */
  lemma TiesAreTransitive(a: Text, b: Text, c: Text)
    ensures !Precedes(a, a)
    ensures Tied(a, b) && Tied(b, c) ==> Tied(a, c)
  {
    hide Value, Less;
    if Less(a, a) { LessIsStrict(a, a); }
    if Tied(a, b) && Tied(b, c) {
      LessIsTotal(a, b);
      LessIsTotal(b, c);
      if Decimal(a) && Decimal(b) && Decimal(c) {
        StrictWeakOrder(a, b, c);
      } else {
        assert a == b || b == c;
      }
    }
  }

  /** A clash is a cycle: "9" precedes "10", which precedes "1x", which precedes "9". */
  lemma MixedIDsCycle()
    ensures var nine, ten, mixed: Text := [57], [49, 48], [49, 120];
            && Precedes(nine, ten) && Precedes(ten, mixed) && Precedes(mixed, nine)
            && Clash(nine, ten, mixed)
  {
    var nine, ten, mixed: Text := [57], [49, 48], [49, 120];
    assert !Digit(mixed[1]);
    assert Value(nine) == 9 by { assert nine[..0] == []; }
    var one: Text := [49];
    assert Value(one) == 1 by { assert one[..0] == []; }
    assert Value(ten) == 10 by { assert ten[..1] == one; }
  }

  // ------------------------------------------------------------------------------------------
  // The stores' format.

  lemma {:induction false} DigitsValue(n: nat)
    ensures Value(Digits(n)) == n
  {
    if n >= 10 {
      DigitsValue(n / 10);
      assert Digits(n)[..|Digits(n)| - 1] == Digits(n / 10);
    } else {
      assert Digits(n)[..0] == [];
    }
  }

  lemma {:induction false} DigitsWidth(n: nat, w: nat)
    requires w >= 1
    ensures |Digits(n)| <= w <==> n < Power(w)
    decreases w
  {
    if n >= 10 {
      if w == 1 {
        assert Power(1) == 10 by { assert Power(0) == 1; }
      } else {
        DigitsWidth(n / 10, w - 1);
      }
    } else {
      PowerIsAtLeast(w);
    }
  }

  lemma {:induction false} PowerIsAtLeast(w: nat)
    requires w >= 1
    ensures Power(w) >= 10
  {
    if w == 1 { assert Power(0) == 1; } else { PowerIsAtLeast(w - 1); }
  }

  lemma {:induction false} ZerosAddNothing(zeros: Text, s: Text)
    requires (forall i :: 0 <= i < |zeros| ==> zeros[i] == ZERO) && (forall i :: 0 <= i < |s| ==> Digit(s[i]))
    ensures Value(zeros + s) == Value(s)
    decreases |s|, |zeros|
  {
    if s != [] {
      assert (zeros + s)[..|zeros + s| - 1] == zeros + s[..|s| - 1];
      ZerosAddNothing(zeros, s[..|s| - 1]);
    } else if zeros != [] {
      assert (zeros + s)[..|zeros + s| - 1] == zeros[..|zeros| - 1] + s;
      ZerosAddNothing(zeros[..|zeros| - 1], s);
    }
  }

  lemma BoundIsPower()
    ensures Power(WIDTH) == BOUND
  {
    assert Power(3) == 1000;
    assert Power(6) == 1_000_000;
    assert Power(9) == 1_000_000_000;
  }

  /** A formatted counter denotes the counter, in twelve digits exactly while it is below the bound. */
  lemma Formatted(n: nat)
    ensures Decimal(FormatSequenceID(n)) && Value(FormatSequenceID(n)) == n
    ensures |FormatSequenceID(n)| == WIDTH <==> n < BOUND
  {
    var digits := Digits(n);
    DigitsValue(n);
    DigitsWidth(n, WIDTH);
    BoundIsPower();
    if |digits| < WIDTH {
      ZerosAddNothing(seq(WIDTH - |digits|, _ => ZERO), digits);
    }
  }

  /** Below the bound, the stores' string comparisons are comparisons of counters. */
  lemma FormattedInOrder(m: nat, n: nat)
    requires m < BOUND && n < BOUND
    ensures Less(FormatSequenceID(m), FormatSequenceID(n)) <==> m < n
    ensures FormatSequenceID(m) == FormatSequenceID(n) <==> m == n
    ensures Precedes(FormatSequenceID(m), FormatSequenceID(n)) <==> m < n
  {
    Formatted(m);
    Formatted(n);
    SameWidthInOrder(FormatSequenceID(m), FormatSequenceID(n));
    PrecedesIsNumeric(FormatSequenceID(m), FormatSequenceID(n));
  }

  /** At the bound a thirteenth digit appears, and the next ID sorts below the one before it as a string. */
  lemma BoundIsTight()
    ensures Less(FormatSequenceID(BOUND), FormatSequenceID(BOUND - 1))
    ensures Precedes(FormatSequenceID(BOUND - 1), FormatSequenceID(BOUND))
  {
    Formatted(BOUND);
    Formatted(BOUND - 1);
    PrecedesIsNumeric(FormatSequenceID(BOUND - 1), FormatSequenceID(BOUND));
    LeadingDigit(BOUND, 1, 12);
    LeadingDigit(BOUND - 1, 9, 11);
  }

  /** A store that has handed out the counters below n keeps string order among their IDs exactly up to the bound. */
  lemma StringOrderKeptIff(n: nat)
    ensures (forall a: nat, b: nat :: a < n && b < n ==>
               (Less(FormatSequenceID(a), FormatSequenceID(b)) <==> a < b))
       <==> n <= BOUND
  {
    hide FormatSequenceID, Less;
    if n <= BOUND {
      forall a: nat, b: nat | a < n && b < n ensures Less(FormatSequenceID(a), FormatSequenceID(b)) <==> a < b {
        FormattedInOrder(a, b);
      }
    } else {
      BoundIsTight();
      assert BOUND - 1 < n && BOUND < n;
    }
  }

  /** A number between d and d + 1 at some power of ten is written starting with d. */
  lemma {:induction false} LeadingDigit(n: nat, d: nat, w: nat)
    requires 1 <= d <= 9 && d * Power(w) <= n < (d + 1) * Power(w)
    ensures |Digits(n)| == w + 1 && Digits(n)[0] == ZERO + d
    decreases w
  {
    if w == 0 {
      assert Power(0) == 1;
    } else {
      DropLastDigit(n, d, Power(w - 1));
      PowerIsAtLeast(w);
      Times(d, Power(w));
      LeadingDigit(n / 10, d, w - 1);
    }
  }

  lemma DropLastDigit(n: nat, d: nat, p: nat)
    requires d * (10 * p) <= n < (d + 1) * (10 * p)
    ensures d * p <= n / 10 < (d + 1) * p
  {
    var low, high := d * p, (d + 1) * p;
    assert d * (10 * p) == 10 * low && (d + 1) * (10 * p) == 10 * high;
  }
}

/** The mask as text: what trctl (hw2/trctl.c) accepts, parses and prints. */
module MaskText {
  import opened Records
  import TraceLog

  const ULONG_MAX: nat := 0xFFFF_FFFF_FFFF_FFFF

  // <ctype.h> in the C locale.
  predicate IsXDigit(c: char) {
    '0' <= c <= '9' || 'a' <= c <= 'f' || 'A' <= c <= 'F'
  }

  function ToLower(c: char): char {
    if 'A' <= c <= 'Z' then c - 'A' + 'a' else c
  }

  /** `s[i]`, or the terminating NUL. */
  function CharAt(s: string, i: nat): char {
    if i < |s| then s[i] else '\0'
  }

  predicate AllHex(s: string) {
    forall i :: 0 <= i < |s| ==> IsXDigit(s[i])
  }

  /** "0x" or "0X" and at most sixteen hexadecimal digits. */
  predicate Accepted(s: string) {
    2 <= |s| <= 18 && s[0] == '0' && (s[1] == 'x' || s[1] == 'X') && AllHex(s[2..])
  }

  method IsValidHex(hex: string) returns (ok: bool)
    ensures ok <==> Accepted(hex)
  {
    var valid := true;
    var slen := |hex|;
    if slen > 18 {
      return false;
    }
    var i := 2;
    while i < slen
      invariant 2 <= i && (2 <= slen ==> i <= slen)
      invariant valid && (2 <= slen ==> forall k :: 2 <= k < i ==> IsXDigit(hex[k]))
    {
      if !IsXDigit(hex[i]) {
        valid := false;
        break;
      }
      i := i + 1;
    }
    assert slen >= 2 && valid ==> AllHex(hex[2..]);
    assert !valid ==> !IsXDigit(hex[2..][i - 2]);
    ok := CharAt(hex, 0) == '0' && ToLower(CharAt(hex, 1)) == 'x' && valid;
  }

  function DigitValue(c: char): nat {
    if '0' <= c <= '9' then c as nat - '0' as nat
    else if 'a' <= c <= 'f' then c as nat - 'a' as nat + 10
    else if 'A' <= c <= 'F' then c as nat - 'A' as nat + 10
    else 0
  }

  /** The hexadecimal digits are these, in both cases, with these values. */
  lemma DigitTable(c: char)
    ensures IsXDigit(c) <==> c in "0123456789abcdef" || c in "0123456789ABCDEF"
    ensures forall v :: 0 <= v < 16 ==> DigitValue("0123456789abcdef"[v]) == v && DigitValue("0123456789ABCDEF"[v]) == v
  {
    var lower, upper := "0123456789abcdef", "0123456789ABCDEF";
    if IsXDigit(c) {
      assert c == if c <= '9' || c >= 'a' then lower[DigitValue(c)] else upper[DigitValue(c)];
    }
  }

  function DigitChar(v: nat): char
    requires v < 16
  {
    if v < 10 then '0' + v as char else 'a' + (v - 10) as char
  }

  function HexValue(s: string): nat {
    if s == [] then 0 else 16 * HexValue(s[..|s| - 1]) + DigitValue(s[|s| - 1])
  }

  function HexPrefix(s: string): string {
    if s == [] || !IsXDigit(s[0]) then [] else [s[0]] + HexPrefix(s[1..])
  }

  /** strtoul in base 16 on text without leading blanks or sign: it stops at a non-digit and saturates. */
  function Strtoul16(s: string): nat {
    var digits := if |s| >= 2 && s[0] == '0' && ToLower(s[1]) == 'x' then s[2..] else s;
    var v := HexValue(HexPrefix(digits));
    if v > ULONG_MAX then ULONG_MAX else v
  }

  /** printf's %lx. */
  function Digits(v: nat): string {
    if v < 16 then [DigitChar(v)] else Digits(v / 16) + [DigitChar(v % 16)]
  }

  /** What get_bitmap prints after its label. */
  function Printed(mask: nat): string {
    "0x" + Digits(mask)
  }

  function Pow16(n: nat): (p: nat)
    ensures p > 0
  {
    if n == 0 then 1 else 16 * Pow16(n - 1)
  }

  lemma {:induction false} HexBound(s: string)
    requires AllHex(s)
    ensures HexValue(s) < Pow16(|s|)
  {
    if s != [] {
      HexBound(s[..|s| - 1]);
    }
  }

  lemma Pow16Sixteen(n: nat)
    requires n <= 16
    ensures Pow16(n) <= ULONG_MAX + 1
  {
    assert Pow16(4) == 0x1_0000;
    assert Pow16(8) == 0x1_0000 * Pow16(4);
    assert Pow16(12) == 0x1_0000 * Pow16(8);
    assert Pow16(16) == 0x1_0000 * Pow16(12);
    Pow16Grows(n, 16);
  }

  lemma {:induction false} Pow16Grows(m: nat, n: nat)
    requires m <= n
    ensures Pow16(m) <= Pow16(n)
    decreases n
  {
    if m < n {
      Pow16Grows(m, n - 1);
    }
  }

  lemma {:induction false} HexPrefixOfHex(s: string)
    requires AllHex(s)
    ensures HexPrefix(s) == s
  {
    if s != [] {
      assert AllHex(s[1..]);
      HexPrefixOfHex(s[1..]);
    }
  }

  /** Every accepted text has a value below 2^64, so strtoul never saturates on one and reads it whole. */
  lemma AcceptedFits(s: string)
    requires Accepted(s)
    ensures Strtoul16(s) == HexValue(s[2..]) <= ULONG_MAX
  {
    HexPrefixOfHex(s[2..]);
    HexBound(s[2..]);
    Pow16Sixteen(|s| - 2);
  }

  lemma {:induction false} DigitsParse(v: nat)
    ensures AllHex(Digits(v)) && HexValue(Digits(v)) == v
  {
    if v >= 16 {
      DigitsParse(v / 16);
      var d := Digits(v);
      assert d[..|d| - 1] == Digits(v / 16);
    } else {
      assert Digits(v)[..0] == [];
    }
  }

  lemma {:induction false} DigitsLength(v: nat, n: nat)
    requires n > 0 && v < Pow16(n)
    ensures |Digits(v)| <= n
  {
    if v >= 16 {
      DigitsLength(v / 16, n - 1);
    }
  }

  /** Every 64-bit mask is printed as a text that trctl accepts and parses back to it. */
  lemma PrintedParsesBack(mask: nat)
    requires mask <= ULONG_MAX
    ensures Accepted(Printed(mask)) && Strtoul16(Printed(mask)) == mask
  {
    assert Pow16(16) == 0x1_0000_0000_0000_0000 by {
      assert Pow16(8) == 0x1_0000_0000;
      assert Pow16(12) == 0x1_0000 * Pow16(8);
    }
    DigitsLength(mask, 16);
    DigitsParse(mask);
    assert Printed(mask)[2..] == Digits(mask);
    AcceptedFits(Printed(mask));
  }

  /** The form %lx gives: lower case, at least one digit, no superfluous zero. */
  predicate Canonical(s: string) {
    && |s| > 0 && (s[0] != '0' || |s| == 1)
    && forall i :: 0 <= i < |s| ==> IsXDigit(s[i]) && ToLower(s[i]) == s[i]
  }

  lemma {:induction false} CanonicalPositive(s: string)
    requires Canonical(s) && s != "0"
    ensures HexValue(s) > 0
  {
    if |s| == 1 {
      assert s == [s[0]];
      assert DigitValue(s[0]) > 0;
    } else {
      var t := s[..|s| - 1];
      assert t[0] == s[0];
      CanonicalPositive(t);
    }
  }

  lemma DigitBack(c: char)
    requires IsXDigit(c) && ToLower(c) == c
    ensures DigitValue(c) < 16 && DigitChar(DigitValue(c)) == c
  {
  }

  lemma DigitsSnoc(v: nat, d: nat)
    requires d < 16
    ensures Digits(16 * v + d) == if v > 0 then Digits(v) + [DigitChar(d)] else [DigitChar(d)]
  {
  }

  lemma CanonicalFront(s: string)
    requires Canonical(s) && |s| > 1
    ensures Canonical(s[..|s| - 1]) && s[..|s| - 1] != "0"
  {
    assert s[..|s| - 1][0] == s[0];
  }

  lemma {:induction false} DigitsOfCanonical(s: string)
    requires Canonical(s)
    ensures Digits(HexValue(s)) == s
  {
    var t, c := s[..|s| - 1], s[|s| - 1];
    assert HexValue(s) == 16 * HexValue(t) + DigitValue(c);
    assert IsXDigit(c) && ToLower(c) == c;
    assert s == t + [c] && (t == [] ==> HexValue(t) == 0 && s == [c]);
    hide *;
    DigitBack(c);
    DigitsSnoc(HexValue(t), DigitValue(c));
    if |s| > 1 {
      CanonicalFront(s);
      CanonicalPositive(t);
      DigitsOfCanonical(t);
    }
  }

  lemma {:induction false} DigitsCanonical(v: nat)
    ensures Canonical(Digits(v)) && (v > 0 ==> Digits(v)[0] != '0')
  {
    if v >= 16 {
      DigitsCanonical(v / 16);
    }
  }

  lemma TailOfPrinted(mask: nat)
    ensures Printed(mask)[2..] == Digits(mask) && Printed(mask)[1] == 'x'
  {
  }

  lemma Rejoin(s: string, mask: nat)
    requires Accepted(s) && s[1] == 'x' && s[2..] == Digits(mask)
    ensures s == Printed(mask)
  {
    assert s == s[..2] + s[2..];
  }

  lemma TwoLong(s: string)
    requires Accepted(s)
    ensures |s| >= 2
  {
  }

  /** Among the accepted texts of a mask the printed one is the only canonical one. */
  lemma PrintedIsCanonicalForm(s: string, mask: nat)
    requires mask <= ULONG_MAX && Accepted(s)
    ensures s == Printed(mask) <==> s[1] == 'x' && Canonical(s[2..]) && Strtoul16(s) == mask
  {
    hide *;
    TwoLong(s);
    PrintedParsesBack(mask);
    DigitsCanonical(mask);
    TailOfPrinted(mask);
    if s[1] == 'x' && Canonical(s[2..]) && Strtoul16(s) == mask {
      AcceptedFits(s);
      DigitsOfCanonical(s[2..]);
      Rejoin(s, mask);
    }
  }

  // ----- case and place -----

  function Lowered(s: string): (r: string)
    ensures |r| == |s| && forall i :: 0 <= i < |s| ==> r[i] == ToLower(s[i])
  {
    if s == [] then [] else [ToLower(s[0])] + Lowered(s[1..])
  }

  lemma LoweredDigit(c: char)
    requires IsXDigit(c)
    ensures IsXDigit(ToLower(c)) && DigitValue(ToLower(c)) == DigitValue(c)
    ensures DigitChar(DigitValue(c)) == ToLower(c)
  {
  }

  lemma LoweredSnoc(s: string, c: char)
    ensures Lowered(s + [c]) == Lowered(s) + [ToLower(c)]
  {
  }

  lemma HexSnoc(s: string, c: char)
    ensures HexValue(s + [c]) == 16 * HexValue(s) + DigitValue(c)
    ensures AllHex(s + [c]) <==> AllHex(s) && IsXDigit(c)
  {
    assert (s + [c])[..|s|] == s;
    assert AllHex(s + [c]) ==> forall i :: 0 <= i < |s| ==> IsXDigit((s + [c])[i]);
    assert AllHex(s + [c]) ==> IsXDigit((s + [c])[|s|]);
  }

  /** The case of a digit does not matter to the value. */
  lemma {:induction false} LoweredValue(s: string)
    requires AllHex(s)
    ensures AllHex(Lowered(s)) && HexValue(Lowered(s)) == HexValue(s)
    decreases |s|
  {
    if s != [] {
      var t, c := s[..|s| - 1], s[|s| - 1];
      assert s == t + [c];
      hide *;
      HexSnoc(t, c);
      LoweredSnoc(t, c);
      LoweredDigit(c);
      LoweredValue(t);
      HexSnoc(Lowered(t), ToLower(c));
    }
  }

  /** Digits further left weigh more: each digit behind them sixteen times. */
  lemma {:induction false} HexAppend(s: string, t: string)
    ensures HexValue(s + t) == HexValue(s) * Pow16(|t|) + HexValue(t)
    decreases |t|
  {
    if t == [] {
      assert s + t == s;
    } else {
      var n := |t| - 1;
      HexAppend(s, t[..n]);
      assert (s + t)[..|s + t| - 1] == s + t[..n];
      Distribute(HexValue(s), Pow16(n), HexValue(t[..n]));
    }
  }

  lemma Distribute(a: nat, p: nat, b: nat)
    ensures 16 * (a * p + b) == a * (16 * p) + 16 * b
  {
  }

  /** An accepted text in lower case is accepted, and has the same value. */
  lemma AcceptedLowered(s: string)
    requires Accepted(s)
    ensures Accepted(Lowered(s)) && HexValue(Lowered(s)[2..]) == HexValue(s[2..])
  {
    var t := s[2..];
    assert Lowered(s)[2..] == Lowered(t);
    LoweredValue(t);
    assert Lowered(s)[0] == '0' && Lowered(s)[1] == 'x';
  }

  function Zeros(n: nat): string { if n == 0 then "" else Zeros(n - 1) + "0" }

  lemma {:induction false} ZeroValue(n: nat)
    ensures HexValue(Zeros(n)) == 0
  {
    if n > 0 {
      ZeroValue(n - 1);
      HexSnoc(Zeros(n - 1), '0');
    }
  }

  /** The text, whatever its case, is the printed form of the mask with zeros in front. */
  ghost predicate Denotes(s: string, mask: nat) {
    Accepted(s) && exists zeros: nat :: Lowered(s)[2..] == Zeros(zeros) + Digits(mask)
  }

  lemma DenotedValue(s: string, mask: nat)
    requires Denotes(s, mask)
    ensures HexValue(s[2..]) == mask
  {
    var zeros: nat :| Lowered(s)[2..] == Zeros(zeros) + Digits(mask);
    AcceptedLowered(s);
    DigitsParse(mask);
    ZeroValue(zeros);
    hide HexValue, Digits, Zeros;
    HexAppend(Zeros(zeros), Digits(mask));
  }

  /** trctl's argument: "all", "none" or a hexadecimal mask; anything else is a usage error. */
  method MaskArgument(arg: string) returns (mask: Option<nat>)
    ensures mask.None? <==> arg != "all" && arg != "none" && !Accepted(arg)
    ensures mask.Some? ==> mask.value <= ULONG_MAX
    ensures arg == "all" ==> mask == Some(TraceLog.MASK_ALL)
    ensures arg == "none" ==> mask == Some(0)
    ensures Accepted(arg) ==> mask == Some(HexValue(arg[2..]))
    ensures Accepted(arg) ==> Accepted(Lowered(arg)) && mask == Some(HexValue(Lowered(arg)[2..]))
    ensures forall m: nat :: Denotes(arg, m) ==> mask == Some(m)
  {
    if arg == "all" {
      return Some(ULONG_MAX);
    }
    if arg == "none" {
      return Some(0);
    }
    var ok := IsValidHex(arg);
    if ok {
      AcceptedFits(arg);
      AcceptedLowered(arg);
      forall m: nat | Denotes(arg, m) ensures HexValue(arg[2..]) == m {
        DenotedValue(arg, m);
      }
      return Some(Strtoul16(arg));
    }
    return None;
  }

  /** The digit of weight 16^n. */
  function DigitAt(s: string, n: nat): nat {
    if n < |s| then DigitValue(s[|s| - 1 - n]) else 0
  }

  /** `v` without its `n` low hexadecimal digits. */
  function Shifted(v: nat, n: nat): nat {
    if n == 0 then v else Shifted(v / 16, n - 1)
  }

  function DropLast(s: string): string {
    if s == [] then s else s[..|s| - 1]
  }

  lemma DigitBound(c: char)
    ensures DigitValue(c) < 16
  {
  }

  lemma LastDigit(s: string)
    ensures HexValue(s) == 16 * HexValue(DropLast(s)) + DigitAt(s, 0) && DigitAt(s, 0) < 16
  {
    if s != [] {
      DigitBound(s[|s| - 1]);
    }
  }

  lemma DigitsBefore(s: string, n: nat)
    requires n > 0
    ensures DigitAt(s, n) == DigitAt(DropLast(s), n - 1)
  {
    hide DigitValue;
  }

  lemma ShiftedOnce(v: nat, d: nat, n: nat)
    requires n > 0 && d < 16
    ensures Shifted(16 * v + d, n) == Shifted(v, n - 1)
  {
  }

  lemma {:induction false} DigitOfValue(s: string, n: nat)
    ensures Shifted(HexValue(s), n) % 16 == DigitAt(s, n)
    decreases n
  {
    LastDigit(s);
    if n == 0 {
      assert Shifted(HexValue(s), 0) == HexValue(s);
    } else {
      hide *;
      DigitOfValue(DropLast(s), n - 1);
      DigitsBefore(s, n);
      ShiftedOnce(HexValue(DropLast(s)), DigitAt(s, 0), n);
    }
  }

  /** Where the bit of a kind stands in the text of a mask: in which digit, and its weight there. */
  function DigitOfKind(kind: nat): nat {
    if kind == TR_FCREAT || kind == TR_FWRITE then 0 else if kind == TR_DCREAT then 2 else 5
  }

  function WeightOfKind(kind: nat): (w: nat)
    ensures w == 1 || w == 2 || w == 4 || w == 8
  {
    if kind == TR_FCREAT || kind == TR_RENAME then 1
    else if kind == TR_LINK then 2
    else if kind == TR_UNLINK then 8
    else 4
  }

  lemma Parity(a: nat, q: nat, b: nat)
    requires a == 2 * q + b
    ensures a % 2 == b % 2
  {
  }

  lemma DivideBySixteenths(q: nat, r: nat)
    requires r < 16
    ensures (16 * q + r) / 2 == 8 * q + r / 2
    ensures (16 * q + r) / 4 == 4 * q + r / 4
    ensures (16 * q + r) / 8 == 2 * q + r / 8
  {
  }

  lemma BitsOfDigit(v: nat)
    ensures v % 2 == v % 16 % 2 && v / 2 % 2 == v % 16 / 2 % 2
    ensures v / 4 % 2 == v % 16 / 4 % 2 && v / 8 % 2 == v % 16 / 8 % 2
  {
    var q, r := v / 16, v % 16;
    DivideBySixteenths(q, r);
    Parity(v, 8 * q, r);
    Parity(v / 2, 4 * q, r / 2);
    Parity(v / 4, 2 * q, r / 4);
    Parity(v / 8, q, r / 8);
  }

  lemma ShiftedIs(v: nat)
    ensures Shifted(v, 0) == v && Shifted(v, 2) == v / 0x100 && Shifted(v, 5) == v / 0x10_0000
  {
    assert Shifted(v, 2) == Shifted(v / 16, 1) == Shifted(v / 16 / 16, 0);
    var w := v / 16 / 16;
    assert Shifted(v, 5) == Shifted(v / 16, 4) == Shifted(w, 3) == Shifted(w / 16, 2) == Shifted(w / 16 / 16, 1);
  }

  lemma KindOfMask(kind: nat, mask: nat)
    requires TraceLog.Known(kind)
    ensures mask / kind == Shifted(mask, DigitOfKind(kind)) / WeightOfKind(kind)
  {
    ShiftedIs(mask);
  }

  lemma BitAt(v: nat, w: nat)
    requires w == 1 || w == 2 || w == 4 || w == 8
    ensures v / w % 2 == v % 16 / w % 2
  {
    BitsOfDigit(v);
  }

  lemma SelectedIs(kind: nat, mask: nat)
    requires TraceLog.Known(kind)
    ensures kind > 0 && (TraceLog.Selected(kind, mask) == kind <==> mask / kind % 2 == 1)
  {
  }

  /** For each kind, one bit of one digit of the text decides whether its operations are traced. */
  lemma DigitSelects(s: string, kind: nat)
    requires TraceLog.Known(kind)
    ensures TraceLog.Selected(kind, HexValue(s)) == kind
            <==> DigitAt(s, DigitOfKind(kind)) / WeightOfKind(kind) % 2 == 1
  {
    hide *;
    SelectedIs(kind, HexValue(s));
    KindOfMask(kind, HexValue(s));
    DigitOfValue(s, DigitOfKind(kind));
    BitAt(Shifted(HexValue(s), DigitOfKind(kind)), WeightOfKind(kind));
  }
}

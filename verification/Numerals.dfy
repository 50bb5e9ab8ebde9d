/** Numbers in text, as the C library prints and reads them. */
module Numerals {
  const MIN64 := -0x8000_0000_0000_0000
  const MAX64 := 0x7fff_ffff_ffff_ffff

  type Int64 = x: int | MIN64 <= x <= MAX64

  predicate IsSpace(c: char) { c == ' ' || '\t' <= c <= '\r' }

  predicate IsDigit(c: char) { '0' <= c <= '9' }

  function SkipSpace(s: string): (r: string)
    ensures |r| <= |s|
    ensures r == "" || !IsSpace(r[0])
    ensures s != "" && !IsSpace(s[0]) ==> r == s
  {
    if s != "" && IsSpace(s[0]) then SkipSpace(s[1..]) else s
  }

  function Digit(c: char): nat
    requires IsDigit(c)
  {
    c as int - '0' as int
  }

  function DigitChar(d: nat): (c: char)
    requires d < 10
    ensures IsDigit(c) && Digit(c) == d
  {
    ('0' as int + d) as char
  }

  /** The value of the leading decimal digits, after some that make acc. */
  function Digits(s: string, acc: nat): nat {
    if s != "" && IsDigit(s[0]) then Digits(s[1..], acc * 10 + Digit(s[0])) else acc
  }

  function Saturate(x: int): Int64 { if x < MIN64 then MIN64 else if x > MAX64 then MAX64 else x }

  /** strtoll, base 10: blanks, a sign, digits; no digits is 0, and what does not fit is clamped. */
  function Strtoll(s: string): Int64 {
    var t := SkipSpace(s);
    if t != "" && t[0] == '-' then Saturate(0 - Digits(t[1..], 0))
    else if t != "" && t[0] == '+' then Saturate(Digits(t[1..], 0))
    else Saturate(Digits(t, 0))
  }

  predicate AllDigits(s: string) { forall i :: 0 <= i < |s| ==> IsDigit(s[i]) }

  function PrintNat(n: nat): (s: string)
    ensures s != "" && AllDigits(s)
  {
    if n < 10 then [DigitChar(n)] else PrintNat(n / 10) + [DigitChar(n % 10)]
  }

  /** printf's %lld. */
  function Print(n: int): string { if n < 0 then "-" + PrintNat(-n) else PrintNat(n) }

  lemma {:induction false} DigitsNext(s: string, acc: nat, d: nat)
    requires AllDigits(s) && d < 10
    ensures Digits(s + [DigitChar(d)], acc) == Digits(s, acc) * 10 + d
  {
    if s != "" {
      assert (s + [DigitChar(d)])[1..] == s[1..] + [DigitChar(d)];
      DigitsNext(s[1..], acc * 10 + Digit(s[0]), d);
    }
  }

  lemma {:induction false} DigitsOfPrint(n: nat)
    ensures Digits(PrintNat(n), 0) == n
  {
    if n >= 10 {
      DigitsOfPrint(n / 10);
      DigitsNext(PrintNat(n / 10), 0, n % 10);
    }
  }

  /** Reading undoes printing, for every 64-bit number. */
  lemma ReadPrint(n: Int64)
    ensures Strtoll(Print(n)) == n
  {
    hide Digits;
    var m: int := n;
    if m < 0 {
      DigitsOfPrint(-m);
    } else {
      DigitsOfPrint(n);
      assert IsDigit(PrintNat(n)[0]);
    }
  }

  /** Reading stops where the digits do. */
  lemma {:induction false} DigitsStop(s: string, t: string, acc: nat)
    requires AllDigits(s) && (t == "" || !IsDigit(t[0]))
    ensures Digits(s + t, acc) == Digits(s, acc)
  {
    if s == "" {
      assert s + t == t;
    } else {
      assert (s + t)[1..] == s[1..] + t;
      DigitsStop(s[1..], t, acc * 10 + Digit(s[0]));
    }
  }

  lemma {:induction false} BlanksGo(blanks: string, t: string)
    requires (forall i :: 0 <= i < |blanks| ==> IsSpace(blanks[i])) && (t == "" || !IsSpace(t[0]))
    ensures SkipSpace(blanks + t) == t
  {
    if blanks == "" {
      assert blanks + t == t;
    } else {
      assert (blanks + t)[1..] == blanks[1..] + t;
      BlanksGo(blanks[1..], t);
    }
  }

  /** A number behind blanks and before something that is no digit is read, or else the nearest there is. */
  lemma ReadsNumber(blanks: string, n: int, t: string)
    requires (forall i :: 0 <= i < |blanks| ==> IsSpace(blanks[i])) && (t == "" || !IsDigit(t[0]))
    ensures Strtoll(blanks + Print(n) + t) == Saturate(n)
  {
    hide *;
    ReadsTail(n, t);
    NoBlank(n, t);
    BlanksOff(blanks, Print(n) + t);
    assert blanks + Print(n) + t == blanks + (Print(n) + t);
  }

  lemma NoBlank(n: int, t: string)
    ensures Print(n) + t != "" && !IsSpace((Print(n) + t)[0])
  {
    var p := PrintNat(if n < 0 then -n else n);
    assert IsDigit(p[0]);
    hide PrintNat;
  }

  lemma BlanksOff(blanks: string, t: string)
    requires (forall i :: 0 <= i < |blanks| ==> IsSpace(blanks[i])) && t != "" && !IsSpace(t[0])
    ensures Strtoll(blanks + t) == Strtoll(t)
  {
    BlanksGo(blanks, t);
    hide Digits, Saturate, IsSpace;
  }

  lemma ReadsTail(n: int, t: string)
    requires t == "" || !IsDigit(t[0])
    ensures Strtoll(Print(n) + t) == Saturate(n)
  {
    var m := if n < 0 then -n else n;
    var p := PrintNat(m);
    assert IsDigit(p[0]);
    DigitsOfPrint(m);
    DigitsStop(p, t, 0);
    assert n < 0 ==> (Print(n) + t)[1..] == p + t;
    hide Digits, PrintNat, Saturate;
  }

  /** No separator can come out of printing a number. */
  lemma PrintChars(n: int, c: char)
    requires !IsDigit(c) && c != '-'
    ensures Print(n) != "" && c !in Print(n)
  {
  }

  // ---- Hexadecimal ----

  predicate IsHex(c: char) { IsDigit(c) || 'a' <= c <= 'f' || 'A' <= c <= 'F' }

  function HexDigit(c: char): (d: nat)
    requires IsHex(c)
    ensures d < 16
  {
    if IsDigit(c) then Digit(c) else if 'a' <= c <= 'f' then c as int - 'a' as int + 10 else c as int - 'A' as int + 10
  }

  function HexDigits(s: string, acc: nat): nat {
    if s != "" && IsHex(s[0]) then HexDigits(s[1..], acc * 16 + HexDigit(s[0])) else acc
  }

  function SkipPrefix(s: string): string {
    if |s| >= 3 && s[0] == '0' && (s[1] == 'x' || s[1] == 'X') && IsHex(s[2]) then s[2..] else s
  }

  /**
   strtoul, base 16, on a machine whose unsigned long counts modulo lim: blanks, a sign (minus negates
   modulo lim), 0x, digits; what does not fit is clamped.
   */
  function Strtoul(s: string, lim: nat): (n: nat)
    requires lim > 0
    ensures n < lim
  {
    var t := SkipSpace(s);
    var signed := t != "" && (t[0] == '-' || t[0] == '+');
    var n := HexDigits(SkipPrefix(if signed then t[1..] else t), 0);
    if n >= lim then lim - 1
    else if signed && t[0] == '-' then (lim - n) % lim
    else n
  }

  function HexChar(d: nat): (c: char)
    requires d < 16
    ensures IsHex(c) && HexDigit(c) == d && c != 'x' && c != 'X'
  {
    if d < 10 then DigitChar(d) else ('a' as int + d - 10) as char
  }

  predicate AllHex(s: string) { forall i :: 0 <= i < |s| ==> IsHex(s[i]) && s[i] != 'x' && s[i] != 'X' }

  function PrintHex(n: nat): (s: string)
    ensures s != "" && AllHex(s)
  {
    if n < 16 then [HexChar(n)] else PrintHex(n / 16) + [HexChar(n % 16)]
  }

  lemma {:induction false} HexDigitsNext(s: string, acc: nat, d: nat)
    requires AllHex(s) && d < 16
    ensures HexDigits(s + [HexChar(d)], acc) == HexDigits(s, acc) * 16 + d
  {
    if s != "" {
      assert (s + [HexChar(d)])[1..] == s[1..] + [HexChar(d)];
      HexDigitsNext(s[1..], acc * 16 + HexDigit(s[0]), d);
    }
  }

  lemma {:induction false} HexDigitsOfPrint(n: nat)
    ensures HexDigits(PrintHex(n), 0) == n
  {
    if n >= 16 {
      HexDigitsOfPrint(n / 16);
      HexDigitsNext(PrintHex(n / 16), 0, n % 16);
    }
  }

  /** Reading undoes printing in hexadecimal too, for every number the machine can hold. */
  lemma ReadPrintHex(n: nat, lim: nat)
    requires n < lim
    ensures Strtoul(PrintHex(n), lim) == n
  {
    HexDigitsOfPrint(n);
    hide HexDigits;
    var s := PrintHex(n);
    assert IsHex(s[0]);
    assert SkipSpace(s) == s && SkipPrefix(s) == s;
  }

  /** The digits are worth their place in the list, in either case. */
  lemma DigitValues(d: nat)
    requires d < 16
    ensures d < 10 ==> IsDigit("0123456789"[d]) && Digit("0123456789"[d]) == d
    ensures IsHex("0123456789abcdef"[d]) && HexDigit("0123456789abcdef"[d]) == d
    ensures IsHex("0123456789ABCDEF"[d]) && HexDigit("0123456789ABCDEF"[d]) == d
  {
  }

  /** The first digit that is printed counts the most. */
  lemma DigitsWeigh(n: nat)
    ensures n >= 10 ==> PrintNat(n) == PrintNat(n / 10) + PrintNat(n % 10)
    ensures n >= 16 ==> PrintHex(n) == PrintHex(n / 16) + PrintHex(n % 16)
    ensures n < 10 ==> PrintNat(n) == ["0123456789"[n]]
    ensures n < 16 ==> PrintHex(n) == ["0123456789abcdef"[n]]
  {
  }

  /** What is read of some text: blanks and a sign go, and reading stops where the digits do. */
  lemma SomeNumbers()
    ensures Strtoll(" \t-12x3") == -12 && Strtoll("+7") == 7 && Strtoll("x7") == 0 && Strtoll("") == 0
    ensures Strtoul("1A;x", 0x1_0000_0000) == 26 && Strtoul(" 0x1f", 0x1_0000_0000) == 31
  {
    ReadMinusTwelve();
    ReadHexes();
  }

  lemma ReadMinusTwelve()
    ensures Strtoll(" \t-12x3") == -12 && Strtoll("+7") == 7 && Strtoll("x7") == 0 && Strtoll("") == 0
  {
  }

  lemma ReadHexes()
    ensures Strtoul("1A;x", 0x1_0000_0000) == 26 && Strtoul(" 0x1f", 0x1_0000_0000) == 31
  {
    assert "1f"[1..] == "f" && "f"[1..] == "";
    assert " 0x1f"[1..] == "0x1f" && "0x1f"[2..] == "1f";
    assert SkipSpace(" 0x1f") == "0x1f" && SkipPrefix("0x1f") == "1f";
    assert HexDigits("1f", 0) == 31;
  }
}

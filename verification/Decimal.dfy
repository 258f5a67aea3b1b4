/** Decimal notation as `std::to_string` writes it and `std::stoi` reads it, and the keys built from it. */
module Decimal {
  import opened Wrappers

  function Digit(d: nat): (c: char)
    requires d < 10
    ensures '0' <= c <= '9' && Value(c) == d
  {
    d as char + '0'
  }

  predicate IsDigit(c: char) {
    '0' <= c <= '9'
  }

  function Value(c: char): nat
    requires IsDigit(c)
  {
    (c - '0') as nat
  }

  function PrintNat(n: nat): (s: string)
    ensures s != [] && forall c <- s :: IsDigit(c)
  {
    if n < 10 then [Digit(n)] else PrintNat(n / 10) + [Digit(n % 10)]
  }

  function Print(n: int): (s: string)
    ensures s != []
  {
    if n < 0 then "-" + PrintNat(-n) else PrintNat(n)
  }

  /** The number a string of digits stands for, continuing from the digits read so far. */
  function ReadFrom(s: string, sofar: nat): nat
    requires forall c <- s :: IsDigit(c)
  {
    if s == [] then sofar else ReadFrom(s[1..], sofar * 10 + Value(s[0]))
  }

  lemma {:induction false} ReadAppended(s: string, c: char, sofar: nat)
    requires forall d <- s + [c] :: IsDigit(d)
    ensures (forall d <- s :: IsDigit(d)) && IsDigit(c)
    ensures ReadFrom(s + [c], sofar) == ReadFrom(s, sofar) * 10 + Value(c)
  {
    assert forall d <- s :: d in s + [c];
    assert c in s + [c];
    if s == [] {
      assert s + [c] == [c] && [c][1..] == [];
    } else {
      assert (s + [c])[1..] == s[1..] + [c];
      assert forall d <- s[1..] + [c] :: d in s + [c];
      ReadAppended(s[1..], c, sofar * 10 + Value(s[0]));
    }
  }

  lemma {:induction false} ReadPrinted(n: nat)
    ensures ReadFrom(PrintNat(n), 0) == n
  {
    if n >= 10 {
      ReadPrinted(n / 10);
      assert forall c <- PrintNat(n / 10) + [Digit(n % 10)] :: IsDigit(c);
      ReadAppended(PrintNat(n / 10), Digit(n % 10), 0);
    } else {
      assert [Digit(n)][1..] == [];
    }
  }

  // ---- std::stoi ----

  predicate IsSpace(c: char) {
    c == ' ' || '\t' <= c <= '\r'
  }

  function SkipSpace(s: string): string {
    if s != [] && IsSpace(s[0]) then SkipSpace(s[1..]) else s
  }

  /** The digits a string starts with. */
  function LeadingDigits(s: string): (r: string)
    ensures |r| <= |s| && forall c <- r :: IsDigit(c)
  {
    if s != [] && IsDigit(s[0]) then [s[0]] + LeadingDigits(s[1..]) else []
  }

  /** White space, a sign, then digits; what follows is ignored. Nothing where the code sees an exception. */
  function Stoi(s: string): Option<int> {
    var t := SkipSpace(s);
    var negative := t != [] && t[0] == '-';
    var digits := LeadingDigits(if t != [] && t[0] in {'-', '+'} then t[1..] else t);
    if digits == [] then None
    else
      var n := if negative then 0 - ReadFrom(digits, 0) else ReadFrom(digits, 0);
      if -0x8000_0000 <= n < 0x8000_0000 then Some(n) else None
  }

  lemma {:induction false} DigitsAreLeading(s: string)
    requires forall c <- s :: IsDigit(c)
    ensures LeadingDigits(s) == s
  {
    if s == [] {
    } else {
      assert forall c <- s[1..] :: c in s;
      DigitsAreLeading(s[1..]);
    }
  }

  /** Reading is the inverse of printing over the whole range of the result. */
  lemma StoiOfPrinted(n: int)
    ensures Stoi(Print(n)) == if -0x8000_0000 <= n < 0x8000_0000 then Some(n) else None
  {
    var m := if n < 0 then -n else n;
    var digits := PrintNat(m);
    assert digits[0] in digits;
    DigitsAreLeading(digits);
    ReadPrinted(m);
    if n < 0 {
      assert Print(n)[1..] == digits;
    }
  }

  /** White space before a number is skipped. */
  lemma StoiSkipsSpace(c: char, s: string)
    requires c == ' ' || 9 <= c as int <= 13
    ensures Stoi([c] + s) == Stoi(s)
  {
    assert ([c] + s)[1..] == s;
  }

  lemma {:induction false} DigitsEnd(s: string, rest: string)
    requires (forall c <- s :: IsDigit(c)) && (rest == [] || !IsDigit(rest[0]))
    ensures LeadingDigits(s + rest) == s
    decreases |s|
  {
    if s == [] {
      assert s + rest == rest;
    } else {
      assert (s + rest)[1..] == s[1..] + rest;
      assert forall c <- s[1..] :: c in s;
      DigitsEnd(s[1..], rest);
    }
  }

  /** What follows a number is ignored. */
  lemma StoiIgnoresRest(n: nat, rest: string)
    requires n < 0x8000_0000 && (rest == [] || !IsDigit(rest[0]))
    ensures Stoi(PrintNat(n) + rest) == Some(n)
  {
    assert PrintNat(n)[0] in PrintNat(n);
    assert (PrintNat(n) + rest)[0] == PrintNat(n)[0];
    DigitsEnd(PrintNat(n), rest);
    ReadPrinted(n);
  }

  lemma PrintIsInjective(n: int, m: int)
    requires Print(n) == Print(m)
    ensures n == m
  {
    var a := PrintNat(if n < 0 then -n else n);
    var b := PrintNat(if m < 0 then -m else m);
    assert a[0] in a && b[0] in b;
    if n < 0 {
      assert Print(n)[0] == '-' && Print(n)[1..] == a && Print(m)[1..] == b;
    }
    ReadPrinted(if n < 0 then -n else n);
    ReadPrinted(if m < 0 then -m else m);
  }

  // ---- UE context keys ----

  const RAN_PART := "app_ue_ranid_"
  const AMF_PART := ":amfid_"

  function UeContextKey(ran: nat, amf: int): string {
    RAN_PART + PrintNat(ran) + AMF_PART + Print(amf)
  }

  lemma StartsWithDigit(a: string, b: string)
    requires (forall c <- a :: IsDigit(c)) && b != [] && !IsDigit(b[0])
    ensures IsDigit((a + b)[0]) <==> a != []
  {
    if a != [] {
      assert (a + b)[0] in a;
    }
  }

  lemma {:induction false} SameDigits(a: string, a': string, b: string, b': string)
    requires (forall c <- a :: IsDigit(c)) && (forall c <- a' :: IsDigit(c))
    requires b != [] && b' != [] && !IsDigit(b[0]) && !IsDigit(b'[0])
    requires a + b == a' + b'
    ensures a == a' && b == b'
  {
    StartsWithDigit(a, b);
    StartsWithDigit(a', b');
    if a == [] {
      assert a + b == b && a' + b' == b';
    } else {
      assert (a + b)[0] == a[0] && (a' + b')[0] == a'[0];
      assert (a + b)[1..] == a[1..] + b && (a' + b')[1..] == a'[1..] + b';
      assert (forall c <- a[1..] :: c in a) && (forall c <- a'[1..] :: c in a');
      SameDigits(a[1..], a'[1..], b, b');
    }
  }

  /** Two UEs have the same key exactly when they have the same pair of ids. */
  lemma KeysAreInjective(ran: nat, amf: int, ran': nat, amf': int)
    ensures UeContextKey(ran, amf) == UeContextKey(ran', amf') <==> ran == ran' && amf == amf'
  {
    if UeContextKey(ran, amf) == UeContextKey(ran', amf') {
      SameKeySameIds(ran, amf, ran', amf');
    }
  }

  lemma AfterPrefix(prefix: string, a: string, b: string)
    requires prefix + a == prefix + b
    ensures a == b
  {
    assert (prefix + a)[|prefix|..] == a && (prefix + b)[|prefix|..] == b;
  }

  lemma SameParts(prefix: string, infix: string, a: string, b: string, a': string, b': string)
    requires (forall c <- a :: IsDigit(c)) && (forall c <- a' :: IsDigit(c)) && infix != [] && !IsDigit(infix[0])
    requires prefix + a + infix + b == prefix + a' + infix + b'
    ensures a == a' && b == b'
  {
    assert prefix + a + infix + b == prefix + (a + (infix + b));
    assert prefix + a' + infix + b' == prefix + (a' + (infix + b'));
    AfterPrefix(prefix, a + (infix + b), a' + (infix + b'));
    SameDigits(a, a', infix + b, infix + b');
    AfterPrefix(infix, b, b');
  }

  lemma SameKeySameIds(ran: nat, amf: int, ran': nat, amf': int)
    requires UeContextKey(ran, amf) == UeContextKey(ran', amf')
    ensures ran == ran' && amf == amf'
  {
    SameParts(RAN_PART, AMF_PART, PrintNat(ran), Print(amf), PrintNat(ran'), Print(amf'));
    PrintIsInjective(amf, amf');
    ReadPrinted(ran);
    ReadPrinted(ran');
  }
}

/** The string operations of the Rust standard library that the HTTP reader and
    the endpoint parser rest on. */
module Strings {
  import opened Options

  // ---------------------------------------------------------------- searching

  function Find(s: string, c: char): (r: Option<nat>)
    ensures r.Some? ==> r.value < |s| && s[r.value] == c && c !in s[..r.value]
    ensures r.None? ==> c !in s
  {
    if s == [] then None
    else if s[0] == c then Some(0)
    else
      match Find(s[1..], c)
      case None => None
      case Some(i) => Some(i + 1)
  }

  lemma {:induction false} FindAfter(a: string, c: char, b: string)
    requires c !in a
    ensures Find(a + [c] + b, c) == Some(|a|)
  {
    if a == [] {
      assert (a + [c] + b)[0] == c;
    } else {
      assert (a + [c] + b)[1..] == a[1..] + [c] + b;
      FindAfter(a[1..], c, b);
    }
  }

  function RFind(s: string, c: char): (r: Option<nat>)
    ensures r.Some? ==> r.value < |s| && s[r.value] == c && c !in s[r.value + 1..]
    ensures r.None? ==> c !in s
  {
    if s == [] then None
    else
      var last := |s| - 1;
      if s[last] == c then Some(last) else RFind(s[..last], c)
  }

  /** `str::split` on one character: always at least one piece. */
  function Split(s: string, c: char): (pieces: seq<string>)
    ensures |pieces| > 0
  {
    match Find(s, c)
    case None => [s]
    case Some(i) => [s[..i]] + Split(s[i + 1..], c)
  }

  // ---------------------------------------------------------------- white space

  /** The White_Space property of Unicode. */
  predicate IsSpace(c: char) {
    var u := c as int;
    || 0x09 <= u <= 0x0D || u == 0x20 || u == 0x85 || u == 0xA0 || u == 0x1680 || 0x2000 <= u <= 0x200A
    || u == 0x2028 || u == 0x2029 || u == 0x202F || u == 0x205F || u == 0x3000
  }

  function TrimStart(s: string): string {
    if s != [] && IsSpace(s[0]) then TrimStart(s[1..]) else s
  }

  function TrimEnd(s: string): string {
    if s != [] && IsSpace(s[|s| - 1]) then TrimEnd(s[..|s| - 1]) else s
  }

  function Trim(s: string): string {
    TrimEnd(TrimStart(s))
  }

  predicate Blank(s: string) {
    forall c <- s :: IsSpace(c)
  }

  lemma TrimKeeps(s: string, c: char)
    requires c in s && !IsSpace(c)
    ensures c in Trim(s)
  {
    TrimStartKeeps(s, c);
    TrimEndKeeps(TrimStart(s), c);
  }

  lemma {:induction false} TrimStartKeeps(s: string, c: char)
    requires c in s && !IsSpace(c)
    ensures c in TrimStart(s)
  {
    hide IsSpace;
    if IsSpace(s[0]) {
      TrimStartKeeps(s[1..], c);
    }
  }

  lemma {:induction false} TrimEndKeeps(s: string, c: char)
    requires c in s && !IsSpace(c)
    ensures c in TrimEnd(s)
  {
    hide IsSpace;
    if IsSpace(s[|s| - 1]) {
      TrimEndKeeps(s[..|s| - 1], c);
    }
  }

  lemma {:induction false} BlankTrimStart(s: string)
    requires Blank(s)
    ensures TrimStart(s) == ""
  {
    hide IsSpace;
    if s != "" {
      assert s[0] in s;
      BlankTrimStart(s[1..]);
    }
  }

  /** Trimming leaves nothing exactly when there is nothing but white space. */
  lemma NothingLeftExactlyWhen(s: string)
    ensures Trim(s) == "" <==> Blank(s)
  {
    hide IsSpace;
    if Blank(s) {
      BlankTrimStart(s);
    } else {
      var c :| c in s && !IsSpace(c);
      TrimKeeps(s, c);
    }
  }

  // ---------------------------------------------------------------- numbers

  function Digit(c: char): nat {
    if '0' <= c <= '9' then c as int - '0' as int
    else if 'a' <= c <= 'f' then c as int - 'a' as int + 10
    else if 'A' <= c <= 'F' then c as int - 'A' as int + 10
    else 16
  }

  predicate AllDigits(s: string, radix: nat) {
    forall c <- s :: Digit(c) < radix
  }

  /** The number a row of digits denotes. */
  function Number(s: string, radix: nat): nat {
    if s == [] then 0 else Number(s[..|s| - 1], radix) * radix + Digit(s[|s| - 1])
  }

  /** `from_str_radix` of an unsigned type whose largest value is `max`. */
  function ParseUnsigned(s: string, radix: nat, max: nat): Option<nat> {
    var digits := if s != [] && s[0] == '+' then s[1..] else s;
    if digits != [] && AllDigits(digits, radix) && Number(digits, radix) <= max then Some(Number(digits, radix))
    else None
  }

  function DigitChar(d: nat): (c: char)
    requires d < 16
    ensures Digit(c) == d && c != ':' && c != '+' && c != 'x'
  {
    if d < 10 then '0' + d as char else 'a' + (d - 10) as char
  }

  /** Lower-case digits without leading zeros. */
  function Digits(n: nat, radix: nat): (s: string)
    requires 2 <= radix <= 16
    ensures s != []
  {
    if n < radix then [DigitChar(n)] else Digits(n / radix, radix) + [DigitChar(n % radix)]
  }

  lemma OneMoreDigit(init: string, d: nat, radix: nat)
    requires d < radix <= 16 && AllDigits(init, radix)
    ensures AllDigits(init + [DigitChar(d)], radix)
    ensures Number(init + [DigitChar(d)], radix) == Number(init, radix) * radix + d
  {
  }

  predicate Plain(s: string) {
    forall c <- s :: c != ':' && c != '+' && c != 'x'
  }

  lemma Quotient(n: nat, radix: nat)
    requires 2 <= radix <= n
    ensures n / radix < n && n / radix * radix + n % radix == n
  {
  }

  lemma {:induction false} DigitsRoundTrip(n: nat, radix: nat)
    requires 2 <= radix <= 16
    ensures AllDigits(Digits(n, radix), radix) && Number(Digits(n, radix), radix) == n && Plain(Digits(n, radix))
  {
    hide DigitChar, Digit, Number, AllDigits;
    if n < radix {
      NoDigits(radix);
      OneMoreDigit([], n, radix);
      assert [] + [DigitChar(n)] == [DigitChar(n)];
    } else {
      Quotient(n, radix);
      DigitsRoundTrip(n / radix, radix);
      OneMoreDigit(Digits(n / radix, radix), n % radix, radix);
    }
  }

  /** A printed number is read back, with or without a plus sign, exactly up to the
      largest value of the type. */
  lemma ReadBackExactlyUpTo(n: nat, radix: nat, max: nat)
    requires 2 <= radix <= 16
    ensures ParseUnsigned(Digits(n, radix), radix, max) == (if n <= max then Some(n) else None)
    ensures ParseUnsigned("+" + Digits(n, radix), radix, max) == (if n <= max then Some(n) else None)
  {
    hide Digits, Number, AllDigits;
    var text := Digits(n, radix);
    DigitsRoundTrip(n, radix);
    assert text[0] in text;
    assert ("+" + text)[1..] == text;
  }

  /** Nothing else is a number: not the empty text, and no text with a character that is
      neither a digit nor a plus sign. */
  lemma OtherTextIsNoNumber(s: string, radix: nat, max: nat, c: char)
    ensures s == "" || s == "+" ==> ParseUnsigned(s, radix, max) == None
    ensures c in s && c != '+' && Digit(c) >= radix ==> ParseUnsigned(s, radix, max) == None
  {
    hide Number, Digit;
  }

  /** Hexadecimal digits are printed in lower case. */
  lemma {:induction false} LowerCase(n: nat)
    ensures forall c <- Digits(n, 16) :: '0' <= c <= '9' || 'a' <= c <= 'f'
  {
    if n >= 16 {
      LowerCase(n / 16);
    }
  }

  lemma NoDigits(radix: nat)
    ensures AllDigits([], radix) && Number([], radix) == 0
  {
  }

  /** Zeros in front, up to `width` characters. */
  function Pad(s: string, width: nat): (r: string)
    ensures |r| == if |s| < width then width else |s|
    decreases width - |s|
  {
    if |s| < width then Pad(['0'] + s, width) else s
  }
}

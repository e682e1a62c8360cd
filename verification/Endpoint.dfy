/** Endpoint addresses of printers: the parser and the printer of
    src/printers.rs. */
module Endpoint {
  import opened Options
  import opened Strings

  datatype Transport =
    | File(path: string)
    | Tcp(address: string, statusMode: Option<string>, statusAddress: Option<string>)
    | Serial(path: string, baud: nat)
    | Usb(device: Option<string>, vid: Option<nat>, pid: Option<nat>,
          iface: Option<nat>, output: Option<nat>, input: Option<nat>)
    | Ble(address: string)
    | Rfcomm(address: string, channel: nat)
    | Ipp(uri: string, certificate: Option<string>)

  const DEFAULT_BAUD := 115_200
  const DEFAULT_CHANNEL := 1
  const U8_MAX := 0xFF
  const U16_MAX := 0xFFFF

  // ---------------------------------------------------------------- the parser

  /** Nothing but white space. */
  predicate IsBlank(s: string)
    ensures IsBlank(s) <==> Blank(s)
  {
    NothingLeftExactlyWhen(s);
    Trim(s) == ""
  }

  /** `trim_start_matches("0x")`. */
  function TrimZeroX(s: string): string {
    if "0x" <= s then TrimZeroX(s[2..]) else s
  }

  function Hex(s: string, max: nat): Option<nat> {
    match ParseUnsigned(TrimZeroX(s), 16, U16_MAX)
    case None => None
    case Some(n) => if n <= max then Some(n) else None
  }

  function ParseUsb(spec: string): Option<Transport> {
    var parts := Split(spec, ':');
    if !(4 <= |parts| <= 5) then None else
    var vid, pid := Hex(parts[0], U16_MAX), Hex(parts[1], U16_MAX);
    var iface, output := Hex(parts[2], U8_MAX), Hex(parts[3], U8_MAX);
    if vid.None? || pid.None? || iface.None? || output.None? then None
    else if |parts| == 4 then Some(Usb(None, vid, pid, iface, output, None))
    else if Hex(parts[4], U8_MAX).None? then None
    else Some(Usb(None, vid, pid, iface, output, Hex(parts[4], U8_MAX)))
  }

  /** The address and the channel after the last colon, if that is a channel. */
  function ParseRfcomm(spec: string): Option<Transport> {
    var whole := if IsBlank(spec) then None else Some(Rfcomm(spec, DEFAULT_CHANNEL));
    match RFind(spec, ':')
    case None => whole
    case Some(i) =>
      match ParseUnsigned(spec[i + 1..], 10, U8_MAX)
      case None => whole
      case Some(channel) => if IsBlank(spec[..i]) then None else Some(Rfcomm(spec[..i], channel))
  }

  function Parse(s: string): Option<Transport> {
    if "file:" <= s then if IsBlank(s[5..]) then None else Some(File(s[5..]))
    else if "tcp://" <= s then if IsBlank(s[6..]) then None else Some(Tcp(s[6..], None, None))
    else if "serial:" <= s then if IsBlank(s[7..]) then None else Some(Serial(s[7..], DEFAULT_BAUD))
    else if "ipp://" <= s || "ipps://" <= s then Some(Ipp(s, None))
    else if "ble:" <= s then if IsBlank(s[4..]) then None else Some(Ble(s[4..]))
    else if "rfcomm:" <= s then ParseRfcomm(s[7..])
    else if "usb-device:" <= s then
      if IsBlank(s[11..]) then None else Some(Usb(Some(s), None, None, None, None, None))
    else if "usb:" <= s then ParseUsb(s[4..])
    else None
  }

  // ---------------------------------------------------------------- the printer

  function HexText(n: nat, width: nat): string {
    Pad(Digits(n, 16), width)
  }

  function Uri(t: Transport): string {
    match t
    case File(path) => "file:" + path
    case Tcp(address, _, _) => "tcp://" + address
    case Serial(path, _) => "serial:" + path
    case Usb(Some(device), _, _, _, _, _) => device
    case Usb(None, Some(vid), Some(pid), Some(iface), Some(output), input) =>
      "usb:" + HexText(vid, 4) + ":" + HexText(pid, 4) + ":" + HexText(iface, 2) + ":" + HexText(output, 2) +
      (match input case None => "" case Some(n) => ":" + HexText(n, 2))
    case Usb(_, _, _, _, _, _) => "usb:incomplete"
    case Ble(address) => "ble:" + address
    case Rfcomm(address, channel) => "rfcomm:" + address + ":" + Digits(channel, 10)
    case Ipp(uri, _) => uri
  }

  /** The transports that an address alone describes. */
  predicate Canonical(t: Transport) {
    match t
    case File(path) => !IsBlank(path)
    case Tcp(address, mode, status) => !IsBlank(address) && mode == None && status == None
    case Serial(path, baud) => !IsBlank(path) && baud == 115_200
    case Usb(Some(device), vid, pid, iface, output, input) =>
      && "usb-device:" <= device && !IsBlank(device[11..])
      && vid == None && pid == None && iface == None && output == None && input == None
    case Usb(None, vid, pid, iface, output, input) =>
      && vid.Some? && vid.value <= U16_MAX && pid.Some? && pid.value <= U16_MAX
      && iface.Some? && iface.value <= U8_MAX && output.Some? && output.value <= U8_MAX
      && (input.Some? ==> input.value <= U8_MAX)
    case Ble(address) => !IsBlank(address)
    case Rfcomm(address, channel) => !IsBlank(address) && channel <= U8_MAX
    case Ipp(uri, certificate) => ("ipp://" <= uri || "ipps://" <= uri) && certificate == None
  }

  lemma UsbIsCanonical(spec: string)
    ensures ParseUsb(spec).Some? ==> ParseUsb(spec).value.Usb? && Canonical(ParseUsb(spec).value)
  {
    hide Split, ParseUnsigned, TrimZeroX, IsBlank;
  }

  lemma RfcommIsCanonical(spec: string)
    ensures ParseRfcomm(spec).Some? ==> ParseRfcomm(spec).value.Rfcomm? && Canonical(ParseRfcomm(spec).value)
  {
    hide RFind, IsBlank;
  }

  /** The parser yields nothing else. */
  lemma ParsedIsCanonical(s: string)
    ensures Parse(s).Some? ==> Canonical(Parse(s).value)
  {
    hide ParseUsb, ParseRfcomm, IsBlank;
    if "rfcomm:" <= s {
      RfcommIsCanonical(s[7..]);
    } else if "usb:" <= s {
      UsbIsCanonical(s[4..]);
    }
  }

  // ---------------------------------------------------------------- printed numbers

  lemma {:induction false} NumberOfZero(s: string, radix: nat)
    requires 2 <= radix && AllDigits(s, radix)
    ensures AllDigits(['0'] + s, radix) && Number(['0'] + s, radix) == Number(s, radix)
  {
    var t := ['0'] + s;
    if s == [] {
      assert t[..0] == [];
    } else {
      assert t[..|t| - 1] == ['0'] + s[..|s| - 1];
      NumberOfZero(s[..|s| - 1], radix);
    }
  }

  lemma {:induction false} PadKeepsNumber(s: string, width: nat, radix: nat)
    requires 2 <= radix && AllDigits(s, radix) && Plain(s)
    ensures AllDigits(Pad(s, width), radix) && Number(Pad(s, width), radix) == Number(s, radix)
    ensures Plain(Pad(s, width))
    decreases width - |s|
  {
    if |s| < width {
      NumberOfZero(s, radix);
      PadKeepsNumber(['0'] + s, width, radix);
    }
  }

  lemma HexTextIsPlain(n: nat, width: nat)
    ensures AllDigits(HexText(n, width), 16) && Number(HexText(n, width), 16) == n
    ensures Plain(HexText(n, width)) && HexText(n, width) != ""
  {
    hide Digits, Pad, Number, AllDigits;
    DigitsRoundTrip(n, 16);
    PadKeepsNumber(Digits(n, 16), width, 16);
  }

  lemma NoPrefix(text: string)
    requires 'x' !in text
    ensures TrimZeroX(text) == text
  {
    if |text| > 1 {
      assert text[1] in text;
    }
  }

  lemma HexRoundTrip(n: nat, width: nat, max: nat)
    requires n <= max <= U16_MAX
    ensures Hex(HexText(n, width), max) == Some(n) && Plain(HexText(n, width))
  {
    hide HexText, Number, AllDigits;
    HexTextIsPlain(n, width);
    var text := HexText(n, width);
    assert text[0] in text;
    NoPrefix(text);
  }

  lemma ChannelRoundTrip(channel: nat)
    requires channel <= U8_MAX
    ensures ParseUnsigned(Digits(channel, 10), 10, U8_MAX) == Some(channel) && Plain(Digits(channel, 10))
  {
    hide Digits, Number, AllDigits;
    DigitsRoundTrip(channel, 10);
    assert Digits(channel, 10)[0] in Digits(channel, 10);
  }

  // ---------------------------------------------------------------- printed pieces

  lemma SplitAfter(a: string, c: char, b: string)
    requires c !in a
    ensures Split(a + [c] + b, c) == [a] + Split(b, c)
  {
    var s := a + [c] + b;
    FindAfter(a, c, b);
    assert s[..|a|] == a && s[|a| + 1..] == b;
  }

  lemma SplitThrice(a: string, b: string, c: string, d: string, at: char)
    requires at !in a && at !in b && at !in c
    ensures Split(a + [at] + (b + [at] + (c + [at] + d)), at) == [a, b, c] + Split(d, at)
  {
    hide Split;
    SplitAfter(c, at, d);
    SplitAfter(b, at, c + [at] + d);
    SplitAfter(a, at, b + [at] + (c + [at] + d));
  }

  lemma SplitWhole(a: string, c: char)
    requires c !in a
    ensures Split(a, c) == [a]
  {
  }

  lemma {:induction false} RFindAfter(a: string, c: char, b: string)
    requires c !in b
    ensures RFind(a + [c] + b, c) == Some(|a|)
  {
    var s := a + [c] + b;
    if b == [] {
      assert s[|s| - 1] == c;
    } else {
      assert s[..|s| - 1] == a + [c] + b[..|b| - 1];
      RFindAfter(a, c, b[..|b| - 1]);
    }
  }

  // ---------------------------------------------------------------- canonical addresses

  lemma RfcommRoundTrip(address: string, channel: nat)
    requires !IsBlank(address) && channel <= U8_MAX
    ensures ParseRfcomm(address + ":" + Digits(channel, 10)) == Some(Rfcomm(address, channel))
  {
    hide Digits, ParseUnsigned;
    var text := Digits(channel, 10);
    ChannelRoundTrip(channel);
    RFindAfter(address, ':', text);
    var spec := address + ":" + text;
    assert spec[..|address|] == address && spec[|address| + 1..] == text;
  }

  lemma UsbRoundTrip(t: Transport)
    requires Canonical(t) && t.Usb? && t.device == None
    ensures "usb:" <= Uri(t) && ParseUsb(Uri(t)[4..]) == Some(t)
  {
    hide HexText, Hex, Split;
    var vid, pid := HexText(t.vid.value, 4), HexText(t.pid.value, 4);
    var iface, output := HexText(t.iface.value, 2), HexText(t.output.value, 2);
    HexRoundTrip(t.vid.value, 4, U16_MAX);
    HexRoundTrip(t.pid.value, 4, U16_MAX);
    HexRoundTrip(t.iface.value, 2, U8_MAX);
    HexRoundTrip(t.output.value, 2, U8_MAX);
    var spec := Uri(t)[4..];
    if t.input.None? {
      assert spec == vid + [':'] + (pid + [':'] + (iface + [':'] + output));
      SplitWhole(output, ':');
      SplitThrice(vid, pid, iface, output, ':');
    } else {
      var input := HexText(t.input.value, 2);
      HexRoundTrip(t.input.value, 2, U8_MAX);
      assert spec == vid + [':'] + (pid + [':'] + (iface + [':'] + (output + [':'] + input)));
      SplitWhole(input, ':');
      SplitAfter(output, ':', input);
      SplitThrice(vid, pid, iface, output + [':'] + input, ':');
    }
  }

  lemma AddressRoundTrip(t: Transport)
    requires Canonical(t) && (t.File? || t.Tcp? || t.Serial?)
    ensures Parse(Uri(t)) == Some(t)
  {
    hide ParseUsb, ParseRfcomm, IsBlank;
    match t
    case File(path) =>
      assert Uri(t)[5..] == path;
    case Tcp(address, _, _) =>
      assert Uri(t)[0] == 't' && Uri(t)[6..] == address;
    case Serial(path, _) =>
      assert Uri(t)[0] == 's' && Uri(t)[7..] == path;
  }

  lemma RadioRoundTrip(t: Transport)
    requires Canonical(t) && (t.Ble? || t.Rfcomm? || t.Ipp?)
    ensures Parse(Uri(t)) == Some(t)
  {
    hide ParseUsb, ParseRfcomm, IsBlank, Digits;
    match t
    case Ble(address) =>
      assert Uri(t)[0] == 'b' && Uri(t)[4..] == address;
    case Rfcomm(address, channel) =>
      assert Uri(t)[0] == 'r' && Uri(t)[7..] == address + ":" + Digits(channel, 10);
      RfcommRoundTrip(address, channel);
    case Ipp(uri, _) =>
      assert uri[0] == 'i';
  }

  lemma CableRoundTrip(t: Transport)
    requires Canonical(t) && t.Usb?
    ensures Parse(Uri(t)) == Some(t)
  {
    hide ParseUsb, IsBlank, HexText;
    assert Uri(t)[0] == 'u';
    if t.device.Some? {
      assert Uri(t)[3] == '-';
    } else {
      assert Uri(t)[3] == ':';
      UsbRoundTrip(t);
    }
  }

  /** A USB number is printed in lower case with zeros in front: four digits for a vendor
      or product, two for an interface or endpoint. */
  lemma PrintedInFull(n: nat)
    ensures n <= 0xFFFF ==> |HexText(n, 4)| == 4
    ensures n <= 0xFF ==> |HexText(n, 2)| == 2
    ensures forall c <- HexText(n, 4) + HexText(n, 2) :: '0' <= c <= '9' || 'a' <= c <= 'f'
  {
    hide Digits;
    LowerCase(n);
    PadIsLowerCase(Digits(n, 16), 4);
    PadIsLowerCase(Digits(n, 16), 2);
    FewDigits(n);
  }

  lemma {:induction false} PadIsLowerCase(s: string, width: nat)
    requires forall c <- s :: '0' <= c <= '9' || 'a' <= c <= 'f'
    ensures forall c <- Pad(s, width) :: '0' <= c <= '9' || 'a' <= c <= 'f'
    decreases width - |s|
  {
    if |s| < width {
      PadIsLowerCase(['0'] + s, width);
    }
  }

  lemma FewDigits(n: nat)
    ensures n <= 0xFF ==> |Digits(n, 16)| <= 2
    ensures n <= 0xFFFF ==> |Digits(n, 16)| <= 4
  {
    hide DigitChar;
    if n <= 0xFFFF {
      assert n / 16 <= 0xFFF && n / 16 / 16 <= 0xFF && n / 16 / 16 / 16 <= 0xF;
      assert |Digits(n / 16 / 16 / 16, 16)| == 1;
      assert |Digits(n / 16 / 16, 16)| <= 2;
      assert |Digits(n / 16, 16)| <= 3;
    }
    if n <= 0xFF {
      assert |Digits(n / 16, 16)| == 1;
    }
  }

  /** The same hexadecimal digits, some of them as capitals. */
  predicate SameDigits(a: string, b: string) {
    |a| == |b| && forall i :: 0 <= i < |a| ==> b[i] == a[i] || ('a' <= a[i] <= 'f' && b[i] as int + 32 == a[i] as int)
  }

  lemma SameDigit(a: char, b: char)
    requires b == a || ('a' <= a <= 'f' && b as int + 32 == a as int)
    ensures Digit(b) == Digit(a) && (a != 'x' ==> b != 'x') && (a != '+' ==> b != '+')
  {
  }

  lemma {:induction false} SameNumber(a: string, b: string)
    requires SameDigits(a, b)
    ensures Number(b, 16) == Number(a, 16)
  {
    hide Digit;
    if a != [] {
      var last := |a| - 1;
      SameDigit(a[last], b[last]);
      SameNumber(a[..last], b[..last]);
    }
  }

  lemma SameCharacters(a: string, b: string)
    requires SameDigits(a, b) && AllDigits(a, 16) && Plain(a)
    ensures AllDigits(b, 16) && 'x' !in b && '+' !in b
  {
    hide Digit;
    forall i | 0 <= i < |b| ensures Digit(b[i]) < 16 && b[i] != 'x' && b[i] != '+' {
      assert a[i] in a;
      SameDigit(a[i], b[i]);
    }
  }

  /** A USB number is read in capitals too, and with any number of `0x` in front. */
  lemma AnyHexFormIsRead(n: nat, width: nat, max: nat, text: string, prefixed: bool)
    requires n <= max <= U16_MAX && SameDigits(HexText(n, width), text)
    ensures Hex((if prefixed then "0x" else "") + text, max) == Some(n)
  {
    hide Digits, Digit, Number, AllDigits, HexText;
    HexTextIsPlain(n, width);
    SameNumber(HexText(n, width), text);
    SameCharacters(HexText(n, width), text);
    NoPrefix(text);
    assert ("0x" + text)[2..] == text && "" + text == text;
    assert text[0] in text;
  }

  /** An address whose last part is no channel is one address on the first channel. */
  lemma AddressWithoutChannel(address: string, part: string, c: char)
    requires ':' !in part && c in part && Digit(c) >= 10 && c != '+' && !IsBlank(address + ":" + part)
    ensures ParseRfcomm(address + ":" + part) == Some(Rfcomm(address + ":" + part, 1))
  {
    hide Digit, Number, IsBlank, ParseUnsigned;
    var spec := address + ":" + part;
    RFindAfter(address, ':', part);
    assert spec == address + [':'] + part && spec[|address| + 1..] == part;
    OtherTextIsNoNumber(part, 10, U8_MAX, c);
  }

  /** Printing and parsing gives a transport back exactly when it is canonical. */
  lemma RoundTripExactly(t: Transport)
    ensures Parse(Uri(t)) == Some(t) <==> Canonical(t)
  {
    hide Parse, Uri;
    ParsedIsCanonical(Uri(t));
    if Canonical(t) {
      match t
      case File(_) | Tcp(_, _, _) | Serial(_, _) => AddressRoundTrip(t);
      case Ble(_) | Rfcomm(_, _) | Ipp(_, _) => RadioRoundTrip(t);
      case Usb(_, _, _, _, _, _) => CableRoundTrip(t);
    }
  }

  /** Whatever the parser accepts, printing it and parsing again gives the same. */
  lemma ParseIsStable(s: string)
    ensures Parse(s).Some? ==> Parse(Uri(Parse(s).value)) == Parse(s)
  {
    hide Parse, Uri, Canonical;
    if Parse(s).Some? {
      ParsedIsCanonical(s);
      RoundTripExactly(Parse(s).value);
    }
  }
}

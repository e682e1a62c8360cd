/** The IPP codec of src/device.rs: the attribute parser, the attribute printer
    and the two requests the service sends.  Wire forms: sections 3.1.4 and 3.1.5
    of RFC 8010; delimiter tags: section 3.5.1.

    A text is its bytes.  `lossy` stands for `String::from_utf8_lossy`. */
module Ipp {
  import opened Options

  type Byte = x: int | 0 <= x < 256
  type Bytes = seq<Byte>

  datatype Value = Integer(n: int) | Text(text: string)

  type Attributes = map<string, seq<Value>>

  /** One element of an attribute group as it stands on the wire: the start of a
      group, or a value with the name it carries (empty for an additional value). */
  datatype Element =
    | Delimiter(group: Byte)
    | Entry(tag: Byte, name: Bytes, raw: Bytes)

  const HEADER := 8
  const END_OF_ATTRIBUTES: Byte := 3

  // ---------------------------------------------------------------- numbers

  function U16(n: nat): (bytes: Bytes)
    ensures |bytes| == 2
  {
    [n / 0x100 % 0x100, n % 0x100]
  }

  function ReadU16(high: Byte, low: Byte): nat {
    high as int * 0x100 + low as int
  }

  function I32(n: int): (bytes: Bytes)
    ensures |bytes| == 4
  {
    var u := n % 0x1_0000_0000;
    var high := u / 0x1_0000;
    U16(high) + U16(u % 0x1_0000)
  }

  function ReadI32(raw: Bytes): int
    requires |raw| == 4
  {
    var u := ReadU16(raw[0], raw[1]) * 0x1_0000 + ReadU16(raw[2], raw[3]);
    if u < 0x8000_0000 then u else u - 0x1_0000_0000
  }

  lemma U16RoundTrip(n: nat)
    requires n < 0x1_0000
    ensures ReadU16(U16(n)[0], U16(n)[1]) == n
  {
  }

  lemma I32RoundTrip(n: int)
    requires -0x8000_0000 <= n < 0x8000_0000
    ensures ReadI32(I32(n)) == n
  {
    hide U16, ReadU16;
    var u := n % 0x1_0000_0000;
    U16RoundTrip(u / 0x1_0000);
    U16RoundTrip(u % 0x1_0000);
  }

  // ---------------------------------------------------------------- reading the wire

  predicate IsDelimiter(tag: Byte) {
    1 <= tag <= 5
  }

  /** What follows the eight bytes of version, operation and request id. */
  function AfterHeader(data: Bytes): Bytes {
    if |data| < HEADER then [] else data[HEADER..]
  }

  /** The complete elements at the front of `data`, up to the end tag, the end of
      the data or the first truncated element. */
  function Scan(data: Bytes): seq<Element> {
    if data == [] || data[0] == END_OF_ATTRIBUTES then []
    else if IsDelimiter(data[0]) then [Delimiter(data[0])] + Scan(data[1..])
    else
      match ReadEntry(data)
      case None => []
      case Some(entry) => [entry] + Scan(data[Size(entry)..])
  }

  /** The number of bytes an element takes. */
  function Size(e: Element): nat {
    match e
    case Delimiter(_) => 1
    case Entry(_, name, raw) => 5 + |name| + |raw|
  }

  function ReadEntry(data: Bytes): (r: Option<Element>)
    requires data != []
    ensures r.Some? ==> r.value.Entry? && Size(r.value) <= |data|
  {
    if |data| < 3 then None else
    var nameLength := ReadU16(data[1], data[2]);
    if 5 + nameLength > |data| then None else
    var start := 5 + nameLength;
    var valueLength := ReadU16(data[start - 2], data[start - 1]);
    if start + valueLength > |data| then None else
    Some(Entry(data[0], data[3..start - 2], data[start..start + valueLength]))
  }

  /** What a value means to the parser, or nothing when its tag is not understood. */
  function Decode(tag: Byte, raw: Bytes, lossy: Bytes -> string): Option<Value> {
    if tag in {0x21, 0x23} && |raw| == 4 then Some(Integer(ReadI32(raw)))
    else if tag in {0x41, 0x42} || 0x44 <= tag <= 0x49 then Some(Text(lossy(raw)))
    else None
  }

  lemma TwoBytes(high: Byte, low: Byte)
    ensures U16(ReadU16(high, low)) == [high, low] && ReadU16(high, low) < 0x1_0000
  {
  }

  lemma Halves(high: nat, low: nat, n: int)
    requires high < 0x1_0000 && low < 0x1_0000
    requires n == high * 0x1_0000 + low || n == high * 0x1_0000 + low - 0x1_0000_0000
    ensures I32(n) == U16(high) + U16(low)
  {
    hide U16;
    var u := high * 0x1_0000 + low;
    assert n % 0x1_0000_0000 == u;
    assert u / 0x1_0000 == high && u % 0x1_0000 == low;
  }

  lemma FourBytes(raw: Bytes)
    requires |raw| == 4
    ensures I32(ReadI32(raw)) == raw && -0x8000_0000 <= ReadI32(raw) < 0x8000_0000
  {
    hide U16, ReadU16, I32;
    TwoBytes(raw[0], raw[1]);
    TwoBytes(raw[2], raw[3]);
    Halves(ReadU16(raw[0], raw[1]), ReadU16(raw[2], raw[3]), ReadI32(raw));
    assert [raw[0], raw[1]] + [raw[2], raw[3]] == raw;
  }

  /** An integer or an enum of four bytes is that signed number; texts without language,
      names, keywords, URIs, schemes, charsets, languages and media types are texts;
      a value of any other kind or size is passed over (section 3.5.2 of RFC 8010). */
  lemma UnderstoodExactlyWhen(tag: Byte, raw: Bytes, n: int, lossy: Bytes -> string)
    requires -0x8000_0000 <= n < 0x8000_0000
    ensures Decode(tag, raw, lossy) == Some(Integer(n)) <==> (tag == 0x21 || tag == 0x23) && raw == I32(n)
    ensures Decode(tag, raw, lossy) == Some(Text(lossy(raw))) <==> tag in {0x41, 0x42, 0x44, 0x45, 0x46, 0x47, 0x48, 0x49}
    ensures Decode(tag, raw, lossy).None? <==>
            tag !in {0x41, 0x42, 0x44, 0x45, 0x46, 0x47, 0x48, 0x49} && !(tag in {0x21, 0x23} && |raw| == 4)
  {
    hide I32, ReadI32;
    I32RoundTrip(n);
    if |raw| == 4 {
      FourBytes(raw);
    }
  }

  // ---------------------------------------------------------------- meaning of a list of elements

  /** The name a value belongs to: the last non-empty name before the end. */
  function NameInEffect(elements: seq<Element>, lossy: Bytes -> string): Option<string> {
    if elements == [] then None else
    var last := elements[|elements| - 1];
    if last.Entry? && last.name != [] then Some(lossy(last.name))
    else NameInEffect(elements[..|elements| - 1], lossy)
  }

  /** The values that belong to `name`, in wire order. */
  function ValuesOf(elements: seq<Element>, name: string, lossy: Bytes -> string): seq<Value> {
    if elements == [] then [] else
    var last := elements[|elements| - 1];
    var before := ValuesOf(elements[..|elements| - 1], name, lossy);
    if last.Delimiter? || NameInEffect(elements, lossy) != Some(name) then before else
    match Decode(last.tag, last.raw, lossy)
    case None => before
    case Some(value) => before + [value]
  }

  /** `attributes` lists exactly the names with a value, each with all its values. */
  ghost predicate Groups(attributes: Attributes, elements: seq<Element>, lossy: Bytes -> string) {
    forall name: string ::
      && (name in attributes <==> ValuesOf(elements, name, lossy) != [])
      && (name in attributes ==> attributes[name] == ValuesOf(elements, name, lossy))
  }

  /** Two lists of elements say the same about every name. */
  ghost predicate SameMeaning(x: seq<Element>, y: seq<Element>, lossy: Bytes -> string) {
    forall name: string :: ValuesOf(x, name, lossy) == ValuesOf(y, name, lossy)
  }

  /** The attribute maps of two lists are equal exactly when the lists say the same. */
  lemma SameMapExactlyWhen(a: Attributes, x: seq<Element>, b: Attributes, y: seq<Element>, lossy: Bytes -> string)
    requires Groups(a, x, lossy) && Groups(b, y, lossy)
    ensures a == b <==> SameMeaning(x, y, lossy)
  {
    if SameMeaning(x, y, lossy) {
      assert forall name: string :: name in a <==> name in b;
    }
  }

  // ---------------------------------------------------------------- the parser

  /** `result.entry(name).or_insert_with(Vec::new).push(value)`. */
  function Push(attributes: Attributes, name: string, value: Value): Attributes {
    attributes[name := (if name in attributes then attributes[name] else []) + [value]]
  }

  lemma NothingGrouped(lossy: Bytes -> string)
    ensures Groups(map[], [], lossy) && NameInEffect([], lossy) == None
  {
  }

  lemma DelimiterAddsNothing(attributes: Attributes, seen: seq<Element>, group: Byte, lossy: Bytes -> string)
    requires Groups(attributes, seen, lossy)
    ensures Groups(attributes, seen + [Delimiter(group)], lossy)
    ensures NameInEffect(seen + [Delimiter(group)], lossy) == NameInEffect(seen, lossy)
  {
  }

  lemma EntryAdds(attributes: Attributes, seen: seq<Element>, e: Element, lossy: Bytes -> string)
    requires Groups(attributes, seen, lossy) && e.Entry?
    ensures NameInEffect(seen + [e], lossy) ==
            if e.name != [] then Some(lossy(e.name)) else NameInEffect(seen, lossy)
    ensures var name := NameInEffect(seen + [e], lossy);
            var value := Decode(e.tag, e.raw, lossy);
            Groups(if name.Some? && value.Some? then Push(attributes, name.value, value.value) else attributes,
                   seen + [e], lossy)
  {
  }

  lemma NothingLeft(seen: seq<Element>)
    ensures Scan([]) == [] && seen + Scan([]) == seen
  {
  }

  lemma ScanUnfolds(data: Bytes, seen: seq<Element>)
    requires data != []
    ensures var scanned := seen + Scan(data);
            if data[0] == END_OF_ATTRIBUTES then scanned == seen
            else if IsDelimiter(data[0]) then scanned == seen + [Delimiter(data[0])] + Scan(data[1..])
            else
              match ReadEntry(data)
              case None => scanned == seen
              case Some(e) => scanned == seen + [e] + Scan(data[Size(e)..])
  {
    hide ReadEntry;
    if data[0] != END_OF_ATTRIBUTES {
      if IsDelimiter(data[0]) {
        Associates(seen, Delimiter(data[0]), Scan(data[1..]));
      } else if ReadEntry(data).Some? {
        Associates(seen, ReadEntry(data).value, Scan(data[Size(ReadEntry(data).value)..]));
      }
    }
  }

  lemma Associates(seen: seq<Element>, e: Element, rest: seq<Element>)
    ensures seen + ([e] + rest) == seen + [e] + rest
  {
  }

  /** When the element at the front of the data is complete, and what it is. */
  lemma EntryAtFront(tail: Bytes)
    requires tail != []
    ensures |tail| < 3 ==> ReadEntry(tail) == None
    ensures |tail| >= 3 ==>
              var start := 5 + ReadU16(tail[1], tail[2]);
              && (start > |tail| ==> ReadEntry(tail) == None)
              && (start <= |tail| ==>
                    var end := start + ReadU16(tail[start - 2], tail[start - 1]);
                    ReadEntry(tail) == if end > |tail| then None else Some(Entry(tail[0], tail[3..start - 2], tail[start..end])))
  {
  }

  method DecodeValue(tag: Byte, raw: Bytes, lossy: Bytes -> string) returns (value: Option<Value>)
    ensures value == Decode(tag, raw, lossy)
  {
    value := None;
    if (tag == 0x21 || tag == 0x23) && |raw| == 4 {
      value := Some(Integer(ReadI32(raw)));
    } else if tag == 0x41 || tag == 0x42 || 0x44 <= tag <= 0x49 {
      value := Some(Text(lossy(raw)));
    }
  }

  method ParseIpp(data: Bytes, lossy: Bytes -> string) returns (result: Attributes)
    ensures Groups(result, Scan(AfterHeader(data)), lossy)
  {
    hide Groups, ValuesOf, NameInEffect, Scan, Decode, Push, ReadEntry, ReadU16;
    NothingGrouped(lossy);
    NothingLeft([]);
    ghost var body := AfterHeader(data);
    result := map[];
    var offset := HEADER;
    var current: Option<string> := None;
    ghost var seen: seq<Element> := [];
    while offset < |data|
      invariant HEADER <= offset
      invariant offset <= |data| ==> Scan(body) == seen + Scan(data[offset..])
      invariant offset > |data| ==> Scan(body) == seen
      invariant current == NameInEffect(seen, lossy)
      invariant Groups(result, seen, lossy)
      decreases |data| - offset
    {
      ghost var tail := data[offset..];
      ScanUnfolds(tail, seen);
      EntryAtFront(tail);
      var tag := data[offset];
      offset := offset + 1;
      if 1 <= tag <= 5 {
        if tag == 3 {
          break;
        }
        DelimiterAddsNothing(result, seen, tag, lossy);
        assert tail[1..] == data[offset..];
        seen := seen + [Delimiter(tag)];
        continue;
      }
      if offset + 2 > |data| {
        break;
      }
      var nameLength := ReadU16(data[offset], data[offset + 1]);
      offset := offset + 2;
      if offset + nameLength + 2 > |data| {
        break;
      }
      ghost var name := data[offset..offset + nameLength];
      if nameLength > 0 {
        current := Some(lossy(data[offset..offset + nameLength]));
      }
      offset := offset + nameLength;
      var valueLength := ReadU16(data[offset], data[offset + 1]);
      offset := offset + 2;
      if offset + valueLength > |data| {
        break;
      }
      var raw := data[offset..offset + valueLength];
      offset := offset + valueLength;
      ghost var entry := Entry(tag, name, raw);
      assert name == tail[3..3 + nameLength] && raw == tail[5 + nameLength..Size(entry)];
      assert ReadEntry(tail) == Some(entry) && tail[Size(entry)..] == data[offset..];
      EntryAdds(result, seen, entry, lossy);
      seen := seen + [entry];
      if current == None {
        continue;
      }
      var value := DecodeValue(tag, raw, lossy);
      if value.Some? {
        result := Push(result, current.value, value.value);
      }
    }
    NothingLeft(seen);
  }

  // ---------------------------------------------------------------- the printer

  /** The wire form; lengths are cut to sixteen bits as `as u16` does. */
  function Wire(e: Element): Bytes {
    match e
    case Delimiter(group) => [group]
    case Entry(tag, name, raw) => [tag] + U16(|name|) + name + U16(|raw|) + raw
  }

  function WireAll(elements: seq<Element>): Bytes {
    if elements == [] then [] else Wire(elements[0]) + WireAll(elements[1..])
  }

  lemma {:induction false} WireAllOfConcat(a: seq<Element>, b: seq<Element>)
    ensures WireAll(a + b) == WireAll(a) + WireAll(b)
  {
    if a == [] {
      assert a + b == b;
    } else {
      assert (a + b)[1..] == a[1..] + b;
      WireAllOfConcat(a[1..], b);
    }
  }

  method IppAttr(tag: Byte, name: Bytes, value: Bytes) returns (out: Bytes)
    ensures out == Wire(Entry(tag, name, value))
  {
    out := [tag];
    out := out + U16(|name|);
    out := out + name;
    out := out + U16(|value|);
    out := out + value;
  }

  // ---------------------------------------------------------------- round trip

  /** The elements the wire form can carry. */
  predicate Encodable(e: Element) {
    match e
    case Delimiter(group) => group in {1, 2, 4, 5}
    case Entry(tag, name, raw) => tag !in {1, 2, 3, 4, 5} && |name| < 0x1_0000 && |raw| < 0x1_0000
  }

  lemma EntryRoundTrip(e: Element, rest: Bytes)
    requires e.Entry? && Encodable(e)
    ensures ReadEntry(Wire(e) + rest) == Some(e)
  {
    hide U16, ReadU16;
    var data := Wire(e) + rest;
    var start := 5 + |e.name|;
    U16RoundTrip(|e.name|);
    U16RoundTrip(|e.raw|);
    assert data[1..3] == U16(|e.name|) && data[3..start - 2] == e.name;
    assert data[start - 2..start] == U16(|e.raw|) && data[start..start + |e.raw|] == e.raw;
  }

  /** One encoded element is scanned as itself. */
  lemma ScanOfWire(e: Element, after: Bytes)
    requires Encodable(e)
    ensures Scan(Wire(e) + after) == [e] + Scan(after)
  {
    hide ReadEntry, U16;
    var data := Wire(e) + after;
    assert data != [] && data[Size(e)..] == after;
    match e {
      case Delimiter(group) =>
        assert data[0] == group && IsDelimiter(data[0]) && data[0] != END_OF_ATTRIBUTES && data[1..] == after;
      case Entry(tag, name, raw) =>
        EntryRoundTrip(e, after);
        assert data[0] == tag && !IsDelimiter(data[0]) && ReadEntry(data) == Some(e);
    }
  }

  /** Parsing encoded elements gives them back, whatever follows the end tag. */
  lemma {:induction false} RoundTrip(elements: seq<Element>, document: Bytes)
    requires forall e <- elements :: Encodable(e)
    ensures Scan(WireAll(elements) + [END_OF_ATTRIBUTES] + document) == elements
    decreases |elements|
  {
    hide Wire, Encodable;
    if elements == [] {
      assert WireAll(elements) + [END_OF_ATTRIBUTES] + document == [END_OF_ATTRIBUTES] + document;
    } else {
      var e := elements[0];
      var after := WireAll(elements[1..]) + [END_OF_ATTRIBUTES] + document;
      assert WireAll(elements) + [END_OF_ATTRIBUTES] + document == Wire(e) + after;
      ScanOfWire(e, after);
      RoundTrip(elements[1..], document);
    }
  }

  /** What the parser makes of an encoded list is exactly that list with its values
      grouped by name. */
  lemma EncodedListIsGrouped(
      header: Bytes, elements: seq<Element>, document: Bytes, lossy: Bytes -> string, result: Attributes)
    requires |header| == HEADER && forall e <- elements :: Encodable(e)
    requires Groups(result, Scan(AfterHeader(header + WireAll(elements) + [END_OF_ATTRIBUTES] + document)), lossy)
    ensures Groups(result, elements, lossy)
  {
    hide Groups, Scan, Encodable, WireAll;
    RoundTrip(elements, document);
    assert AfterHeader(header + WireAll(elements) + [END_OF_ATTRIBUTES] + document) ==
           WireAll(elements) + [END_OF_ATTRIBUTES] + document;
  }

  // ---------------------------------------------------------------- truncated and extended data

  /** The end tag is reached before the data runs out. */
  predicate Ends(data: Bytes) {
    data != [] &&
    if data[0] == END_OF_ATTRIBUTES then true
    else if IsDelimiter(data[0]) then Ends(data[1..])
    else
      match ReadEntry(data)
      case None => false
      case Some(e) => Ends(data[Size(e)..])
  }

  lemma EntryInPrefix(data: Bytes, more: Bytes)
    requires data != [] && ReadEntry(data).Some?
    ensures ReadEntry(data + more) == ReadEntry(data)
  {
    var e := ReadEntry(data).value;
    var start := 5 + |e.name|;
    assert (data + more)[3..start - 2] == e.name;
    assert (data + more)[start..start + |e.raw|] == e.raw;
  }

  /** More data never changes the elements already complete, and changes nothing
      at all once the end tag has been reached. */
  lemma {:induction false} ScanOfPrefix(data: Bytes, more: Bytes)
    ensures Scan(data) <= Scan(data + more)
    ensures Ends(data) ==> Scan(data + more) == Scan(data) && Ends(data + more)
  {
    hide ReadEntry;
    if data == [] || data[0] == END_OF_ATTRIBUTES {
    } else if IsDelimiter(data[0]) {
      assert (data + more)[1..] == data[1..] + more;
      ScanOfPrefix(data[1..], more);
    } else if ReadEntry(data).Some? {
      EntryInPrefix(data, more);
      var size := Size(ReadEntry(data).value);
      assert (data + more)[size..] == data[size..] + more;
      ScanOfPrefix(data[size..], more);
    }
  }

  /** Long enough to complete any element that has been cut off. */
  function Padding(): (bytes: Bytes)
    ensures |bytes| == 0x2_0004 && forall k :: 0 <= k < |bytes| ==> bytes[k] == 0
  {
    seq(0x2_0004, _ => 0)
  }

  lemma PaddingCompletes(data: Bytes)
    requires data == [] || ReadEntry(data).None?
    ensures ReadEntry(data + Padding()).Some?
  {
  }

  lemma {:induction false} PaddingShows(data: Bytes)
    requires !Ends(data)
    ensures Scan(data + Padding()) != Scan(data)
  {
    hide ReadEntry, Padding;
    if data == [] {
      PaddingCompletes(data);
      assert !IsDelimiter((data + Padding())[0]);
    } else if IsDelimiter(data[0]) {
      assert (data + Padding())[1..] == data[1..] + Padding();
      PaddingShows(data[1..]);
      assert Scan(data)[1..] == Scan(data[1..]);
      assert Scan(data + Padding())[1..] == Scan(data[1..] + Padding());
    } else if ReadEntry(data).None? {
      PaddingCompletes(data);
    } else {
      EntryInPrefix(data, Padding());
      var size := Size(ReadEntry(data).value);
      assert (data + Padding())[size..] == data[size..] + Padding();
      PaddingShows(data[size..]);
      assert Scan(data)[1..] == Scan(data[size..]);
      assert Scan(data + Padding())[1..] == Scan(data[size..] + Padding());
    }
  }

  /** An end tag is reached exactly when nothing that may follow adds an element. */
  lemma EndsExactlyWhenNothingMatters(data: Bytes)
    ensures Ends(data) <==> forall more: Bytes :: Scan(data + more) == Scan(data)
  {
    if Ends(data) {
      forall more: Bytes ensures Scan(data + more) == Scan(data) {
        ScanOfPrefix(data, more);
      }
    } else {
      PaddingShows(data);
    }
  }

  lemma ExtremeLengths(low: Byte, high: Byte)
    requires low == 0 && high == 0xFF
    ensures ReadU16(low, low) == 0 && ReadU16(high, high) == 0xFFFF
  {
  }

  lemma LongValueIsCut(data: Bytes)
    requires 5 <= |data| < 5 + 0xFFFF
    requires ReadU16(data[1], data[2]) == 0 && ReadU16(data[3], data[4]) == 0xFFFF
    ensures ReadEntry(data) == None
  {
    hide ReadU16;
  }

  lemma NothingBeforeCut(data: Bytes)
    requires data != [] && !IsDelimiter(data[0]) && ReadEntry(data) == None
    ensures Scan(data) == [] && !Ends(data)
  {
    hide ReadEntry;
  }

  /** No end tag, and still nothing that one read can bring in matters: an element
      cut off before a value of 65535 bytes. */
  lemma LongValueWaits(more: Bytes)
    requires |more| < 0xFFFF
    ensures !Ends([0x41, 0, 0, 0xFF, 0xFF]) && Scan([0x41, 0, 0, 0xFF, 0xFF] + more) == []
  {
    hide ReadEntry, Scan, Ends, ReadU16;
    var cut: Bytes := [0x41, 0, 0, 0xFF, 0xFF];
    ExtremeLengths(cut[1], cut[3]);
    assert cut[2] == cut[1] && cut[4] == cut[3];
    LongValueIsCut(cut);
    LongValueIsCut(cut + more);
    NothingBeforeCut(cut);
    NothingBeforeCut(cut + more);
  }

  // ---------------------------------------------------------------- the requests

  predicate IsAscii(s: string) {
    forall i :: 0 <= i < |s| ==> s[i] as int < 0x80
  }

  function Ascii(s: string): (bytes: Bytes)
    requires IsAscii(s)
    ensures |bytes| == |s|
  {
    seq(|s|, i requires 0 <= i < |s| => s[i] as int)
  }

  /** One more element at the end of a message. */
  lemma Append(header: Bytes, elements: seq<Element>, e: Element)
    ensures header + WireAll(elements) + Wire(e) == header + WireAll(elements + [e])
  {
    hide Wire;
    WireAllOfConcat(elements, [e]);
    WireOfOne(e);
  }

  lemma WireOfOne(e: Element)
    ensures WireAll([e]) == Wire(e)
  {
    hide Wire;
    assert WireAll([e]) == Wire(e) + WireAll([]);
  }

  /** Both requests open with the character set, the language and the printer. */
  function Opening(uri: Bytes): seq<Element> {
    [Delimiter(1),
     Entry(0x47, Ascii("attributes-charset"), Ascii("utf-8")),
     Entry(0x48, Ascii("attributes-natural-language"), Ascii("en")),
     Entry(0x45, Ascii("printer-uri"), uri)]
  }

  lemma OpeningOnTheWire(header: Bytes, a: Element, b: Element, c: Element, d: Element)
    requires a.Delimiter?
    ensures header + [a.group] + Wire(b) + Wire(c) + Wire(d) == header + WireAll([a, b, c, d])
  {
    assert header + WireAll([]) + Wire(a) == header + [a.group] && [] + [a] == [a];
    assert [a] + [b] == [a, b] && [a, b] + [c] == [a, b, c] && [a, b, c] + [d] == [a, b, c, d];
    Append(header, [], a);
    Append(header, [a], b);
    Append(header, [a, b], c);
    Append(header, [a, b, c], d);
  }

  method OpenRequest(header: Bytes, uri: Bytes) returns (body: Bytes)
    ensures body == header + WireAll(Opening(uri))
  {
    hide Wire, WireAll, Ascii;
    body := header + [1];
    var attribute := IppAttr(0x47, Ascii("attributes-charset"), Ascii("utf-8"));
    body := body + attribute;
    attribute := IppAttr(0x48, Ascii("attributes-natural-language"), Ascii("en"));
    body := body + attribute;
    attribute := IppAttr(0x45, Ascii("printer-uri"), uri);
    body := body + attribute;
    ghost var all := Opening(uri);
    OpeningOnTheWire(header, all[0], all[1], all[2], all[3]);
  }

  const REQUESTED: seq<string> := [
    "media-ready", "media-default", "printer-state", "printer-state-reasons", "printer-make-and-model"
  ]

  lemma RequestedIsAscii()
    ensures forall name <- REQUESTED :: IsAscii(name)
  {
  }

  /** The keywords asked for: one attribute, named on its first value only. */
  function Requested(names: seq<string>): seq<Element>
    requires forall name <- names :: IsAscii(name)
  {
    if names == [] then [] else
    var last := |names| - 1;
    Requested(names[..last]) +
    [Entry(0x44, if last == 0 then Ascii("requested-attributes") else [], Ascii(names[last]))]
  }

  /** The Get-Printer-Attributes request. */
  method IppRequest(uri: Bytes) returns (body: Bytes)
    ensures forall name <- REQUESTED :: IsAscii(name)
    ensures body == [2, 0, 0, 0x0b, 0, 0, 0, 1] +
                    WireAll(Opening(uri) + Requested(REQUESTED)) + [END_OF_ATTRIBUTES]
  {
    hide WireAll, Wire, U16, Ascii, Opening, Requested;
    RequestedIsAscii();
    ghost var header: Bytes := [2, 0, 0, 0x0b, 0, 0, 0, 1];
    body := OpenRequest([2, 0, 0, 0x0b, 0, 0, 0, 1], uri);
    NothingRequested(uri);
    for index := 0 to |REQUESTED|
      invariant body == header + WireAll(Opening(uri) + Requested(REQUESTED[..index]))
    {
      ghost var before := body;
      body := body + [0x44];
      body := body + (if index == 0 then U16(|"requested-attributes"|) else U16(0));
      if index == 0 {
        body := body + Ascii("requested-attributes");
      }
      body := body + U16(|REQUESTED[index]|);
      body := body + Ascii(REQUESTED[index]);
      KeywordOnTheWire(before, index);
      OneMoreRequested(header, uri, index);
    }
    assert REQUESTED[..|REQUESTED|] == REQUESTED;
    body := body + [3];
  }

  function RequestedAt(index: nat): Element
    requires index < |REQUESTED|
  {
    RequestedIsAscii();
    Entry(0x44, if index == 0 then Ascii("requested-attributes") else [], Ascii(REQUESTED[index]))
  }

  lemma NothingRequested(uri: Bytes)
    ensures Opening(uri) + Requested(REQUESTED[..0]) == Opening(uri)
  {
    hide Opening;
  }

  lemma KeywordOnTheWire(before: Bytes, index: nat)
    requires index < |REQUESTED| && forall name <- REQUESTED :: IsAscii(name)
    ensures before + [0x44] + (if index == 0 then U16(|"requested-attributes"|) else U16(0)) +
            (if index == 0 then Ascii("requested-attributes") else []) +
            U16(|REQUESTED[index]|) + Ascii(REQUESTED[index]) == before + Wire(RequestedAt(index))
  {
    hide U16, Ascii;
  }

  lemma OneMoreRequested(header: Bytes, uri: Bytes, index: nat)
    requires index < |REQUESTED| && forall name <- REQUESTED :: IsAscii(name)
    ensures header + WireAll(Opening(uri) + Requested(REQUESTED[..index])) + Wire(RequestedAt(index)) ==
            header + WireAll(Opening(uri) + Requested(REQUESTED[..index + 1]))
  {
    hide Wire, WireAll, Ascii, Opening;
    var done := REQUESTED[..index + 1];
    assert done[..index] == REQUESTED[..index];
    Append(header, Opening(uri) + Requested(REQUESTED[..index]), RequestedAt(index));
    assert Opening(uri) + Requested(REQUESTED[..index]) + [RequestedAt(index)] == Opening(uri) + Requested(done);
  }

  /** What a Print-Job request says about the document it carries. */
  function Printing(media: Bytes): seq<Element> {
    [Entry(0x42, Ascii("requesting-user-name"), Ascii("mb-printer")),
     Entry(0x42, Ascii("job-name"), Ascii("mb-printer-label")),
     Entry(0x49, Ascii("document-format"), Ascii("application/octet-stream")),
     Delimiter(2),
     Entry(0x44, Ascii("media"), media),
     Entry(0x21, Ascii("copies"), I32(1))]
  }

  lemma PrintingOnTheWire(header: Bytes, es: seq<Element>, p: seq<Element>)
    requires |p| == 6 && p[3].Delimiter?
    ensures header + WireAll(es) + Wire(p[0]) + Wire(p[1]) + Wire(p[2]) + [p[3].group] + Wire(p[4]) + Wire(p[5]) ==
            header + WireAll(es + p)
  {
    assert Wire(p[3]) == [p[3].group];
    assert p[..0] == [] && es + [] == es && p[..6] == p;
    assert forall i :: 0 <= i < 6 ==> es + p[..i + 1] == es + p[..i] + [p[i]];
    Append(header, es + p[..0], p[0]);
    Append(header, es + p[..1], p[1]);
    Append(header, es + p[..2], p[2]);
    Append(header, es + p[..3], p[3]);
    Append(header, es + p[..4], p[4]);
    Append(header, es + p[..5], p[5]);
  }

  /** The integer attribute is written field by field. */
  method AppendCopies(before: Bytes) returns (body: Bytes)
    ensures body == before + Wire(Entry(0x21, Ascii("copies"), I32(1)))
  {
    body := before + [0x21];
    body := body + U16(|"copies"|);
    body := body + Ascii("copies");
    body := body + U16(4);
    body := body + I32(1);
  }

  /** The body of a Print-Job request. */
  method PrintJobBody(uri: Bytes, media: Bytes, document: Bytes) returns (body: Bytes)
    ensures body == [2, 0, 0, 2, 0, 0, 0, 1] +
                    WireAll(Opening(uri) + Printing(media)) + [END_OF_ATTRIBUTES] + document
  {
    hide WireAll, Wire, U16, I32, Ascii, Opening;
    ghost var header: Bytes := [2, 0, 0, 2, 0, 0, 0, 1];
    body := OpenRequest([2, 0, 0, 2, 0, 0, 0, 1], uri);
    var attribute := IppAttr(0x42, Ascii("requesting-user-name"), Ascii("mb-printer"));
    body := body + attribute;
    attribute := IppAttr(0x42, Ascii("job-name"), Ascii("mb-printer-label"));
    body := body + attribute;
    attribute := IppAttr(0x49, Ascii("document-format"), Ascii("application/octet-stream"));
    body := body + attribute;
    body := body + [2];
    attribute := IppAttr(0x44, Ascii("media"), media);
    body := body + attribute;
    body := AppendCopies(body);
    PrintingOnTheWire(header, Opening(uri), Printing(media));
    body := body + [3];
    body := body + document;
  }

  // ---------------------------------------------------------------- what the requests say

  /** When every value carries its own name and no other name reads the same, the
      parser lists exactly that value, or nothing if its tag is not understood. */
  lemma {:induction false} OneValueEach(elements: seq<Element>, k: nat, lossy: Bytes -> string)
    requires k < |elements| && elements[k].Entry?
    requires forall e <- elements :: e.Entry? ==> e.name != []
    requires forall j :: 0 <= j < |elements| && j != k && elements[j].Entry? ==>
                           lossy(elements[j].name) != lossy(elements[k].name)
    ensures ValuesOf(elements, lossy(elements[k].name), lossy) ==
            match Decode(elements[k].tag, elements[k].raw, lossy) case None => [] case Some(value) => [value]
  {
    var last := |elements| - 1;
    if k < last {
      assert forall e <- elements[..last] :: e in elements;
      OneValueEach(elements[..last], k, lossy);
    } else {
      NoValues(elements[..last], lossy(elements[k].name), lossy);
    }
  }

  lemma {:induction false} NoValues(elements: seq<Element>, name: string, lossy: Bytes -> string)
    requires forall e <- elements :: e.Entry? ==> e.name != [] && lossy(e.name) != name
    ensures ValuesOf(elements, name, lossy) == [] && NameInEffect(elements, lossy) != Some(name)
  {
    if elements != [] {
      assert forall e <- elements[..|elements| - 1] :: e in elements;
      NoValues(elements[..|elements| - 1], name, lossy);
    }
  }

  function DecodeAll(elements: seq<Element>, lossy: Bytes -> string): seq<Value>
    requires forall e <- elements :: e.Entry?
  {
    if elements == [] then [] else
    var last := elements[|elements| - 1];
    DecodeAll(elements[..|elements| - 1], lossy) +
    match Decode(last.tag, last.raw, lossy) case None => [] case Some(value) => [value]
  }

  lemma {:induction false} NameStays(seen: seq<Element>, first: Element, more: seq<Element>, lossy: Bytes -> string)
    requires first.Entry? && first.name != []
    requires forall e <- more :: e.Entry? && e.name == []
    ensures NameInEffect(seen + [first] + more, lossy) == Some(lossy(first.name))
  {
    var all := seen + [first] + more;
    if more == [] {
      assert all[|all| - 1] == first;
    } else {
      var before := more[..|more| - 1];
      assert all[..|all| - 1] == seen + [first] + before && all[|all| - 1] == more[|more| - 1];
      assert forall e <- before :: e in more;
      NameStays(seen, first, before, lossy);
    }
  }

  /** Values without a name of their own join the values of the name before them,
      in order: section 3.1.5 of RFC 8010. */
  lemma {:induction false} AdditionalValues(seen: seq<Element>, first: Element, more: seq<Element>, lossy: Bytes -> string)
    requires first.Entry? && first.name != []
    requires forall e <- more :: e.Entry? && e.name == []
    ensures NameInEffect(seen + [first] + more, lossy) == Some(lossy(first.name))
    ensures ValuesOf(seen + [first] + more, lossy(first.name), lossy) ==
            ValuesOf(seen, lossy(first.name), lossy) + DecodeAll([first] + more, lossy)
  {
    hide Decode, NameInEffect;
    NameStays(seen, first, more, lossy);
    var all := seen + [first] + more;
    var group := [first] + more;
    if more == [] {
      assert all[..|all| - 1] == seen && group[..|group| - 1] == [];
      assert all[|all| - 1] == first == group[|group| - 1];
    } else {
      var before := more[..|more| - 1];
      assert all[..|all| - 1] == seen + [first] + before && group[..|group| - 1] == [first] + before;
      assert all[|all| - 1] == more[|more| - 1] == group[|group| - 1];
      assert forall e <- before :: e in more;
      AdditionalValues(seen, first, before, lossy);
      var name, last := lossy(first.name), more[|more| - 1];
      var own := match Decode(last.tag, last.raw, lossy) case None => [] case Some(value) => [value];
      assert ValuesOf(all, name, lossy) == ValuesOf(all[..|all| - 1], name, lossy) + own;
      assert DecodeAll(group, lossy) == DecodeAll(group[..|group| - 1], lossy) + own;
    }
  }

  /** What the printer reads from a Print-Job request does not depend on the
      document, even when the document contains bytes that look like attributes. */
  lemma PrintJobReadBack(header: Bytes, uri: Bytes, media: Bytes, document: Bytes)
    requires |header| == HEADER && |uri| < 0x1_0000 && |media| < 0x1_0000
    ensures Scan(AfterHeader(header + WireAll(Opening(uri) + Printing(media)) + [END_OF_ATTRIBUTES] + document)) ==
            Opening(uri) + Printing(media)
  {
    hide Wire, WireAll, Scan, Ascii;
    var all := Opening(uri) + Printing(media);
    assert forall e <- all :: Encodable(e);
    hide Opening, Printing;
    assert AfterHeader(header + WireAll(all) + [END_OF_ATTRIBUTES] + document) ==
           WireAll(all) + [END_OF_ATTRIBUTES] + document;
    RoundTrip(all, document);
  }
}

/** A printer's reply from its text to the attribute map: header lines in any case and
    order, the length they announce, the status, and the attributes of the body
    (section 5 of RFC 9112 and section 3.1 of RFC 8010). */
module Replies {
  import opened Options
  import opened Strings
  import opened Ipp
  import opened Http

  // ---------------------------------------------------------------- one header line

  /** Every letter of the field name in either case. */
  predicate NamesTheLength(name: string) {
    |name| == 14 && forall i :: 0 <= i < 14 ==> name[i] == "content-length"[i] || name[i] == "CONTENT-LENGTH"[i]
  }

  lemma SameLetter(c: char, lower: char, upper: char)
    requires 'a' <= lower <= 'z' && upper as int + 32 == lower as int
    ensures Lower(c) == Lower(lower) <==> c == lower || c == upper
  {
  }

  lemma SameDash(c: char)
    ensures Lower(c) == Lower('-') <==> c == '-'
  {
  }

  lemma SameCharacter(c: char, i: nat)
    requires i < 14
    ensures Lower(c) == Lower("content-length"[i]) <==> c == "content-length"[i] || c == "CONTENT-LENGTH"[i]
  {
    hide Lower;
    var lower, upper := "content-length", "CONTENT-LENGTH";
    if i == 7 {
      SameDash(c);
    } else {
      SameLetter(c, lower[i], upper[i]);
    }
  }

  /** The comparison accepts the field name in any case, and nothing else. */
  lemma NameInAnyCase(name: string)
    ensures EqualsIgnoreCase(name, "content-length") <==> NamesTheLength(name)
  {
    hide Lower;
    if |name| == 14 {
      forall i | 0 <= i < 14
        ensures Lower(name[i]) == Lower("content-length"[i]) <==> name[i] == "content-length"[i] || name[i] == "CONTENT-LENGTH"[i]
      {
        SameCharacter(name[i], i);
      }
    }
  }

  lemma {:induction false} TrimStartOf(a: string, s: string)
    requires Blank(a) && s != [] && !IsSpace(s[0])
    ensures TrimStart(a + s) == s
  {
    hide IsSpace;
    if a == [] {
      assert a + s == s;
    } else {
      assert a[0] in a && (a + s)[1..] == a[1..] + s;
      TrimStartOf(a[1..], s);
    }
  }

  lemma {:induction false} TrimEndOf(s: string, b: string)
    requires Blank(b) && s != [] && !IsSpace(s[|s| - 1])
    ensures TrimEnd(s + b) == s
  {
    hide IsSpace;
    if b == [] {
      assert s + b == s;
    } else {
      assert b[|b| - 1] in b && (s + b)[..|s + b| - 1] == s + b[..|b| - 1];
      TrimEndOf(s, b[..|b| - 1]);
    }
  }

  lemma Trimmed(a: string, s: string, b: string)
    requires Blank(a) && Blank(b) && s != [] && !IsSpace(s[0]) && !IsSpace(s[|s| - 1])
    ensures Trim(a + s + b) == s
  {
    assert a + s + b == a + (s + b);
    TrimStartOf(a, s + b);
    TrimEndOf(s, b);
  }

  lemma DigitIsNoSpace(c: char)
    requires Digit(c) < 10
    ensures !IsSpace(c) && c != '+' && c != '\r' && c != '\n' && '0' <= c <= '9'
  {
  }

  /** A length line: the field name in any case, a colon, and the number with any white
      space around it. */
  function LengthLine(name: string, a: string, n: nat, b: string): string {
    name + ":" + a + Digits(n, 10) + b
  }

  lemma NumberReadBack(a: string, n: nat, b: string)
    requires Blank(a) && Blank(b) && n <= USIZE_MAX
    ensures ParseUnsigned(Trim(a + Digits(n, 10) + b), 10, USIZE_MAX) == Some(n)
  {
    hide Digits, Number, IsSpace, Trim;
    var text := Digits(n, 10);
    DigitsRoundTrip(n, 10);
    assert text[0] in text && text[|text| - 1] in text;
    DigitIsNoSpace(text[0]);
    DigitIsNoSpace(text[|text| - 1]);
    Trimmed(a, text, b);
  }

  lemma NoColonInName(name: string)
    requires NamesTheLength(name)
    ensures ':' !in name
  {
    forall i | 0 <= i < 14 ensures name[i] != ':' {
      assert "content-length"[i] != ':' && "CONTENT-LENGTH"[i] != ':';
    }
  }

  lemma LengthLineIsRead(name: string, a: string, n: nat, b: string)
    requires NamesTheLength(name) && Blank(a) && Blank(b) && n <= USIZE_MAX
    ensures LineLength(LengthLine(name, a, n, b)) == Some(n)
  {
    hide Digits, ParseUnsigned, Trim, EqualsIgnoreCase, IsSpace, NamesTheLength;
    var value := a + Digits(n, 10) + b;
    var line := LengthLine(name, a, n, b);
    assert line == name + [':'] + value;
    NoColonInName(name);
    FindAfter(name, ':', value);
    assert line[..|name|] == name && line[|name| + 1..] == value;
    NameInAnyCase(name);
    NumberReadBack(a, n, b);
  }

  /** Any other field announces no length, and neither does a line without a colon. */
  lemma OtherLineIsSkipped(name: string, value: string)
    requires ':' !in name && !NamesTheLength(name)
    ensures LineLength(name + ":" + value) == None && LineLength(name) == None
  {
    hide EqualsIgnoreCase, ParseUnsigned;
    var line := name + ":" + value;
    assert line == name + [':'] + value;
    FindAfter(name, ':', value);
    assert line[..|name|] == name;
    NameInAnyCase(name);
  }

  /** Nor does a value that holds anything but digits, a sign and white space. */
  lemma MalformedLengthIsSkipped(name: string, value: string, c: char)
    requires ':' !in name && c in value && !IsSpace(c) && !('0' <= c <= '9') && c != '+'
    ensures LineLength(name + ":" + value) == None
  {
    hide EqualsIgnoreCase, IsSpace, Number, Trim;
    var line := name + ":" + value;
    assert line == name + [':'] + value;
    FindAfter(name, ':', value);
    assert line[|name| + 1..] == value;
    TrimKeeps(value, c);
    assert Digit(c) >= 10;
  }

  // ---------------------------------------------------------------- the header block

  /** The lines as they are sent, without the blank line after them. */
  function Joined(lines: seq<string>): string
    requires lines != []
  {
    if |lines| == 1 then lines[0] else lines[0] + "\r" + "\n" + Joined(lines[1..])
  }

  predicate OneLine(line: string) {
    line != "" && '\r' !in line && '\n' !in line
  }

  lemma FirstLine(line: string, rest: string)
    requires OneLine(line)
    ensures Lines(line + "\r" + "\n" + rest) == [line] + Lines(rest)
  {
    var front := line + "\r";
    var text := line + "\r" + "\n" + rest;
    assert text == front + ['\n'] + rest;
    FindAfter(front, '\n', rest);
    assert text[|front| - 1] == '\r' && text[..|front| - 1] == line && text[|front| + 1..] == rest;
  }

  lemma LastLine(line: string)
    requires OneLine(line)
    ensures Lines(line) == [line]
  {
  }

  lemma {:induction false} LinesOfJoined(lines: seq<string>)
    requires lines != [] && forall line <- lines :: OneLine(line)
    ensures Lines(Joined(lines)) == lines
    decreases |lines|
  {
    hide Lines, OneLine;
    assert OneLine(lines[0]);
    if |lines| == 1 {
      LastLine(lines[0]);
    } else {
      FirstLine(lines[0], Joined(lines[1..]));
      LinesOfJoined(lines[1..]);
    }
  }

  lemma {:induction false} FirstLengthIs(lines: seq<string>, k: nat)
    requires k < |lines| && LineLength(lines[k]).Some? && forall j :: 0 <= j < k ==> LineLength(lines[j]).None?
    ensures FirstLength(lines) == LineLength(lines[k])
    decreases k
  {
    hide LineLength;
    if k > 0 {
      assert LineLength(lines[0]).None?;
      FirstLengthIs(lines[1..], k - 1);
    }
  }

  /** The end of a response is as many bytes after its blank line as the first length
      line says, or the largest number there is. */
  lemma HeadersDeclareTheEnd(
      response: Bytes, lossy: Bytes -> string, lines: seq<string>, k: nat, name: string, a: string, n: nat, b: string)
    requires k < |lines| && FindBlank(response, 0).Some? && lossy(response[..FindBlank(response, 0).value]) == Joined(lines)
    requires (forall line <- lines :: OneLine(line)) && lines[k] == LengthLine(name, a, n, b)
    requires NamesTheLength(name) && Blank(a) && Blank(b) && n <= USIZE_MAX
    requires forall j :: 0 <= j < k ==> LineLength(lines[j]).None?
    ensures var end := FindBlank(response, 0).value + 4 + n;
            DeclaredEnd(response, lossy) == Some(if end <= 0xFFFF_FFFF_FFFF_FFFF then end else 0xFFFF_FFFF_FFFF_FFFF)
  {
    hide LineLength, FindBlank, NamesTheLength, LengthLine, Lines, Joined;
    LinesOfJoined(lines);
    LengthLineIsRead(name, a, n, b);
    FirstLengthIs(lines, k);
  }

  // ---------------------------------------------------------------- the whole reply

  const BLANK_LINE: Bytes := [13, 10, 13, 10]

  predicate AsciiLines(lines: seq<string>) {
    lines != [] && forall line <- lines :: OneLine(line) && IsAscii(line)
  }

  /** No blank line ends inside the header block. */
  predicate Dense(s: string) {
    && s != "" && s[0] != '\r' && s[|s| - 1] != '\r' && s[|s| - 1] != '\n'
    && forall i :: 0 <= i < |s| - 2 ==> !(s[i] == '\r' && s[i + 1] == '\n' && s[i + 2] == '\r')
  }

  lemma LineIsDense(line: string)
    requires OneLine(line)
    ensures Dense(line)
  {
    assert line[0] in line && line[|line| - 1] in line;
    forall i | 0 <= i < |line| ensures line[i] != '\r' {
      assert line[i] in line;
    }
  }

  lemma JoinIsDense(line: string, rest: string)
    requires OneLine(line) && Dense(rest)
    ensures Dense(line + "\r" + "\n" + rest)
  {
    var s := line + "\r" + "\n" + rest;
    LineIsDense(line);
    forall i | 0 <= i < |s| - 2 ensures !(s[i] == '\r' && s[i + 1] == '\n' && s[i + 2] == '\r') {
      if i < |line| {
        assert s[i] == line[i] && line[i] in line;
      } else if i == |line| {
        assert s[i + 2] == rest[0];
      } else if i > |line| + 1 {
        var j := i - |line| - 2;
        assert s[i] == rest[j] && s[i + 1] == rest[j + 1] && s[i + 2] == rest[j + 2];
      }
    }
  }

  lemma {:induction false} JoinedIsDense(lines: seq<string>)
    requires AsciiLines(lines)
    ensures Dense(Joined(lines)) && IsAscii(Joined(lines))
    decreases |lines|
  {
    hide Dense;
    assert OneLine(lines[0]) && IsAscii(lines[0]);
    if |lines| == 1 {
      LineIsDense(lines[0]);
    } else {
      JoinedIsDense(lines[1..]);
      JoinIsDense(lines[0], Joined(lines[1..]));
    }
  }

  /** A header block as it is sent, and its body. */
  function Reply(lines: seq<string>, body: Bytes): Bytes
    requires AsciiLines(lines)
  {
    JoinedIsDense(lines);
    Ascii(Joined(lines)) + BLANK_LINE + body
  }

  lemma BlankAfterHead(head: string, body: Bytes)
    requires IsAscii(head) && Dense(head)
    ensures FindBlank(Ascii(head) + BLANK_LINE + body, 0) == Some(|head|)
  {
    var data := Ascii(head) + BLANK_LINE + body;
    assert BlankAt(data, |head|);
    forall i: nat | i < |head| ensures !BlankAt(data, i) {
      assert data[i] == head[i] as int;
      if i < |head| - 2 {
        assert data[i + 1] == head[i + 1] as int && data[i + 2] == head[i + 2] as int;
      } else if i == |head| - 2 {
        assert data[i + 1] == head[i + 1] as int;
      }
    }
  }

  function StatusText(minor: nat, code: nat, reason: string): string
    requires minor < 10
  {
    "HTTP/1." + [DigitChar(minor)] + " " + Digits(code, 10) + reason
  }

  lemma ThreeDigits(code: nat)
    requires 100 <= code < 1000
    ensures Digits(code, 10) == [DigitChar(code / 100), DigitChar(code / 10 % 10), DigitChar(code % 10)]
  {
    hide DigitChar;
    assert Digits(code / 100, 10) == [DigitChar(code / 100)];
    assert code / 10 / 10 == code / 100;
    assert Digits(code / 10, 10) == [DigitChar(code / 100)] + [DigitChar(code / 10 % 10)];
  }

  /** A reply is taken for a success exactly when its status is 200 under HTTP/1.0 or 1.1. */
  lemma StatusOkExactlyWhen(minor: nat, code: nat, reason: string, rest: Bytes)
    requires minor < 10 && 100 <= code < 1000 && IsAscii(StatusText(minor, code, reason))
    ensures StatusOk(Ascii(StatusText(minor, code, reason)) + rest) <==> minor <= 1 && code == 200
  {
    hide DigitChar;
    ThreeDigits(code);
    var line := StatusText(minor, code, reason);
    var data := Ascii(line) + rest;
    assert line[..7] == "HTTP/1." && line[7] == DigitChar(minor) && line[8] == ' ';
    assert line[9] == DigitChar(code / 100) && line[10] == DigitChar(code / 10 % 10) && line[11] == DigitChar(code % 10);
    assert forall i :: 0 <= i < 12 ==> data[i] == line[i] as int;
    Distinct(minor, code);
    assert StatusOk(data) <==> data[..12] == Ascii("HTTP/1.1 200") || data[..12] == Ascii("HTTP/1.0 200");
    assert "HTTP/1.1 200"[..7] == "HTTP/1." && "HTTP/1.0 200"[..7] == "HTTP/1.";
  }

  lemma Distinct(minor: nat, code: nat)
    requires minor < 10 && 100 <= code < 1000
    ensures DigitChar(minor) == '0' <==> minor == 0
    ensures DigitChar(minor) == '1' <==> minor == 1
    ensures code == 200 <==>
            DigitChar(code / 100) == '2' && DigitChar(code / 10 % 10) == '0' && DigitChar(code % 10) == '0'
  {
  }

  /** Lossy decoding leaves ASCII text as it is. */
  ghost predicate PlainAscii(lossy: Bytes -> string) {
    forall s: string :: IsAscii(s) ==> lossy(Ascii(s)) == s
  }

  /** Line `k` is the first to announce a length, that of the body. */
  predicate Announces(lines: seq<string>, k: nat, name: string, a: string, body: Bytes, b: string) {
    && k < |lines| && NamesTheLength(name) && Blank(a) && Blank(b) && lines[k] == LengthLine(name, a, |body|, b)
    && forall j :: 0 <= j < k ==> LineLength(lines[j]).None?
  }

  lemma HeadOf(lines: seq<string>, body: Bytes)
    requires AsciiLines(lines)
    ensures var reply, head := Reply(lines, body), Joined(lines);
            && FindBlank(reply, 0) == Some(|head|) && |reply| == |head| + 4 + |body|
            && IsAscii(head) && reply[..|head|] == Ascii(head) && reply[|head| + 4..] == body
  {
    JoinedIsDense(lines);
    BlankAfterHead(Joined(lines), body);
  }

  lemma ReplyEndsWithItsBody(
      lines: seq<string>, k: nat, name: string, a: string, body: Bytes, b: string, lossy: Bytes -> string)
    requires AsciiLines(lines) && Announces(lines, k, name, a, body, b) && PlainAscii(lossy)
    requires |Reply(lines, body)| <= USIZE_MAX
    ensures DeclaredEnd(Reply(lines, body), lossy) == Some(|Reply(lines, body)|)
  {
    hide FindBlank, Joined, LineLength, LengthLine, NamesTheLength, Reply;
    HeadOf(lines, body);
    HeadersDeclareTheEnd(Reply(lines, body), lossy, lines, k, name, a, |body|, b);
  }

  /** The first line of the reply, as bytes at its front. */
  lemma StatusInFront(lines: seq<string>, body: Bytes)
    requires AsciiLines(lines)
    ensures IsAscii(lines[0]) && Ascii(lines[0]) <= Reply(lines, body)
  {
    assert IsAscii(lines[0]);
    assert lines[0] <= Joined(lines);
  }

  lemma ReplySays(
      lines: seq<string>, minor: nat, code: nat, reason: string, header: Bytes, elements: seq<Element>, document: Bytes)
    requires AsciiLines(lines) && minor < 10 && 100 <= code < 1000 && lines[0] == StatusText(minor, code, reason)
    requires |header| == 8 && forall e <- elements :: Encodable(e)
    ensures Judge(Reply(lines, header + (WireAll(elements) + [END_OF_ATTRIBUTES] + document))) ==
            if minor <= 1 && code == 200 then Ok(elements) else Err(NotOk)
  {
    hide FindBlank, Joined, Scan, WireAll, StatusText, StatusOk, Reply;
    var wire := WireAll(elements) + [END_OF_ATTRIBUTES] + document;
    var reply := Reply(lines, header + wire);
    HeadOf(lines, header + wire);
    StatusInFront(lines, header + wire);
    var rest := reply[|lines[0]|..];
    assert reply == Ascii(lines[0]) + rest;
    StatusOkExactlyWhen(minor, code, reason, rest);
    assert AfterHeader(header + wire) == wire;
    RoundTrip(elements, document);
  }

  /** A reply is understood.  Whatever the other header lines are, in whatever case the
      length is announced and however the bytes are cut into reads, a reply of at most
      one mebibyte with status 200 gives the attributes its body encodes, without
      waiting for the connection to close; another status and a longer reply give
      their errors. */
  lemma ReplyIsUnderstood(
      stream: nat -> Read, count: nat, lossy: Bytes -> string,
      lines: seq<string>, k: nat, name: string, a: string, b: string,
      minor: nat, code: nat, reason: string, header: Bytes, elements: seq<Element>, document: Bytes,
      result: Result<Attributes>)
    requires PlainAscii(lossy) && Shortens(lossy)
    requires AsciiLines(lines) && minor < 10 && 100 <= code < 1000 && lines[0] == StatusText(minor, code, reason)
    requires |header| == 8 && forall e <- elements :: Encodable(e)
    requires var body := header + (WireAll(elements) + [END_OF_ATTRIBUTES] + document);
             && Announces(lines, k, name, a, body, b) && |Reply(lines, body)| <= USIZE_MAX
             && Delivers(stream, 0, count, Reply(lines, body))
    requires Says(result, Query(stream, lossy), lossy)
    ensures var body := header + (WireAll(elements) + [END_OF_ATTRIBUTES] + document);
            if |Reply(lines, body)| > 1024 * 1024 then result == Err(TooLarge)
            else if minor <= 1 && code == 200 then result.Ok? && Groups(result.value, elements, lossy)
            else result == Err(NotOk)
  {
    hide DeclaredEnd, Judge, Receive, Query, Delivers, Groups, WireAll, Joined, StatusText, Announces, Reply, SameMeaning;
    var body := header + (WireAll(elements) + [END_OF_ATTRIBUTES] + document);
    var reply := Reply(lines, body);
    ReplyEndsWithItsBody(lines, k, name, a, body, b, lossy);
    ReplySays(lines, minor, code, reason, header, elements, document);
    assert reply[..|reply|] == reply;
    WholeReplyIsAnswered(stream, count, reply, lossy);
    SameGroups(result, Query(stream, lossy), Answer(reply, stream(count), lossy), lossy);
  }

  /** A response that ends with the bytes sent is answered whatever comes after them. */
  lemma WholeReplyIsAnswered(stream: nat -> Read, count: nat, data: Bytes, lossy: Bytes -> string)
    requires Shortens(lossy) && Delivers(stream, 0, count, data) && DeclaredEnd(data, lossy) == Some(|data|)
    ensures Alike(Query(stream, lossy), Answer(data, stream(count), lossy), lossy)
  {
    hide DeclaredEnd, Query, Answer, Alike, Delivers, Ends;
    UnambiguousIsSteady(data, lossy);
    AnswerIsDetermined(stream, count, data, lossy);
  }

  lemma SameGroups(result: Result<Attributes>, x: Result<seq<Element>>, y: Result<seq<Element>>, lossy: Bytes -> string)
    requires Says(result, x, lossy) && Alike(x, y, lossy)
    ensures Says(result, y, lossy)
  {
  }

  /** Bytes without a blank line are no reply: when the connection closes, times out or
      fails after them, the error says so. */
  lemma HeadlessIsRefused(
      stream: nat -> Read, count: nat, data: Bytes, lossy: Bytes -> string, result: Result<Attributes>)
    requires Shortens(lossy) && Delivers(stream, 0, count, data) && !stream(count).Chunk?
    requires |data| <= 1024 * 1024 && forall i: nat :: !BlankAt(data, i)
    requires Says(result, Query(stream, lossy), lossy)
    ensures stream(count).Closed? ==> result == Err(NoHeaders)
    ensures stream(count).TimedOut? ==> result == Err(ReadTimedOut)
    ensures stream(count).Failed? ==> result == Err(ReadFailed)
  {
    hide Query, Delivers, Groups, SameMeaning;
    assert FindBlank(data, 0).None?;
    AnswerIsDetermined(stream, count, data, lossy);
  }
}

/** The plain HTTP client behind the IPP query of src/device.rs: the test for a
    complete response, the read loop and the reading of the answer.  Message
    length: section 6.3 of RFC 9112. */
module Http {
  import opened Options
  import opened Strings
  import opened Ipp

  const LIMIT := 1024 * 1024
  const CHUNK := 4096
  const USIZE_MAX := 0xFFFF_FFFF_FFFF_FFFF

  // ---------------------------------------------------------------- the length of a response

  /** A blank line ends the headers at `i`. */
  predicate BlankAt(data: Bytes, i: nat) {
    i + 4 <= |data| && data[i] == 13 && data[i + 1] == 10 && data[i + 2] == 13 && data[i + 3] == 10
  }

  /** `windows(4).position(..)`, from `start` on. */
  function FindBlank(data: Bytes, start: nat): (r: Option<nat>)
    ensures r.Some? ==> start <= r.value && BlankAt(data, r.value)
    ensures forall i :: start <= i && (r.Some? ==> i < r.value) ==> !BlankAt(data, i)
    decreases |data| - start
  {
    if start + 4 > |data| then None
    else if BlankAt(data, start) then Some(start)
    else FindBlank(data, start + 1)
  }

  /** `str::lines`: split at line feeds, without a carriage return before them. */
  function Lines(s: string): seq<string> {
    match Find(s, '\n')
    case None => if s == [] then [] else [s]
    case Some(i) => [if i > 0 && s[i - 1] == '\r' then s[..i - 1] else s[..i]] + Lines(s[i + 1..])
  }

  function Lower(c: char): char {
    if 'A' <= c <= 'Z' then c + 32 as char else c
  }

  predicate EqualsIgnoreCase(a: string, b: string) {
    |a| == |b| && forall i :: 0 <= i < |a| ==> Lower(a[i]) == Lower(b[i])
  }

  /** The length a header line announces, if it is a well-formed content length. */
  function LineLength(line: string): Option<nat> {
    match Find(line, ':')
    case None => None
    case Some(i) =>
      if EqualsIgnoreCase(line[..i], "content-length") then ParseUnsigned(Trim(line[i + 1..]), 10, USIZE_MAX)
      else None
  }

  function FirstLength(lines: seq<string>): Option<nat> {
    if lines == [] then None
    else if LineLength(lines[0]).Some? then LineLength(lines[0])
    else FirstLength(lines[1..])
  }

  /** Where the response ends, once its headers say so. */
  function DeclaredEnd(response: Bytes, lossy: Bytes -> string): Option<nat> {
    match FindBlank(response, 0)
    case None => None
    case Some(split) =>
      match FirstLength(Lines(lossy(response[..split])))
      case None => None
      case Some(length) => Some(if split + 4 + length > USIZE_MAX then USIZE_MAX else split + 4 + length)
  }

  predicate ContentComplete(response: Bytes, lossy: Bytes -> string) {
    DeclaredEnd(response, lossy).Some? && |response| >= DeclaredEnd(response, lossy).value
  }

  lemma FindBlankStable(data: Bytes, more: Bytes)
    requires FindBlank(data, 0).Some?
    ensures FindBlank(data + more, 0) == FindBlank(data, 0)
  {
    var split := FindBlank(data, 0).value;
    assert forall i: nat :: i <= split ==> BlankAt(data + more, i) == BlankAt(data, i);
  }

  /** Headers once complete are read the same however much follows, so a complete
      response stays complete. */
  lemma CompleteIsMonotone(response: Bytes, more: Bytes, lossy: Bytes -> string)
    ensures DeclaredEnd(response, lossy).Some? ==>
              DeclaredEnd(response + more, lossy) == DeclaredEnd(response, lossy)
    ensures ContentComplete(response, lossy) ==> ContentComplete(response + more, lossy)
  {
    if FindBlank(response, 0).Some? {
      FindBlankStable(response, more);
      var split := FindBlank(response, 0).value;
      assert (response + more)[..split] == response[..split];
    }
  }

  // ---------------------------------------------------------------- the read loop

  type Piece = b: Bytes | 1 <= |b| <= CHUNK witness [0]

  /** What one read from the connection gives. */
  datatype Read = Chunk(bytes: Piece) | Closed | TimedOut | Failed

  datatype Error = TooLarge | ReadTimedOut | ReadFailed | NoHeaders | NotOk

  datatype Result<+T> = Ok(value: T) | Err(error: Error)

  /** The response the loop ends with: it stops at the first complete response, at
      the end of the stream or at an error, whichever comes first. */
  function Receive(stream: nat -> Read, i: nat, response: Bytes, lossy: Bytes -> string): Result<Bytes>
    requires |response| <= LIMIT
    decreases LIMIT - |response|
  {
    match stream(i)
    case Closed => Ok(response)
    case TimedOut => Err(ReadTimedOut)
    case Failed => Err(ReadFailed)
    case Chunk(bytes) =>
      if |response| + |bytes| > LIMIT then Err(TooLarge)
      else if ContentComplete(response + bytes, lossy) then Ok(response + bytes)
      else Receive(stream, i + 1, response + bytes, lossy)
  }

  /** The loop.  A timeout after a complete response is never seen, because the
      loop has stopped by then: a timeout is always an error. */
  method ReadResponse(stream: nat -> Read, lossy: Bytes -> string) returns (result: Result<Bytes>)
    ensures result == Receive(stream, 0, [], lossy)
  {
    hide ContentComplete;
    var response: Bytes := [];
    var i := 0;
    NothingIsIncomplete(lossy);
    while true
      invariant |response| <= LIMIT
      invariant !ContentComplete(response, lossy)
      invariant Receive(stream, i, response, lossy) == Receive(stream, 0, [], lossy)
      decreases LIMIT - |response|
    {
      match stream(i) {
        case Closed =>
          return Ok(response);
        case Chunk(bytes) =>
          response := response + bytes;
          if |response| > LIMIT {
            return Err(TooLarge);
          }
          if ContentComplete(response, lossy) {
            return Ok(response);
          }
        case TimedOut =>
          if ContentComplete(response, lossy) {
            return Ok(response);
          }
          return Err(ReadTimedOut);
        case Failed =>
          return Err(ReadFailed);
      }
      i := i + 1;
    }
  }

  lemma NothingIsIncomplete(lossy: Bytes -> string)
    ensures !ContentComplete([], lossy)
  {
  }

  // ---------------------------------------------------------------- the answer

  predicate StatusOk(response: Bytes) {
    Ascii("HTTP/1.1 200") <= response || Ascii("HTTP/1.0 200") <= response
  }

  /** What a response says: the attribute elements of its body. */
  function Judge(response: Bytes): (answer: Result<seq<Element>>)
    ensures answer.Err? ==> answer.error == NoHeaders || answer.error == NotOk
  {
    match FindBlank(response, 0)
    case None => Err(NoHeaders)
    case Some(split) =>
      if StatusOk(response) then Ok(Scan(AfterHeader(response[split + 4..]))) else Err(NotOk)
  }

  function Query(stream: nat -> Read, lossy: Bytes -> string): Result<seq<Element>> {
    match Receive(stream, 0, [], lossy)
    case Ok(response) => Judge(response)
    case Err(error) => Err(error)
  }

  /** The attribute map, or the error, that the elements or the error stand for. */
  ghost predicate Says(result: Result<Attributes>, answer: Result<seq<Element>>, lossy: Bytes -> string) {
    match answer
    case Ok(elements) => result.Ok? && Groups(result.value, elements, lossy)
    case Err(error) => result == Err(error)
  }

  method IppQuery(stream: nat -> Read, lossy: Bytes -> string) returns (result: Result<Attributes>)
    ensures Says(result, Query(stream, lossy), lossy)
  {
    hide Receive, Groups, Scan;
    var received := ReadResponse(stream, lossy);
    if received.Err? {
      return Err(received.error);
    }
    var response := received.value;
    var split := FindBlank(response, 0);
    if split.None? {
      return Err(NoHeaders);
    }
    if !StatusOk(response) {
      return Err(NotOk);
    }
    var attributes := ParseIpp(response[split.value + 4..], lossy);
    return Ok(attributes);
  }

  // ---------------------------------------------------------------- independence of chunking

  /** The next `count` reads are chunks that make up `data`. */
  predicate Delivers(stream: nat -> Read, i: nat, count: nat, data: Bytes)
    decreases count
  {
    if count == 0 then data == []
    else stream(i).Chunk? && stream(i).bytes <= data &&
         Delivers(stream, i + 1, count - 1, data[|stream(i).bytes|..])
  }

  /** Lossy decoding never makes a text longer than its bytes. */
  ghost predicate Shortens(lossy: Bytes -> string) {
    forall b: Bytes :: |lossy(b)| <= |b|
  }

  /** The loop reads on while nothing received so far is complete. */
  lemma {:induction false} ReadsOn(
      stream: nat -> Read, i: nat, count: nat, response: Bytes, rest: Bytes, lossy: Bytes -> string)
    requires Delivers(stream, i, count, rest) && |response| + |rest| <= LIMIT
    requires !ContentComplete(response + rest, lossy)
    ensures Receive(stream, i, response, lossy) == Receive(stream, i + count, response + rest, lossy)
    decreases count
  {
    hide ContentComplete;
    if count == 0 {
      assert response + rest == response;
    } else {
      var bytes := stream(i).bytes;
      var next, after := response + bytes, rest[|bytes|..];
      assert next + after == response + rest;
      CompleteIsMonotone(next, after, lossy);
      ReadsOn(stream, i + 1, count - 1, next, after, lossy);
    }
  }

  /** A stream that runs over the limit before a response is complete is refused. */
  lemma {:induction false} RunsOver(
      stream: nat -> Read, i: nat, count: nat, response: Bytes, rest: Bytes, lossy: Bytes -> string)
    requires Delivers(stream, i, count, rest) && |response| <= LIMIT < |response| + |rest|
    requires !ContentComplete((response + rest)[..LIMIT], lossy)
    ensures Receive(stream, i, response, lossy) == Err(TooLarge)
    decreases count
  {
    hide ContentComplete;
    var bytes := stream(i).bytes;
    var next, after := response + bytes, rest[|bytes|..];
    assert next + after == response + rest;
    if |next| <= LIMIT {
      assert next + (response + rest)[|next|..LIMIT] == (response + rest)[..LIMIT];
      CompleteIsMonotone(next, (response + rest)[|next|..LIMIT], lossy);
      RunsOver(stream, i + 1, count - 1, next, after, lossy);
    }
  }

  /** Once enough has been sent for a complete response, what the loop keeps is
      complete, and no longer than the response by a whole read. */
  lemma {:induction false} StopsWhenComplete(
      stream: nat -> Read, i: nat, count: nat, response: Bytes, rest: Bytes, end: nat, lossy: Bytes -> string)
    requires Delivers(stream, i, count, rest) && |response| < end <= |response| + |rest|
    requires |response| + |rest| <= LIMIT || end + CHUNK - 1 <= LIMIT
    requires DeclaredEnd((response + rest)[..end], lossy) == Some(end)
    ensures |response| <= LIMIT
    ensures var received := Receive(stream, i, response, lossy);
            received.Ok? && end <= |received.value| < end + CHUNK && received.value <= response + rest
    decreases count
  {
    hide DeclaredEnd;
    var bytes := stream(i).bytes;
    var next, after := response + bytes, rest[|bytes|..];
    assert next + after == response + rest;
    var full := (response + rest)[..end];
    if |next| < end {
      assert next + full[|next|..] == full;
      CompleteIsMonotone(next, full[|next|..], lossy);
      StopsWhenComplete(stream, i + 1, count - 1, next, after, end, lossy);
    } else {
      assert full + next[end..] == next;
      CompleteIsMonotone(full, next[end..], lossy);
    }
  }

  lemma {:induction false} LinesAreNoLonger(s: string)
    ensures forall line <- Lines(s) :: |line| <= |s|
  {
    if Find(s, '\n').Some? {
      LinesAreNoLonger(s[Find(s, '\n').value + 1..]);
    }
  }

  lemma {:induction false} LengthLineIsLong(lines: seq<string>)
    requires FirstLength(lines).Some?
    ensures exists line <- lines :: |line| >= 15
  {
    if LineLength(lines[0]).Some? {
      assert |lines[0]| >= 15;
    } else {
      LengthLineIsLong(lines[1..]);
    }
  }

  lemma HeadersAreLong(response: Bytes, lossy: Bytes -> string)
    requires Shortens(lossy) && DeclaredEnd(response, lossy).Some?
    ensures FindBlank(response, 0).Some? && FindBlank(response, 0).value >= 15
  {
    var text := lossy(response[..FindBlank(response, 0).value]);
    LinesAreNoLonger(text);
    LengthLineIsLong(Lines(text));
  }

  function Body(response: Bytes): Bytes
    requires FindBlank(response, 0).Some?
  {
    AfterHeader(response[FindBlank(response, 0).value + 4..])
  }

  lemma BodyIgnoresWhatFollows(ipp: Bytes, more: Bytes)
    requires more == [] || Ends(AfterHeader(ipp))
    ensures Scan(AfterHeader(ipp + more)) == Scan(AfterHeader(ipp))
  {
    hide Scan, Ends;
    if more == [] {
      assert ipp + more == ipp;
    } else {
      EndsNotAtOnce();
      assert AfterHeader(ipp + more) == AfterHeader(ipp) + more;
      ScanOfPrefix(AfterHeader(ipp), more);
    }
  }

  lemma JudgeIgnoresWhatFollows(full: Bytes, more: Bytes)
    requires FindBlank(full, 0).Some? && FindBlank(full, 0).value >= 15
    requires more == [] || Ends(Body(full))
    ensures Judge(full + more) == Judge(full)
  {
    hide Scan, Ends, FindBlank, AfterHeader;
    var split := FindBlank(full, 0).value;
    FindBlankStable(full, more);
    assert StatusOk(full + more) == StatusOk(full);
    assert (full + more)[split + 4..] == full[split + 4..] + more;
    BodyIgnoresWhatFollows(full[split + 4..], more);
  }

  lemma EndsNotAtOnce()
    ensures !Ends([])
  {
  }

  // ---------------------------------------------------------------- one answer for the bytes that were sent

  /** The response at the front of `data` ends within it and within the limit. */
  predicate HoldsResponse(data: Bytes, lossy: Bytes -> string) {
    ContentComplete(data, lossy) && DeclaredEnd(data, lossy).value <= LIMIT
  }

  /** The answer to a peer that sends `data` and then, if anything more is read, `last`. */
  function Answer(data: Bytes, last: Read, lossy: Bytes -> string): Result<seq<Element>> {
    if HoldsResponse(data, lossy) then Judge(data[..DeclaredEnd(data, lossy).value])
    else if |data| > LIMIT then Err(TooLarge)
    else if last == Failed then Err(ReadFailed)
    else if last == TimedOut then Err(ReadTimedOut)
    else Judge(data)
  }

  /** The same error, or elements that say the same. */
  ghost predicate Alike(x: Result<seq<Element>>, y: Result<seq<Element>>, lossy: Bytes -> string) {
    if x.Ok? && y.Ok? then SameMeaning(x.value, y.value, lossy) else x == y
  }

  /** Two answers are alike exactly when they stand for the same map or error. */
  lemma SameResultExactlyWhen(
      a: Result<Attributes>, x: Result<seq<Element>>, b: Result<Attributes>, y: Result<seq<Element>>,
      lossy: Bytes -> string)
    requires Says(a, x, lossy) && Says(b, y, lossy)
    ensures a == b <==> Alike(x, y, lossy)
  {
    hide Groups, SameMeaning;
    if x.Ok? && y.Ok? {
      SameMapExactlyWhen(a.value, x.value, b.value, y.value, lossy);
    }
  }

  /** None of the fewer than `CHUNK` bytes that a read can bring in together with
      the end of a response passes the limit or changes what the response says. */
  ghost predicate Steady(data: Bytes, lossy: Bytes -> string) {
    HoldsResponse(data, lossy) ==>
      var end := DeclaredEnd(data, lossy).value;
      forall k: nat :: end <= k <= |data| && k < end + CHUNK ==>
        k <= LIMIT && Alike(Judge(data[..k]), Judge(data[..end]), lossy)
  }

  /** A sufficient case: nothing follows a response without an end tag, and nothing
      beyond the limit follows one that ends less than a read below it. */
  predicate Unambiguous(data: Bytes, lossy: Bytes -> string) {
    HoldsResponse(data, lossy) ==>
      var end := DeclaredEnd(data, lossy).value;
      && (|data| == end || (FindBlank(data[..end], 0).Some? && Ends(Body(data[..end]))))
      && (|data| <= LIMIT || end + CHUNK - 1 <= LIMIT)
  }

  lemma UnambiguousIsSteady(data: Bytes, lossy: Bytes -> string)
    requires Shortens(lossy) && Unambiguous(data, lossy)
    ensures Steady(data, lossy)
  {
    hide Judge, DeclaredEnd, FindBlank, Ends, Body, SameMeaning;
    if HoldsResponse(data, lossy) {
      DeclaredEndOfResponse(data, lossy);
      var end := DeclaredEnd(data, lossy).value;
      var full := data[..end];
      HeadersAreLong(full, lossy);
      forall k: nat | end <= k <= |data| && k < end + CHUNK
        ensures k <= LIMIT && Alike(Judge(data[..k]), Judge(full), lossy)
      {
        assert data[..k] == full + data[end..k];
        JudgeIgnoresWhatFollows(full, data[end..k]);
        Reflexive(Judge(full), lossy);
      }
    }
  }

  lemma Reflexive(x: Result<seq<Element>>, lossy: Bytes -> string)
    ensures Alike(x, x, lossy)
  {
  }

  /** After `data` the loop does not wait for another chunk. */
  predicate Settled(data: Bytes, last: Read, lossy: Bytes -> string) {
    !last.Chunk? || HoldsResponse(data, lossy) || |data| > LIMIT
  }

  /** Cutting off what follows the response does not move its end. */
  lemma DeclaredEndOfResponse(data: Bytes, lossy: Bytes -> string)
    requires Shortens(lossy) && HoldsResponse(data, lossy)
    ensures var end := DeclaredEnd(data, lossy).value;
            15 <= end && DeclaredEnd(data[..end], lossy) == Some(end)
  {
    var end := DeclaredEnd(data, lossy).value;
    var split := FindBlank(data, 0).value;
    HeadersAreLong(data, lossy);
    assert forall i: nat :: i <= split ==> BlankAt(data[..end], i) == BlankAt(data, i);
    assert data[..end][..split] == data[..split];
  }

  lemma AnswerOfResponse(stream: nat -> Read, count: nat, data: Bytes, last: Read, lossy: Bytes -> string)
    requires Shortens(lossy) && Delivers(stream, 0, count, data)
    requires HoldsResponse(data, lossy) && Steady(data, lossy)
    ensures Alike(Query(stream, lossy), Answer(data, last, lossy), lossy)
  {
    hide Receive, Judge, DeclaredEnd, Delivers, Alike;
    DeclaredEndOfResponse(data, lossy);
    var end := DeclaredEnd(data, lossy).value;
    var most := if |data| < end + CHUNK then |data| else end + CHUNK - 1;
    assert Alike(Judge(data[..most]), Judge(data[..end]), lossy);
    assert [] + data == data;
    StopsWhenComplete(stream, 0, count, [], data, end, lossy);
    var received := Receive(stream, 0, [], lossy).value;
    assert received == data[..|received|];
  }

  lemma CompleteWithinLimit(data: Bytes, lossy: Bytes -> string)
    requires |data| > LIMIT && ContentComplete(data[..LIMIT], lossy)
    ensures HoldsResponse(data, lossy)
  {
    CompleteIsMonotone(data[..LIMIT], data[LIMIT..], lossy);
    assert data[..LIMIT] + data[LIMIT..] == data;
  }

  /** The answer is a function of the bytes that were sent and of how the stream
      ended, for responses with and without a content length, for streams that
      close early, fail or run over the limit, and for any way of cutting the bytes
      into reads. */
  lemma AnswerIsDetermined(stream: nat -> Read, count: nat, data: Bytes, lossy: Bytes -> string)
    requires Shortens(lossy) && Delivers(stream, 0, count, data)
    requires Settled(data, stream(count), lossy) && Steady(data, lossy)
    ensures Alike(Query(stream, lossy), Answer(data, stream(count), lossy), lossy)
  {
    hide Judge, Steady, ContentComplete, Alike;
    Reflexive(Query(stream, lossy), lossy);
    assert [] + data == data;
    if HoldsResponse(data, lossy) {
      AnswerOfResponse(stream, count, data, stream(count), lossy);
    } else if |data| > LIMIT {
      if ContentComplete(data[..LIMIT], lossy) {
        CompleteWithinLimit(data, lossy);
      }
      RunsOver(stream, 0, count, [], data, lossy);
    } else {
      NoResponseYet(data, lossy);
      ReadsOn(stream, 0, count, [], data, lossy);
    }
  }

  lemma NoResponseYet(data: Bytes, lossy: Bytes -> string)
    requires |data| <= LIMIT && !HoldsResponse(data, lossy)
    ensures !ContentComplete(data, lossy)
  {
  }

  lemma AlikeThrough(
      x: Result<seq<Element>>, y: Result<seq<Element>>, z: Result<seq<Element>>, lossy: Bytes -> string)
    requires Alike(x, z, lossy) && Alike(y, z, lossy)
    ensures Alike(x, y, lossy)
  {
  }

  /** Any two ways of delivering the same bytes give the same attribute map or the
      same error. */
  lemma ChunkingDoesNotMatter(
      a: nat -> Read, m: nat, b: nat -> Read, n: nat, data: Bytes, lossy: Bytes -> string,
      resultA: Result<Attributes>, resultB: Result<Attributes>)
    requires Shortens(lossy) && Steady(data, lossy)
    requires Delivers(a, 0, m, data) && Delivers(b, 0, n, data)
    requires Settled(data, a(m), lossy) && (a(m) == b(n) || HoldsResponse(data, lossy) || |data| > LIMIT)
    requires Says(resultA, Query(a, lossy), lossy) && Says(resultB, Query(b, lossy), lossy)
    ensures resultA == resultB
  {
    hide Query, HoldsResponse, Steady, Alike, Says;
    AnswerIsDetermined(a, m, data, lossy);
    AnswerIsDetermined(b, n, data, lossy);
    AlikeThrough(Query(a, lossy), Query(b, lossy), Answer(data, a(m), lossy), lossy);
    SameResultExactlyWhen(resultA, Query(a, lossy), resultB, Query(b, lossy), lossy);
  }

  // ---------------------------------------------------------------- where following bytes matter

  /** Where read `i` of `Jumping` starts. */
  function Mark(start: nat, stop: nat, i: nat): nat
    requires start < stop
  {
    if i <= start then i else stop + (i - start - 1)
  }

  /** One byte a read up to `start`, then all up to `stop` in one read, then one byte
      a read again, and then the end. */
  function Jumping(data: Bytes, start: nat, stop: nat): nat -> Read
    requires start < stop <= |data| && stop - start <= CHUNK
  {
    (i: nat) =>
      if Mark(start, stop, i) < |data| then Chunk(data[Mark(start, stop, i)..Mark(start, stop, i + 1)]) else Closed
  }

  lemma ReadFirst(stream: nat -> Read, i: nat, count: nat, first: Piece, rest: Bytes)
    requires stream(i) == Chunk(first) && Delivers(stream, i + 1, count, rest)
    ensures Delivers(stream, i, count + 1, first + rest)
  {
    assert (first + rest)[|first|..] == rest;
  }

  lemma MarksGrow(start: nat, stop: nat, i: nat, j: nat)
    requires start < stop && i <= j
    ensures Mark(start, stop, i) <= Mark(start, stop, j)
    ensures i < j ==> Mark(start, stop, i) < Mark(start, stop, i + 1) <= Mark(start, stop, i) + (stop - start)
  {
  }

  lemma OneJump(data: Bytes, start: nat, stop: nat, i: nat)
    requires start < stop <= |data| && stop - start <= CHUNK && Mark(start, stop, i + 1) <= |data|
    ensures var from, next := Mark(start, stop, i), Mark(start, stop, i + 1);
            from < next <= from + CHUNK && Jumping(data, start, stop)(i) == Chunk(data[from..next])
  {
    hide Mark;
    MarksGrow(start, stop, i, i + 1);
  }

  lemma {:induction false} JumpingDelivers(data: Bytes, start: nat, stop: nat, i: nat, j: nat)
    requires start < stop <= |data| && stop - start <= CHUNK
    requires i <= j && Mark(start, stop, j) <= |data|
    ensures Mark(start, stop, i) <= Mark(start, stop, j)
    ensures Delivers(Jumping(data, start, stop), i, j - i, data[Mark(start, stop, i)..Mark(start, stop, j)])
    decreases j - i
  {
    hide Mark, Jumping;
    if i < j {
      hide Delivers;
      MarksGrow(start, stop, i + 1, j);
      OneJump(data, start, stop, i);
      JumpingDelivers(data, start, stop, i + 1, j);
      var from, next, last := Mark(start, stop, i), Mark(start, stop, i + 1), Mark(start, stop, j);
      assert data[from..last] == data[from..next] + data[next..last];
      ReadFirst(Jumping(data, start, stop), i, j - i - 1, data[from..next], data[next..last]);
    }
  }

  /** All of it is delivered, and then the stream closes. */
  lemma JumpingWhole(data: Bytes, start: nat, stop: nat) returns (count: nat)
    requires start < stop <= |data| && stop - start <= CHUNK
    ensures Delivers(Jumping(data, start, stop), 0, count, data) && Jumping(data, start, stop)(count) == Closed
  {
    count := start + 1 + (|data| - stop);
    JumpingDelivers(data, start, stop, 0, count);
    assert data[0..|data|] == data;
  }

  lemma AroundTheEnd(data: Bytes, end: nat, stop: nat, lossy: Bytes -> string)
    requires 0 < end <= stop <= |data| && DeclaredEnd(data[..end], lossy) == Some(end)
    ensures !ContentComplete(data[..end - 1], lossy) && ContentComplete(data[..stop], lossy)
  {
    hide DeclaredEnd;
    assert data[..end - 1] + [data[end - 1]] == data[..end] && data[..end] + data[end..stop] == data[..stop];
    CompleteIsMonotone(data[..end - 1], [data[end - 1]], lossy);
    CompleteIsMonotone(data[..end], data[end..stop], lossy);
  }

  lemma JumpingReads(data: Bytes, start: nat, stop: nat)
    requires start < stop <= |data| && stop - start <= CHUNK
    ensures Jumping(data, start, stop)(start) == Chunk(data[start..stop])
    ensures Delivers(Jumping(data, start, stop), 0, start, data[..start])
  {
    JumpingDelivers(data, start, stop, 0, start);
    assert data[0..start] == data[..start];
  }

  /** A read that brings in the last byte of a response together with what stands
      before `stop` decides the answer. */
  lemma JumpDecides(data: Bytes, end: nat, stop: nat, lossy: Bytes -> string)
    requires 0 < end <= stop <= |data| && end <= LIMIT && stop < end + CHUNK
    requires DeclaredEnd(data[..end], lossy) == Some(end)
    ensures Receive(Jumping(data, end - 1, stop), 0, [], lossy) ==
            if stop > LIMIT then Err(TooLarge) else Ok(data[..stop])
  {
    hide DeclaredEnd, ContentComplete, Delivers, Jumping;
    var stream, front := Jumping(data, end - 1, stop), data[..end - 1];
    AroundTheEnd(data, end, stop, lossy);
    JumpingReads(data, end - 1, stop);
    assert [] + front == front && front + data[end - 1..stop] == data[..stop];
    ReadsOn(stream, 0, end - 1, [], front, lossy);
  }

  lemma SomeUnsteadyPlace(data: Bytes, lossy: Bytes -> string) returns (k: nat)
    requires !Steady(data, lossy)
    ensures HoldsResponse(data, lossy)
    ensures var end := DeclaredEnd(data, lossy).value;
            end <= k <= |data| && k < end + CHUNK &&
            (k <= LIMIT ==> !Alike(Judge(data[..k]), Judge(data[..end]), lossy))
  {
    hide DeclaredEnd, Judge, Alike;
    var end := DeclaredEnd(data, lossy).value;
    k :| end <= k <= |data| && k < end + CHUNK &&
         !(k <= LIMIT && Alike(Judge(data[..k]), Judge(data[..end]), lossy));
  }

  /** For bytes that are not steady, two ways of delivering all of them, and nothing
      else, have two answers. */
  lemma UnsteadyHasTwoAnswers(data: Bytes, lossy: Bytes -> string)
    returns (a: nat -> Read, m: nat, b: nat -> Read, n: nat)
    requires Shortens(lossy) && !Steady(data, lossy)
    ensures Delivers(a, 0, m, data) && a(m) == Closed
    ensures Delivers(b, 0, n, data) && b(n) == Closed
    ensures !Alike(Query(a, lossy), Query(b, lossy), lossy)
  {
    hide Delivers, Receive, DeclaredEnd, Judge, Jumping, SameMeaning, Steady;
    var k := SomeUnsteadyPlace(data, lossy);
    DeclaredEndOfResponse(data, lossy);
    var end := DeclaredEnd(data, lossy).value;
    a, b := Jumping(data, end - 1, k), Jumping(data, end - 1, end);
    m := JumpingWhole(data, end - 1, k);
    n := JumpingWhole(data, end - 1, end);
    JumpDecides(data, end, k, lossy);
    JumpDecides(data, end, end, lossy);
  }

  /** Every two ways of delivering exactly `data` have the same answer. */
  ghost predicate OneAnswer(data: Bytes, lossy: Bytes -> string) {
    forall a: nat -> Read, m: nat, b: nat -> Read, n: nat ::
      Delivers(a, 0, m, data) && Delivers(b, 0, n, data) && a(m) == Closed && b(n) == Closed ==>
        Alike(Query(a, lossy), Query(b, lossy), lossy)
  }

  /** The cutting into reads is irrelevant exactly for steady bytes. */
  lemma OneAnswerExactlyWhenSteady(data: Bytes, lossy: Bytes -> string)
    requires Shortens(lossy)
    ensures OneAnswer(data, lossy) <==> Steady(data, lossy)
  {
    hide Query, Steady, Alike, Delivers, HoldsResponse;
    if Steady(data, lossy) {
      forall a: nat -> Read, m: nat, b: nat -> Read, n: nat |
        Delivers(a, 0, m, data) && Delivers(b, 0, n, data) && a(m) == Closed && b(n) == Closed
        ensures Alike(Query(a, lossy), Query(b, lossy), lossy)
      {
        AnswerIsDetermined(a, m, data, lossy);
        AnswerIsDetermined(b, n, data, lossy);
        AlikeThrough(Query(a, lossy), Query(b, lossy), Answer(data, Closed, lossy), lossy);
      }
    } else {
      var a, m, b, n := UnsteadyHasTwoAnswers(data, lossy);
    }
  }

  // ---------------------------------------------------------------- a response with two answers

  /** Every byte as the character of the same number. */
  function Latin1(b: Bytes): (s: string)
    ensures |s| == |b|
  {
    seq(|b|, i requires 0 <= i < |b| => b[i] as char)
  }

  lemma Latin1OfAscii(s: string)
    requires IsAscii(s)
    ensures Latin1(Ascii(s)) == s
  {
  }

  /** A response whose eight bytes of body hold no attribute and no end tag. */
  function Unfinished(): Bytes {
    Ascii("HTTP/1.1 200\r\ncontent-length:8\r\n\r\n") + [1, 1, 0, 0, 0, 0, 0, 1]
  }

  lemma UnfinishedBlank()
    ensures FindBlank(Unfinished(), 0) == Some(30)
  {
    assert BlankAt(Unfinished(), 30);
    assert forall i: nat :: i < 30 ==> !BlankAt(Unfinished(), i);
  }

  lemma UnfinishedHeaders()
    ensures Latin1(Unfinished()[..30]) == "HTTP/1.1 200\r" + "\n" + "content-length:8"
  {
    hide Latin1;
    var headers := "HTTP/1.1 200\r\ncontent-length:8";
    Latin1OfAscii(headers);
    assert Unfinished()[..30] == Ascii(headers);
  }

  lemma UnfinishedLines()
    ensures Lines("HTTP/1.1 200\r" + "\n" + "content-length:8") == ["HTTP/1.1 200", "content-length:8"]
  {
    var text := "HTTP/1.1 200\r" + "\n" + "content-length:8";
    assert text[13] == '\n';
    assert Find(text, '\n') == Some(13);
    assert text[14..] == "content-length:8" && text[..12] == "HTTP/1.1 200";
    assert '\n' !in "content-length:8";
    assert Lines("content-length:8") == ["content-length:8"];
  }

  lemma Eight()
    ensures ParseUnsigned(Trim("8"), 10, USIZE_MAX) == Some(8)
  {
    assert TrimStart("8") == "8" && TrimEnd("8") == "8";
    assert "8"[..0] == "";
    assert Number("8", 10) == 8;
  }

  lemma LengthOfLine()
    requires ParseUnsigned(Trim("8"), 10, USIZE_MAX) == Some(8)
    ensures LineLength("content-length:8") == Some(8)
  {
    hide ParseUnsigned, Trim, Find;
    var line := "content-length:8";
    assert line[14] == ':' && ':' !in line[..14];
    assert Find(line, ':') == Some(14);
    assert line[..14] == "content-length" && line[15..] == "8";
  }

  lemma UnfinishedLength()
    ensures FirstLength(["HTTP/1.1 200", "content-length:8"]) == Some(8)
  {
    hide ParseUnsigned, Trim;
    Eight();
    assert LineLength("HTTP/1.1 200") == None by {
      assert ':' !in "HTTP/1.1 200";
    }
    LengthOfLine();
    var lines := ["HTTP/1.1 200", "content-length:8"];
    assert lines[1..] == ["content-length:8"];
    assert FirstLength(lines[1..]) == LineLength("content-length:8");
  }

  /** One keyword on the wire: `a` is `b`. */
  const KEYWORD: Bytes := [0x44, 0, 1, 97, 0, 1, 98]

  lemma KeywordMeans()
    ensures Scan(KEYWORD) == [Entry(0x44, [97], [98])] && Scan([]) == []
    ensures !SameMeaning(Scan(KEYWORD), Scan([]), Latin1)
  {
    var e := Entry(0x44, [97], [98]);
    assert KEYWORD[3..4] == [97] && KEYWORD[6..7] == [98] && KEYWORD[7..] == [];
    assert ReadEntry(KEYWORD) == Some(e);
    assert Scan(KEYWORD) == [e];
    assert [e][..0] == [];
    assert ValuesOf([e], Latin1([97]), Latin1) == [Text(Latin1([98]))];
    assert ValuesOf([], Latin1([97]), Latin1) == [];
  }

  lemma UnfinishedEnds()
    ensures DeclaredEnd(Unfinished(), Latin1) == Some(42)
  {
    hide FindBlank, Lines, FirstLength, Latin1, Unfinished;
    UnfinishedBlank();
    UnfinishedHeaders();
    UnfinishedLines();
    UnfinishedLength();
  }

  lemma UnfinishedAnswers()
    ensures |Unfinished()| == 42
    ensures Judge(Unfinished()) == Ok(Scan([])) && Judge(Unfinished() + KEYWORD) == Ok(Scan(KEYWORD))
  {
    hide FindBlank, Scan;
    UnfinishedBlank();
    FindBlankStable(Unfinished(), KEYWORD);
    var full := Unfinished();
    assert full[34..] == [1, 1, 0, 0, 0, 0, 0, 1];
    assert (full + KEYWORD)[34..] == full[34..] + KEYWORD;
    assert AfterHeader(full[34..]) == [] && AfterHeader(full[34..] + KEYWORD) == KEYWORD;
    assert full[..12] == Ascii("HTTP/1.1 200") && (full + KEYWORD)[..12] == full[..12];
  }

  /** A concrete case: a response without an end tag that an attribute follows is
      answered in two ways. */
  lemma UnfinishedHasTwoAnswers() returns (a: nat -> Read, m: nat, b: nat -> Read, n: nat, data: Bytes)
    ensures Shortens(Latin1) && Delivers(a, 0, m, data) && Delivers(b, 0, n, data) && a(m) == b(n) == Closed
    ensures !Alike(Query(a, Latin1), Query(b, Latin1), Latin1)
  {
    hide Latin1, Query, Delivers, DeclaredEnd, Judge, Unfinished, SameMeaning, Scan;
    data := Unfinished() + KEYWORD;
    UnfinishedEnds();
    UnfinishedAnswers();
    KeywordMeans();
    CompleteIsMonotone(Unfinished(), KEYWORD, Latin1);
    assert data[..42] == Unfinished() && data[..49] == data;
    assert !Alike(Judge(data[..49]), Judge(data[..42]), Latin1);
    a, m, b, n := UnsteadyHasTwoAnswers(data, Latin1);
  }
}

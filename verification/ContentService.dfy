// Serving resources over HTTP: byte ranges and the loop that streams a file.
module ContentService {
  import opened Wrappers
  import opened Text
  import opened Titles
  import opened Keys
  import opened StoreModel
  import opened StoreService

  newtype Byte = b: int | 0 <= b < 256

  const UINT64_SIZE: int := UINT64_MAX + 1
  const BUFFER_SIZE: nat := 4096

  datatype HttpError = NotFound | RangeNotSatisfiable

  // ----- The Range header -----

  datatype Range = Range(first: Option<nat>, last: Option<nat>)

  const NO_RANGE: Range := Range(None, None)

  predicate Fits64(n: Option<nat>) {
    n.Some? ==> n.value <= UINT64_MAX
  }

  function DigitPrefix(s: string): (digits: string)
    ensures digits <= s && AllDigits(digits)
    ensures |digits| < |s| ==> !IsDigit(s[|digits|])
  {
    if s == [] || !IsDigit(s[0]) then [] else [s[0]] + DigitPrefix(s[1..])
  }

  // "bytes=", two optional 64-bit numbers with a dash between, and no more.
  function ParseRange(header: string): (r: Option<Range>)
    ensures r.Some? ==> Fits64(r.value.first) && Fits64(r.value.last)
  {
    if !("bytes=" <= header) then None
    else
      var text := header[6..];
      var first := DigitPrefix(text);
      var rest := text[|first|..];
      if rest == [] || rest[0] != '-' then None
      else
        var last := rest[1..];
        if (first != [] && ParseUint64(first).None?) || (last != [] && ParseUint64(last).None?) then None
        else Some(Range(if first == [] then None else ParseUint64(first), if last == [] then None else ParseUint64(last)))
  }

  function FormatOptional(n: Option<nat>): string {
    if n.Some? then FormatNat(n.value) else ""
  }

  // Every range a client can write in this form is read back as written.
  lemma ParseRangeReadsBack(range: Range)
    requires Fits64(range.first) && Fits64(range.last)
    ensures ParseRange("bytes=" + FormatOptional(range.first) + "-" + FormatOptional(range.last)) == Some(range)
  {
    hide FormatNat, DecimalValue;
    var first, last := FormatOptional(range.first), FormatOptional(range.last);
    var header := "bytes=" + first + "-" + last;
    assert header[6..] == first + ("-" + last);
    DigitPrefixOf(first, "-" + last);
    assert (first + ("-" + last))[|first|..] == "-" + last;
    assert ("-" + last)[1..] == last;
  }

  // And nothing else is read as a range.
  lemma ParseRangeOnly(header: string) returns (first: string, last: string)
    requires ParseRange(header).Some?
    ensures header == "bytes=" + first + "-" + last && AllDigits(first) && AllDigits(last)
    ensures var range := ParseRange(header).value;
            && range.first == (if first == [] then None else Some(DecimalValue(first)))
            && range.last == (if last == [] then None else Some(DecimalValue(last)))
  {
    hide DecimalValue;
    var text := header[6..];
    first := DigitPrefix(text);
    var rest := text[|first|..];
    last := rest[1..];
    assert text == first + rest && rest == "-" + last;
    assert header == "bytes=" + text;
    assert AllDigits(last) by {
      if last != [] {
        assert ParseUint64(last).Some?;
      }
    }
  }

  lemma {:induction false} DigitPrefixOf(digits: string, rest: string)
    requires AllDigits(digits) && rest != [] && !IsDigit(rest[0])
    ensures DigitPrefix(digits + rest) == digits
  {
    if digits == [] {
      assert digits + rest == rest;
    } else {
      assert (digits + rest)[1..] == digits[1..] + rest;
      DigitPrefixOf(digits[1..], rest);
    }
  }

  // ----- The window of a response -----

  // What a response announces, and where in the file it starts.
  datatype Window = Window(first: int, last: int, length: int)

  function Wrap(n: int): (r: nat)
    ensures r <= UINT64_MAX
  {
    n % UINT64_SIZE
  }

  lemma WrapIs(n: int)
    requires -UINT64_SIZE <= n <= UINT64_SIZE
    ensures Wrap(n) == if n < 0 then n + UINT64_SIZE else if n < UINT64_SIZE then n else 0
  {
    if n < 0 {
      assert (n + UINT64_SIZE) / UINT64_SIZE == 0;
    }
  }

  // The window computed for a range, in 64-bit arithmetic.
  function WindowOf(range: Range, size: nat): Result<Window, HttpError>
    requires range != NO_RANGE
  {
    match range
    case Range(Some(first), Some(last)) =>
      if first > last || first >= size then Err(RangeNotSatisfiable)
      else Ok(Window(first, last, Wrap(last - first + 1)))
    case Range(Some(first), None) =>
      if first >= size then Err(RangeNotSatisfiable)
      else Ok(Window(first, size - 1, size - first))
    case Range(None, Some(count)) =>
      var last := Min(size, count);
      Ok(Window(size - last, last, Wrap(last - (size - last) + 1)))
    case Range(None, None) => Err(RangeNotSatisfiable)
  }

  // The bytes a range selects by section 2.1 of RFC 7233. A range that is not
  // satisfiable, or invalid since its ends are the wrong way round, selects
  // none; section 4.4 has both answered with 416.
  function Selected(range: Range, size: nat): Option<(int, int)> {
    match range
    case Range(Some(first), Some(last)) =>
      if first <= last && first < size then Some((first, Min(last, size - 1))) else None
    case Range(Some(first), None) =>
      if first < size then Some((first, size - 1)) else None
    case Range(None, Some(count)) =>
      if count > 0 && size > 0 then Some((size - Min(count, size), size - 1)) else None
    case Range(None, None) => None
  }

  predicate MeetsRfc(range: Range, size: nat)
    requires range != NO_RANGE
  {
    match WindowOf(range, size)
    case Err(_) => Selected(range, size).None?
    case Ok(w) => Selected(range, size) == Some((w.first, w.last)) && w.length == w.last - w.first + 1
  }

  // What a client can check before asking: a range with both ends must end
  // inside the file, and a suffix must be one byte shorter than the file.
  predicate RangeIsServed(range: Range, size: nat)
    requires range != NO_RANGE
  {
    match range
    case Range(Some(first), Some(last)) => last < size || first > last || first >= size
    case Range(Some(_), None) => true
    case Range(None, Some(count)) => count > 0 && count == size - 1
    case Range(None, None) => false
  }

  // The window is the one the standard selects exactly for those ranges.
  lemma MeetsRfcExactly(range: Range, size: nat)
    requires range != NO_RANGE && Fits64(range.first) && Fits64(range.last) && size <= UINT64_MAX
    ensures MeetsRfc(range, size) <==> RangeIsServed(range, size)
  {
  }

  // Ranges for which the standard selects another window than the code announces.
  lemma UnservedRanges()
    ensures WindowOf(Range(None, Some(10)), 100) == Ok(Window(90, 10, UINT64_SIZE - 79))
    ensures Selected(Range(None, Some(10)), 100) == Some((90, 99))
    ensures WindowOf(Range(None, Some(60)), 100) == Ok(Window(40, 60, 21))
    ensures Selected(Range(None, Some(60)), 100) == Some((40, 99))
    ensures WindowOf(Range(Some(0), Some(200)), 100) == Ok(Window(0, 200, 201))
    ensures Selected(Range(Some(0), Some(200)), 100) == Some((0, 99))
  {
  }

  // The window lies in the file.
  predicate Inside(w: Window, size: nat) {
    0 <= w.first && w.first + w.length <= size
  }

  // It does so exactly for these ranges: both ends inside the file, or a suffix
  // of at least about half the file that is not all of it. Two ranges more
  // have a length that wraps to 0, from the largest 64-bit number on.
  predicate StreamsToEnd(range: Range, size: nat)
    requires range != NO_RANGE
  {
    match range
    case Range(Some(first), Some(last)) => last < size || (first == 0 && last == UINT64_MAX)
    case Range(Some(_), None) => true
    case Range(None, Some(count)) => count < size <= 2 * count + 1 || (size == UINT64_MAX && count == UINT64_MAX)
    case Range(None, None) => false
  }

  lemma InsideExactly(range: Range, size: nat)
    requires range != NO_RANGE && Fits64(range.first) && Fits64(range.last) && size <= UINT64_MAX
    requires WindowOf(range, size).Ok?
    ensures Inside(WindowOf(range, size).value, size) <==> StreamsToEnd(range, size)
  {
    hide Wrap;
    match range
    case Range(Some(first), Some(last)) => WrapIs(last - first + 1);
    case Range(None, Some(count)) =>
      var m := Min(size, count);
      WrapIs(m - (size - m) + 1);
    case _ =>
  }

  // Every range the code serves as the standard says lies in the file.
  lemma ServedIsInside(range: Range, size: nat)
    requires range != NO_RANGE && Fits64(range.first) && Fits64(range.last) && size <= UINT64_MAX
    requires RangeIsServed(range, size) && WindowOf(range, size).Ok?
    ensures Inside(WindowOf(range, size).value, size)
  {
    InsideExactly(range, size);
  }

  // ----- Responses -----

  datatype Response = Response(partial: bool, contentRange: Option<(int, int, nat)>, contentLength: int,
                               file: seq<Byte>, position: int)

  type Files = map<string, seq<Byte>>

  ghost predicate FilesFit64(files: Files) {
    forall name :: name in files ==> |files[name]| <= UINT64_MAX
  }

  function RequestedRange(header: string): Option<Range> {
    if header == "" then Some(NO_RANGE) else ParseRange(header)
  }

  function ResponseFor(file: seq<Byte>, range: Range): Result<Response, HttpError> {
    if range == NO_RANGE then Ok(Response(false, None, |file|, file, 0))
    else
      var window := WindowOf(range, |file|);
      if window.Err? then Err(window.error)
      else
        var w := window.value;
        Ok(Response(true, Some((w.first, w.last, |file|)), w.length, file, w.first))
  }

  // The response headers and the opened file, computed step by step.
  method CreateResponse(subPath: string, rangeHeader: string, store: StoreService, files: Files)
    returns (r: Result<Response, HttpError>)
    requires store.Valid() && FilesFit64(files)
    ensures match ParseInt64(subPath)
            case None => r == Err(NotFound)
            case Some(id) =>
              var contents := store.db.Contents();
              if RequestedRange(rangeHeader).None? then r == Err(RangeNotSatisfiable)
              else if ResourceKey(id) in contents && contents[ResourceKey(id)].ResourceRecord?
                      && UntilNul(contents[ResourceKey(id)].resource.location) in files then
                r == ResponseFor(files[UntilNul(contents[ResourceKey(id)].resource.location)],
                                 RequestedRange(rangeHeader).value)
              else r == Err(NotFound)
  {
    hide ParseInt64, ParseRange, UntilNul;
    var id := ParseInt64(subPath);
    if id.None? {
      return Err(NotFound);
    }
    var range := NO_RANGE;
    if rangeHeader != "" {
      var parsed := ParseRange(rangeHeader);
      if parsed.None? {
        return Err(RangeNotSatisfiable);
      }
      range := parsed.value;
    }
    var resource := store.GetResource(id.value);
    if resource.None? {
      return Err(NotFound);
    }
    var location := UntilNul(resource.value.location);
    if location !in files {
      return Err(NotFound);
    }
    var file := files[location];
    r := RangeResponse(file, range);
  }

  // The range arithmetic: both ends, then the size, are overwritten in turn.
  method RangeResponse(file: seq<Byte>, range: Range) returns (r: Result<Response, HttpError>)
    requires |file| <= UINT64_MAX && Fits64(range.first) && Fits64(range.last)
    ensures r == ResponseFor(file, range)
  {
    hide Wrap;
    WrapIs(|file| - 1);
    var size: int := |file|;
    var first, last := range.first, range.last;
    if first.None? && last.None? {
      return Ok(Response(false, None, size, file, 0));
    }
    if first.Some? && last.Some? && first.value > last.value {
      return Err(RangeNotSatisfiable);
    }
    if first.Some? && first.value >= size {
      return Err(RangeNotSatisfiable);
    }
    if last.None? {
      last := Some(Wrap(size - 1));
    }
    if first.None? {
      last := Some(Min(size, last.value));
      WrapIs(size - last.value);
      first := Some(Wrap(size - last.value));
    }
    var contentRange := (first.value, last.value, |file|);
    WrapIs(last.value - first.value + 1);
    size := Wrap(last.value - first.value + 1);
    return Ok(Response(true, Some(contentRange), size, file, first.value));
  }

  // ----- Streaming -----

  // A transfer under way: where the file is read, how much is left to send,
  // and what was sent.
  datatype Transfer = Transfer(position: nat, left: int, sent: seq<Byte>)

  // How many bytes a read of at most a given number yields: none at the end of
  // the file, else at least one.
  function ReadCount(file: seq<Byte>, position: nat, wanted: nat, short: nat): (n: nat)
    ensures n <= wanted
    ensures position + n <= |file| || n == 0
    ensures n == 0 <==> wanted == 0 || position >= |file|
  {
    if position >= |file| || wanted == 0 then 0
    else
      var available := if wanted < |file| - position then wanted else |file| - position;
      if short == 0 then 1 else if short < available then short else available
  }

  // One turn of the loop, with a read that may be short.
  function Turn(file: seq<Byte>, t: Transfer, short: nat): Transfer
    requires t.left >= 0
  {
    var n := ReadCount(file, t.position, Min(t.left, BUFFER_SIZE), short);
    Transfer(t.position + n, t.left - n, t.sent + if n == 0 then [] else file[t.position..t.position + n])
  }

  function Turns(file: seq<Byte>, t: Transfer, shorts: seq<nat>): (r: Transfer)
    requires t.left >= 0
    ensures r.left >= 0 && r.position + r.left == t.position + t.left && r.position >= t.position
    decreases |shorts|
  {
    if shorts == [] then t else Turns(file, Turn(file, t, shorts[0]), shorts[1..])
  }

  lemma {:induction false} TurnsAppend(file: seq<Byte>, t: Transfer, a: seq<nat>, b: seq<nat>)
    requires t.left >= 0
    ensures Turns(file, t, a + b) == Turns(file, Turns(file, t, a), b)
    decreases |a|
  {
    hide ReadCount;
    if a == [] {
      assert a + b == b;
    } else {
      assert (a + b)[0] == a[0] && (a + b)[1..] == a[1..] + b;
      TurnsAppend(file, Turn(file, t, a[0]), a[1..], b);
    }
  }

  // Turns send the bytes of the file in order and stay inside it.
  lemma {:induction false} TurnsSendFile(file: seq<Byte>, t: Transfer, shorts: seq<nat>)
    requires t.left >= 0 && t.position <= |file|
    ensures Turns(file, t, shorts).position <= |file|
    ensures Turns(file, t, shorts).sent == t.sent + file[t.position..Turns(file, t, shorts).position]
    decreases |shorts|
  {
    if shorts != [] {
      var next := Turn(file, t, shorts[0]);
      TurnsSendFile(file, next, shorts[1..]);
      var end := Turns(file, t, shorts).position;
      assert file[t.position..next.position] + file[next.position..end] == file[t.position..end];
    }
  }

  // Reads are never empty inside the file, so no more turns are needed than
  // there are bytes to send.
  lemma {:induction false} TurnsFinish(file: seq<Byte>, t: Transfer, shorts: seq<nat>)
    requires t.left >= 0 && t.position + t.left <= |file| && |shorts| >= t.left
    ensures Turns(file, t, shorts).left == 0
    decreases |shorts|
  {
    if shorts != [] {
      TurnsFinish(file, Turn(file, t, shorts[0]), shorts[1..]);
    }
  }

  // The loop comes to its end, after that many turns at most, when the window
  // lies in the file; otherwise never.
  ghost predicate EndsIf(inside: bool, file: seq<Byte>, t: Transfer)
    requires t.left >= 0
  {
    if inside then forall shorts :: |shorts| >= t.left ==> Turns(file, t, shorts).left == 0
    else forall shorts :: Turns(file, t, shorts).left > 0
  }

  // Past the end of the file a turn changes nothing.
  lemma StreamEndsExactly(file: seq<Byte>, t: Transfer)
    requires t.left >= 0 && t.position <= |file|
    ensures EndsIf(t.position + t.left <= |file|, file, t)
    ensures t.position == |file| ==> forall short :: Turn(file, t, short) == t
  {
    forall shorts | |shorts| >= t.left && t.position + t.left <= |file| ensures Turns(file, t, shorts).left == 0 {
      TurnsFinish(file, t, shorts);
    }
    forall shorts | t.position + t.left > |file| ensures Turns(file, t, shorts).left > 0 {
      TurnsSendFile(file, t, shorts);
    }
  }

  lemma WindowStarts(range: Range, size: nat)
    requires range != NO_RANGE && WindowOf(range, size).Ok?
    ensures 0 <= WindowOf(range, size).value.first <= size && 0 <= WindowOf(range, size).value.length
  {
    hide Wrap;
  }

  // The streaming loop of a request ends exactly for the ranges of a condition
  // a client can check, however short the reads are.
  lemma RequestEndsExactly(file: seq<Byte>, range: Range)
    requires range != NO_RANGE && Fits64(range.first) && Fits64(range.last) && |file| <= UINT64_MAX
    requires WindowOf(range, |file|).Ok?
    ensures var w := WindowOf(range, |file|).value;
            && 0 <= w.first <= |file| && 0 <= w.length
            && EndsIf(StreamsToEnd(range, |file|), file, Transfer(w.first, w.length, []))
  {
    hide WindowOf, StreamsToEnd, EndsIf;
    var w := WindowOf(range, |file|).value;
    WindowStarts(range, |file|);
    InsideExactly(range, |file|);
    StreamEndsExactly(file, Transfer(w.first, w.length, []));
  }

  // The first 201 bytes of a file of 100 are announced, and never all sent.
  lemma EndlessRequest(file: seq<Byte>)
    requires |file| == 100
    ensures ResponseFor(file, Range(Some(0), Some(200))) == Ok(Response(true, Some((0, 200, 100)), 201, file, 0))
    ensures forall shorts :: Turns(file, Transfer(0, 201, []), shorts).left > 0
  {
    RequestEndsExactly(file, Range(Some(0), Some(200)));
  }

  // What happens in one turn: a read of up to so many bytes, sent or not, or a
  // read error.
  datatype Event = Sent(short: nat) | ReadFailed | SendFailed(short: nat)

  ghost predicate AllSent(events: seq<Event>) {
    forall i :: 0 <= i < |events| ==> events[i].Sent?
  }

  ghost function Shorts(events: seq<Event>): (shorts: seq<nat>)
    requires AllSent(events)
    ensures |shorts| == |events|
  {
    seq(|events|, i requires 0 <= i < |events| => events[i].short)
  }

  // What has become of a transfer after some turns.
  datatype Outcome = Completed | Broken | UnderWay

  // Streams a window of a file, for as many turns as there are events: the
  // bytes of the window in order and nothing else. Without failures it does
  // what the turns do.
  method StreamBody(file: seq<Byte>, position: nat, size: nat, events: seq<Event>)
    returns (outcome: Outcome, sent: seq<Byte>)
    requires position <= |file|
    ensures sent <= file[position..Min(position + size, |file|)]
    ensures outcome.Completed? ==> position + size <= |file| && sent == file[position..position + size]
    ensures AllSent(events) ==>
              var t := Turns(file, Transfer(position, size, []), Shorts(events));
              sent == t.sent && outcome == if t.left == 0 then Completed else UnderWay
    ensures AllSent(events) && |events| >= size && position + size <= |file| ==> outcome.Completed?
  {
    hide Turns, Turn;
    sent := [];
    var left := size;
    var at := position;
    var turn := 0;
    ghost var start, window := Transfer(position, size, []), file[position..Min(position + size, |file|)];
    NoTurns(file, start);
    while true
      invariant 0 <= left <= size && position <= at == position + (size - left) <= |file|
      invariant sent == file[position..at]
      invariant 0 <= turn <= |events| && AllSent(events[..turn])
      invariant Transfer(at, left, sent) == Turns(file, start, Shorts(events[..turn]))
      decreases |events| - turn
    {
      assert window[..at - position] == sent;
      var wanted := if left < BUFFER_SIZE then left else BUFFER_SIZE;
      if wanted == 0 {
        StopsWhenDone(file, start, events, turn);
        return Completed, sent;
      }
      if turn == |events| {
        assert events[..turn] == events;
        if |events| >= size && position + size <= |file| {
          TurnsFinish(file, start, Shorts(events));
        }
        return UnderWay, sent;
      }
      var event := events[turn];
      if event.ReadFailed? {
        return Broken, sent;
      }
      var n := ReadCount(file, at, wanted, event.short);
      var buffer := file[at..at + n];
      if event.SendFailed? {
        return Broken, sent;
      }
      assert file[position..at] + buffer == file[position..at + n];
      OneMoreTurn(file, start, events, turn);
      sent := sent + buffer;
      left := left - n;
      at := at + n;
      turn := turn + 1;
    }
  }

  lemma NoTurns(file: seq<Byte>, t: Transfer)
    requires t.left >= 0
    ensures Turns(file, t, []) == t
  {
  }

  lemma OneMoreTurn(file: seq<Byte>, start: Transfer, events: seq<Event>, turn: nat)
    requires turn < |events| && AllSent(events[..turn + 1]) && start.left >= 0 && AllSent(events[..turn])
    ensures var t := Turns(file, start, Shorts(events[..turn]));
            var n := ReadCount(file, t.position, Min(t.left, BUFFER_SIZE), events[turn].short);
            Turns(file, start, Shorts(events[..turn + 1]))
            == Transfer(t.position + n, t.left - n, t.sent + if n == 0 then [] else file[t.position..t.position + n])
  {
    assert Shorts(events[..turn + 1]) == Shorts(events[..turn]) + [events[turn].short];
    TurnsAppend(file, start, Shorts(events[..turn]), [events[turn].short]);
    assert [events[turn].short][1..] == [];
  }

  // Further turns would send nothing more.
  lemma StopsWhenDone(file: seq<Byte>, start: Transfer, events: seq<Event>, turn: nat)
    requires turn <= |events| && start.left >= 0 && AllSent(events[..turn])
    requires Turns(file, start, Shorts(events[..turn])).left == 0
    ensures AllSent(events) ==> Turns(file, start, Shorts(events)) == Turns(file, start, Shorts(events[..turn]))
  {
    if AllSent(events) {
      var t := Turns(file, start, Shorts(events[..turn]));
      assert Shorts(events) == Shorts(events[..turn]) + Shorts(events)[turn..];
      TurnsAppend(file, start, Shorts(events[..turn]), Shorts(events)[turn..]);
      NothingLeft(file, t, Shorts(events)[turn..]);
    }
  }

  lemma {:induction false} NothingLeft(file: seq<Byte>, t: Transfer, shorts: seq<nat>)
    requires t.left == 0
    ensures Turns(file, t, shorts) == t
    decreases |shorts|
  {
    if shorts != [] {
      NothingLeft(file, Turn(file, t, shorts[0]), shorts[1..]);
    }
  }

  datatype Reply = Reply(header: Response, body: seq<Byte>, outcome: Outcome)

  // The window of a response lies in its file.
  predicate Streamable(response: Response) {
    0 <= response.position && 0 <= response.contentLength
    && response.position + response.contentLength <= |response.file|
  }

  // What a reply to a request for a file is: the header of the response, and of
  // its body as much as the turns of the streaming loop have sent. A complete
  // body is exactly what Content-Length announces, and it becomes complete if
  // its window lies in the file and nothing fails.
  ghost predicate Answers(r: Result<Reply, HttpError>, file: seq<Byte>, range: Range, head: bool, events: seq<Event>) {
    match ResponseFor(file, range)
    case Err(e) => r == Err(e)
    case Ok(header) =>
      && r.Ok? && r.value.header == header
      && (head ==> r.value.body == [] && r.value.outcome.Completed?)
      && (!head && r.value.outcome.Completed? ==>
            && Streamable(header)
            && r.value.body == file[header.position..header.position + header.contentLength])
      && (!head && AllSent(events) && Streamable(header) && |events| >= header.contentLength ==>
            r.value.outcome.Completed?)
      && (!head && AllSent(events) ==> !r.value.outcome.Broken?)
  }

  // Answers a request, for as many turns as there are events: a path that is
  // the id of a stored resource gets the file at the resource's location.
  method HandleRequest(subPath: string, rangeHeader: string, head: bool, store: StoreService, files: Files,
                       events: seq<Event>)
    returns (r: Result<Reply, HttpError>)
    requires store.Valid() && FilesFit64(files)
    ensures match ParseInt64(subPath)
            case None => r == Err(NotFound)
            case Some(id) =>
              var contents := store.db.Contents();
              if RequestedRange(rangeHeader).None? then r == Err(RangeNotSatisfiable)
              else if ResourceKey(id) in contents && contents[ResourceKey(id)].ResourceRecord?
                      && UntilNul(contents[ResourceKey(id)].resource.location) in files then
                Answers(r, files[UntilNul(contents[ResourceKey(id)].resource.location)],
                        RequestedRange(rangeHeader).value, head, events)
              else r == Err(NotFound)
  {
    hide ParseInt64, RequestedRange, ResponseFor;
    var response := CreateResponse(subPath, rangeHeader, store, files);
    if response.Err? {
      return Err(response.error);
    }
    var header := response.value;
    ghost var record := store.db.Contents()[ResourceKey(ParseInt64(subPath).value)];
    ResponseStarts(files[UntilNul(record.resource.location)], RequestedRange(rangeHeader).value);
    if head {
      return Ok(Reply(header, [], Completed));
    }
    var outcome, body := StreamBody(header.file, header.position, header.contentLength, events);
    return Ok(Reply(header, body, outcome));
  }

  lemma ResponseStarts(file: seq<Byte>, range: Range)
    requires ResponseFor(file, range).Ok?
    ensures var header := ResponseFor(file, range).value;
            header.file == file && 0 <= header.position <= |file| && 0 <= header.contentLength
  {
    hide WindowOf;
    if range != NO_RANGE {
      WindowStarts(range, |file|);
    }
  }

  // The responses that can be sent to the end.
  lemma StreamableExactly(file: seq<Byte>, range: Range)
    requires |file| <= UINT64_MAX && Fits64(range.first) && Fits64(range.last) && ResponseFor(file, range).Ok?
    ensures Streamable(ResponseFor(file, range).value) <==> range == NO_RANGE || StreamsToEnd(range, |file|)
  {
    hide WindowOf, StreamsToEnd;
    if range != NO_RANGE {
      WindowStarts(range, |file|);
      InsideExactly(range, |file|);
    }
  }

  // Without a range the whole file is announced and sent; with one the
  // standard selects and the code serves, exactly the selected bytes.
  lemma ServedResponseIsSelection(file: seq<Byte>, range: Range)
    requires |file| <= UINT64_MAX && Fits64(range.first) && Fits64(range.last)
    requires range == NO_RANGE || RangeIsServed(range, |file|)
    ensures var r := ResponseFor(file, range);
            if range == NO_RANGE then
              r == Ok(Response(false, None, |file|, file, 0)) && Streamable(r.value)
            else if Selected(range, |file|).None? then r == Err(RangeNotSatisfiable)
            else
              var (first, last) := Selected(range, |file|).value;
              && r == Ok(Response(true, Some((first, last, |file|)), last - first + 1, file, first))
              && Streamable(r.value)
  {
    if range != NO_RANGE {
      MeetsRfcExactly(range, |file|);
      if WindowOf(range, |file|).Ok? {
        ServedIsInside(range, |file|);
      }
    }
  }
}

/**
 * The streaming loop of `ollama_pull` (apps/vfs-desktop/src-tauri/src/commands.rs): chunks are
 * appended to a buffer, complete lines are cut off and handled, and the loop stops at the first
 * completion or error line. Text is a sequence of characters; JSON parsing is a parameter.
 */
module PullStream {
  import opened Common

  /** The fields of a response line the loop looks at. */
  datatype Message = Message(status: Option<string>, error: Option<string>, completed: Option<nat>, total: Option<nat>)

  type Parser = string -> Option<Message>

  datatype Event = Event(status: string, progress: Option<real>)

  /** What the loop accumulates besides the buffer. */
  datatype Progress = Progress(last: real, complete: bool, error: Option<string>, events: seq<Event>)

  datatype Pull = Pull(buffer: string, state: Progress)

  const START := Progress(0.0, false, None, [])

  predicate IsSpace(c: char)
  {
    c == ' ' || '\t' <= c <= '\r' || c == '\U{0085}' || c == '\U{00A0}' || c == '\U{1680}' ||
    '\U{2000}' <= c <= '\U{200A}' || c == '\U{2028}' || c == '\U{2029}' || c == '\U{202F}' ||
    c == '\U{205F}' || c == '\U{3000}'
  }

  function Trim(s: string): string
    decreases |s|
  {
    if s == "" then ""
    else if IsSpace(s[0]) then Trim(s[1..])
    else if IsSpace(Last(s)) then Trim(Front(s))
    else s
  }

  predicate Contains(s: string, part: string)
  {
    exists i :: 0 <= i <= |s| && StartsWith(s[i..], part)
  }

  predicate IsCompletion(status: string)
  {
    status == "success" || Contains(status, "complete")
  }

  function Abs(x: real): real { if x < 0.0 then -x else x }

  /** The new percentage, when both counters are there, the total is positive and it moved by more than half a point. */
  function NewProgress(m: Message, last: real): Option<real>
  {
    if m.completed.Some? && m.total.Some? && m.total.value > 0 then
      var progress := (m.completed.value as real / m.total.value as real) * 100.0;
      if Abs(progress - last) > 0.5 then Some(progress) else None
    else None
  }

  predicate Stopped(p: Progress) { p.complete || p.error.Some? }

  /** The loop body for one line. */
  function HandleLine(parse: Parser, p: Progress, raw: string): Progress
  {
    var line := Trim(raw);
    if line == "" then p
    else match parse(line)
      case None => p
      case Some(m) =>
        var status := if m.status.Some? then m.status.value else "";
        var q := p.(complete := p.complete || IsCompletion(status));
        if m.error.Some? then q.(error := m.error)
        else
          var progress := NewProgress(m, p.last);
          q.(last := if progress.Some? then progress.value else p.last, events := p.events + [Event(status, progress)])
  }

  /** What is done with one line; the loop does not depend on more. */
  type Handler = (Progress, string) -> Progress

  function LineHandler(parse: Parser): Handler
  {
    (p: Progress, raw: string) => HandleLine(parse, p, raw)
  }

  function FindNewline(s: string): (n: nat)
    ensures n <= |s|
    ensures forall i :: 0 <= i < n ==> s[i] != '\n'
    ensures n < |s| ==> s[n] == '\n'
  {
    if s == "" || s[0] == '\n' then 0 else 1 + FindNewline(s[1..])
  }

  /** The inner `while`: cut and handle complete lines until none is left or the pull is over. */
  function Drain(handle: Handler, pull: Pull): Pull
    decreases |pull.buffer|
  {
    var n := FindNewline(pull.buffer);
    if Stopped(pull.state) || n == |pull.buffer| then pull
    else Drain(handle, Pull(pull.buffer[n + 1..], handle(pull.state, pull.buffer[..n])))
  }

  function Receive(handle: Handler, pull: Pull, chunk: string): Pull
  {
    if Stopped(pull.state) then pull else Drain(handle, Pull(pull.buffer + chunk, pull.state))
  }

  function ReceiveAll(handle: Handler, chunks: seq<string>): Pull
  {
    if chunks == [] then Pull("", START) else Receive(handle, ReceiveAll(handle, Front(chunks)), Last(chunks))
  }

  datatype Outcome = Outcome(events: seq<Event>, result: Result<bool, string>)

  /** After the loop: an error ends the pull; otherwise a last line without newline is looked at. */
  function Finish(parse: Parser, pull: Pull): Outcome
  {
    var p, line := pull.state, Trim(pull.buffer);
    if p.error.Some? then Outcome(p.events, Err(p.error.value))
    else if line == "" || parse(line).None? || parse(line).value.status.None? then Outcome(p.events, Ok(p.complete))
    else
      var m := parse(line).value;
      var events := p.events + [Event(m.status.value, None)];
      if m.error.Some? then Outcome(events, Err(m.error.value)) else Outcome(events, Ok(p.complete))
  }

  /** The body of the line loop, step by step. */
  method ProcessLine(parse: Parser, p: Progress, raw: string) returns (q: Progress)
    ensures q == HandleLine(parse, p, raw)
  {
    var lastProgress, isComplete, events := p.last, p.complete, p.events;
    var line := Trim(raw);
    if line == "" || parse(line).None? {
      return p;
    }
    var json := parse(line).value;
    var status := if json.status.Some? then json.status.value else "";
    if status == "success" || Contains(status, "complete") {
      isComplete := true;
    }
    if json.error.Some? {
      return Progress(lastProgress, isComplete, json.error, events);
    }
    var progress: Option<real> := None;
    if json.completed.Some? && json.total.Some? && json.total.value > 0 {
      var percent := (json.completed.value as real / json.total.value as real) * 100.0;
      if Abs(percent - lastProgress) > 0.5 {
        progress := Some(percent);
        lastProgress := percent;
      }
    }
    events := events + [Event(status, progress)];
    q := Progress(lastProgress, isComplete, p.error, events);
  }

  /** The inner `while`: cut off and handle complete lines. */
  method DrainBuffer(parse: Parser, text: string, start: Progress) returns (buffer: string, state: Progress)
    ensures Pull(buffer, state) == Drain(LineHandler(parse), Pull(text, start))
  {
    buffer, state := text, start;
    var n := FindNewline(buffer);
    while n < |buffer| && !Stopped(state)
      invariant n == FindNewline(buffer)
      invariant Drain(LineHandler(parse), Pull(buffer, state)) == Drain(LineHandler(parse), Pull(text, start))
      decreases |buffer|
    {
      DrainOnce(LineHandler(parse), state, buffer, n);
      var line := buffer[..n];
      buffer := buffer[n + 1..];
      state := ProcessLine(parse, state, line);
      n := FindNewline(buffer);
    }
  }

  method PullModel(parse: Parser, chunks: seq<string>) returns (r: Outcome)
    ensures r == Finish(parse, ReceiveAll(LineHandler(parse), chunks))
  {
    var buffer := "";
    var state := START;
    var i := 0;
    while i < |chunks| && !Stopped(state)
      invariant 0 <= i <= |chunks|
      invariant Pull(buffer, state) == ReceiveAll(LineHandler(parse), chunks[..i])
    {
      assert Front(chunks[..i + 1]) == chunks[..i];
      buffer, state := DrainBuffer(parse, buffer + chunks[i], state);
      i := i + 1;
    }
    RestIsIgnored(LineHandler(parse), chunks, i);
    if state.error.Some? {
      return Outcome(state.events, Err(state.error.value));
    }
    var events, line := state.events, Trim(buffer);
    if line != "" && parse(line).Some? && parse(line).value.status.Some? {
      events := events + [Event(parse(line).value.status.value, None)];
      if parse(line).value.error.Some? {
        return Outcome(events, Err(parse(line).value.error.value));
      }
    }
    r := Outcome(events, Ok(state.complete));
  }

  lemma {:induction false} RestIsIgnored(handle: Handler, chunks: seq<string>, n: nat)
    requires n <= |chunks| && (n == |chunks| || Stopped(ReceiveAll(handle, chunks[..n]).state))
    ensures ReceiveAll(handle, chunks) == ReceiveAll(handle, chunks[..n])
  {
    if n == |chunks| {
      assert chunks[..n] == chunks;
    } else {
      StoppedStays(handle, chunks, n);
    }
  }

  /** Chunks after the end of the pull are never looked at. */
  lemma {:induction false} StoppedStays(handle: Handler, chunks: seq<string>, n: nat)
    requires n <= |chunks| && Stopped(ReceiveAll(handle, chunks[..n]).state)
    ensures ReceiveAll(handle, chunks) == ReceiveAll(handle, chunks[..n])
    decreases |chunks| - n
  {
    if n == |chunks| {
      assert chunks[..n] == chunks;
    } else {
      assert Front(chunks[..n + 1]) == chunks[..n];
      StoppedStays(handle, chunks, n + 1);
    }
  }

  // ---------------------------------------------------------------- the reference: split the whole text

  /** The complete lines of a text, without their newlines. */
  function Lines(text: string): seq<string>
    decreases |text|
  {
    var n := FindNewline(text);
    if n == |text| then [] else [text[..n]] + Lines(text[n + 1..])
  }

  /** What follows the last newline. */
  function Rest(text: string): (r: string)
    ensures FindNewline(r) == |r|
    decreases |text|
  {
    var n := FindNewline(text);
    if n == |text| then text else Rest(text[n + 1..])
  }

  /** Handle lines in order until the pull is over. */
  function HandleLines(handle: Handler, p: Progress, lines: seq<string>): Progress
    decreases |lines|
  {
    if lines == [] || Stopped(p) then p else HandleLines(handle, handle(p, lines[0]), lines[1..])
  }

  lemma {:induction false} HandleLinesConcat(handle: Handler, p: Progress, a: seq<string>, b: seq<string>)
    ensures HandleLines(handle, p, a + b) == HandleLines(handle, HandleLines(handle, p, a), b)
    decreases |a|
  {
    if a == [] {
      assert a + b == b;
    } else if !Stopped(p) {
      assert (a + b)[0] == a[0] && (a + b)[1..] == a[1..] + b;
      HandleLinesConcat(handle, handle(p, a[0]), a[1..], b);
    }
  }

  lemma {:induction false} FindNewlineConcat(a: string, b: string)
    requires FindNewline(a) < |a|
    ensures FindNewline(a + b) == FindNewline(a)
  {
    assert (a + b)[0] == a[0];
    if a[0] != '\n' {
      assert (a + b)[1..] == a[1..] + b;
      FindNewlineConcat(a[1..], b);
    }
  }

  lemma {:induction false} Regroup(head: seq<string>, middle: seq<string>, tail: seq<string>)
    ensures head + (middle + tail) == (head + middle) + tail
    ensures [] + tail == tail
  {
  }

  /** Splitting after `a` and continuing with what is left of it gives the lines of the whole. */
  lemma {:induction false} LinesConcat(a: string, b: string)
    ensures Lines(a + b) == Lines(a) + Lines(Rest(a) + b)
    ensures Rest(a + b) == Rest(Rest(a) + b)
    decreases |a|
  {
    var n := FindNewline(a);
    if n < |a| {
      var first, tail := a[..n], a[n + 1..];
      CutLine(a, b);
      LinesConcat(tail, b);
      calc {
        Lines(a + b);
        [first] + Lines(tail + b);
        [first] + (Lines(tail) + Lines(Rest(tail) + b));
        { Regroup([first], Lines(tail), Lines(Rest(tail) + b)); }
        ([first] + Lines(tail)) + Lines(Rest(tail) + b);
        Lines(a) + Lines(Rest(a) + b);
      }
    } else {
      Regroup([], [], Lines(a + b));
    }
  }

  lemma {:induction false} HandleLinesCons(handle: Handler, p: Progress, line: string, rest: seq<string>)
    requires !Stopped(p)
    ensures HandleLines(handle, p, [line] + rest) == HandleLines(handle, handle(p, line), rest)
  {
    assert ([line] + rest)[1..] == rest;
  }

  lemma {:induction false} DrainHandlesLines(handle: Handler, pull: Pull)
    ensures Drain(handle, pull).state == HandleLines(handle, pull.state, Lines(pull.buffer))
    ensures !Stopped(Drain(handle, pull).state) ==> Drain(handle, pull).buffer == Rest(pull.buffer)
    decreases |pull.buffer|
  {
    var n := FindNewline(pull.buffer);
    if !Stopped(pull.state) && n < |pull.buffer| {
      var line, tail := pull.buffer[..n], pull.buffer[n + 1..];
      var next := Pull(tail, handle(pull.state, line));
      assert Drain(handle, pull) == Drain(handle, next);
      assert Lines(pull.buffer) == [line] + Lines(tail) && Rest(pull.buffer) == Rest(tail);
      HandleLinesCons(handle, pull.state, line, Lines(tail));
      DrainHandlesLines(handle, next);
    }
  }

  /**
   * However the response is split into chunks, the loop handles exactly the lines of the whole
   * text up to the first completion or error line, with the same progress fold; and while it has
   * not stopped, its buffer is what follows the last newline.
   */
  lemma {:induction false} ChunkingIsInvisible(handle: Handler, chunks: seq<string>)
    ensures ReceiveAll(handle, chunks).state == HandleLines(handle, START, Lines(Flatten(chunks)))
    ensures !Stopped(ReceiveAll(handle, chunks).state) ==> ReceiveAll(handle, chunks).buffer == Rest(Flatten(chunks))
    decreases |chunks|
  {
    if chunks != [] {
      var init, chunk := Front(chunks), Last(chunks);
      ChunkingIsInvisible(handle, init);
      var text, pull := Flatten(init), ReceiveAll(handle, init);
      LinesConcat(text, chunk);
      HandleLinesConcat(handle, START, Lines(text), Lines(Rest(text) + chunk));
      if !Stopped(pull.state) {
        DrainHandlesLines(handle, Pull(pull.buffer + chunk, pull.state));
      }
    }
  }

  /** So two chunkings of one text agree in the loop, and in the final outcome unless it completed without error. */
  lemma {:induction false} SameTextSameOutcome(parse: Parser, xs: seq<string>, ys: seq<string>)
    requires Flatten(xs) == Flatten(ys)
    ensures ReceiveAll(LineHandler(parse), xs).state == ReceiveAll(LineHandler(parse), ys).state
    ensures var p := ReceiveAll(LineHandler(parse), xs).state;
            !p.complete || p.error.Some? ==>
              Finish(parse, ReceiveAll(LineHandler(parse), xs)) == Finish(parse, ReceiveAll(LineHandler(parse), ys))
  {
    ChunkingIsInvisible(LineHandler(parse), xs);
    ChunkingIsInvisible(LineHandler(parse), ys);
  }

  // ---------------------------------------------------------------- what is reported

  /** The percentage of the last event that carried one, or zero. */
  function LastReported(events: seq<Event>): real
  {
    if events == [] then 0.0
    else if Last(events).progress.Some? then Last(events).progress.value
    else LastReported(Front(events))
  }

  /** Every reported percentage differs from the one reported before it by more than half a point. */
  predicate Spaced(events: seq<Event>)
  {
    events != [] ==>
      && Spaced(Front(events))
      && (Last(events).progress.Some? ==> Abs(Last(events).progress.value - LastReported(Front(events))) > 0.5)
  }

  lemma {:induction false} SpacedSnoc(events: seq<Event>, e: Event)
    requires Spaced(events) && (e.progress.Some? ==> Abs(e.progress.value - LastReported(events)) > 0.5)
    ensures Spaced(events + [e])
    ensures LastReported(events + [e]) == if e.progress.Some? then e.progress.value else LastReported(events)
  {
    assert Front(events + [e]) == events;
  }

  lemma {:induction false} NewProgressMoved(m: Message, last: real)
    ensures var progress := NewProgress(m, last);
            progress.Some? ==> Abs(progress.value - last) > 0.5
  {
  }

  /** A line adds no event, or one event that carries the new percentage if there is one. */
  lemma {:induction false} LineAddsEvent(parse: Parser, p: Progress, raw: string) returns (status: string, progress: Option<real>)
    ensures progress.Some? ==> Abs(progress.value - p.last) > 0.5
    ensures var q := HandleLine(parse, p, raw);
            || (q.events == p.events && q.last == p.last)
            || (q.events == p.events + [Event(status, progress)] && q.last == if progress.Some? then progress.value else p.last)
  {
    status, progress := "", None;
    if Trim(raw) != "" && parse(Trim(raw)).Some? {
      var m := parse(Trim(raw)).value;
      status := if m.status.Some? then m.status.value else "";
      progress := NewProgress(m, p.last);
      NewProgressMoved(m, p.last);
    }
  }

  lemma {:induction false} LineKeepsSpacing(parse: Parser, p: Progress, raw: string)
    requires Spaced(p.events) && p.last == LastReported(p.events)
    ensures var q := HandleLine(parse, p, raw);
            Spaced(q.events) && q.last == LastReported(q.events) && p.events <= q.events
  {
    var status, progress := LineAddsEvent(parse, p, raw);
    SpacedSnoc(p.events, Event(status, progress));
  }

  /** The loop remembers exactly the last reported percentage, so reports are always more than half a point apart. */
  lemma {:induction false} ReportsAreSpaced(parse: Parser, p: Progress, lines: seq<string>)
    requires Spaced(p.events) && p.last == LastReported(p.events)
    ensures var q := HandleLines(LineHandler(parse), p, lines);
            Spaced(q.events) && q.last == LastReported(q.events) && p.events <= q.events
    decreases |lines|
  {
    if lines != [] && !Stopped(p) {
      var q := HandleLine(parse, p, lines[0]);
      LineKeepsSpacing(parse, p, lines[0]);
      ReportsAreSpaced(parse, q, lines[1..]);
    }
  }

  /** `trim` removes exactly the white space at both ends. */
  lemma {:induction false} TrimIsMiddle(s: string) returns (lo: nat, hi: nat)
    ensures lo <= hi <= |s| && Trim(s) == s[lo..hi]
    ensures forall i :: 0 <= i < |s| && !(lo <= i < hi) ==> IsSpace(s[i])
    ensures lo < hi ==> !IsSpace(s[lo]) && !IsSpace(s[hi - 1])
    decreases |s|
  {
    lo, hi := 0, |s|;
    assert s[0..|s|] == s;
    if s != "" && IsSpace(s[0]) {
      var a, b := TrimIsMiddle(s[1..]);
      lo, hi := a + 1, b + 1;
      assert s[1..][a..b] == s[lo..hi];
      forall i | 0 <= i < |s| && !(lo <= i < hi)
        ensures IsSpace(s[i])
      {
        if i > 0 {
          assert s[i] == s[1..][i - 1];
        }
      }
    } else if s != "" && IsSpace(Last(s)) {
      lo, hi := TrimIsMiddle(Front(s));
      assert Front(s)[lo..hi] == s[lo..hi];
    }
  }

  // ---------------------------------------------------------------- after completion

  /** Left in the buffer, this text adds nothing to the outcome. */
  predicate Inert(parse: Parser, leftover: string)
  {
    Trim(leftover) == "" || parse(Trim(leftover)).None? || parse(Trim(leftover)).value.status.None?
  }

  /** `head` ends with the newline of the first stopping line, which completes the pull without error. */
  predicate CompletesAt(handle: Handler, head: string)
  {
    && head != "" && Last(head) == '\n'
    && !Stopped(HandleLines(handle, START, Lines(Front(head))))
    && HandleLines(handle, START, Lines(head)).complete
    && HandleLines(handle, START, Lines(head)).error.None?
  }

  /** One cut of the buffer, seen from a text that continues. */
  lemma {:induction false} CutLine(front: string, tail: string)
    requires FindNewline(front) < |front|
    ensures var n := FindNewline(front);
            && FindNewline(front + tail) == n
            && (front + tail)[..n] == front[..n] && (front + tail)[n + 1..] == front[n + 1..] + tail
  {
    FindNewlineConcat(front, tail);
  }

  /** The cut that takes all of `front`, which has no newline of its own. */
  lemma {:induction false} CutWhole(front: string, leftover: string)
    requires FindNewline(front) == |front|
    ensures var all := front + ("\n" + leftover);
            && FindNewline(all) == |front| < |all|
            && all[..|front|] == front && all[|front| + 1..] == leftover
  {
    NewlineAfter(front, "\n" + leftover);
  }

  lemma {:induction false} LastLine(front: string)
    requires FindNewline(front) == |front|
    ensures Lines(front + "\n") == [front]
  {
    CutWhole(front, "");
    assert front + ("\n" + "") == front + "\n";
    assert Lines("") == [];
  }

  /** One round of the inner loop, when the text has a newline after `n` characters. */
  lemma {:induction false} DrainOnce(handle: Handler, p: Progress, text: string, n: nat)
    requires !Stopped(p) && FindNewline(text) == n < |text|
    ensures Drain(handle, Pull(text, p)) == Drain(handle, Pull(text[n + 1..], handle(p, text[..n])))
  {
  }

  lemma {:induction false} LinesOnce(text: string, n: nat)
    requires FindNewline(text) == n < |text|
    ensures Lines(text) == [text[..n]] + Lines(text[n + 1..])
  {
  }

  /** The same round of the reference. */
  lemma {:induction false} HandleOnce(handle: Handler, p: Progress, text: string, n: nat)
    requires !Stopped(p) && FindNewline(text) == n < |text|
    ensures HandleLines(handle, p, Lines(text)) == HandleLines(handle, handle(p, text[..n]), Lines(text[n + 1..]))
  {
    LinesOnce(text, n);
    HandleLinesCons(handle, p, text[..n], Lines(text[n + 1..]));
  }

  /** The same round seen from a text that continues with `tail`. */
  lemma {:induction false} DrainCut(handle: Handler, p: Progress, front: string, tail: string, n: nat)
    requires !Stopped(p) && FindNewline(front) == n < |front|
    ensures Drain(handle, Pull(front + tail, p)) == Drain(handle, Pull(front[n + 1..] + tail, handle(p, front[..n])))
    ensures HandleLines(handle, p, Lines(front + tail)) == HandleLines(handle, handle(p, front[..n]), Lines(front[n + 1..] + tail))
  {
    CutLine(front, tail);
    DrainOnce(handle, p, front + tail, n);
    HandleOnce(handle, p, front + tail, n);
  }

  /** Cutting lines stops exactly after `front` and its newline, leaving what came with it in the buffer. */
  lemma {:induction false} DrainStopsAfter(handle: Handler, p: Progress, front: string, leftover: string)
    requires !Stopped(HandleLines(handle, p, Lines(front)))
    requires Stopped(HandleLines(handle, p, Lines(front + "\n")))
    ensures Drain(handle, Pull(front + ("\n" + leftover), p)) ==
            Pull(leftover, HandleLines(handle, p, Lines(front + "\n")))
    decreases |front|
  {
    var n := FindNewline(front);
    HandleLinesStopped(handle, p, Lines(front));
    if n < |front| {
      HandleOnce(handle, p, front, n);
      DrainCut(handle, p, front, "\n", n);
      DrainCut(handle, p, front, "\n" + leftover, n);
      DrainStopsAfter(handle, handle(p, front[..n]), front[n + 1..], leftover);
    } else {
      DrainLast(handle, p, front, leftover);
    }
  }

  lemma {:induction false} DrainLast(handle: Handler, p: Progress, front: string, leftover: string)
    requires !Stopped(p) && FindNewline(front) == |front| && Stopped(HandleLines(handle, p, Lines(front + "\n")))
    ensures Drain(handle, Pull(front + ("\n" + leftover), p)) ==
            Pull(leftover, HandleLines(handle, p, Lines(front + "\n")))
  {
    CutWhole(front, leftover);
    LastLine(front);
    HandleLinesCons(handle, p, front, []);
    assert [front] + [] == [front];
    DrainOnce(handle, p, front + ("\n" + leftover), |front|);
  }

  lemma {:induction false} HandleLinesStopped(handle: Handler, p: Progress, lines: seq<string>)
    requires !Stopped(HandleLines(handle, p, lines))
    ensures !Stopped(p)
  {
  }

  lemma {:induction false} NewlineAfter(front: string, tail: string)
    requires FindNewline(front) == |front| && tail != "" && tail[0] == '\n'
    ensures FindNewline(front + tail) == |front|
  {
    if front == "" {
      assert front + tail == tail;
    } else {
      assert (front + tail)[0] == front[0] && (front + tail)[1..] == front[1..] + tail;
      NewlineAfter(front[1..], tail);
    }
  }

  /** Handling a longer text is handling the shorter one and then what its unfinished line became. */
  lemma {:induction false} HandleContinues(handle: Handler, a: string, b: string)
    ensures HandleLines(handle, START, Lines(a + b)) ==
            HandleLines(handle, HandleLines(handle, START, Lines(a)), Lines(Rest(a) + b))
  {
    LinesConcat(a, b);
    HandleLinesConcat(handle, START, Lines(a), Lines(Rest(a) + b));
  }

  lemma {:induction false} EndsWithNewline(text: string, h: string, rest: string, leftover: string)
    requires h != "" && Last(text + h) == '\n'
    ensures Front(text + h) == text + Front(h)
    ensures rest + h == (rest + Front(h)) + "\n"
    ensures rest + (h + leftover) == (rest + Front(h)) + ("\n" + leftover)
  {
    assert h == Front(h) + "\n";
  }

  /** The chunk that brings the end of `head` stops the pull and leaves the rest of itself in the buffer. */
  lemma {:induction false} ChunkStopsAfter(handle: Handler, text: string, h: string, leftover: string)
    requires h != "" && CompletesAt(handle, text + h)
    ensures !Stopped(HandleLines(handle, START, Lines(text)))
    ensures Drain(handle, Pull(Rest(text) + (h + leftover), HandleLines(handle, START, Lines(text)))) ==
            Pull(leftover, HandleLines(handle, START, Lines(text + h)))
  {
    var front, p, rest := Front(h), HandleLines(handle, START, Lines(text)), Rest(text);
    HandleContinues(handle, text, front);
    HandleContinues(handle, text, h);
    EndsWithNewline(text, h, rest, leftover);
    HandleLinesStopped(handle, p, Lines(rest + front));
    DrainStopsAfter(handle, p, rest + front, leftover);
  }

  /** For every chunking of a text that completes at `head`, the buffer ends as some prefix of the remaining text. */
  lemma {:induction false} LeftoverIsPrefix(handle: Handler, head: string, tail: string, chunks: seq<string>)
    requires CompletesAt(handle, head) && Flatten(chunks) == head + tail
    ensures ReceiveAll(handle, chunks).state == HandleLines(handle, START, Lines(head))
    ensures ReceiveAll(handle, chunks).buffer <= tail
    decreases |chunks|
  {
    if chunks != [] {
      var init, chunk := Front(chunks), Last(chunks);
      var text := Flatten(init);
      assert text + chunk == head + tail;
      if |text| >= |head| {
        var less := text[|head|..];
        assert text == head + less by { assert text[..|head|] == (text + chunk)[..|head|] == head; }
        assert less <= tail by { assert tail == (text + chunk)[|head|..] == less + chunk; }
        LeftoverIsPrefix(handle, head, less, init);
      } else {
        var h := head[|text|..];
        assert head == text + h by { assert head[..|text|] == (head + tail)[..|text|] == text; }
        var leftover := chunk[|h|..];
        assert chunk == h + leftover && leftover == tail by {
          assert chunk == (text + chunk)[|text|..] == h + tail;
        }
        ChunkStopsAfter(handle, text, h, leftover);
        ChunkingIsInvisible(handle, init);
      }
    }
  }

  lemma {:induction false} FinishIff(parse: Parser, p: Progress, leftover: string)
    requires p.error.None?
    ensures Finish(parse, Pull(leftover, p)) == Finish(parse, Pull("", p)) <==> Inert(parse, leftover)
  {
    assert Trim("") == "";
    if !Inert(parse, leftover) {
      assert |Finish(parse, Pull(leftover, p)).events| > |p.events|;
    }
  }

  /** The outcome every chunking gives when no leftover matters. */
  function PlainOutcome(parse: Parser, head: string): Outcome
  {
    Finish(parse, Pull("", HandleLines(LineHandler(parse), START, Lines(head))))
  }

  /**
   * After completion the code still parses whatever else the last chunk carried. For a text that
   * completes at `head`, every chunking gives the same outcome if every prefix of the remaining
   * text is inert ...
   */
  lemma {:induction false} InertTailSameOutcome(parse: Parser, head: string, tail: string, chunks: seq<string>)
    requires CompletesAt(LineHandler(parse), head) && Flatten(chunks) == head + tail
    requires !Loud(parse, tail)
    ensures Finish(parse, ReceiveAll(LineHandler(parse), chunks)) == PlainOutcome(parse, head)
  {
    LeftoverIsPrefix(LineHandler(parse), head, tail, chunks);
    var buffer := ReceiveAll(LineHandler(parse), chunks).buffer;
    assert buffer == tail[..|buffer|];
    FinishIff(parse, HandleLines(LineHandler(parse), START, Lines(head)), buffer);
  }

  /** Cutting the text `n` characters after the completion line leaves these characters in the buffer. */
  lemma {:induction false} CutAfterHead(handle: Handler, head: string, tail: string, n: nat)
    requires CompletesAt(handle, head) && n <= |tail|
    ensures Flatten([head + tail[..n], tail[n..]]) == head + tail
    ensures ReceiveAll(handle, [head + tail[..n], tail[n..]]) == Pull(tail[..n], HandleLines(handle, START, Lines(head)))
  {
    TwoChunks(head + tail[..n], tail[n..]);
    assert (head + tail[..n]) + tail[n..] == head + tail;
    FirstChunkCompletes(handle, head, tail[..n], tail[n..]);
  }

  /** ... and only then: a prefix that is not inert gives two chunkings of one text with different outcomes. */
  lemma {:induction false} LeftoverChangesOutcome(parse: Parser, head: string, tail: string, n: nat)
    returns (xs: seq<string>, ys: seq<string>)
    requires CompletesAt(LineHandler(parse), head) && n <= |tail| && !Inert(parse, tail[..n])
    ensures Flatten(xs) == Flatten(ys) == head + tail
    ensures Finish(parse, ReceiveAll(LineHandler(parse), xs)) != Finish(parse, ReceiveAll(LineHandler(parse), ys))
  {
    xs, ys := [head + tail[..n], tail[n..]], [head + tail[..0], tail[0..]];
    CutAfterHead(LineHandler(parse), head, tail, n);
    CutAfterHead(LineHandler(parse), head, tail, 0);
    assert tail[..0] == "";
    FinishIff(parse, HandleLines(LineHandler(parse), START, Lines(head)), tail[..n]);
  }

  lemma {:induction false} TwoChunks(a: string, b: string)
    ensures Flatten([a, b]) == a + b && Flatten([a]) == a
    ensures Front([a, b]) == [a] && Front([a]) == []
  {
    assert Front([a, b]) == [a] && Front([a]) == [];
    assert Flatten([a]) == [] + a;
  }

  lemma {:induction false} FirstChunkCompletes(handle: Handler, head: string, leftover: string, more: string)
    requires CompletesAt(handle, head)
    ensures ReceiveAll(handle, [head + leftover, more]) == Pull(leftover, HandleLines(handle, START, Lines(head)))
  {
    TwoChunks(head + leftover, more);
    assert "" + head == head && "" + (head + leftover) == head + leftover;
    assert Lines("") == [] && Rest("") == "";
    ChunkStopsAfter(handle, "", head, leftover);
    assert ReceiveAll(handle, []) == Pull("", START);
    assert ReceiveAll(handle, [head + leftover]) == Receive(handle, Pull("", START), head + leftover);
  }

  // ---------------------------------------------------------------- when the chunking matters

  lemma {:induction false} NoNewlineNoLine(text: string, c: char)
    requires FindNewline(text) == |text| && c != '\n'
    ensures FindNewline(text + [c]) == |text + [c]|
  {
    if text != "" {
      assert (text + [c])[0] == text[0] && (text + [c])[1..] == text[1..] + [c];
      NoNewlineNoLine(text[1..], c);
    }
  }

  /** Only a newline adds a line. */
  lemma {:induction false} OtherCharacters(handle: Handler, text: string, c: char)
    requires c != '\n'
    ensures HandleLines(handle, START, Lines(text + [c])) == HandleLines(handle, START, Lines(text))
  {
    HandleContinues(handle, text, [c]);
    NoNewlineNoLine(Rest(text), c);
  }

  /** Text after the stopping line is not handled. */
  lemma {:induction false} AfterStop(handle: Handler, text: string, more: string)
    requires Stopped(HandleLines(handle, START, Lines(text)))
    ensures HandleLines(handle, START, Lines(text + more)) == HandleLines(handle, START, Lines(text))
  {
    HandleContinues(handle, text, more);
  }

  lemma {:induction false} PrefixSnoc(text: string, n: nat)
    requires 0 < n <= |text|
    ensures text[..n] == text[..n - 1] + [text[n - 1]]
  {
  }

  lemma {:induction false} EmptyGoesOn(handle: Handler, text: string)
    ensures !Stopped(HandleLines(handle, START, Lines(text[..0])))
  {
    assert text[..0] == "" && Lines("") == [];
  }

  /** The newline of the first stopping line of a text at whose first `n` characters the loop stops. */
  lemma {:induction false} StopsSomewhere(handle: Handler, text: string, n: nat) returns (k: nat)
    requires n <= |text| && Stopped(HandleLines(handle, START, Lines(text[..n])))
    ensures 0 < k <= n && text[k - 1] == '\n'
    ensures !Stopped(HandleLines(handle, START, Lines(text[..k - 1])))
    ensures HandleLines(handle, START, Lines(text[..k])) == HandleLines(handle, START, Lines(text[..n]))
    decreases n
  {
    EmptyGoesOn(handle, text);
    PrefixSnoc(text, n);
    if Stopped(HandleLines(handle, START, Lines(text[..n - 1]))) {
      AfterStop(handle, text[..n - 1], [text[n - 1]]);
      k := StopsSomewhere(handle, text, n - 1);
    } else {
      if text[n - 1] != '\n' {
        OtherCharacters(handle, text[..n - 1], text[n - 1]);
      }
      k := n;
    }
  }

  /** The loop's part of a text that completes without error. */
  lemma {:induction false} CompletesSomewhere(handle: Handler, text: string) returns (k: nat)
    requires HandleLines(handle, START, Lines(text)).complete && HandleLines(handle, START, Lines(text)).error.None?
    ensures k <= |text| && CompletesAt(handle, text[..k])
  {
    assert text[..|text|] == text;
    k := StopsSomewhere(handle, text, |text|);
    assert Front(text[..k]) == text[..k - 1];
  }

  /** All chunkings of the text end in one outcome. */
  ghost predicate OutcomeIsFixed(parse: Parser, text: string)
  {
    forall xs: seq<string>, ys: seq<string> :: Flatten(xs) == text && Flatten(ys) == text ==>
      Finish(parse, ReceiveAll(LineHandler(parse), xs)) == Finish(parse, ReceiveAll(LineHandler(parse), ys))
  }

  /** Something that would be reported stands at the start of the text. */
  predicate Loud(parse: Parser, tail: string)
  {
    exists n :: 0 <= n <= |tail| && !Inert(parse, tail[..n])
  }

  /** The text completes at some newline and something right after it would be reported. */
  predicate TailMatters(parse: Parser, text: string)
  {
    exists k :: 0 <= k <= |text| && CompletesAt(LineHandler(parse), text[..k]) && Loud(parse, text[k..])
  }

  lemma {:induction false} SplitAt(text: string, k: nat)
    requires k <= |text|
    ensures text[..k] + text[k..] == text
  {
  }

  lemma {:induction false} QuietTailIsFixed(parse: Parser, text: string, xs: seq<string>, ys: seq<string>)
    requires !TailMatters(parse, text) && Flatten(xs) == text && Flatten(ys) == text
    ensures Finish(parse, ReceiveAll(LineHandler(parse), xs)) == Finish(parse, ReceiveAll(LineHandler(parse), ys))
  {
    SameTextSameOutcome(parse, xs, ys);
    ChunkingIsInvisible(LineHandler(parse), xs);
    var p := HandleLines(LineHandler(parse), START, Lines(text));
    if p.complete && p.error.None? {
      var k := CompletesSomewhere(LineHandler(parse), text);
      SplitAt(text, k);
      InertTailSameOutcome(parse, text[..k], text[k..], xs);
      InertTailSameOutcome(parse, text[..k], text[k..], ys);
    }
  }

  lemma {:induction false} LoudTailIsNotFixed(parse: Parser, text: string)
    requires TailMatters(parse, text)
    ensures !OutcomeIsFixed(parse, text)
  {
    var k :| 0 <= k <= |text| && CompletesAt(LineHandler(parse), text[..k]) && Loud(parse, text[k..]);
    var tail := text[k..];
    var n :| 0 <= n <= |tail| && !Inert(parse, tail[..n]);
    SplitAt(text, k);
    var xs, ys := LeftoverChangesOutcome(parse, text[..k], tail, n);
  }

  /**
   * The outcome of a pull is independent of how its text arrives if and only if nothing that
   * would be reported follows the newline at which the text completes.
   */
  lemma {:induction false} OutcomeFixedIff(parse: Parser, text: string)
    ensures OutcomeIsFixed(parse, text) <==> !TailMatters(parse, text)
  {
    if TailMatters(parse, text) {
      LoudTailIsNotFixed(parse, text);
    } else {
      forall xs: seq<string>, ys: seq<string> | Flatten(xs) == text && Flatten(ys) == text
        ensures Finish(parse, ReceiveAll(LineHandler(parse), xs)) == Finish(parse, ReceiveAll(LineHandler(parse), ys))
      {
        QuietTailIsFixed(parse, text, xs, ys);
      }
    }
  }

  /** It does matter: a server that reports success twice, the second time without a newline. */
  lemma {:induction false} RepeatedSuccessMatters()
    ensures !OutcomeIsFixed(_ => Some(Message(Some("success"), None, None, None)), "a\nb")
  {
    var parse: Parser := _ => Some(Message(Some("success"), None, None, None));
    var text, head := "a\nb", "a\n";
    LastLine("a");
    assert "a" + "\n" == head && text[..2] == head && text[2..] == "b" == "b"[..1] && Front(head) == "a";
    assert Lines("a") == [];
    HandleLinesCons(LineHandler(parse), START, "a", []);
    assert ["a"] + [] == ["a"];
    assert Trim("a") == "a" && Trim("b") == "b";
    assert CompletesAt(LineHandler(parse), text[..2]) && Loud(parse, text[2..]);
    OutcomeFixedIff(parse, text);
  }

  // ---------------------------------------------------------------- what a pull reports and answers

  lemma {:induction false} ContainsIff(s: string, part: string)
    ensures Contains(s, part) <==> exists a, b :: s == a + part + b
  {
    if Contains(s, part) {
      var i :| 0 <= i <= |s| && StartsWith(s[i..], part);
      assert s == s[..i] + part + s[i + |part|..];
    }
    if a, b :| s == a + part + b {
      assert s[|a|..][..|part|] == part;
    }
  }

  /** The message of a line, if it has one. */
  function MessageOf(parse: Parser, raw: string): Option<Message>
  {
    if Trim(raw) == "" then None else parse(Trim(raw))
  }

  function StatusOf(m: Message): string { if m.status.Some? then m.status.value else "" }

  predicate Completes(m: Message) { StatusOf(m) == "success" || Contains(StatusOf(m), "complete") }

  /** A line that ends the loop: it completes the pull or carries an error. */
  predicate IsStop(parse: Parser, raw: string)
  {
    MessageOf(parse, raw).Some? && (Completes(MessageOf(parse, raw).value) || MessageOf(parse, raw).value.error.Some?)
  }

  /** The status strings of the lines that parse and carry no error. */
  function Statuses(parse: Parser, lines: seq<string>): seq<string>
  {
    if lines == [] then []
    else
      var m := MessageOf(parse, lines[0]);
      (if m.Some? && m.value.error.None? then [StatusOf(m.value)] else []) + Statuses(parse, lines[1..])
  }

  function EventStatuses(events: seq<Event>): seq<string>
  {
    seq(|events|, i requires 0 <= i < |events| => events[i].status)
  }

  /**
   * One line: without a message nothing happens; an error is recorded; otherwise one event with
   * the line's status is added, with the percentage exactly if both counters are there, the
   * total is positive and it is more than half a point away from the last one.
   */
  lemma {:induction false} LineReports(parse: Parser, p: Progress, raw: string)
    ensures MessageOf(parse, raw).None? ==> HandleLine(parse, p, raw) == p
    ensures MessageOf(parse, raw).Some? ==>
              var m, q := MessageOf(parse, raw).value, HandleLine(parse, p, raw);
              && q.complete == (p.complete || Completes(m))
              && (m.error.Some? ==> q.error == m.error && q.events == p.events && q.last == p.last)
              && (m.error.None? ==> q.error == p.error && |q.events| == |p.events| + 1 && Front(q.events) == p.events &&
                                    Last(q.events).status == StatusOf(m) && Reports(m, p.last, Last(q.events).progress))
  {
    if MessageOf(parse, raw).Some? && MessageOf(parse, raw).value.error.None? {
      ReportsNew(MessageOf(parse, raw).value, p.last);
    }
  }

  /** The percentage an event carries, cross-multiplied: `progress / 100 == completed / total`. */
  predicate Reports(m: Message, last: real, progress: Option<real>)
  {
    if m.completed.Some? && m.total.Some? && m.total.value > 0 then
      var done, total := m.completed.value as real * 100.0, m.total.value as real;
      && (progress.Some? <==> Abs(done - last * total) > 0.5 * total)
      && (progress.Some? ==> progress.value * total == done)
    else progress.None?
  }

  lemma {:induction false} ReportsNew(m: Message, last: real)
    ensures Reports(m, last, NewProgress(m, last))
  {
    if m.completed.Some? && m.total.Some? && m.total.value > 0 {
      var total := m.total.value as real;
      var percent := (m.completed.value as real / total) * 100.0;
      assert percent * total == m.completed.value as real * 100.0;
      ScaleAbs(percent - last, total);
    }
  }

  lemma {:induction false} ScaleAbs(x: real, total: real)
    requires total > 0.0
    ensures Abs(x) > 0.5 <==> Abs(x * total) > 0.5 * total
  {
    if x >= 0.0 {
      ScaleOrder(x, 0.5, total);
      ScaleOrder(x, 0.0, total);
    } else {
      ScaleOrder(-x, 0.5, total);
      assert (-x) * total == -(x * total);
    }
  }

  lemma {:induction false} ScaleOrder(x: real, y: real, total: real)
    requires total > 0.0
    ensures x > y <==> x * total > y * total
    ensures x >= 0.0 ==> x * total >= 0.0
  {
    if x > y {
      assert (x - y) * total > 0.0;
    } else {
      assert (y - x) * total >= 0.0;
    }
  }

  lemma {:induction false} LineGoesOn(parse: Parser, p: Progress, raw: string)
    requires !Stopped(p) && !IsStop(parse, raw)
    ensures !Stopped(HandleLine(parse, p, raw))
  {
    LineReports(parse, p, raw);
  }

  /** Until a line stops it, the loop goes on and reports every status in order. */
  lemma {:induction false} LoopGoesOn(parse: Parser, p: Progress, lines: seq<string>)
    requires !Stopped(p) && forall i :: 0 <= i < |lines| ==> !IsStop(parse, lines[i])
    ensures var q := HandleLines(LineHandler(parse), p, lines);
            !Stopped(q) && EventStatuses(q.events) == EventStatuses(p.events) + Statuses(parse, lines)
    decreases |lines|
  {
    if lines == [] {
      assert EventStatuses(p.events) + [] == EventStatuses(p.events);
    } else {
      var raw, rest := lines[0], lines[1..];
      var q := HandleLine(parse, p, raw);
      LineGoesOn(parse, p, raw);
      assert forall i :: 0 <= i < |rest| ==> rest[i] == lines[i + 1];
      LoopGoesOn(parse, q, rest);
      StatusesOfLine(parse, p, raw);
      StatusesCons(parse, lines);
      Regroup(EventStatuses(p.events), Statuses(parse, [raw]), Statuses(parse, rest));
    }
  }

  lemma {:induction false} StatusesCons(parse: Parser, lines: seq<string>)
    requires lines != []
    ensures Statuses(parse, lines) == Statuses(parse, [lines[0]]) + Statuses(parse, lines[1..])
  {
    assert [lines[0]][1..] == [];
    assert Statuses(parse, [lines[0]][1..]) == [];
  }

  lemma {:induction false} StatusesOfLine(parse: Parser, p: Progress, raw: string)
    ensures EventStatuses(HandleLine(parse, p, raw).events) == EventStatuses(p.events) + Statuses(parse, [raw])
  {
    var q := HandleLine(parse, p, raw);
    LineReports(parse, p, raw);
    assert [raw][1..] == [] && Statuses(parse, [raw][1..]) == [];
    if MessageOf(parse, raw).Some? && MessageOf(parse, raw).value.error.None? {
      assert q.events == p.events + [Last(q.events)];
    }
  }

  /**
   * The loop over a text whose first stopping line is line `k`: it completes exactly if that line
   * does, its error is that line's error, and it has reported the statuses of lines `0..k`.
   */
  lemma {:induction false} LoopStopsAtFirst(parse: Parser, lines: seq<string>, k: nat)
    requires k < |lines| && IsStop(parse, lines[k]) && forall i :: 0 <= i < k ==> !IsStop(parse, lines[i])
    ensures var q, m := HandleLines(LineHandler(parse), START, lines), MessageOf(parse, lines[k]).value;
            && (q.complete <==> Completes(m)) && q.error == m.error
            && EventStatuses(q.events) == Statuses(parse, lines[..k]) + Statuses(parse, [lines[k]])
  {
    var handle := LineHandler(parse);
    var p := HandleLines(handle, START, lines[..k]);
    LoopGoesOn(parse, START, lines[..k]);
    assert EventStatuses(START.events) + Statuses(parse, lines[..k]) == Statuses(parse, lines[..k]);
    assert lines == lines[..k] + ([lines[k]] + lines[k + 1..]);
    HandleLinesConcat(handle, START, lines[..k], [lines[k]] + lines[k + 1..]);
    HandleLinesCons(handle, p, lines[k], lines[k + 1..]);
    LineReports(parse, p, lines[k]);
    StatusesOfLine(parse, p, lines[k]);
  }

  /** With nothing loud left over, the outcome is what the loop over the whole text has collected. */
  lemma {:induction false} QuietOutcome(parse: Parser, chunks: seq<string>, p: Progress)
    requires p == HandleLines(LineHandler(parse), START, Lines(Flatten(chunks)))
    requires p.error.None? && p.complete ==> !TailMatters(parse, Flatten(chunks))
    requires !Stopped(p) ==> Inert(parse, Rest(Flatten(chunks)))
    ensures Finish(parse, ReceiveAll(LineHandler(parse), chunks)) ==
            Outcome(p.events, if p.error.Some? then Err(p.error.value) else Ok(p.complete))
  {
    var text := Flatten(chunks);
    ChunkingIsInvisible(LineHandler(parse), chunks);
    if p.error.None? && p.complete {
      var n := CompletesSomewhere(LineHandler(parse), text);
      SplitAt(text, n);
      InertTailSameOutcome(parse, text[..n], text[n..], chunks);
      LeftoverIsPrefix(LineHandler(parse), text[..n], text[n..], chunks);
      assert Trim("") == "";
    }
  }

  /**
   * The answer of a pull from its text alone, however it arrives, when its first stopping line is
   * line `k`: that line's error, or success if nothing loud follows; the events carry the
   * statuses of the lines up to there.
   */
  lemma {:induction false} PullAnswers(parse: Parser, chunks: seq<string>, lines: seq<string>, k: nat)
    requires lines == Lines(Flatten(chunks))
    requires k < |lines| && IsStop(parse, lines[k]) && forall i :: 0 <= i < k ==> !IsStop(parse, lines[i])
    requires MessageOf(parse, lines[k]).value.error.Some? || !TailMatters(parse, Flatten(chunks))
    ensures var m, o := MessageOf(parse, lines[k]).value, Finish(parse, ReceiveAll(LineHandler(parse), chunks));
            && o.result == (if m.error.Some? then Err(m.error.value) else Ok(true))
            && EventStatuses(o.events) == Statuses(parse, lines[..k]) + Statuses(parse, [lines[k]])
  {
    LoopStopsAtFirst(parse, lines, k);
    QuietOutcome(parse, chunks, HandleLines(LineHandler(parse), START, lines));
  }

  /** And when no line stops it: incomplete, with every status reported, if nothing loud follows the last newline. */
  lemma {:induction false} PullEndsIncomplete(parse: Parser, chunks: seq<string>, lines: seq<string>)
    requires lines == Lines(Flatten(chunks)) && Inert(parse, Rest(Flatten(chunks)))
    requires forall i :: 0 <= i < |lines| ==> !IsStop(parse, lines[i])
    ensures var o := Finish(parse, ReceiveAll(LineHandler(parse), chunks));
            o.result == Ok(false) && EventStatuses(o.events) == Statuses(parse, lines)
  {
    LoopGoesOn(parse, START, lines);
    QuietOutcome(parse, chunks, HandleLines(LineHandler(parse), START, lines));
    assert EventStatuses(START.events) + Statuses(parse, lines) == Statuses(parse, lines);
  }

  lemma {:induction false} TrimSnocSpace(s: string, c: char)
    requires IsSpace(c)
    ensures Trim(s + [c]) == Trim(s)
    decreases |s|
  {
    var longer := s + [c];
    assert Last(longer) == c && Front(longer) == s;
    if s == "" {
      assert longer[1..] == "";
    } else if IsSpace(s[0]) {
      assert longer[0] == s[0] && longer[1..] == s[1..] + [c];
      TrimSnocSpace(s[1..], c);
    } else {
      assert longer[0] == s[0];
    }
  }

  /** A carriage return before the newline makes no difference. */
  lemma {:induction false} CarriageReturnIsIgnored(parse: Parser, p: Progress, raw: string)
    ensures HandleLine(parse, p, raw + "\r") == HandleLine(parse, p, raw)
  {
    TrimSnocSpace(raw, '\r');
  }

  /** What stands after the last newline of an unfinished pull is still reported, and its error still counts. */
  lemma {:induction false} LastWordCounts(parse: Parser, p: Progress, leftover: string)
    requires p.error.None? && !Inert(parse, leftover)
    ensures var m, o := MessageOf(parse, leftover).value, Finish(parse, Pull(leftover, p));
            && o.events == p.events + [Event(StatusOf(m), None)]
            && o.result == (if m.error.Some? then Err(m.error.value) else Ok(p.complete))
  {
  }
}

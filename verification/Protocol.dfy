/**
 The daemon socket's line framing: bytes arrive in chunks of any size, requests are separated by
 newlines, and a line over one mebibyte is refused without being buffered.

 The framer is proved against a split of the whole stream, so nothing it does can depend on how the
 stream was cut into chunks.
 */
module Protocol {
  import opened Wrappers

  newtype byte = x: int | 0 <= x < 256

  const NEWLINE: byte := 10
  const MAX_LINE_BYTES: nat := 1_048_576

  type Bytes = seq<byte>

  // ----- the split of a stream -----

  /** The complete lines of a stream. */
  function Lines(s: Bytes): seq<Bytes> {
    if s == [] then []
    else
      var init := s[..|s|-1];
      if s[|s|-1] == NEWLINE then Lines(init) + [Tail(init)] else Lines(init)
  }

  /** What follows the last newline. */
  function Tail(s: Bytes): Bytes {
    if s == [] || s[|s|-1] == NEWLINE then [] else Tail(s[..|s|-1]) + [s[|s|-1]]
  }

  function Unlines(ls: seq<Bytes>): Bytes {
    if ls == [] then [] else Unlines(ls[..|ls|-1]) + ls[|ls|-1] + [10]
  }

  /** The split is the split: the pieces are free of newlines and make up the stream again. */
  lemma {:induction false} SplitRoundTrip(s: Bytes)
    ensures Unlines(Lines(s)) + Tail(s) == s
    ensures 10 as byte !in Tail(s) && forall l :: l in Lines(s) ==> 10 as byte !in l
  {
    if s != [] {
      SplitRoundTrip(s[..|s|-1]);
    }
  }

  lemma {:induction false} SplitPart(s: Bytes, part: Bytes)
    requires NEWLINE !in part
    ensures Lines(s + part) == Lines(s) && Tail(s + part) == Tail(s) + part
  {
    if part == [] {
      assert s + part == s;
    } else {
      SplitPart(s, part[..|part|-1]);
      assert (s + part)[..|s + part|-1] == s + part[..|part|-1];
    }
  }

  lemma SplitLine(s: Bytes, part: Bytes)
    requires NEWLINE !in part
    ensures Lines(s + part + [NEWLINE]) == Lines(s) + [Tail(s) + part]
    ensures Tail(s + part + [NEWLINE]) == []
  {
    SplitPart(s, part);
    var t := s + part + [NEWLINE];
    assert t[..|t|-1] == s + part;
  }

  // ----- what a stream means -----

  datatype Frame = TooLarge | Complete(line: Bytes)

  function FrameOf(line: Bytes): Frame {
    if |line| > MAX_LINE_BYTES then TooLarge else Complete(line)
  }

  function FramesOf(ls: seq<Bytes>): seq<Frame> {
    if ls == [] then [] else FramesOf(ls[..|ls|-1]) + [FrameOf(ls[|ls|-1])]
  }

  /** One frame a line; an unterminated tail counts as soon as it is too long. */
  function Frames(s: Bytes): seq<Frame> {
    FramesOf(Lines(s)) + if |Tail(s)| > MAX_LINE_BYTES then [TooLarge] else []
  }

  lemma {:induction false} FramesOfAt(ls: seq<Bytes>, i: nat)
    requires i < |ls|
    ensures |FramesOf(ls)| == |ls| && FramesOf(ls)[i] == FrameOf(ls[i])
  {
    if i < |ls| - 1 {
      FramesOfAt(ls[..|ls|-1], i);
    } else if i > 0 {
      FramesOfAt(ls[..|ls|-1], i - 1);
    }
  }

  /** Each complete line is processed once, or refused once when it is too long, in order; an
      unterminated tail is refused once when it is too long, and otherwise not mentioned. */
  lemma OneFramePerLine(s: Bytes)
    ensures |Frames(s)| == |Lines(s)| + if |Tail(s)| > MAX_LINE_BYTES then 1 else 0
    ensures forall i :: 0 <= i < |Lines(s)| ==>
      Frames(s)[i] == if |Lines(s)[i]| > MAX_LINE_BYTES then TooLarge else Complete(Lines(s)[i])
    ensures |Tail(s)| > MAX_LINE_BYTES ==> Frames(s)[|Lines(s)|] == TooLarge
  {
    forall i | 0 <= i < |Lines(s)|
      ensures |FramesOf(Lines(s))| == |Lines(s)| && FramesOf(Lines(s))[i] == FrameOf(Lines(s)[i])
    {
      FramesOfAt(Lines(s), i);
    }
    if Lines(s) != [] { FramesOfAt(Lines(s), 0); }
  }

  lemma FramesOfSnoc(ls: seq<Bytes>, l: Bytes)
    ensures FramesOf(ls + [l]) == FramesOf(ls) + [FrameOf(l)]
  {
    assert (ls + [l])[..|ls + [l]|-1] == ls;
  }

  /** What was said about a stream stands, whatever follows. */
  lemma {:induction false} FramesAreFinal(s: Bytes, more: Bytes)
    ensures Frames(s) <= Frames(s + more)
  {
    if more == [] {
      assert s + more == s;
    } else {
      var init := more[..|more|-1];
      FramesAreFinal(s, init);
      assert s + init + [more[|more|-1]] == s + more;
    }
  }

  // ----- requests and responses -----

  datatype Request = Request(requestId: string, methodName: string, params: map<string, string>)

  datatype Response =
    | PayloadTooLarge
    | ParseError(message: string)
    | InvalidRequest(requestId: string)

  /** What decoding, trimming and parsing make of one line. */
  datatype Parsed = Blank | Refused(response: Response) | Accepted(request: Request)

  /** What went to the peer, and what went to the consumer (`None` ends the stream). */
  datatype Said = Said(sent: seq<Response>, items: seq<Option<Request>>) {
    function Then(more: Said): Said {
      Said(sent + more.sent, items + more.items)
    }
  }

  const NOTHING := Said([], [])
  const TOO_LARGE := Said([PayloadTooLarge], [])

  lemma ThenNothing(a: Said)
    ensures a.Then(NOTHING) == a
  {
  }

  function OutputOf(f: Frame, parse: Bytes -> Parsed): Said {
    match f
    case TooLarge => TOO_LARGE
    case Complete(line) =>
      match parse(line)
      case Blank => NOTHING
      case Refused(r) => Said([r], [])
      case Accepted(r) => Said([], [Some(r)])
  }

  function OutputsOf(fs: seq<Frame>, parse: Bytes -> Parsed): Said {
    if fs == [] then NOTHING else OutputsOf(fs[..|fs|-1], parse).Then(OutputOf(fs[|fs|-1], parse))
  }

  lemma OutputsSnoc(fs: seq<Frame>, f: Frame, parse: Bytes -> Parsed)
    ensures OutputsOf(fs + [f], parse) == OutputsOf(fs, parse).Then(OutputOf(f, parse))
  {
    assert (fs + [f])[..|fs + [f]|-1] == fs;
  }

  /** What the framer is to say about a stream. */
  function Says(s: Bytes, parse: Bytes -> Parsed): Said {
    OutputsOf(Frames(s), parse)
  }

  // ----- what that answers, line by line -----

  predicate Overlong(l: Bytes) {
    |l| > 1_048_576
  }

  /** The responses that complete lines call for: one for each that is too long or malformed. */
  function Answers(ls: seq<Bytes>, parse: Bytes -> Parsed): seq<Response> {
    if ls == [] then []
    else
      var l := ls[|ls|-1];
      Answers(ls[..|ls|-1], parse) +
      if Overlong(l) then [PayloadTooLarge]
      else if parse(l).Refused? then [parse(l).response]
      else []
  }

  /** The requests among complete lines. */
  function Requests(ls: seq<Bytes>, parse: Bytes -> Parsed): seq<Option<Request>> {
    if ls == [] then []
    else
      var l := ls[|ls|-1];
      Requests(ls[..|ls|-1], parse) + if !Overlong(l) && parse(l).Accepted? then [Some(parse(l).request)] else []
  }

  /** How many lines are too long or not blank. */
  function Answerable(ls: seq<Bytes>, parse: Bytes -> Parsed): nat {
    if ls == [] then 0
    else
      var l := ls[|ls|-1];
      Answerable(ls[..|ls|-1], parse) + if Overlong(l) || !parse(l).Blank? then 1 else 0
  }

  lemma {:induction false} LinesAnswered(ls: seq<Bytes>, parse: Bytes -> Parsed)
    ensures OutputsOf(FramesOf(ls), parse) == Said(Answers(ls, parse), Requests(ls, parse))
    ensures |Answers(ls, parse)| + |Requests(ls, parse)| == Answerable(ls, parse)
  {
    if ls != [] {
      var init, l := ls[..|ls|-1], ls[|ls|-1];
      LinesAnswered(init, parse);
      OutputsSnoc(FramesOf(init), FrameOf(l), parse);
    }
  }

  /** The peer gets one response for each line that is too long, the unfinished one included, and the parser's
      for each it refuses; the consumer gets the request of each line it accepts; both in order.  So every
      line that is too long or not blank is answered once. */
  lemma EveryLineAnswered(s: Bytes, parse: Bytes -> Parsed)
    ensures Says(s, parse).sent == Answers(Lines(s), parse) + if Overlong(Tail(s)) then [PayloadTooLarge] else []
    ensures Says(s, parse).items == Requests(Lines(s), parse)
    ensures |Says(s, parse).sent| + |Says(s, parse).items| ==
      Answerable(Lines(s), parse) + if Overlong(Tail(s)) then 1 else 0
  {
    LinesAnswered(Lines(s), parse);
    var fs := FramesOf(Lines(s));
    OutputsSnoc(fs, TooLarge, parse);
    assert fs + [] == fs;
  }

  /** What is said about line i comes right after what is said about the lines before it. */
  lemma {:induction false} AnsweredInPlace(ls: seq<Bytes>, i: nat, parse: Bytes -> Parsed)
    requires i < |ls|
    ensures Answers(ls[..i], parse) <= Answers(ls, parse) && Requests(ls[..i], parse) <= Requests(ls, parse)
    ensures Overlong(ls[i]) || parse(ls[i]).Refused? ==>
      && |Answers(ls[..i], parse)| < |Answers(ls, parse)|
      && Answers(ls, parse)[|Answers(ls[..i], parse)|] ==
           if Overlong(ls[i]) then PayloadTooLarge else parse(ls[i]).response
    ensures !Overlong(ls[i]) && parse(ls[i]).Accepted? ==>
      && |Requests(ls[..i], parse)| < |Requests(ls, parse)|
      && Requests(ls, parse)[|Requests(ls[..i], parse)|] == Some(parse(ls[i]).request)
  {
    if i < |ls| - 1 {
      AnsweredInPlace(ls[..|ls|-1], i, parse);
      assert ls[..|ls|-1][..i] == ls[..i];
    }
  }

  /** After the stream `s` the unfinished line is `tail`, and this much has been said. */
  ghost predicate Means(s: Bytes, tail: Bytes, said: Said, parse: Bytes -> Parsed) {
    tail == Tail(s) && said == Says(s, parse)
  }

  /** What a part without newline gives to say after `tail`. */
  function OverflowAfter(tail: Bytes, part: Bytes): Said {
    if |tail| <= MAX_LINE_BYTES < |tail| + |part| then TOO_LARGE else NOTHING
  }

  function LineAfter(tail: Bytes, part: Bytes, parse: Bytes -> Parsed): Said {
    if |tail| > MAX_LINE_BYTES then NOTHING else OutputOf(FrameOf(tail + part), parse)
  }

  lemma PartMeans(s: Bytes, tail: Bytes, said: Said, part: Bytes, parse: Bytes -> Parsed)
    requires NEWLINE !in part && Means(s, tail, said, parse)
    ensures Means(s + part, tail + part, said.Then(OverflowAfter(tail, part)), parse)
  {
    SplitPart(s, part);
    var fs := FramesOf(Lines(s));
    OutputsSnoc(fs, TooLarge, parse);
    ThenNothing(said);
    assert fs + [] == fs;
  }

  lemma LineMeans(s: Bytes, tail: Bytes, said: Said, part: Bytes, parse: Bytes -> Parsed)
    requires NEWLINE !in part && Means(s, tail, said, parse)
    ensures Means(s + part + [NEWLINE], [], said.Then(LineAfter(tail, part, parse)), parse)
  {
    SplitLine(s, part);
    FramesOfSnoc(Lines(s), Tail(s) + part);
    var fs, f := FramesOf(Lines(s)), FrameOf(Tail(s) + part);
    OutputsSnoc(fs, f, parse);
    ThenNothing(said);
    assert fs + [] == fs && fs + [f] + [] == fs + [f];
  }

  function Joined(chunks: seq<Bytes>): Bytes {
    if chunks == [] then [] else Joined(chunks[..|chunks|-1]) + chunks[|chunks|-1]
  }

  method IndexOf(chunk: Bytes, b: byte, offset: nat) returns (r: Option<nat>)
    requires offset <= |chunk|
    ensures r.Some? ==> offset <= r.value < |chunk| && chunk[r.value] == b && b !in chunk[offset..r.value]
    ensures r.None? ==> b !in chunk[offset..|chunk|]
  {
    for k := offset to |chunk|
      invariant b !in chunk[offset..k]
    {
      if chunk[k] == b { return Some(k); }
    }
    r := None;
  }

  lemma CutAt(s: Bytes, chunk: Bytes, offset: nat, next: nat)
    requires offset <= next <= |chunk|
    ensures s + chunk[..offset] + chunk[offset..next] == s + chunk[..next]
  {
    assert chunk[..offset] + chunk[offset..next] == chunk[..next];
  }

  lemma EndsLine(s: Bytes, chunk: Bytes, offset: nat, nl: nat)
    requires offset <= nl < |chunk| && chunk[nl] == NEWLINE
    ensures s + chunk[offset..nl] + [NEWLINE] == s + chunk[offset..nl+1]
  {
    assert chunk[offset..nl+1] == chunk[offset..nl] + [chunk[nl]];
  }

  class LineFramer {
    const parse: Bytes -> Parsed
    var chunks: seq<Bytes>
    var bufferedBytes: nat
    var tooLarge: bool
    var queue: seq<Option<Request>>
    var waiting: bool
    ghost var tail: Bytes
    ghost var trace: Said
    ghost var delivered: seq<Option<Request>>

    /** The buffer holds the unfinished line while that fits, and never more than the limit. */
    ghost predicate Buffers()
      reads this`chunks, this`bufferedBytes, this`tooLarge, this`tail
    {
      && bufferedBytes == |Joined(chunks)| <= MAX_LINE_BYTES
      && (tooLarge <==> |tail| > MAX_LINE_BYTES)
      && Joined(chunks) == if tooLarge then [] else tail
    }

    /** Items reach the consumer in the order they were put in, and none is lost. */
    ghost predicate HandsOff()
      reads this`delivered, this`queue, this`trace, this`waiting
    {
      && delivered + queue == trace.items
      && (waiting ==> queue == [])
    }

    constructor (parse: Bytes -> Parsed)
      ensures Buffers() && HandsOff() && this.parse == parse
      ensures tail == [] && trace == NOTHING && delivered == [] && queue == [] && !waiting
    {
      this.parse := parse;
      chunks, bufferedBytes, tooLarge := [], 0, false;
      queue, waiting := [], false;
      tail, trace, delivered := [], NOTHING, [];
    }

    method Enqueue(item: Option<Request>)
      requires HandsOff()
      modifies this`queue, this`waiting, this`trace, this`delivered
      ensures HandsOff() && trace == old(trace).Then(Said([], [item])) && !waiting
      ensures if old(waiting) then delivered == old(delivered) + [item] && queue == []
              else queue == old(queue) + [item] && delivered == old(delivered)
    {
      trace := trace.Then(Said([], [item]));
      if waiting {
        waiting := false;
        delivered := delivered + [item];
      } else {
        queue := queue + [item];
      }
    }

    /** The consumer asks for the next item: the oldest one queued, or else it waits. */
    method NextItem() returns (item: Option<Option<Request>>)
      requires HandsOff() && !waiting
      modifies this`queue, this`waiting, this`delivered
      ensures HandsOff()
      ensures if old(queue) == [] then item.None? && waiting && delivered == old(delivered)
              else item == Some(old(queue)[0]) && !waiting && delivered == old(delivered) + [old(queue)[0]]
    {
      if queue != [] {
        item := Some(queue[0]);
        delivered := delivered + [queue[0]];
        queue := queue[1..];
      } else {
        item, waiting := None, true;
      }
    }

    method SendResponse(r: Response)
      requires HandsOff()
      modifies this`trace
      ensures HandsOff() && trace == old(trace).Then(Said([r], []))
    {
      trace := trace.Then(Said([r], []));
    }

    method ProcessLine(line: Bytes)
      requires HandsOff() && |line| <= MAX_LINE_BYTES
      modifies this`queue, this`waiting, this`trace, this`delivered
      ensures HandsOff() && trace == old(trace).Then(OutputOf(Complete(line), parse))
    {
      match parse(line) {
        case Blank =>
        case Refused(r) => SendResponse(r);
        case Accepted(r) => Enqueue(Some(r));
      }
    }

    /** A part without newline is kept, or dropped once the line is too long. */
    method Accumulate(part: Bytes)
      requires Buffers() && HandsOff()
      modifies this
      ensures Buffers() && HandsOff()
      ensures tail == old(tail) + part && trace == old(trace).Then(OverflowAfter(old(tail), part))
    {
      tail := tail + part;
      if tooLarge || bufferedBytes + |part| > MAX_LINE_BYTES {
        if !tooLarge {
          SendResponse(PayloadTooLarge);
          tooLarge := true;
        }
        chunks, bufferedBytes := [], 0;
      } else {
        chunks := chunks + [part];
        bufferedBytes := bufferedBytes + |part|;
      }
    }

    /** Empty the buffer at the end of a line: the whole line, if it fits. */
    method TakeLine(part: Bytes) returns (line: Option<Bytes>, overflows: bool)
      requires Buffers()
      modifies this`chunks, this`bufferedBytes, this`tooLarge, this`tail
      ensures Buffers() && tail == []
      ensures overflows == (|old(tail)| <= MAX_LINE_BYTES < |old(tail)| + |part|)
      ensures line == if |old(tail)| + |part| > MAX_LINE_BYTES then None else Some(old(tail) + part)
    {
      line, overflows := None, false;
      if tooLarge || bufferedBytes + |part| > MAX_LINE_BYTES {
        overflows := !tooLarge;
        tooLarge := false;
      } else {
        line := Some(Joined(chunks + [part]));
      }
      chunks, bufferedBytes, tail := [], 0, [];
    }

    /** A part that a newline ends completes the line, or ends one that is too long. */
    method CompleteLine(part: Bytes)
      requires Buffers() && HandsOff()
      modifies this
      ensures Buffers() && HandsOff()
      ensures tail == [] && trace == old(trace).Then(LineAfter(old(tail), part, parse))
    {
      var line, overflows := TakeLine(part);
      if line.Some? {
        ProcessLine(line.value);
      } else if overflows {
        SendResponse(PayloadTooLarge);
      }
    }

    /** A chunk after the stream `s`: what has been said is what the longer stream means. */
    method OnData(chunk: Bytes, ghost s: Bytes)
      requires Buffers() && HandsOff() && Means(s, tail, trace, parse)
      modifies this
      ensures Buffers() && HandsOff() && Means(s + chunk, tail, trace, parse)
    {
      var offset := 0;
      ghost var seen := s;
      while offset < |chunk|
        invariant offset <= |chunk| && seen == s + chunk[..offset]
        invariant Buffers() && HandsOff() && Means(seen, tail, trace, parse)
      {
        ghost var was := offset;
        offset, seen := NextPart(chunk, offset, seen);
        CutAt(s, chunk, was, offset);
      }
      assert chunk[..offset] == chunk;
    }

    /** One turn of the loop over a chunk: up to its next newline, or its end. */
    method NextPart(chunk: Bytes, offset: nat, ghost seen: Bytes) returns (next: nat, ghost seen': Bytes)
      requires Buffers() && HandsOff() && Means(seen, tail, trace, parse) && offset < |chunk|
      modifies this
      ensures Buffers() && HandsOff() && Means(seen', tail, trace, parse)
      ensures offset < next <= |chunk| && seen' == seen + chunk[offset..next]
    {
      var nl := IndexOf(chunk, NEWLINE, offset);
      if nl.None? {
        next := |chunk|;
        seen' := AccumulateMeans(chunk[offset..next], seen);
      } else {
        next := nl.value + 1;
        EndsLine(seen, chunk, offset, nl.value);
        seen' := CompleteMeans(chunk[offset..nl.value], seen);
      }
    }

    method AccumulateMeans(part: Bytes, ghost seen: Bytes) returns (ghost seen': Bytes)
      requires Buffers() && HandsOff() && Means(seen, tail, trace, parse) && NEWLINE !in part
      modifies this
      ensures Buffers() && HandsOff() && Means(seen', tail, trace, parse) && seen' == seen + part
    {
      PartMeans(seen, tail, trace, part, parse);
      seen' := seen + part;
      Accumulate(part);
    }

    method CompleteMeans(part: Bytes, ghost seen: Bytes) returns (ghost seen': Bytes)
      requires Buffers() && HandsOff() && Means(seen, tail, trace, parse) && NEWLINE !in part
      modifies this
      ensures Buffers() && HandsOff() && Means(seen', tail, trace, parse) && seen' == seen + part + [NEWLINE]
    {
      LineMeans(seen, tail, trace, part, parse);
      seen' := seen + part + [NEWLINE];
      CompleteLine(part);
    }

    /** End, error or close: the consumer gets the end marker, and an unfinished line is dropped. */
    method OnEnd()
      requires HandsOff()
      modifies this`queue, this`waiting, this`trace, this`delivered
      ensures HandsOff() && trace == old(trace).Then(Said([], [None]))
    {
      Enqueue(None);
    }
  }

  /** However a stream is cut into chunks, the framer says the same about it, and its requests are
      handed over in order. */
  method Feed(parse: Bytes -> Parsed, chunks: seq<Bytes>) returns (framer: LineFramer)
    ensures fresh(framer) && framer.Buffers() && framer.HandsOff()
    ensures framer.trace == Says(Joined(chunks), parse)
    ensures var ls, open := Lines(Joined(chunks)), Tail(Joined(chunks));
      && framer.trace.sent == Answers(ls, parse) + (if Overlong(open) then [PayloadTooLarge] else [])
      && framer.trace.items == Requests(ls, parse)
  {
    framer := new LineFramer(parse);
    for k := 0 to |chunks|
      invariant fresh(framer) && framer.Buffers() && framer.HandsOff() && framer.parse == parse
      invariant Means(Joined(chunks[..k]), framer.tail, framer.trace, parse)
    {
      assert chunks[..k+1][..k] == chunks[..k];
      framer.OnData(chunks[k], Joined(chunks[..k]));
    }
    assert chunks[..|chunks|] == chunks;
    EveryLineAnswered(Joined(chunks), parse);
  }
}

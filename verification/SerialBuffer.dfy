/** The byte buffer of `SerialPortTransport` (`modem/transport.rs`): lines and
    prompts cut from chunks that arrive as the port delivers them. */
module SerialBuffer {
  import opened Text
  import opened Utf8

  const LF: Byte := 0x0A
  const SPACE: Byte := 0x20
  const PROMPT: Byte := 0x3E

  /** What awaiting the port comes to: some bytes, the deadline (or the caller
      giving up on the read), end of file, or a failure. */
  datatype Event = Chunk(data: seq<Byte>) | Expired | Closed | Broken

  datatype LineRead = Line(text: seq<Byte>) | NoLine | LineError
  datatype PromptRead = Seen | NotSeen | PromptError

  /** The position of the first `x`, or the length. */
  function Find(s: seq<Byte>, x: Byte): (i: nat)
    ensures i <= |s| && (i < |s| ==> s[i] == x)
    ensures forall k :: 0 <= k < i ==> s[k] != x
  {
    if s == [] || s[0] == x then 0 else 1 + Find(s[1..], x)
  }

  lemma FindIs(s: seq<Byte>, x: Byte, i: nat)
    requires i <= |s| && (i < |s| ==> s[i] == x) && forall k :: 0 <= k < i ==> s[k] != x
    ensures Find(s, x) == i
  {
  }

  /** `trim_end_matches(['\r', '\n'])`. */
  function TrimEol(s: seq<Byte>): seq<Byte> {
    if s != [] && (s[|s| - 1] == CR || s[|s| - 1] == LF) then TrimEol(s[..|s| - 1]) else s
  }

  /** Only line ends are trimmed, and all of them. */
  lemma {:induction false} TrimEolMeans(s: seq<Byte>) returns (ends: seq<Byte>)
    ensures s == TrimEol(s) + ends && forall i :: 0 <= i < |ends| ==> ends[i] in {CR, LF}
    ensures TrimEol(s) == [] || TrimEol(s)[|TrimEol(s)| - 1] !in {CR, LF}
  {
    ends := [];
    if s != [] && (s[|s| - 1] == CR || s[|s| - 1] == LF) {
      ends := TrimEolMeans(s[..|s| - 1]);
      Associate(TrimEol(s), ends, [s[|s| - 1]]);
      ends := ends + [s[|s| - 1]];
    }
  }

  function Flat(pieces: seq<seq<Byte>>): seq<Byte> {
    if pieces == [] then [] else Flat(pieces[..|pieces| - 1]) + pieces[|pieces| - 1]
  }

  /** All the bytes of the chunks among some events. */
  function Delivered(events: seq<Event>): seq<Byte> {
    if events == [] then []
    else Delivered(events[..|events| - 1]) + DataOf(events[|events| - 1])
  }

  function DataOf(event: Event): seq<Byte> {
    match event case Chunk(data) => data case _ => []
  }

  /** Bytes held stay the bytes delivered when one more event comes in. */
  lemma DeliveredMore(held: seq<Byte>, pending: seq<Byte>, past: seq<Event>, event: Event)
    requires held + pending == Delivered(past)
    ensures held + (pending + DataOf(event)) == Delivered(past + [event])
  {
    assert (past + [event])[..|past|] == past;
  }

  lemma {:induction false} DeliveredConcat(a: seq<Event>, b: seq<Event>)
    ensures Delivered(a + b) == Delivered(a) + Delivered(b)
  {
    if b == [] {
      assert a + b == a;
    } else {
      assert (a + b)[..|a + b| - 1] == a + b[..|b| - 1];
      DeliveredConcat(a, b[..|b| - 1]);
    }
  }

  /** A line with its line feed, and no other. */
  predicate Complete(line: seq<Byte>) {
    line != [] && Find(line, LF) == |line| - 1
  }

  /** The complete lines of a byte stream, in order. */
  function RawLines(s: seq<Byte>): seq<seq<Byte>>
    decreases |s|
  {
    var i := Find(s, LF);
    if i == |s| then [] else [s[..i + 1]] + RawLines(s[i + 1..])
  }

  lemma RawLinesCons(line: seq<Byte>, rest: seq<Byte>)
    requires Complete(line)
    ensures RawLines(line + rest) == [line] + RawLines(rest)
  {
    var s, i := line + rest, |line| - 1;
    assert forall k :: 0 <= k < i ==> s[k] == line[k];
    FindIs(s, LF, i);
    assert s[..i + 1] == line && s[i + 1..] == rest;
  }

  lemma Regroup(front: seq<seq<Byte>>, last: seq<Byte>, rest: seq<Byte>, tail: seq<seq<Byte>>)
    ensures Flat(front + [last]) + rest == Flat(front) + (last + rest)
    ensures front + [last] + tail == front + ([last] + tail)
  {
    assert (front + [last])[..|front|] == front;
  }

  lemma {:induction false} RawLinesAfter(lines: seq<seq<Byte>>, rest: seq<Byte>)
    requires forall i :: 0 <= i < |lines| ==> Complete(lines[i])
    ensures RawLines(Flat(lines) + rest) == lines + RawLines(rest)
  {
    if lines == [] {
      assert Flat(lines) + rest == rest;
    } else {
      var front, last := lines[..|lines| - 1], lines[|lines| - 1];
      RawLinesAfter(front, last + rest);
      RawLinesCons(last, rest);
      Regroup(front, last, rest, RawLines(rest));
      assert lines == front + [last];
    }
  }

  /** Bytes up to their first prompt, and perhaps one space more. */
  predicate UpToPrompt(piece: seq<Byte>) {
    var i := Find(piece, PROMPT);
    i < |piece| && (piece[i + 1..] == [] || piece[i + 1..] == [SPACE])
  }

  lemma PromptPiece(pending: seq<Byte>, i: nat, end: nat)
    requires i == Find(pending, PROMPT) < end <= |pending| && end <= i + 2
    requires end == i + 2 ==> pending[i + 1] == SPACE
    ensures UpToPrompt(pending[..end])
  {
    FindIs(pending[..end], PROMPT, i);
  }

  /** A read was ended by its deadline, or else by the end of the stream or a failure. */
  predicate Stopped(past: seq<Event>, stream: seq<Event>, expired: bool) {
    if past != [] && past[|past| - 1] == Expired then expired || stream == []
    else !expired && (stream == [] || (past != [] && past[|past| - 1] in {Closed, Broken}))
  }

  class SerialPortTransport {
    /** What the port will deliver; it reads as closed once exhausted. */
    var stream: seq<Event>
    var pending: seq<Byte>
    ghost var past: seq<Event>
    ghost var pieces: seq<seq<Byte>>

    ghost function Received(): seq<Byte>
      reads this
    {
      Delivered(past)
    }

    /** No byte is lost, repeated or reordered. */
    ghost predicate Valid()
      reads this
    {
      Flat(pieces) + pending == Received()
    }

    constructor (stream: seq<Event>)
      ensures Valid() && this.stream == stream && past == [] && pieces == [] && pending == []
    {
      this.stream, pending, past, pieces := stream, [], [], [];
    }

    method Next() returns (event: Event)
      modifies this`stream, this`past
      ensures past + stream == old(past + stream)
      ensures event == if old(stream) == [] then Closed else old(stream)[0]
      ensures past == old(past) + if old(stream) == [] then [] else [event]
    {
      if stream == [] {
        return Closed;
      }
      event := stream[0];
      stream, past := stream[1..], past + [event];
    }

    /** Takes the first `n` pending bytes. */
    method Drain(n: nat) returns (drained: seq<Byte>)
      requires Valid() && n <= |pending|
      modifies this`pending, this`pieces
      ensures Valid() && drained == old(pending)[..n] && pending == old(pending)[n..]
      ensures pieces == old(pieces) + [drained]
    {
      drained := pending[..n];
      assert pending == drained + pending[n..];
      pending, pieces := pending[n..], pieces + [drained];
      assert pieces[..|pieces| - 1] == old(pieces);
    }

    /** Awaits the port once and appends a chunk. */
    method Fill() returns (event: Event)
      requires Valid()
      modifies this`stream, this`past, this`pending
      ensures Valid() && past + stream == old(past + stream) && old(past) <= past
      ensures old(stream) == [] ==> stream == [] && event == Closed
      ensures old(stream) != [] ==> |stream| < |old(stream)|
      ensures pending == old(pending) + DataOf(event)
      ensures if old(stream) == [] then event == Closed && past == old(past) else past == old(past) + [event]
    {
      event := Next();
      DeliveredMore(Flat(pieces), pending, old(past), event);
      assert pending + [] == pending && old(past) + [] == old(past);
      if event.Chunk? {
        pending := pending + event.data;
      }
    }

    /** `read_line`. */
    method ReadLine() returns (r: LineRead)
      requires Valid()
      modifies this
      ensures Valid() && past + stream == old(past + stream) && old(past) <= past
      ensures r.Line? ==>
                && |pieces| == |old(pieces)| + 1 && pieces[..|old(pieces)|] == old(pieces)
                && Complete(pieces[|old(pieces)|]) && r.text == TrimEol(pieces[|old(pieces)|])
      ensures !r.Line? ==> pieces == old(pieces) && LF !in pending && Stopped(past, stream, r == NoLine)
    {
      while true
        invariant Valid() && pieces == old(pieces)
        invariant past + stream == old(past + stream) && old(past) <= past
        decreases |stream|
      {
        var i := Find(pending, LF);
        if i < |pending| {
          FindIs(pending[..i + 1], LF, i);
          var drained := Drain(i + 1);
          return Line(TrimEol(drained));
        }
        var event := Fill();
        match event
        case Chunk(_) =>
        case Expired => return NoLine;
        case Closed => return LineError;
        case Broken => return LineError;
      }
    }

    /** `wait_for_prompt`: everything up to the first `>`, with the space after it
        if that has arrived. */
    method WaitForPrompt() returns (r: PromptRead)
      requires Valid()
      modifies this
      ensures Valid() && past + stream == old(past + stream) && old(past) <= past
      ensures r.Seen? ==>
                && |pieces| == |old(pieces)| + 1 && pieces[..|old(pieces)|] == old(pieces)
                && UpToPrompt(pieces[|old(pieces)|])
      ensures !r.Seen? ==> pieces == old(pieces) && PROMPT !in pending && Stopped(past, stream, r == NotSeen)
    {
      while true
        invariant Valid() && pieces == old(pieces)
        invariant past + stream == old(past + stream) && old(past) <= past
        decreases |stream|
      {
        var i := Find(pending, PROMPT);
        if i < |pending| {
          var end := i + 1;
          if end < |pending| && pending[end] == SPACE {
            end := end + 1;
          }
          PromptPiece(pending, i, end);
          var drained := Drain(end);
          return Seen;
        }
        var event := Fill();
        match event
        case Chunk(_) =>
        case Expired => return NotSeen;
        case Closed => return PromptError;
        case Broken => return PromptError;
      }
    }

    /** When only lines were read, the `k`-th line returned is the `k`-th complete
        line of the bytes the port delivers over its whole life, whatever the chunks,
        deadlines and abandoned reads; and after a read that found none, every line
        received so far has been returned. */
    lemma LinesDependOnBytes()
      requires Valid() && forall i :: 0 <= i < |pieces| ==> Complete(pieces[i])
      ensures pieces <= RawLines(Delivered(past + stream))
      ensures LF !in pending ==> pieces == RawLines(Received())
    {
      DeliveredConcat(past, stream);
      Associate(Flat(pieces), pending, Delivered(stream));
      RawLinesAfter(pieces, pending + Delivered(stream));
      RawLinesAfter(pieces, pending);
    }
  }

  /** So two runs over the same bytes, chunked in any two ways, return the same
      lines as far as both go. */
  lemma ChunkingIsInvisible(a: SerialPortTransport, b: SerialPortTransport, k: nat)
    requires a.Valid() && b.Valid()
    requires forall i :: 0 <= i < |a.pieces| ==> Complete(a.pieces[i])
    requires forall i :: 0 <= i < |b.pieces| ==> Complete(b.pieces[i])
    requires Delivered(a.past + a.stream) == Delivered(b.past + b.stream)
    requires k < |a.pieces| && k < |b.pieces|
    ensures a.pieces[k] == b.pieces[k]
  {
    a.LinesDependOnBytes();
    b.LinesDependOnBytes();
  }
}

/**
  Line framing between client and daemon: the daemon's cancellable reader
  (`read_line` of crates/agend-daemon/src/server.rs), the client's bounded reader
  (`read_bounded` of crates/agend-client/src/terminal.rs) and the bounded writers of both
  sides. Bytes arrive in chunks of any size; the line limits are parameters of the readers.
*/
module LineFraming {
  import opened Common

  type Byte = b: int | 0 <= b < 256
  type Bytes = seq<Byte>
  type Chunk = c: Bytes | c != [] witness [0]

  const NEWLINE: Byte := 10

  const MAX_LINE_BYTES: nat := 0x80_0000
  const MAX_FRAME_LINE: nat := 0x80_0000
  const MAX_REQUEST_LINE: nat := 0x10_0000

  predicate OneLine(s: Bytes) { NEWLINE !in s }

  /** Where the first line ends: its newline, or the end of the bytes. */
  function LineEnd(s: Bytes): (n: nat)
    ensures n <= |s| && OneLine(s[..n]) && (n < |s| ==> s[n] == NEWLINE)
  {
    if s == [] || s[0] == NEWLINE then 0 else 1 + LineEnd(s[1..])
  }

  lemma {:induction false} LineEndIs(s: Bytes, m: nat)
    requires m <= |s| && OneLine(s[..m])
    ensures LineEnd(s) >= m
    ensures m < |s| && s[m] == NEWLINE ==> LineEnd(s) == m
  {
    if m > 0 {
      assert s[0] == s[..m][0] && s[1..][..m - 1] == s[..m][1..];
      LineEndIs(s[1..], m - 1);
    }
  }

  /** Where a first line ends does not depend on what follows its newline. */
  lemma HeadLine(line: Bytes, more: Bytes)
    requires OneLine(line)
    ensures var s := line + [NEWLINE] + more;
            && LineEnd(s) == |line| && s[..|line|] == line
            && s[..|line| + 1] == line + [NEWLINE] && s[|line| + 1..] == more
  {
    var s := line + [NEWLINE] + more;
    assert s[..|line|] == line && s[|line|] == NEWLINE;
    hide LineEnd;
    LineEndIs(s, |line|);
  }

  lemma OpenLine(line: Bytes, more: Bytes)
    requires OneLine(line)
    ensures LineEnd(line + more) >= |line|
  {
    assert (line + more)[..|line|] == line;
    LineEndIs(line + more, |line|);
  }

  lemma JoinedLine(a: Bytes, b: Bytes)
    requires OneLine(a) && OneLine(b)
    ensures OneLine(a + b)
  {
  }

  lemma Cut(s: Bytes, k: nat)
    requires k < |s|
    ensures s == s[..k] + [s[k]] + s[k + 1..]
  {
  }

  /** A chunk read after the beginning `left` of a line. */
  lemma Chunked(left: Bytes, chunk: Bytes, rest: Bytes)
    requires OneLine(left)
    ensures var k := LineEnd(chunk);
            && OneLine(left + chunk[..k])
            && (k < |chunk| ==> left + (chunk + rest) == (left + chunk[..k]) + [NEWLINE] + (chunk[k + 1..] + rest))
            && (k == |chunk| ==> left + (chunk + rest) == (left + chunk[..k]) + rest)
  {
    hide LineEnd, OneLine;
    var k := LineEnd(chunk);
    JoinedLine(left, chunk[..k]);
    if k < |chunk| {
      ChunkEnds(left, chunk, rest, k);
    } else {
      ChunkGoesOn(left, chunk, rest);
    }
  }

  lemma ChunkEnds(left: Bytes, chunk: Bytes, rest: Bytes, k: nat)
    requires k < |chunk| && chunk[k] == NEWLINE
    ensures left + (chunk + rest) == (left + chunk[..k]) + [NEWLINE] + (chunk[k + 1..] + rest)
  {
    Cut(chunk, k);
    Regrouped(left, chunk[..k], [NEWLINE], chunk[k + 1..], rest);
  }

  lemma ChunkGoesOn(left: Bytes, chunk: Bytes, rest: Bytes)
    ensures left + (chunk + rest) == (left + chunk[..|chunk|]) + rest
  {
    assert chunk[..|chunk|] == chunk;
    assert left + (chunk + rest) == (left + chunk) + rest;
  }

  lemma Regrouped(a: Bytes, b: Bytes, c: Bytes, d: Bytes, e: Bytes)
    ensures a + ((b + c + d) + e) == (a + b) + c + (d + e)
  {
  }

  // ---- the buffered reader of a socket -------------------------------------------

  function Flatten(chunks: seq<Bytes>): Bytes
  {
    if chunks == [] then [] else chunks[0] + Flatten(chunks[1..])
  }

  class BufReader {
    var available: Bytes
    var incoming: seq<Chunk>

    ghost function Unread(): Bytes
      reads this
    {
      available + Flatten(incoming)
    }

    constructor (chunks: seq<Chunk>)
      ensures Unread() == Flatten(chunks)
    {
      available, incoming := [], chunks;
    }

    /** Nothing available afterwards means the stream has ended. */
    method FillBuf()
      modifies this
      ensures Unread() == old(Unread()) && (available == [] ==> incoming == [])
    {
      if available == [] && incoming != [] {
        available, incoming := incoming[0], incoming[1..];
      }
    }

    method Consume(n: nat)
      requires n <= |available|
      modifies this
      ensures available == old(available)[n..] && incoming == old(incoming)
    {
      available := available[n..];
    }
  }

  // ---- the daemon's reader --------------------------------------------------------

  datatype Line = Text(bytes: Bytes) | TooLong | End | Cancelled

  /** The next line of a whole stream. */
  function NextLine(s: Bytes, limit: nat): Line
  {
    var n := LineEnd(s);
    if n > limit then TooLong else if n < |s| then Text(s[..n]) else End
  }

  lemma FullLine(line: Bytes, more: Bytes, limit: nat)
    requires OneLine(line)
    ensures NextLine(line + [NEWLINE] + more, limit) == if |line| > limit then TooLong else Text(line)
  {
    hide LineEnd;
    HeadLine(line, more);
  }

  lemma LongLine(line: Bytes, more: Bytes, limit: nat)
    requires OneLine(line) && |line| > limit
    ensures NextLine(line + more, limit) == TooLong
  {
    OpenLine(line, more);
  }

  lemma NoMoreChunks(left: Bytes, limit: nat)
    requires OneLine(left) && |left| <= limit
    ensures NextLine(left, limit) == End
  {
    assert left[..|left|] == left;
    LineEndIs(left, |left|);
  }

  /** `read_line`. `left` is the partial buffer; the call is dropped at its await after
      `waits` chunks if it has not ended by then, or never. Whatever the chunks, the answer is the
      next line of the stream; a dropped call has lost no byte. */
  method ReadLine(reader: BufReader, partial: Bytes, limit: nat, waits: Option<nat>)
    returns (line: Line, left: Bytes)
    requires OneLine(partial) && |partial| <= limit
    modifies reader
    ensures OneLine(left) && |left| <= limit
    ensures var s := old(partial + reader.Unread());
            && (line.Cancelled? || line == NextLine(s, limit))
            && left + reader.Unread() == (if line.Text? then s[|line.bytes| + 1..] else s)
    ensures line.Text? ==> left == []
    ensures line.Cancelled? ==> waits.Some?
  {
    assert Flatten([]) == [];
    hide NextLine, Flatten, LineEnd, OneLine;
    ghost var s := partial + reader.Unread();
    left := partial;
    var polls := 0;
    while waits.None? || polls < waits.value
      invariant left + reader.Unread() == s && OneLine(left) && |left| <= limit
      decreases |reader.Unread()|
    {
      reader.FillBuf();
      var available := reader.available;
      if available == [] {
        NoMoreChunks(left, limit);
        assert s == left;
        return End, left;
      }
      var take := LineEnd(available);
      var done := take < |available|;
      var text := left + available[..take];
      ghost var rest := Flatten(reader.incoming);
      Chunked(left, available, rest);
      if done {
        FullLine(text, available[take + 1..] + rest, limit);
        HeadLine(text, available[take + 1..] + rest);
      }
      if |left| + take > limit {
        if !done {
          LongLine(text, rest, limit);
        }
        return TooLong, left;
      }
      reader.Consume(if done then take + 1 else take);
      if done {
        return Text(text), [];
      }
      assert reader.Unread() == rest;
      left := text;
      polls := polls + 1;
    }
    line := Cancelled;
  }

  /** All lines of a whole stream, and what ended the reading. */
  function SplitAll(s: Bytes, limit: nat): (seq<Bytes>, Line)
    decreases |s|
  {
    var line := NextLine(s, limit);
    if !line.Text? then ([], line)
    else
      var (lines, end) := SplitAll(s[|line.bytes| + 1..], limit);
      ([line.bytes] + lines, end)
  }

  lemma SplitStep(s: Bytes, limit: nat)
    ensures var line, (lines, end) := NextLine(s, limit), SplitAll(s, limit);
            if !line.Text? then lines == [] && end == line
            else |line.bytes| < |s| && var t := SplitAll(s[|line.bytes| + 1..], limit);
                 lines == [line.bytes] + t.0 && end == t.1
  {
  }

  /** The daemon's whole conversation: every chunking and every pattern of dropped calls
      gives the lines of the stream. Call `i` is dropped after `drops[i]` chunks. */
  method ReadAll(reader: BufReader, limit: nat, drops: seq<nat>) returns (lines: seq<Bytes>, end: Line)
    modifies reader
    ensures (lines, end) == SplitAll(old(reader.Unread()), limit)
  {
    hide SplitAll, NextLine;
    ghost var s := reader.Unread();
    var partial := [];
    lines := [];
    var calls := 0;
    ghost var unread := s;
    assert partial + s == s;
    ghost var (more, last) := SplitAll(s, limit);
    assert lines + more == more;
    while true
      invariant OneLine(partial) && |partial| <= limit && 0 <= calls
      invariant unread == partial + reader.Unread() && (more, last) == SplitAll(unread, limit)
      invariant lines + more == SplitAll(s, limit).0 && last == SplitAll(s, limit).1
      decreases |unread|, |drops| - calls
    {
      var waits := if calls < |drops| then Some(drops[calls]) else None;
      end, partial := ReadLine(reader, partial, limit, waits);
      calls := calls + 1;
      SplitStep(unread, limit);
      if end.Text? {
        unread := partial + reader.Unread();
        assert lines + more == (lines + [end.bytes]) + SplitAll(unread, limit).0;
        lines := lines + [end.bytes];
        more := SplitAll(unread, limit).0;
      } else if !end.Cancelled? {
        assert lines + more == lines;
        return;
      }
    }
  }

  /** The bytes of lines, each with its newline. */
  function Joined(lines: seq<Bytes>): Bytes
  {
    if lines == [] then [] else lines[0] + [NEWLINE] + Joined(lines[1..])
  }

  ghost predicate LinesWithin(lines: seq<Bytes>, limit: int)
  {
    forall i :: 0 <= i < |lines| ==> OneLine(lines[i]) && |lines[i]| <= limit
  }

  lemma FirstOfJoined(lines: seq<Bytes>, tail: Bytes)
    requires lines != [] && OneLine(lines[0])
    ensures var s := Joined(lines) + tail;
            LineEnd(s) == |lines[0]| < |s| && s[..|lines[0]|] == lines[0]
            && s[|lines[0]| + 1..] == Joined(lines[1..]) + tail
  {
    hide LineEnd, OneLine;
    var line, more := lines[0], Joined(lines[1..]) + tail;
    assert Joined(lines) + tail == line + [NEWLINE] + more;
    hide Joined;
    HeadLine(line, more);
  }

  /** What the daemon reads of lines that were joined is those lines, whatever follows. */
  lemma {:induction false} SplitUndoesJoin(lines: seq<Bytes>, tail: Bytes, limit: nat)
    requires LinesWithin(lines, limit) && !NextLine(tail, limit).Text?
    ensures SplitAll(Joined(lines) + tail, limit) == (lines, NextLine(tail, limit))
  {
    if lines == [] {
      assert Joined(lines) + tail == tail;
    } else {
      FirstOfJoined(lines, tail);
      SplitUndoesJoin(lines[1..], tail, limit);
      assert lines == [lines[0]] + lines[1..];
    }
  }

  /** Conversely the lines read, joined, are the stream up to an unfinished or too long line. */
  lemma {:induction false} JoinUndoesSplit(s: Bytes, limit: nat) returns (tail: Bytes)
    ensures var (lines, end) := SplitAll(s, limit);
            s == Joined(lines) + tail && LinesWithin(lines, limit)
            && end == NextLine(tail, limit) && !end.Text?
    decreases |s|
  {
    hide LineEnd;
    var line := NextLine(s, limit);
    if line.Text? {
      var n := |line.bytes|;
      var more := SplitAll(s[n + 1..], limit).0;
      tail := JoinUndoesSplit(s[n + 1..], limit);
      Cut(s, n);
      JoinedOneMore(line.bytes, more, tail);
    } else {
      tail := s;
    }
  }

  lemma JoinedOneMore(line: Bytes, lines: seq<Bytes>, tail: Bytes)
    ensures Joined([line] + lines) + tail == line + [NEWLINE] + (Joined(lines) + tail)
  {
    assert ([line] + lines)[1..] == lines;
  }

  // ---- the client's reader ---------------------------------------------------------

  datatype Reply = Received(bytes: Bytes) | Oversize | Incomplete | Ended

  predicate Blank(s: Bytes) { forall b <- s :: b in [9, 10, 12, 13, 32] }

  /** Blank is what consists of spaces, tabs, line feeds, form feeds and carriage returns. */
  lemma BlankIff(s: Bytes)
    ensures Blank(s) <==> forall i :: 0 <= i < |s| ==> s[i] == 32 || 9 <= s[i] <= 10 || 12 <= s[i] <= 13
  {
    assert forall b: Byte :: b in [9, 10, 12, 13, 32] <==> b == 32 || 9 <= b <= 10 || 12 <= b <= 13;
    if Blank(s) {
      forall i | 0 <= i < |s| ensures s[i] == 32 || 9 <= s[i] <= 10 || 12 <= s[i] <= 13 {
        assert s[i] in s;
      }
    }
  }

  /** The next reply of a whole stream and what follows it; blank lines are passed over. */
  function NextReply(s: Bytes, limit: nat): (p: (Reply, Bytes))
    ensures p.0.Received? ==> |p.1| < |s|
    decreases |s|
  {
    var n := LineEnd(s);
    if n == |s| then (if n > limit then Oversize else if n == 0 then Ended else Incomplete, s)
    else if n + 1 > limit then (Oversize, s)
    else if Blank(s[..n + 1]) then NextReply(s[n + 1..], limit)
    else (Received(s[..n + 1]), s[n + 1..])
  }

  lemma FullReply(line: Bytes, more: Bytes, limit: nat)
    requires OneLine(line)
    ensures var s, text := line + [NEWLINE] + more, line + [NEWLINE];
            NextReply(s, limit) == if |text| > limit then (Oversize, s)
                                   else if Blank(text) then NextReply(more, limit) else (Received(text), more)
  {
    hide LineEnd, Blank;
    HeadLine(line, more);
  }

  lemma LongReply(line: Bytes, more: Bytes, limit: nat)
    requires OneLine(line) && |line| > limit
    ensures NextReply(line + more, limit).0 == Oversize
  {
    OpenLine(line, more);
  }

  lemma NoLineYet(s: Bytes)
    ensures OneLine([]) && [] + s == s
  {
  }

  /** What one more chunk tells about the next reply: `text` is the line so far. */
  lemma ChunkOfReply(line: Bytes, chunk: Bytes, rest: Bytes, count: nat, text: Bytes, after: Bytes, limit: nat)
    requires OneLine(line) && count == (if LineEnd(chunk) < |chunk| then LineEnd(chunk) + 1 else |chunk|)
    requires text == line + chunk[..count] && after == chunk[count..] + rest
    ensures var next, found := NextReply(line + (chunk + rest), limit), LineEnd(chunk) < |chunk|;
            && (|text| > limit ==> next.0 == Oversize)
            && (|text| <= limit && !found ==> OneLine(text) && next == NextReply(text + after, limit))
            && (|text| <= limit && found && Blank(text) ==> next == NextReply([] + after, limit))
            && (|text| <= limit && found && !Blank(text) ==> next == (Received(text), after))
  {
    hide LineEnd, OneLine, Blank, NextReply;
    var k := LineEnd(chunk);
    Chunked(line, chunk, rest);
    if k < |chunk| {
      assert text == line + chunk[..k] + [NEWLINE] && [] + after == after;
      FullReply(line + chunk[..k], after, limit);
    } else {
      assert after == rest;
      if |text| > limit {
        LongReply(text, rest, limit);
      }
    }
  }

  lemma NoMoreReplies(line: Bytes, limit: nat)
    requires OneLine(line) && |line| <= limit
    ensures NextReply(line, limit) == (if line == [] then Ended else Incomplete, line)
  {
    assert line[..|line|] == line;
    LineEndIs(line, |line|);
  }

  /** `read_bounded`, up to decoding: whatever the chunks, the next reply of the stream. */
  method ReadBounded(reader: BufReader, limit: nat) returns (r: Reply)
    modifies reader
    ensures r == NextReply(old(reader.Unread()), limit).0
    ensures r.Received? ==> reader.Unread() == NextReply(old(reader.Unread()), limit).1
                            && |reader.Unread()| < old(|reader.Unread()|)
  {
    assert Flatten([]) == [];
    hide NextReply, Flatten, LineEnd, Blank, OneLine;
    ghost var s := reader.Unread();
    var line: Bytes := [];
    NoLineYet(s);
    while true
      invariant OneLine(line) && |line| <= limit && |reader.Unread()| <= |s|
      invariant NextReply(line + reader.Unread(), limit) == NextReply(s, limit)
      decreases |reader.Unread()|
    {
      reader.FillBuf();
      var chunk := reader.available;
      if chunk == [] {
        NoMoreReplies(line, limit);
        assert line + reader.Unread() == line;
        return if line == [] then Ended else Incomplete;
      }
      var newline := LineEnd(chunk);
      var found := newline < |chunk|;
      var count := if found then newline + 1 else |chunk|;
      var text := line + chunk[..count];
      ghost var rest := Flatten(reader.incoming);
      ghost var after := chunk[count..] + rest;
      ChunkOfReply(line, chunk, rest, count, text, after, limit);
      if count > limit - |line| {
        return Oversize;
      }
      reader.Consume(count);
      assert reader.Unread() == after && |after| < |s|;
      if !found {
        line := text;
      } else if Blank(text) {
        line := [];
      } else {
        return Received(text);
      }
    }
  }

  /** All replies of a whole stream, and what ended the reading. */
  function Replies(s: Bytes, limit: nat): (seq<Bytes>, Reply)
    decreases |s|
  {
    var (reply, rest) := NextReply(s, limit);
    if !reply.Received? then ([], reply)
    else
      var (replies, end) := Replies(rest, limit);
      ([reply.bytes] + replies, end)
  }

  /** Every chunking gives the replies of the stream. */
  method ReadReplies(reader: BufReader, limit: nat) returns (replies: seq<Bytes>, end: Reply)
    modifies reader
    ensures (replies, end) == Replies(old(reader.Unread()), limit)
  {
    hide NextReply;
    ghost var s := reader.Unread();
    replies := [];
    ghost var (more, last) := Replies(s, limit);
    assert replies + more == more;
    while true
      invariant (more, last) == Replies(reader.Unread(), limit)
      invariant replies + more == Replies(s, limit).0 && last == Replies(s, limit).1
      decreases |reader.Unread()|
    {
      end := ReadBounded(reader, limit);
      if !end.Received? {
        assert replies + more == replies;
        return;
      }
      assert replies + more == (replies + [end.bytes]) + Replies(reader.Unread(), limit).0;
      replies := replies + [end.bytes];
      more := Replies(reader.Unread(), limit).0;
    }
  }

  /** Lines as the client receives them: blank ones left out, the others with their newline. */
  function Shown(lines: seq<Bytes>): seq<Bytes>
  {
    if lines == [] then []
    else (if Blank(lines[0]) then [] else [lines[0] + [NEWLINE]]) + Shown(lines[1..])
  }

  /** Reading cannot get past these bytes: an unfinished line or one over the limit. */
  predicate Stuck(tail: Bytes, limit: nat) { LineEnd(tail) == |tail| || LineEnd(tail) + 1 > limit }

  lemma OneReply(line: Bytes, more: Bytes, limit: nat)
    requires OneLine(line) && |line| + 1 <= limit
    ensures var (replies, end) := Replies(line + [NEWLINE] + more, limit);
            && replies == (if Blank(line) then [] else [line + [NEWLINE]]) + Replies(more, limit).0
            && end == Replies(more, limit).1
  {
    FullReply(line, more, limit);
    assert Blank(line + [NEWLINE]) == Blank(line);
    hide NextReply, Blank;
    assert [] + Replies(more, limit).0 == Replies(more, limit).0;
  }

  /** What the client reads of lines that were joined is the lines that are not blank. */
  lemma {:induction false} RepliesUndoJoin(lines: seq<Bytes>, tail: Bytes, limit: nat)
    requires LinesWithin(lines, limit - 1) && Stuck(tail, limit)
    ensures Replies(Joined(lines) + tail, limit) == (Shown(lines), NextReply(tail, limit).0)
  {
    if lines == [] {
      assert Joined(lines) + tail == tail;
    } else {
      RepliesUndoJoin(lines[1..], tail, limit);
      JoinedOneMore(lines[0], lines[1..], tail);
      assert lines == [lines[0]] + lines[1..];
      OneReply(lines[0], Joined(lines[1..]) + tail, limit);
      assert Replies(Joined(lines) + tail, limit).0 == Shown(lines);
    }
  }

  // ---- the bounded writers -------------------------------------------------------

  /** The daemon's sink for terminal frames. */
  class FrameLine {
    var data: Bytes

    constructor ()
      ensures data == []
    {
      data := [];
    }

    method Write(bytes: Bytes) returns (ok: bool)
      requires |data| < MAX_FRAME_LINE
      modifies this
      ensures |data| < MAX_FRAME_LINE
      ensures ok <==> |old(data) + bytes| + 1 <= MAX_FRAME_LINE
      ensures data == if ok then old(data) + bytes else old(data)
    {
      if |bytes| >= MAX_FRAME_LINE - |data| {
        return false;
      }
      data := data + bytes;
      ok := true;
    }
  }

  /** The client's sink for terminal requests; the newline goes through it too. */
  class BoundedLine {
    var data: Bytes

    constructor ()
      ensures data == []
    {
      data := [];
    }

    method Write(bytes: Bytes) returns (ok: bool)
      requires |data| <= MAX_REQUEST_LINE
      modifies this
      ensures |data| <= MAX_REQUEST_LINE
      ensures ok <==> |old(data) + bytes| <= MAX_REQUEST_LINE
      ensures data == if ok then old(data) + bytes else old(data)
    {
      if |bytes| > MAX_REQUEST_LINE - |data| {
        return false;
      }
      data := data + bytes;
      ok := true;
    }
  }

  lemma NextPiece(data: Bytes, pieces: seq<Bytes>, i: nat)
    requires i < |pieces|
    ensures data + Flatten(pieces[i..]) == data + pieces[i] + Flatten(pieces[i + 1..])
  {
    assert pieces[i..][1..] == pieces[i + 1..];
  }

  /** A frame is accepted exactly when it fits with its newline, whatever pieces the
      serializer writes it in; otherwise nothing of it is sent. */
  method EncodeFrame(pieces: seq<Bytes>) returns (line: Option<Bytes>)
    ensures line.Some? <==> |Flatten(pieces)| + 1 <= MAX_FRAME_LINE
    ensures line.Some? ==> line.value == Flatten(pieces) + [NEWLINE]
  {
    var sink := new FrameLine();
    assert pieces[0..] == pieces && [] + Flatten(pieces) == Flatten(pieces);
    for i := 0 to |pieces|
      invariant |sink.data| < MAX_FRAME_LINE && sink.data + Flatten(pieces[i..]) == Flatten(pieces)
    {
      NextPiece(sink.data, pieces, i);
      var ok := sink.Write(pieces[i]);
      if !ok {
        return None;
      }
    }
    return Some(sink.data + [NEWLINE]);
  }

  /** A request is accepted exactly when it fits with its newline. */
  method EncodeRequest(pieces: seq<Bytes>) returns (line: Option<Bytes>)
    ensures line.Some? <==> |Flatten(pieces)| + 1 <= MAX_REQUEST_LINE
    ensures line.Some? ==> line.value == Flatten(pieces) + [NEWLINE]
  {
    var sink := new BoundedLine();
    assert pieces[0..] == pieces && [] + Flatten(pieces) == Flatten(pieces);
    for i := 0 to |pieces|
      invariant |sink.data| <= MAX_REQUEST_LINE && sink.data + Flatten(pieces[i..]) == Flatten(pieces)
    {
      NextPiece(sink.data, pieces, i);
      var ok := sink.Write(pieces[i]);
      if !ok {
        return None;
      }
    }
    var ok := sink.Write([NEWLINE]);
    return if ok then Some(sink.data) else None;
  }

  // ---- from one side to the other --------------------------------------------------

  /** Every request the client's writer accepts is read whole by the daemon, in order. */
  lemma RequestsArrive(payloads: seq<Bytes>)
    requires forall i :: 0 <= i < |payloads| ==> OneLine(payloads[i]) && |payloads[i]| + 1 <= MAX_REQUEST_LINE
    ensures SplitAll(Joined(payloads), MAX_LINE_BYTES) == (payloads, End)
  {
    SplitUndoesJoin(payloads, [], MAX_LINE_BYTES);
    assert Joined(payloads) + [] == Joined(payloads);
  }

  /** Every frame the daemon's writer accepts is read whole by the client, in order. */
  lemma FramesArrive(payloads: seq<Bytes>)
    requires forall i :: 0 <= i < |payloads| ==> OneLine(payloads[i]) && |payloads[i]| + 1 <= MAX_FRAME_LINE
    requires forall i :: 0 <= i < |payloads| ==> !Blank(payloads[i])
    ensures var (replies, end) := Replies(Joined(payloads), MAX_FRAME_LINE);
            && end == Ended && |replies| == |payloads|
            && forall i :: 0 <= i < |payloads| ==> replies[i] == payloads[i] + [NEWLINE]
  {
    RepliesUndoJoin(payloads, [], MAX_FRAME_LINE);
    assert Joined(payloads) + [] == Joined(payloads);
    ShownIsAll(payloads);
  }

  lemma {:induction false} ShownIsAll(payloads: seq<Bytes>)
    requires forall i :: 0 <= i < |payloads| ==> !Blank(payloads[i])
    ensures |Shown(payloads)| == |payloads|
    ensures forall i :: 0 <= i < |payloads| ==> Shown(payloads)[i] == payloads[i] + [NEWLINE]
  {
    if payloads != [] {
      ShownIsAll(payloads[1..]);
    }
  }

  /** The daemon's limit refuses no frame the client could read: it is exact. */
  lemma FrameAcceptedIffReadable(payload: Bytes)
    requires OneLine(payload) && !Blank(payload)
    ensures |payload| + 1 <= MAX_FRAME_LINE
            <==> Replies(payload + [NEWLINE], MAX_FRAME_LINE) == ([payload + [NEWLINE]], Ended)
  {
    assert payload + [NEWLINE] + [] == payload + [NEWLINE];
    if |payload| + 1 <= MAX_FRAME_LINE {
      OneReply(payload, [], MAX_FRAME_LINE);
      NoMoreReplies([], MAX_FRAME_LINE);
    } else {
      FullReply(payload, [], MAX_FRAME_LINE);
    }
    hide Blank, OneLine, NextReply;
    assert [payload + [NEWLINE]] + [] == [payload + [NEWLINE]];
  }
}

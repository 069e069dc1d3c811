/**
  Splitting a notification into Telegram messages (`render` of
  crates/agend-core/src/telegram.rs): greedy chunks of at most 4000 UTF-16 units, each
  inside a visible frame. A string is its Unicode scalar values.
*/
module Telegram {
  import opened Common

  datatype Severity = Info | Attention | Error
  datatype Notification = Notification(severity: Severity, title: string, taskId: Option<string>, body: string)

  const CHUNK_UNITS: nat := 4000
  const MESSAGE_UNITS: nat := 4096        // the Bot API limit of sendMessage

  /** `char::len_utf16` */
  function CharUnits(c: char): nat { if c as int >= 0x1_0000 then 2 else 1 }

  function Units(s: string): nat
  {
    if s == "" then 0 else Units(s[..|s| - 1]) + CharUnits(s[|s| - 1])
  }

  /** The UTF-16 encoding of a character: itself, or a surrogate pair. */
  function Utf16(c: char): seq<nat>
  {
    var n := c as int;
    if n < 0x1_0000 then [n] else [0xD800 + (n - 0x1_0000) / 0x400, 0xDC00 + (n - 0x1_0000) % 0x400]
  }

  function Utf16Text(s: string): seq<nat>
  {
    if s == "" then [] else Utf16Text(s[..|s| - 1]) + Utf16(s[|s| - 1])
  }

  /** The character a unit or a surrogate pair stands for. */
  function Scalar(units: seq<nat>): int
  {
    if |units| == 1 then units[0]
    else if |units| == 2 then 0x1_0000 + (units[0] as int - 0xD800) * 0x400 + (units[1] as int - 0xDC00)
    else 0
  }

  /** A character is encoded in as many 16-bit units as are counted for it. */
  lemma UnitsOfCharacters(c: char)
    ensures |Utf16(c)| == CharUnits(c) && Scalar(Utf16(c)) == c as int
    ensures forall u <- Utf16(c) :: u < 0x1_0000
  {
  }

  /** The units counted for a text are the length of its UTF-16 encoding. */
  lemma {:induction false} UnitsAreUtf16(s: string)
    ensures Units(s) == |Utf16Text(s)|
  {
    if s != "" {
      UnitsAreUtf16(s[..|s| - 1]);
      UnitsOfCharacters(s[|s| - 1]);
    }
  }

  function Payload(note: Notification): (r: string)
    ensures r != ""
  {
    var severity := match note.severity case Info => "[Info]" case Attention => "[Attention]" case Error => "[Error]";
    var task := if note.taskId.Some? then note.taskId.value else "\U{2014}";
    severity + "\n" + (("Title: " + note.title) + "\n" + (("Task: " + task) + "\n" + ("" + "\n" + note.body)))
  }

  function FirstNewline(s: string): (n: nat)
    ensures n <= |s|
  {
    if s == "" || s[0] == '\n' then 0 else 1 + FirstNewline(s[1..])
  }

  lemma {:induction false} FirstNewlineIs(head: string, rest: string)
    requires '\n' !in head
    ensures FirstNewline(head + "\n" + rest) == |head|
  {
    if head != "" {
      FirstNewlineIs(head[1..], rest);
      assert (head + "\n" + rest)[1..] == head[1..] + "\n" + rest;
    }
  }

  /** The first line of a text, and what follows it. */
  function FirstLine(s: string): string { s[..FirstNewline(s)] }

  function AfterLine(s: string): string
  {
    if FirstNewline(s) == |s| then "" else s[FirstNewline(s) + 1..]
  }

  lemma LineThenRest(line: string, rest: string)
    requires '\n' !in line
    ensures FirstLine(line + "\n" + rest) == line && AfterLine(line + "\n" + rest) == rest
  {
    FirstNewlineIs(line, rest);
    hide FirstNewline;
    var s := line + "\n" + rest;
    assert s[..|line|] == line && s[|line| + 1..] == rest;
  }

  /** A reader finds the severity, the title, the task and the whole body in their places,
      for every title and task of one line and every body. */
  lemma PayloadReadsBack(note: Notification)
    requires '\n' !in note.title && (note.taskId.Some? ==> '\n' !in note.taskId.value)
    ensures var first := Payload(note);
            var second, third := AfterLine(first), AfterLine(AfterLine(first));
            && FirstLine(first) == (if note.severity.Info? then "[Info]"
                                    else if note.severity.Attention? then "[Attention]" else "[Error]")
            && FirstLine(second) == "Title: " + note.title
            && FirstLine(third) == "Task: " + (if note.taskId.Some? then note.taskId.value else "\U{2014}")
            && FirstLine(AfterLine(third)) == "" && AfterLine(AfterLine(third)) == note.body
  {
    hide FirstLine, AfterLine;
    var severity := if note.severity.Info? then "[Info]"
                    else if note.severity.Attention? then "[Attention]" else "[Error]";
    var task := if note.taskId.Some? then note.taskId.value else "\U{2014}";
    assert '\n' !in severity && '\n' !in "Title: " && '\n' !in "Task: ";
    var fourth := "" + "\n" + note.body;
    var third := ("Task: " + task) + "\n" + fourth;
    var second := ("Title: " + note.title) + "\n" + third;
    assert Payload(note) == severity + "\n" + second;
    hide Payload;
    LineThenRest(severity, second);
    LineThenRest("Title: " + note.title, third);
    LineThenRest("Task: " + task, fourth);
    LineThenRest("", note.body);
  }

  // ---- splits ---------------------------------------------------------------------

  function Concat(parts: seq<string>): string
  {
    if parts == [] then "" else Concat(parts[..|parts| - 1]) + parts[|parts| - 1]
  }

  /** Whole characters, at most 4000 units in each part. */
  ghost predicate Fit(parts: seq<string>)
  {
    forall i :: 0 <= i < |parts| ==> Units(parts[i]) <= CHUNK_UNITS
  }

  lemma ConcatNext(parts: seq<string>, part: string)
    ensures Concat(parts + [part]) == Concat(parts) + part
  {
    assert (parts + [part])[..|parts|] == parts;
  }

  lemma {:induction false} UnitsSum(a: string, b: string)
    ensures Units(a + b) == Units(a) + Units(b)
    decreases |b|
  {
    if b == "" {
      assert a + b == a;
    } else {
      assert (a + b)[..|a + b| - 1] == a + b[..|b| - 1];
      UnitsSum(a, b[..|b| - 1]);
    }
  }

  /** A part of a string has no more units than the string. */
  lemma UnitsWithin(s: string, i: nat, j: nat)
    requires i <= j <= |s|
    ensures Units(s[i..j]) <= Units(s)
  {
    hide Units;
    assert s == s[..j] + s[j..];
    UnitsSum(s[..j], s[j..]);
    assert s[..j] == s[..i] + s[i..j];
    UnitsSum(s[..i], s[i..j]);
  }

  /** No `k` parts that fit get further into the payload than `n`. */
  ghost predicate AtMost(payload: string, k: nat, n: nat)
  {
    forall parts :: Fit(parts) && Concat(parts) <= payload && |parts| <= k ==> |Concat(parts)| <= n
  }

  lemma NothingReachesNothing(payload: string)
    ensures AtMost(payload, 0, 0) && Cut(payload, [], 0)
  {
  }

  /** Staying ahead: when no `k` parts get past `start` and no chunk from there gets past
      `offset`, no `k + 1` parts get past `offset`. */
  lemma StaysAhead(payload: string, k: nat, start: nat, offset: nat)
    requires start <= offset < |payload| && AtMost(payload, k, start)
    requires Units(payload[start..offset + 1]) > CHUNK_UNITS
    ensures AtMost(payload, k + 1, offset)
  {
    forall parts | Fit(parts) && Concat(parts) <= payload && |parts| <= k + 1
      ensures |Concat(parts)| <= offset
    {
      if parts != [] {
        var before, last := parts[..|parts| - 1], parts[|parts| - 1];
        assert Concat(parts) == Concat(before) + last;
        hide Concat, Units;
        assert Fit(before) && Concat(before) <= payload;
        EndsByThen(payload, start, offset, Concat(before), last);
      }
    }
  }

  /** A part that begins no later than `start` and fits ends no later than `offset`. */
  lemma EndsByThen(payload: string, start: nat, offset: nat, before: string, last: string)
    requires start <= offset < |payload| && |before| <= start && before + last <= payload
    requires Units(payload[start..offset + 1]) > CHUNK_UNITS >= Units(last)
    ensures |before + last| <= offset
  {
    hide Units;
    if |before + last| > offset {
      var q := |before|;
      assert payload[start..offset + 1] == (before + last)[start..offset + 1];
      assert (before + last)[start..offset + 1] == last[start - q..offset + 1 - q];
      UnitsWithin(last, start - q, offset + 1 - q);
    }
  }

  lemma UnitsNext(payload: string, i: nat, j: nat)
    requires i <= j < |payload|
    ensures Units(payload[i..j + 1]) == Units(payload[i..j]) + CharUnits(payload[j])
  {
    assert payload[i..j + 1][..j - i] == payload[i..j];
  }

  /** The chunks so far, the next chunk, and how far no other split gets. */
  ghost predicate Cut(payload: string, chunks: seq<string>, start: nat)
  {
    start <= |payload| && Concat(chunks) == payload[..start] && Fit(chunks) && AtMost(payload, |chunks|, start)
  }

  lemma CutOneMore(payload: string, chunks: seq<string>, start: nat, offset: nat)
    requires Cut(payload, chunks, start) && start <= offset < |payload|
    requires Units(payload[start..offset]) <= CHUNK_UNITS < Units(payload[start..offset + 1])
    ensures Cut(payload, chunks + [payload[start..offset]], offset)
  {
    StaysAhead(payload, |chunks|, start, offset);
    ConcatNext(chunks, payload[start..offset]);
    hide Units, Concat, AtMost;
    assert payload[..start] + payload[start..offset] == payload[..offset];
  }

  lemma LastChunk(payload: string, chunks: seq<string>, start: nat)
    requires Cut(payload, chunks, start) && start < |payload| && Units(payload[start..]) <= CHUNK_UNITS
    ensures var all := chunks + [payload[start..]];
            Concat(all) == payload && Fit(all)
            && forall parts :: Fit(parts) && Concat(parts) == payload ==> |all| <= |parts|
  {
    ConcatNext(chunks, payload[start..]);
    hide Units, Concat;
    assert payload[..start] + payload[start..] == payload;
    forall parts | Fit(parts) && Concat(parts) == payload ensures |chunks| + 1 <= |parts| {
      assert Concat(parts) <= payload;
    }
  }

  /** The loop of `render`: nothing is lost, every chunk fits, and no split into parts that
      fit has fewer. */
  method Chunks(payload: string) returns (chunks: seq<string>)
    requires payload != ""
    ensures Concat(chunks) == payload && Fit(chunks) && chunks != []
    ensures forall parts :: Fit(parts) && Concat(parts) == payload ==> |chunks| <= |parts|
  {
    chunks := [];
    var start, units := 0, 0;
    NothingReachesNothing(payload);
    assert Units("") == 0;
    hide Units, Cut;
    for offset := 0 to |payload|
      invariant 0 <= start <= offset && (offset > 0 ==> start < offset)
      invariant units == Units(payload[start..offset]) <= CHUNK_UNITS
      invariant Cut(payload, chunks, start)
    {
      var c := payload[offset];
      UnitsNext(payload, start, offset);
      if units + CharUnits(c) > CHUNK_UNITS {
        CutOneMore(payload, chunks, start, offset);
        chunks := chunks + [payload[start..offset]];
        start, units := offset, 0;
        assert payload[offset..offset] == "";
        UnitsNext(payload, offset, offset);
      }
      units := units + CharUnits(c);
    }
    assert payload[start..|payload|] == payload[start..];
    LastChunk(payload, chunks, start);
    chunks := chunks + [payload[start..]];
  }

  // ---- frames ---------------------------------------------------------------------

  const TITLE := "AgEnD \U{B7} "
  const FOOT := "\n\U{2014}\U{2014}"

  function Header(index: nat, total: nat): string { TITLE + Decimal(index + 1) + "/" + Decimal(total) }

  function Frame(index: nat, total: nat, chunk: string): string
  {
    Header(index, total) + "\n" + chunk + FOOT
  }

  function FirstSlash(s: string): (n: nat)
    ensures n <= |s|
  {
    if s == "" || s[0] == '/' then 0 else 1 + FirstSlash(s[1..])
  }

  lemma {:induction false} FirstSlashIs(head: string, rest: string)
    requires '/' !in head
    ensures FirstSlash(head + "/" + rest) == |head|
  {
    if head != "" {
      FirstSlashIs(head[1..], rest);
      assert (head + "/" + rest)[1..] == head[1..] + "/" + rest;
    }
  }

  /** The two counters of a message: which part it is, and of how many. */
  function Counters(part: string): Option<(nat, nat)>
  {
    var head := FirstLine(part);
    if |head| < |TITLE| then None
    else
      var text := head[|TITLE|..];
      var n := FirstSlash(text);
      if n == |text| || !Digits(text[..n]) || !Digits(text[n + 1..]) then None
      else Some((Number(text[..n]), Number(text[n + 1..])))
  }

  /** Every part says which one it is, counted from one, and how many there are. */
  lemma CountersReadBack(index: nat, total: nat, chunk: string)
    ensures Counters(Frame(index, total, chunk)) == Some((index + 1, total))
  {
    var head, a, b := Header(index, total), Decimal(index + 1), Decimal(total);
    HeaderIsOneLine(index, total);
    LineThenRest(head, chunk + FOOT);
    assert Frame(index, total, chunk) == head + "\n" + (chunk + FOOT);
    assert head[|TITLE|..] == a + "/" + b;
    FirstSlashIs(a, b);
    assert (a + "/" + b)[..|a|] == a && (a + "/" + b)[|a| + 1..] == b;
    DecimalReadsBack(index + 1);
    DecimalReadsBack(total);
    hide FirstLine, FirstSlash, Frame, Header, Decimal, Number;
  }

  /** The content of a message: what is between its first line and the foot. */
  function Unframe(part: string): string
  {
    var n := FirstNewline(part);
    if n + 1 + |FOOT| <= |part| then part[n + 1..|part| - |FOOT|] else ""
  }

  lemma HeaderIsOneLine(index: nat, total: nat)
    ensures '\n' !in Header(index, total)
  {
  }

  /** The frame comes off without touching the chunk, whatever the chunk contains. */
  lemma UnframeUndoesFrame(index: nat, total: nat, chunk: string)
    ensures Unframe(Frame(index, total, chunk)) == chunk
  {
    var head := Header(index, total);
    HeaderIsOneLine(index, total);
    FirstNewlineIs(head, chunk + FOOT);
    hide Header;
    assert Frame(index, total, chunk) == head + "\n" + (chunk + FOOT);
  }

  lemma {:induction false} UnitsOfBasic(s: string)
    requires forall i :: 0 <= i < |s| ==> s[i] as int < 0x1_0000
    ensures Units(s) == |s|
  {
    if s != "" {
      UnitsOfBasic(s[..|s| - 1]);
    }
  }

  /** A frame costs 13 units and its digits. */
  lemma FrameUnits(index: nat, total: nat, chunk: string)
    ensures Units(Frame(index, total, chunk)) == Units(chunk) + 13 + |Decimal(index + 1)| + |Decimal(total)|
  {
    var head := Header(index, total) + "\n";
    UnitsOfBasic(head);
    UnitsOfBasic(FOOT);
    UnitsSum(head, chunk);
    UnitsSum(head + chunk, FOOT);
  }

  function Contents(parts: seq<string>): seq<string>
  {
    seq(|parts|, i requires 0 <= i < |parts| => Unframe(parts[i]))
  }

  /** `render`: taking the frames off and joining gives the payload back, no split that fits
      has fewer parts, and while the counters have at most 83 digits together every part is
      within the message limit. */
  method Render(note: Notification) returns (parts: seq<string>)
    ensures Concat(Contents(parts)) == Payload(note) && parts != []
    ensures forall i :: 0 <= i < |parts| ==> parts[i] == Frame(i, |parts|, Contents(parts)[i])
    ensures forall i :: 0 <= i < |parts| ==> Counters(parts[i]) == Some((i + 1, |parts|))
    ensures Fit(Contents(parts))
    ensures forall others :: Fit(others) && Concat(others) == Payload(note) ==> |parts| <= |others|
    ensures forall i :: 0 <= i < |parts| && |Decimal(i + 1)| + |Decimal(|parts|)| <= 83 ==>
              Units(parts[i]) <= MESSAGE_UNITS
  {
    hide Units, Frame, Concat, Unframe, Payload, Counters;
    var chunks := Chunks(Payload(note));
    var total := |chunks|;
    parts := seq(total, i requires 0 <= i < total => Frame(i, total, chunks[i]));
    forall i | 0 <= i < total
      ensures Unframe(parts[i]) == chunks[i] && Counters(parts[i]) == Some((i + 1, total))
      ensures Units(parts[i]) == Units(chunks[i]) + 13 + |Decimal(i + 1)| + |Decimal(total)|
    {
      UnframeUndoesFrame(i, total, chunks[i]);
      CountersReadBack(i, total, chunks[i]);
      FrameUnits(i, total, chunks[i]);
    }
    assert Contents(parts) == chunks;
  }
}

/** The data field of an event stream as sections 9.2.5 and 9.2.6 of the WHATWG HTML standard define
    it, and exactly when the decoder of `SseBytes` yields the same events by the end of the stream. */
module SseStandard {
  import opened ByteStrings
  import opened SseBytes

  // --- Section 9.2.5: lines end in CRLF, LF or CR. ---

  /** CRLF and lone CR both become LF: an LF right behind a CR adds nothing. */
  function Normalise(s: Bytes): Bytes {
    if s == [] then []
    else
      var n := |s| - 1;
      if s[n] == LF && n > 0 && s[n - 1] == CR then Normalise(s[..n])
      else Normalise(s[..n]) + [if s[n] == CR then LF else s[n]]
  }

  datatype Split = Split(lines: seq<Bytes>, current: Bytes)

  function SplitLF(s: Bytes): Split {
    if s == [] then Split([], [])
    else
      var front := SplitLF(s[..|s| - 1]);
      if s[|s| - 1] == LF then Split(front.lines + [front.current], [])
      else Split(front.lines, front.current + [s[|s| - 1]])
  }

  // --- Section 9.2.6: the data buffer, and its dispatch at a blank line. ---

  datatype Buffer = Buffer(data: Bytes, out: seq<Bytes>)

  function FieldOf(line: Bytes): Bytes {
    line[..FirstColon(line, 0)]
  }

  function ValueOf(line: Bytes): Bytes {
    var i := FirstColon(line, 0);
    if i == |line| then []
    else if i + 1 < |line| && line[i + 1] == SPACE then line[i + 2..]
    else line[i + 1..]
  }

  predicate IsDataLine(line: Bytes) {
    line != [] && line[0] != COLON && FieldOf(line) == DATA
  }

  function Process(buffer: Buffer, line: Bytes): Buffer {
    if line == [] then
      if buffer.data == [] then buffer
      else Buffer([], buffer.out + [buffer.data[..|buffer.data| - 1]])
    else if IsDataLine(line) then Buffer(buffer.data + ValueOf(line) + [LF], buffer.out)
    else buffer
  }

  function Interpret(buffer: Buffer, lines: seq<Bytes>): Buffer
    decreases |lines|
  {
    if lines == [] then buffer else Interpret(Process(buffer, lines[0]), lines[1..])
  }

  const EMPTY := Buffer([], [])

  // --- Section 9.2.5 again: one leading byte order mark is dropped. ---

  const BOM: Bytes := [0xEF, 0xBB, 0xBF]

  function StripBom(s: Bytes): Bytes {
    if BOM <= s then s[3..] else s
  }

  predicate EndsInCR(s: Bytes) {
    s != [] && s[|s| - 1] == CR
  }

  function LinesOf(s: Bytes): seq<Bytes> {
    SplitLF(Normalise(s)).lines
  }

  /** The events of a stream that has come to its end. */
  function StandardEvents(s: Bytes): seq<Bytes> {
    Interpret(EMPTY, LinesOf(StripBom(s))).out
  }

  /** The lines of a text, without one that a last CR has just ended: the decoder waits there for the
      byte that tells CR from CRLF. */
  function CertainLines(s: Bytes): seq<Bytes> {
    if EndsInCR(s) && LinesOf(s) != [] then LinesOf(s)[..|LinesOf(s)| - 1] else LinesOf(s)
  }

  function DecodedEvents(s: Bytes): seq<Bytes> {
    Whole(s).events.out
  }

  // --- The decoder's lines are the standard's lines. ---

  function Texts(lines: seq<Line>): (texts: seq<Bytes>)
    ensures |texts| == |lines|
  {
    if lines == [] then [] else Texts(lines[..|lines| - 1]) + [lines[|lines| - 1].text]
  }

  lemma TextsSnoc(lines: seq<Line>, line: Line)
    ensures Texts(lines + [line]) == Texts(lines) + [line.text]
  {
    assert (lines + [line])[..|lines|] == lines;
  }

  /** What the machine's state says about the text so far; behind a CR it is one line behind. */
  ghost predicate SameLines(m: Machine, split: Split) {
    split == if m.afterCR then Split(Texts(m.done) + [m.current], []) else Split(Texts(m.done), m.current)
  }

  lemma NormaliseSnoc(s: Bytes, b: byte)
    ensures Normalise(s + [b])
         == if b == LF && s != [] && s[|s| - 1] == CR then Normalise(s)
            else Normalise(s) + [if b == CR then LF else b]
  {
    assert (s + [b])[..|s|] == s;
  }

  lemma SplitSnoc(s: Bytes, b: byte)
    ensures var front := SplitLF(s);
            SplitLF(s + [b]) == if b == LF then Split(front.lines + [front.current], [])
                                else Split(front.lines, front.current + [b])
  {
    assert (s + [b])[..|s|] == s;
  }

  lemma CommitSameLines(m: Machine, ending: Ending, n: Bytes)
    requires Split(Texts(m.done), m.current) == SplitLF(n)
    ensures Split(Texts(Commit(m, ending).done), []) == SplitLF(n + [LF])
  {
    TextsSnoc(m.done, Line(m.at, m.current, ending));
    SplitSnoc(n, LF);
  }

  lemma PushPlainSameLines(m: Machine, n: Bytes, b: byte)
    requires !m.afterCR && Split(Texts(m.done), m.current) == SplitLF(n)
    ensures SameLines(Push(m, b), SplitLF(n + [if b == CR then LF else b]))
  {
    if b == LF {
      CommitSameLines(m, EndLF, n);
    } else {
      SplitSnoc(n, if b == CR then LF else b);
    }
  }

  lemma PushSameLines(m: Machine, s: Bytes, b: byte)
    requires SameLines(m, SplitLF(Normalise(s))) && (m.afterCR <==> EndsInCR(s))
    ensures SameLines(Push(m, b), SplitLF(Normalise(s + [b])))
  {
    NormaliseSnoc(s, b);
    if m.afterCR {
      TextsSnoc(m.done, Line(m.at, m.current, EndCRLF));
      TextsSnoc(m.done, Line(m.at, m.current, EndCR));
      if b != LF {
        PushPlainSameLines(Commit(m, EndCR), Normalise(s), b);
      }
    } else {
      PushPlainSameLines(m, Normalise(s), b);
    }
  }

  lemma {:induction false} LinesAreStandard(s: Bytes)
    ensures SameLines(Whole(s), SplitLF(Normalise(s)))
    ensures Whole(s).afterCR <==> EndsInCR(s)
  {
    if s != [] {
      var front, b := s[..|s| - 1], s[|s| - 1];
      assert front + [b] == s;
      LinesAreStandard(front);
      ScanConcat(Start(0, []), front, [b]);
      assert Scan(Whole(front), [b]) == Push(Whole(front), b);
      PushSameLines(Whole(front), front, b);
    }
  }

  // --- The decoder's list of data values is the standard's data buffer. ---

  function Terminated(data: seq<Bytes>): Bytes {
    if data == [] then [] else Join(data) + [LF]
  }

  lemma TerminatedSnoc(data: seq<Bytes>, v: Bytes)
    ensures Terminated(data + [v]) == Terminated(data) + v + [LF]
  {
    assert (data + [v])[..|data|] == data;
    if data == [] {
      assert [] + v + [LF] == v + [LF];
    }
  }

  lemma DataValueIsStandard(line: Bytes)
    ensures DataValue(line) == if IsDataLine(line) then Value(ValueOf(line)) else NoValue
  {
  }

  lemma TakeTextIsProcess(events: Events, text: Bytes)
    requires events.ok && TakeText(events, text).ok
    ensures var after := TakeText(events, text);
            Process(Buffer(Terminated(events.data), events.out), text) == Buffer(Terminated(after.data), after.out)
  {
    DataValueIsStandard(text);
    if text == [] {
      if events.data != [] {
        assert (Join(events.data) + [LF])[..|Join(events.data)|] == Join(events.data);
      }
    } else if IsDataLine(text) {
      TerminatedSnoc(events.data, ValueOf(text));
    }
  }

  lemma {:induction false} InterpretSnoc(buffer: Buffer, lines: seq<Bytes>, line: Bytes)
    ensures Interpret(buffer, lines + [line]) == Process(Interpret(buffer, lines), line)
    decreases |lines|
  {
    if lines != [] {
      assert (lines + [line])[1..] == lines[1..] + [line];
      InterpretSnoc(Process(buffer, lines[0]), lines[1..], line);
    }
  }

  ghost predicate SameBuffer(m: Machine) {
    m.events.ok ==> Interpret(EMPTY, Texts(m.done)) == Buffer(Terminated(m.events.data), m.events.out)
  }

  lemma CommitSameBuffer(m: Machine, ending: Ending)
    requires SameBuffer(m)
    ensures SameBuffer(Commit(m, ending))
  {
    TextsSnoc(m.done, Line(m.at, m.current, ending));
    InterpretSnoc(EMPTY, Texts(m.done), m.current);
    if Commit(m, ending).events.ok {
      TakeTextIsProcess(m.events, m.current);
    }
  }

  lemma {:induction false} BufferIsStandard(m: Machine, s: Bytes)
    requires SameBuffer(m)
    ensures SameBuffer(Scan(m, s))
    decreases |s|
  {
    if s != [] {
      CommitSameBuffer(m, EndCRLF);
      CommitSameBuffer(m, EndCR);
      CommitSameBuffer(if m.afterCR then Commit(m, EndCR) else m, EndLF);
      BufferIsStandard(Push(m, s[0]), s[1..]);
    }
  }

  /** The events of an accepted stream, up to its last certain line, are those of the standard
      applied to the text as it is (a byte order mark included). */
  lemma EventsAreStandard(s: Bytes)
    requires Whole(s).events.ok
    ensures Texts(Whole(s).done) == CertainLines(s)
    ensures DecodedEvents(s) == Interpret(EMPTY, CertainLines(s)).out
  {
    LinesAreStandard(s);
    BufferIsStandard(Start(0, []), s);
  }

  // --- The size limit. ---

  /** The standard's data buffer, with the line end behind each value, never passes 16 MiB and one byte. */
  ghost predicate Small(lines: seq<Bytes>) {
    forall k :: 0 <= k <= |lines| ==> |Interpret(EMPTY, lines[..k]).data| <= 16 * 1024 * 1024 + 1
  }

  lemma SmallSnoc(lines: seq<Bytes>, line: Bytes)
    ensures Small(lines + [line])
       <==> Small(lines) && |Interpret(EMPTY, lines + [line]).data| <= 16 * 1024 * 1024 + 1
  {
    var all := lines + [line];
    assert all[..|all|] == all;
    assert forall k :: 0 <= k <= |lines| ==> all[..k] == lines[..k];
    if Small(all) {
      forall k | 0 <= k <= |lines|
        ensures |Interpret(EMPTY, lines[..k]).data| <= 16 * 1024 * 1024 + 1
      {
        assert all[..k] == lines[..k];
      }
    }
  }

  lemma TerminatedSize(data: seq<Bytes>)
    ensures |Terminated(data)| == if data == [] then 0 else |Join(data)| + 1
  {
  }

  lemma TakeTextSize(events: Events, text: Bytes)
    requires events.ok && |Terminated(events.data)| <= 16 * 1024 * 1024 + 1
    ensures TakeText(events, text).ok
       <==> |Process(Buffer(Terminated(events.data), events.out), text).data| <= 16 * 1024 * 1024 + 1
  {
    DataValueIsStandard(text);
    if text != [] && IsDataLine(text) {
      TerminatedSnoc(events.data, ValueOf(text));
      TerminatedSize(events.data + [ValueOf(text)]);
    }
  }

  ghost predicate SameSize(m: Machine) {
    SameBuffer(m) && (m.events.ok <==> Small(Texts(m.done)))
  }

  lemma CommitSameSize(m: Machine, ending: Ending)
    requires SameSize(m)
    ensures SameSize(Commit(m, ending))
  {
    CommitSameBuffer(m, ending);
    TextsSnoc(m.done, Line(m.at, m.current, ending));
    InterpretSnoc(EMPTY, Texts(m.done), m.current);
    SmallSnoc(Texts(m.done), m.current);
    if m.events.ok {
      assert Texts(m.done)[..|Texts(m.done)|] == Texts(m.done);
      TakeTextSize(m.events, m.current);
    }
  }

  lemma SameSizeOf(m: Machine, n: Machine)
    requires SameSize(m) && n.done == m.done && n.events == m.events
    ensures SameSize(n)
  {
  }

  lemma PushPlainSameSize(m: Machine, b: byte)
    requires SameSize(m) && !m.afterCR
    ensures SameSize(Push(m, b))
  {
    if b == LF {
      CommitSameSize(m, EndLF);
    } else {
      SameSizeOf(m, Push(m, b));
    }
  }

  lemma PushSameSize(m: Machine, b: byte)
    requires SameSize(m)
    ensures SameSize(Push(m, b))
  {
    if !m.afterCR {
      PushPlainSameSize(m, b);
    } else if b == LF {
      CommitSameSize(m, EndCRLF);
    } else {
      CommitSameSize(m, EndCR);
      PushPlainSameSize(Commit(m, EndCR), b);
    }
  }

  lemma {:induction false} SizeIsStandard(m: Machine, s: Bytes)
    requires SameSize(m)
    ensures SameSize(Scan(m, s))
    decreases |s|
  {
    if s != [] {
      PushSameSize(m, s[0]);
      SizeIsStandard(Push(m, s[0]), s[1..]);
    }
  }

  /** A stream is accepted exactly if the data of its certain lines stays small and at the end of each read the
      bytes behind them do too. */
  lemma {:induction false} AcceptedExactlyWhen(chunks: seq<Bytes>)
    ensures FeedAll(chunks).Fed? <==>
              && Small(CertainLines(Flatten(chunks)))
              && forall k :: 0 <= k <= |chunks| ==> |Unfinished(Whole(Flatten(chunks[..k])))| <= 16 * 1024 * 1024
  {
    var input := Flatten(chunks);
    ChunksDoNotMatter(chunks);
    LinesAreStandard(input);
    assert SameSize(Start(0, []));
    SizeIsStandard(Start(0, []), input);
  }

  // --- The last CR. ---

  /** The stream is over, and the decoder still waits behind the CR of a blank line that would dispatch. */
  predicate Undispatched(m: Machine) {
    m.afterCR && m.current == [] && m.events.data != []
  }

  /** All lines of the standard give the decoder's events, and one more if that is undispatched. */
  lemma LastLineAdds(s: Bytes)
    requires Whole(s).events.ok
    ensures var m := Whole(s);
            Interpret(EMPTY, LinesOf(s)).out
              == DecodedEvents(s) + if Undispatched(m) then [Join(m.events.data)] else []
  {
    var m := Whole(s);
    LinesAreStandard(s);
    BufferIsStandard(Start(0, []), s);
    if m.afterCR {
      InterpretSnoc(EMPTY, Texts(m.done), m.current);
      assert (Join(m.events.data) + [LF])[..|Join(m.events.data)|] == Join(m.events.data);
    }
  }

  /** Without a byte order mark the events are the standard's unless the stream ends in the CR of a blank line that
      should have dispatched one. */
  lemma NoBomAgrees(s: Bytes)
    requires Whole(s).events.ok && !(BOM <= s)
    ensures DecodedEvents(s) == StandardEvents(s) <==> !Undispatched(Whole(s))
  {
    LastLineAdds(s);
    assert |DecodedEvents(s) + [[]]| == |DecodedEvents(s)| + 1;
  }

  lemma DataLineOf(x: byte)
    requires !IsBreak(x) && x != SPACE
    ensures var line := DATA + [COLON, x]; NoBreaks(line) && DataValue(line) == Value([x])
  {
    var line := DATA + [COLON, x];
    assert FirstColon(line, 4) == FirstColon(line, 3) == FirstColon(line, 2) == FirstColon(line, 1) == 4;
    assert line[..4] == DATA && line[5..] == [x];
  }

  lemma ScannedWithCRs(line: Bytes)
    requires NoBreaks(line)
    ensures Whole(line + [CR, CR]) == Push(Push(Start(0, []).(current := line), CR), CR)
  {
    ScanConcat(Start(0, []), line, [CR, CR]);
    ScanPlain(Start(0, []), line);
    var m := Start(0, []).(current := [] + line);
    assert [] + line == line && [CR, CR][1..] == [CR];
    assert Scan(m, [CR, CR]) == Scan(Push(m, CR), [CR]) == Push(Push(m, CR), CR);
  }

  /** Such a stream: a data line and a blank one, each ended by a CR. The standard sees one event; the decoder sees
      none, and is left with the CR and the data line. */
  lemma LastCRIsNotDispatched(x: byte)
    requires !IsBreak(x) && x != SPACE
    ensures var s := DATA + [COLON, x] + [CR, CR];
            && Whole(s).events.ok && DecodedEvents(s) == [] && StandardEvents(s) == [[x]]
            && Unfinished(Whole(s)) == [CR] && Whole(s).events.data == [[x]]
  {
    var line := DATA + [COLON, x];
    DataLineOf(x);
    ScannedWithCRs(line);
    var m := Push(Start(0, []).(current := line), CR);
    assert [] + [[x]] == [[x]];
    assert Commit(m, EndCR).events == Events([[x]], [], true);
    LastLineAdds(line + [CR, CR]);
  }

  // --- The byte order mark. ---

  lemma {:induction false} NormalisePrefix(p: Bytes, t: Bytes)
    requires NoBreaks(p)
    ensures Normalise(p + t) == p + Normalise(t)
  {
    if t == [] {
      assert p + t == p;
      NormalisePlain(p);
      assert p + [] == p;
    } else {
      var front, b := t[..|t| - 1], t[|t| - 1];
      assert p + t == (p + front) + [b] && front + [b] == t;
      NormalisePrefix(p, front);
      NormaliseSnoc(p + front, b);
      NormaliseSnoc(front, b);
      Associate(p, Normalise(front), [if b == CR then LF else b]);
    }
  }

  lemma {:induction false} NormalisePlain(p: Bytes)
    requires NoBreaks(p)
    ensures Normalise(p) == p
  {
    if p != [] {
      NormalisePlain(p[..|p| - 1]);
      assert IsBreak(p[|p| - 1]) == false;
      assert p == p[..|p| - 1] + [p[|p| - 1]];
    }
  }

  /** A text put in front goes into the first line, or into the unfinished one when there is none. */
  function InFront(p: Bytes, split: Split): Split {
    if split.lines == [] then Split([], p + split.current)
    else Split([p + split.lines[0]] + split.lines[1..], split.current)
  }

  lemma {:induction false} SplitPrefix(p: Bytes, t: Bytes)
    requires NoBreaks(p)
    ensures SplitLF(p + t) == InFront(p, SplitLF(t))
  {
    if t == [] {
      assert p + t == p && p + [] == p;
      SplitPlain(p);
    } else {
      var front, b := t[..|t| - 1], t[|t| - 1];
      assert p + t == (p + front) + [b] && front + [b] == t;
      SplitPrefix(p, front);
      SplitSnoc(p + front, b);
      SplitSnoc(front, b);
      var split := SplitLF(front);
      if split.lines == [] {
        Associate(p, split.current, [b]);
      } else {
        assert (split.lines + [split.current])[1..] == split.lines[1..] + [split.current];
        Associate([p + split.lines[0]], split.lines[1..], [split.current]);
      }
    }
  }

  lemma {:induction false} SplitPlain(p: Bytes)
    requires NoBreaks(p)
    ensures SplitLF(p) == Split([], p)
  {
    if p != [] {
      SplitPlain(p[..|p| - 1]);
      assert IsBreak(p[|p| - 1]) == false;
      assert p == p[..|p| - 1] + [p[|p| - 1]];
    }
  }

  lemma {:induction false} InterpretBehind(out: seq<Bytes>, buffer: Buffer, lines: seq<Bytes>)
    ensures Interpret(Buffer(buffer.data, out + buffer.out), lines).out == out + Interpret(buffer, lines).out
    decreases |lines|
  {
    if lines != [] {
      var next := Process(buffer, lines[0]);
      Associate(out, buffer.out, [if buffer.data == [] then [] else buffer.data[..|buffer.data| - 1]]);
      assert Process(Buffer(buffer.data, out + buffer.out), lines[0]) == Buffer(next.data, out + next.out);
      InterpretBehind(out, next, lines[1..]);
    }
  }

  predicate EndsInLF(data: Bytes) {
    data != [] && data[|data| - 1] == LF
  }

  lemma OtherFirst(more: Bytes, less: seq<Bytes>, common: seq<Bytes>)
    requires |less| <= 1 && (less != [] ==> less[0] != more)
    ensures !([more] + common <= less + common)
  {
    if less == [] {
      assert less + common == common && |[more] + common| == |common| + 1;
    } else {
      assert ([more] + common)[0] == more && (less + common)[0] == less[0];
    }
  }

  lemma DispatchShows(p: Bytes, y: Bytes, rest: seq<Bytes>)
    requires EndsInLF(p) && (y == [] || EndsInLF(y))
    ensures var whole, part := Process(Buffer(p + y, []), []), Process(Buffer(y, []), []);
            !(Interpret(whole, rest).out <= Interpret(part, rest).out)
  {
    var more := (p + y)[..|p + y| - 1];
    var less := if y == [] then [] else [y[..|y| - 1]];
    InterpretBehind([more], EMPTY, rest);
    InterpretBehind(less, EMPTY, rest);
    assert [more] + [] == [more] && less + [] == less && [] + [more] == [more] && [] + less == less;
    assert |more| == |p| + |y| - 1;
    OtherFirst(more, less, Interpret(EMPTY, rest).out);
  }

  /** Two readings of the same lines, one with more in its data buffer: their events differ as soon
      as a blank line dispatches, and only then. */
  lemma {:induction false} ExtraDataShows(p: Bytes, y: Bytes, lines: seq<Bytes>)
    requires EndsInLF(p) && (y == [] || EndsInLF(y))
    ensures [] in lines ==> !(Interpret(Buffer(p + y, []), lines).out <= Interpret(Buffer(y, []), lines).out)
    ensures [] !in lines ==> Interpret(Buffer(p + y, []), lines).out == Interpret(Buffer(y, []), lines).out == []
    decreases |lines|
  {
    if lines != [] {
      var line, rest := lines[0], lines[1..];
      if line == [] {
        DispatchShows(p, y, rest);
      } else if IsDataLine(line) {
        assert (p + y) + ValueOf(line) + [LF] == p + (y + ValueOf(line) + [LF]);
        ExtraDataShows(p, y + ValueOf(line) + [LF], rest);
      } else {
        ExtraDataShows(p, y, rest);
      }
    }
  }

  lemma BomLineIsIgnored(line: Bytes)
    ensures !IsDataLine(BOM + line) && BOM + line != []
  {
    var whole := BOM + line;
    assert whole[0] == 0xEF;
    if FirstColon(whole, 0) > 0 {
      assert FieldOf(whole)[0] == whole[0];
    }
  }

  lemma LinesBehindBom(t: Bytes)
    ensures var lines := LinesOf(t);
            LinesOf(BOM + t) == if lines == [] then [] else [BOM + lines[0]] + lines[1..]
  {
    assert NoBreaks(BOM);
    NormalisePrefix(BOM, t);
    SplitPrefix(BOM, Normalise(t));
  }

  lemma FirstLineLost(lines: seq<Bytes>)
    requires lines != []
    ensures var seen := [BOM + lines[0]] + lines[1..];
            Interpret(EMPTY, seen) == Interpret(EMPTY, lines[1..])
  {
    BomLineIsIgnored(lines[0]);
    assert ([BOM + lines[0]] + lines[1..])[1..] == lines[1..];
  }

  lemma FirstLineMatters(lines: seq<Bytes>)
    requires lines != []
    ensures var whole, rest := Interpret(EMPTY, lines).out, Interpret(EMPTY, lines[1..]).out;
            if !IsDataLine(lines[0]) then whole == rest
            else if [] in lines[1..] then !(whole <= rest)
            else whole == rest == []
  {
    if IsDataLine(lines[0]) {
      var p := [] + ValueOf(lines[0]) + [LF];
      assert p + [] == p;
      ExtraDataShows(p, [], lines[1..]);
    }
  }

  lemma Beginning(all: seq<Bytes>, front: seq<Bytes>, back: seq<Bytes>)
    requires all == front + back
    ensures front <= all && (front == all <==> back == [])
  {
    assert |front + back| == |front| + |back|;
  }

  /** With a byte order mark in front the decoder, which does not strip it, loses the first line. If that is a data
      line its events are the standard's only while no later line is blank; if not, as without a mark. */
  lemma BomMatters(t: Bytes)
    requires Whole(BOM + t).events.ok
    ensures var lines := LinesOf(t);
            DecodedEvents(BOM + t) == StandardEvents(BOM + t)
            <==> if lines != [] && IsDataLine(lines[0]) then [] !in lines[1..] else !Undispatched(Whole(BOM + t))
  {
    var lines, m := LinesOf(t), Whole(BOM + t);
    assert (BOM + t)[3..] == t;
    LastLineAdds(BOM + t);
    LinesBehindBom(t);
    Beginning(Interpret(EMPTY, LinesOf(BOM + t)).out, DecodedEvents(BOM + t),
              if Undispatched(m) then [Join(m.events.data)] else []);
    if lines != [] {
      FirstLineLost(lines);
      FirstLineMatters(lines);
    }
  }
}

/** Frames of a model's event stream: what the regular expression \r?\n\r?\n separates, found
    incrementally by the stream filter and all at once by the batch parser. */
module SseFrames {
  import opened ByteStrings
  import opened SseBytes
  import opened SseStandard

  // --- The separator. ---

  /** The four byte strings the expression matches. */
  predicate IsSeparator(s: Bytes) {
    s == [LF, LF] || s == [CR, LF, LF] || s == [LF, CR, LF] || s == [CR, LF, CR, LF]
  }

  /** The match a search reports: the leftmost one. */
  ghost predicate IsMatch(s: Bytes, from: nat, to: nat) {
    && from <= to <= |s| && IsSeparator(s[from..to])
    && forall i, j :: 0 <= i < from && i <= j <= |s| ==> !IsSeparator(s[i..j])
  }

  /** Some separator ends at a position. */
  predicate EndsFrame(s: Bytes, k: nat) {
    && 2 <= k <= |s| && s[k - 1] == LF
    && (s[k - 2] == LF || (k >= 3 && s[k - 2] == CR && s[k - 3] == LF))
  }

  lemma SeparatorEnds(s: Bytes, i: nat, j: nat)
    requires i <= j <= |s| && IsSeparator(s[i..j])
    ensures EndsFrame(s, j) && j >= i + 2
  {
    var m := s[i..j];
    assert forall k :: 0 <= k < |m| ==> m[k] == s[i + k];
    assert |m| >= 2 && m[|m| - 1] == LF;
    assert s[j - 1] == LF;
    assert m[|m| - 2] == s[j - 2];
    if m[|m| - 2] == CR {
      assert m[|m| - 3] == s[j - 3];
    }
  }

  lemma EndHasSeparator(s: Bytes, k: nat)
    requires EndsFrame(s, k)
    ensures exists i :: 0 <= i < k && IsSeparator(s[i..k])
  {
    if s[k - 2] == LF {
      assert s[k - 2..k] == [s[k - 2], s[k - 1]];
    } else {
      assert s[k - 3..k] == [s[k - 3], s[k - 2], s[k - 1]];
    }
  }

  lemma SeparatorShape(s: Bytes)
    ensures IsSeparator(s) ==> 2 <= |s| <= 4 && s[|s| - 1] == LF && (s[|s| - 2] == LF || s[|s| - 2] == CR)
    ensures IsSeparator(s) && s[|s| - 2] == CR ==> |s| >= 3 && s[|s| - 3] == LF
    ensures IsSeparator(s) && |s| == 3 ==> s[0] != s[1]
    ensures IsSeparator(s) && |s| == 4 ==> s[0] == CR && s[1] == LF && s[2] == CR
  {
  }

  lemma NoneInside(m: Bytes, i: nat, k: nat)
    requires IsSeparator(m) && i <= k < |m|
    ensures !IsSeparator(m[i..k])
  {
    var part := m[i..k];
    assert forall j :: 0 <= j < |part| ==> part[j] == m[i + j];
    SeparatorShape(m);
    SeparatorShape(part);
  }

  lemma SliceOfSlice(s: Bytes, from: nat, to: nat, i: nat, k: nat)
    requires from <= i <= k <= to <= |s|
    ensures s[from..to][i - from..k - from] == s[i..k]
  {
    var m := s[from..to];
    assert forall j :: 0 <= j < |m| ==> m[j] == s[from + j];
    assert forall j :: 0 <= j < k - i ==> m[i - from..k - from][j] == m[i - from + j] == s[i..k][j];
  }

  lemma NoEarlierEnd(s: Bytes, from: nat, to: nat, k: nat)
    requires IsMatch(s, from, to) && k < to
    ensures !EndsFrame(s, k)
  {
    if EndsFrame(s, k) {
      EndHasSeparator(s, k);
      var i :| 0 <= i < k && IsSeparator(s[i..k]);
      assert from <= i;
      SliceOfSlice(s, from, to, i, k);
      NoneInside(s[from..to], i - from, k - from);
    }
  }

  /** The leftmost match ends where a separator first ends, so what matters is where, not how. */
  lemma MatchEndsFirst(s: Bytes, from: nat, to: nat)
    requires IsMatch(s, from, to)
    ensures EndsFrame(s, to) && forall k :: 0 <= k < to ==> !EndsFrame(s, k)
  {
    SeparatorEnds(s, from, to);
    forall k | 0 <= k < to
      ensures !EndsFrame(s, k)
    {
      NoEarlierEnd(s, from, to, k);
    }
  }

  function SeparatorAt(s: Bytes, i: nat): (to: nat)
    requires i <= |s|
    ensures to == 0 || (i + 2 <= to <= |s| && IsSeparator(s[i..to]))
    ensures to == 0 ==> forall j :: i <= j <= |s| ==> !IsSeparator(s[i..j])
  {
    if i + 2 <= |s| && s[i..i + 2] == [LF, LF] then i + 2
    else if i + 3 <= |s| && (s[i..i + 3] == [CR, LF, LF] || s[i..i + 3] == [LF, CR, LF]) then i + 3
    else if i + 4 <= |s| && s[i..i + 4] == [CR, LF, CR, LF] then i + 4
    else 0
  }

  datatype Match = NoMatch | Match(from: nat, to: nat)

  /** The search itself. */
  function Search(s: Bytes, start: nat := 0): (m: Match)
    requires start <= |s|
    requires forall i, j :: 0 <= i < start && i <= j <= |s| ==> !IsSeparator(s[i..j])
    ensures m.Match? ==> IsMatch(s, m.from, m.to) && m.to >= 2
    ensures m == NoMatch ==> forall i, j :: 0 <= i <= j <= |s| ==> !IsSeparator(s[i..j])
    decreases |s| - start
  {
    var to := SeparatorAt(s, start);
    if to != 0 then Match(start, to)
    else if start == |s| then NoMatch
    else Search(s, start + 1)
  }

  lemma NoMatchNoEnd(s: Bytes)
    requires Search(s) == NoMatch
    ensures forall k :: 0 <= k <= |s| ==> !EndsFrame(s, k)
  {
    forall k | 0 <= k <= |s|
      ensures !EndsFrame(s, k)
    {
      if EndsFrame(s, k) {
        EndHasSeparator(s, k);
      }
    }
  }

  // --- The data of a frame. ---

  const DATA_PREFIX: Bytes := [0x64, 0x61, 0x74, 0x61, 0x3A]
  const DONE: Bytes := [0x5B, 0x44, 0x4F, 0x4E, 0x45, 0x5D]

  /** Lines as Python's bytes.splitlines gives them: no empty line behind a final line end. */
  function SplitLines(s: Bytes): seq<Bytes> {
    var split := SplitLF(Normalise(s));
    if split.current == [] then split.lines else split.lines + [split.current]
  }

  predicate IsSpace(b: byte) {
    b == 0x20 || 0x09 <= b <= 0x0D
  }

  function StripLeft(s: Bytes): Bytes {
    if s != [] && IsSpace(s[0]) then StripLeft(s[1..]) else s
  }

  function DataLines(lines: seq<Bytes>): seq<Bytes> {
    if lines == [] then []
    else
      var line := lines[|lines| - 1];
      DataLines(lines[..|lines| - 1]) + if DATA_PREFIX <= line then [StripLeft(line[5..])] else []
  }

  function DataLinesOf(block: Bytes): seq<Bytes> {
    DataLines(SplitLines(block))
  }

  function DataOf(frame: Bytes): Bytes {
    Join(DataLinesOf(frame))
  }

  lemma DataLinesSnoc(lines: seq<Bytes>, line: Bytes)
    ensures DataLines(lines + [line]) == DataLines(lines) + if DATA_PREFIX <= line then [StripLeft(line[5..])] else []
  {
    assert (lines + [line])[..|lines|] == lines;
  }

  lemma BreakAddsNoData(s: Bytes, b: byte)
    requires IsBreak(b)
    ensures DataLines(SplitLines(s + [b])) == DataLines(SplitLines(s))
  {
    NormaliseSnoc(s, b);
    var n := Normalise(s);
    SplitSnoc(n, LF);
    DataLinesSnoc(SplitLF(n).lines, SplitLF(n).current);
  }

  /** What one line break cannot change, any number of them cannot. */
  lemma {:induction false} BreaksKeep(reading: Bytes -> seq<Bytes>, block: Bytes, separator: Bytes)
    requires forall s, b :: IsBreak(b) ==> reading(s + [b]) == reading(s)
    requires forall i :: 0 <= i < |separator| ==> IsBreak(separator[i])
    ensures reading(block + separator) == reading(block)
    decreases |separator|
  {
    if separator == [] {
      assert block + separator == block;
    } else {
      var front, b := separator[..|separator| - 1], separator[|separator| - 1];
      BreaksKeep(reading, block, front);
      assert separator == front + [b];
      Associate(block, front, [b]);
      assert reading(block + front + [b]) == reading(block + front);
    }
  }

  lemma ReadingIgnoresBreaks()
    ensures forall s, b :: IsBreak(b) ==> DataLinesOf(s + [b]) == DataLinesOf(s)
  {
    forall s, b | IsBreak(b)
      ensures DataLinesOf(s + [b]) == DataLinesOf(s)
    {
      BreakAddsNoData(s, b);
    }
  }

  lemma BreaksAddNoData(block: Bytes, separator: Bytes)
    requires forall i :: 0 <= i < |separator| ==> IsBreak(separator[i])
    ensures DataLinesOf(block + separator) == DataLinesOf(block)
  {
    ReadingIgnoresBreaks();
    BreaksKeep(DataLinesOf, block, separator);
  }

  lemma SameLinesSameData(a: Bytes, b: Bytes)
    requires DataLinesOf(a) == DataLinesOf(b)
    ensures DataOf(a) == DataOf(b)
  {
  }

  lemma MatchIsBreaks(frame: Bytes, from: nat, to: nat)
    requires IsMatch(frame, from, to) && to == |frame|
    ensures frame == frame[..from] + frame[from..]
    ensures forall i :: 0 <= i < |frame[from..]| ==> IsBreak(frame[from..][i])
  {
    assert frame[from..to] == frame[from..];
  }

  /** The separator carries no data: with or without it a frame says the same. */
  lemma SeparatorAddsNoData(frame: Bytes, from: nat, to: nat)
    requires IsMatch(frame, from, to) && to == |frame|
    ensures DataOf(frame) == DataOf(frame[..from])
  {
    MatchIsBreaks(frame, from, to);
    BreaksAddNoData(frame[..from], frame[from..]);
    SameLinesSameData(frame, frame[..from]);
  }

  // --- Frame data and the standard's events. ---

  lemma {:induction false} StripLeftStops(s: Bytes)
    ensures StripLeft(s) != [] ==> !IsSpace(StripLeft(s)[0])
    ensures StripLeft(s) == s <==> s == [] || !IsSpace(s[0])
    ensures |StripLeft(s)| <= |s|
    decreases |s|
  {
    if s != [] && IsSpace(s[0]) {
      StripLeftStops(s[1..]);
    }
  }

  lemma PrefixIsDataLine(line: Bytes)
    requires DATA_PREFIX <= line
    ensures IsDataLine(line) && ValueOf(line) == if 5 < |line| && line[5] == SPACE then line[6..] else line[5..]
  {
    assert line[0] == 0x64 && line[1] == 0x61 && line[2] == 0x74 && line[3] == 0x61 && line[4] == COLON;
    assert FirstColon(line, 4) == FirstColon(line, 3) == FirstColon(line, 2) == FirstColon(line, 1) == 4;
    assert FirstColon(line, 0) == 4 && line[..4] == DATA;
  }

  const WHITE: Bytes := [0x20, 0x09, 0x0A, 0x0B, 0x0C, 0x0D]

  /** The value of a data line is the standard's exactly if that does not begin with white space: of that the
      standard takes away one space, the gateway all. */
  lemma ValueAgreesExactlyWhen(line: Bytes)
    requires DATA_PREFIX <= line
    ensures StripLeft(line[5..]) == ValueOf(line) <==> ValueOf(line) == [] || ValueOf(line)[0] !in WHITE
  {
    PrefixIsDataLine(line);
    StripLeftStops(line[5..]);
    StripLeftStops(ValueOf(line));
    if 5 < |line| && line[5] == SPACE {
      assert line[5..][1..] == line[6..];
      assert StripLeft(line[5..]) == StripLeft(line[6..]);
    }
  }

  /** A line both read alike: not blank, and if a data line, one with a colon and such a value. */
  predicate Alike(line: Bytes) {
    && line != []
    && (IsDataLine(line) ==> DATA_PREFIX <= line && (ValueOf(line) == [] || ValueOf(line)[0] !in WHITE))
  }

  lemma {:induction false} DataLinesAreStandard(lines: seq<Bytes>)
    requires forall line :: line in lines ==> Alike(line)
    ensures Interpret(EMPTY, lines) == Buffer(Terminated(DataLines(lines)), [])
  {
    if lines != [] {
      var front, last := lines[..|lines| - 1], lines[|lines| - 1];
      assert front + [last] == lines && last in lines;
      DataLinesAreStandard(front);
      InterpretSnoc(EMPTY, front, last);
      DataLinesSnoc(front, last);
      if DATA_PREFIX <= last {
        PrefixIsDataLine(last);
        ValueAgreesExactlyWhen(last);
        TerminatedSnoc(DataLines(front), ValueOf(last));
      } else {
        assert DataLines(front) + [] == DataLines(front);
      }
    }
  }

  /** What the gateway reads from a frame is the event that the standard dispatches at the blank line behind it. */
  lemma FrameDataIsStandard(block: Bytes)
    requires forall line :: line in SplitLines(block) ==> Alike(line)
    ensures Interpret(EMPTY, SplitLines(block) + [[]]).out == if DataLinesOf(block) == [] then [] else [DataOf(block)]
  {
    var lines := SplitLines(block);
    DataLinesAreStandard(lines);
    InterpretSnoc(EMPTY, lines, []);
    var data := DataLines(lines);
    assert data != [] ==> Terminated(data)[..|Terminated(data)| - 1] == Join(data);
    assert [] + [Join(data)] == [Join(data)];
  }
}

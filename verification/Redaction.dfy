/** The credential filter between a child process's log and the diagnostics store: leftmost-longest
    replacement of secrets, done incrementally over arbitrary reads. */
module Redaction {
  import opened ByteStrings

  predicate OccursAt(data: Bytes, at: nat, secret: Bytes) {
    at + |secret| <= |data| && data[at..at + |secret|] == secret
  }

  /** Length of the longest secret that starts at a position; 0 when none does. */
  function LongestAt(secrets: seq<Bytes>, data: Bytes, at: nat): nat {
    if secrets == [] then 0
    else
      var rest := LongestAt(secrets[1..], data, at);
      if OccursAt(data, at, secrets[0]) && |secrets[0]| > rest then |secrets[0]| else rest
  }

  ghost predicate NoneAt(secrets: seq<Bytes>, data: Bytes, at: nat) {
    forall s :: s in secrets && s != [] ==> !OccursAt(data, at, s)
  }

  ghost predicate IsLongest(secrets: seq<Bytes>, data: Bytes, at: nat, len: nat) {
    && len > 0 && at + len <= |data|
    && data[at..at + len] in secrets
    && forall s :: s in secrets && OccursAt(data, at, s) ==> |s| <= len
  }

  lemma {:induction false} LongestAtBounds(secrets: seq<Bytes>, data: Bytes, at: nat)
    ensures forall s :: s in secrets && OccursAt(data, at, s) ==> |s| <= LongestAt(secrets, data, at)
    ensures var n := LongestAt(secrets, data, at); n > 0 ==> at + n <= |data| && data[at..at + n] in secrets
  {
    if secrets != [] {
      LongestAtBounds(secrets[1..], data, at);
      assert forall s :: s in secrets <==> s == secrets[0] || s in secrets[1..];
    }
  }

  lemma LongestAtIs(secrets: seq<Bytes>, data: Bytes, at: nat)
    ensures LongestAt(secrets, data, at) == 0 <==> NoneAt(secrets, data, at)
    ensures forall len: nat :: IsLongest(secrets, data, at, len) ==> LongestAt(secrets, data, at) == len
    ensures LongestAt(secrets, data, at) > 0 ==> IsLongest(secrets, data, at, LongestAt(secrets, data, at))
  {
    LongestAtBounds(secrets, data, at);
    forall len: nat | IsLongest(secrets, data, at, len)
      ensures LongestAt(secrets, data, at) == len
    {
      assert OccursAt(data, at, data[at..at + len]);
    }
  }

  /** For each position, the length to replace there. */
  function Choices(secrets: seq<Bytes>, data: Bytes, n: nat := |data|): (choices: seq<nat>)
    ensures |choices| == n
  {
    if n == 0 then [] else Choices(secrets, data, n - 1) + [LongestAt(secrets, data, n - 1)]
  }

  lemma {:induction false} ChoiceAt(secrets: seq<Bytes>, data: Bytes, n: nat, at: nat)
    requires at < n
    ensures Choices(secrets, data, n)[at] == LongestAt(secrets, data, at)
  {
    if at < n - 1 {
      ChoiceAt(secrets, data, n - 1, at);
    }
  }

  /** The text from a position on, each chosen stretch replaced by the marker. */
  function Replace(marker: Bytes, data: Bytes, choices: seq<nat>, at: nat): Bytes
    requires |choices| == |data|
    decreases |data| - at
  {
    if at >= |data| then []
    else if choices[at] > 0 then marker + Replace(marker, data, choices, at + choices[at])
    else [data[at]] + Replace(marker, data, choices, at + 1)
  }

  /** Whole-input redaction: left to right, the longest secret at the first place where one starts. */
  function Redact(secrets: seq<Bytes>, marker: Bytes, data: Bytes): Bytes {
    Replace(marker, data, Choices(secrets, data), 0)
  }

  // --- The reference: a set of replaced spans, and the text with the spans cut out. ---

  datatype Span = Span(at: nat, len: nat)

  /** From a position on: a gap in which no secret starts, the longest secret at the first place
      where one does, and so on behind it. */
  ghost predicate LeftmostLongest(secrets: seq<Bytes>, data: Bytes, from: nat, spans: seq<Span>)
    decreases |spans|
  {
    if spans == [] then
      forall p :: from <= p < |data| ==> NoneAt(secrets, data, p)
    else
      && from <= spans[0].at
      && (forall p :: from <= p < spans[0].at ==> NoneAt(secrets, data, p))
      && IsLongest(secrets, data, spans[0].at, spans[0].len)
      && LeftmostLongest(secrets, data, spans[0].at + spans[0].len, spans[1..])
  }

  function Splice(marker: Bytes, data: Bytes, from: nat, spans: seq<Span>): Bytes
    decreases |spans|
  {
    if spans == [] then (if from <= |data| then data[from..] else [])
    else
      var first := spans[0];
      if from <= first.at <= |data| then
        data[from..first.at] + (marker + Splice(marker, data, first.at + first.len, spans[1..]))
      else []
  }

  lemma {:induction false} LiteralRun(marker: Bytes, data: Bytes, choices: seq<nat>, from: nat, to: nat)
    requires |choices| == |data| && from <= to <= |data|
    requires forall p :: from <= p < to ==> choices[p] == 0
    ensures Replace(marker, data, choices, from) == data[from..to] + Replace(marker, data, choices, to)
    decreases |data| - from
  {
    if from < to {
      LiteralRun(marker, data, choices, from + 1, to);
      Associate([data[from]], data[from + 1..to], Replace(marker, data, choices, to));
      assert data[from..to] == [data[from]] + data[from + 1..to];
    }
  }

  ghost predicate Follows(choices: seq<nat>, from: nat, spans: seq<Span>)
    decreases |spans|
  {
    if spans == [] then
      forall p :: from <= p < |choices| ==> choices[p] == 0
    else
      && from <= spans[0].at < |choices| && choices[spans[0].at] == spans[0].len > 0
      && spans[0].at + spans[0].len <= |choices|
      && (forall p :: from <= p < spans[0].at ==> choices[p] == 0)
      && Follows(choices, spans[0].at + spans[0].len, spans[1..])
  }

  /** The first span of a list that follows the choices. */
  lemma FirstFollows(choices: seq<nat>, from: nat, spans: seq<Span>)
    requires Follows(choices, from, spans) && spans != []
    ensures var at, len := spans[0].at, spans[0].len;
            && from <= at < |choices| && choices[at] == len > 0 && at + len <= |choices|
            && (forall p :: from <= p < at ==> choices[p] == 0)
            && Follows(choices, at + len, spans[1..])
  {
  }

  lemma ReplaceStep(marker: Bytes, data: Bytes, choices: seq<nat>, from: nat, at: nat)
    requires |choices| == |data| && from <= at < |data| && choices[at] > 0
    requires forall p :: from <= p < at ==> choices[p] == 0
    ensures Replace(marker, data, choices, from)
         == data[from..at] + (marker + Replace(marker, data, choices, at + choices[at]))
  {
    LiteralRun(marker, data, choices, from, at);
  }

  lemma SpliceStep(marker: Bytes, data: Bytes, from: nat, spans: seq<Span>)
    requires spans != [] && from <= spans[0].at <= |data|
    ensures Splice(marker, data, from, spans)
         == data[from..spans[0].at] + (marker + Splice(marker, data, spans[0].at + spans[0].len, spans[1..]))
  {
  }

  lemma {:induction false} ReplaceFollows(marker: Bytes, data: Bytes, choices: seq<nat>, from: nat, spans: seq<Span>)
    requires |choices| == |data| && from <= |data| && Follows(choices, from, spans)
    ensures Replace(marker, data, choices, from) == Splice(marker, data, from, spans)
    decreases |spans|
  {
    if spans == [] {
      LiteralRun(marker, data, choices, from, |data|);
    } else {
      FirstFollows(choices, from, spans);
      ReplaceStep(marker, data, choices, from, spans[0].at);
      SpliceStep(marker, data, from, spans);
      ReplaceFollows(marker, data, choices, spans[0].at + spans[0].len, spans[1..]);
    }
  }

  lemma {:induction false} ChoicesFollow(secrets: seq<Bytes>, data: Bytes, from: nat, spans: seq<Span>)
    requires from <= |data| && LeftmostLongest(secrets, data, from, spans)
    ensures Follows(Choices(secrets, data), from, spans)
    decreases |spans|
  {
    forall p | from <= p < |data| && NoneAt(secrets, data, p)
      ensures Choices(secrets, data)[p] == 0
    {
      ChoiceAt(secrets, data, |data|, p);
      LongestAtIs(secrets, data, p);
    }
    if spans != [] {
      ChoiceAt(secrets, data, |data|, spans[0].at);
      LongestAtIs(secrets, data, spans[0].at);
      ChoicesFollow(secrets, data, spans[0].at + spans[0].len, spans[1..]);
    }
  }

  /** Whatever spans meet the reference description, cutting them out gives the redacted text:
      so the description has exactly one solution as far as the output goes. */
  lemma RedactIsLeftmostLongest(secrets: seq<Bytes>, marker: Bytes, data: Bytes, spans: seq<Span>)
    requires LeftmostLongest(secrets, data, 0, spans)
    ensures Redact(secrets, marker, data) == Splice(marker, data, 0, spans)
  {
    ChoicesFollow(secrets, data, 0, spans);
    ReplaceFollows(marker, data, Choices(secrets, data), 0, spans);
  }

  /** And the description always has a solution. */
  lemma {:induction false} SpansExist(secrets: seq<Bytes>, data: Bytes, from: nat) returns (spans: seq<Span>)
    requires from <= |data|
    ensures LeftmostLongest(secrets, data, from, spans)
    decreases |data| - from
  {
    LongestAtIs(secrets, data, from);
    var n := LongestAt(secrets, data, from);
    if from == |data| {
      spans := [];
    } else if n == 0 {
      spans := SpansExist(secrets, data, from + 1);
    } else {
      var rest := SpansExist(secrets, data, from + n);
      spans := [Span(from, n)] + rest;
    }
  }

  // --- One pass over a buffer, up to a cutoff. ---

  /** Output and stopping place of a scan that takes no decision at or after the cutoff. */
  function Scan(marker: Bytes, data: Bytes, choices: seq<nat>, cutoff: nat, at: nat): (r: (Bytes, nat))
    requires |choices| == |data| && cutoff <= |data|
    ensures at <= r.1
    decreases |data| - at
  {
    if at >= cutoff then ([], at)
    else if choices[at] > 0 then
      var r := Scan(marker, data, choices, cutoff, at + choices[at]);
      (marker + r.0, r.1)
    else
      var r := Scan(marker, data, choices, cutoff, at + 1);
      ([data[at]] + r.0, r.1)
  }

  lemma {:induction false} ScanStaysInside(marker: Bytes, data: Bytes, choices: seq<nat>, cutoff: nat, at: nat)
    requires |choices| == |data| && cutoff <= |data| && at <= |data|
    requires forall i :: 0 <= i < |data| ==> i + choices[i] <= |data|
    ensures cutoff <= Scan(marker, data, choices, cutoff, at).1 <= |data|
    decreases |data| - at
  {
    if at < cutoff {
      ScanStaysInside(marker, data, choices, cutoff, at + if choices[at] > 0 then choices[at] else 1);
    }
  }

  lemma ChoicesFit(secrets: seq<Bytes>, data: Bytes)
    ensures forall i :: 0 <= i < |data| ==> i + Choices(secrets, data)[i] <= |data|
  {
    forall i | 0 <= i < |data|
      ensures i + Choices(secrets, data)[i] <= |data|
    {
      ChoiceAt(secrets, data, |data|, i);
      LongestAtBounds(secrets, data, i);
    }
  }

  lemma {:induction false} ScanLiteralRun(
    marker: Bytes, data: Bytes, choices: seq<nat>, cutoff: nat, from: nat, to: nat)
    requires |choices| == |data| && from <= to <= cutoff <= |data|
    requires forall p :: from <= p < to ==> choices[p] == 0
    ensures Scan(marker, data, choices, cutoff, from).0 == data[from..to] + Scan(marker, data, choices, cutoff, to).0
    ensures Scan(marker, data, choices, cutoff, from).1 == Scan(marker, data, choices, cutoff, to).1
    decreases |data| - from
  {
    if from < to {
      ScanLiteralRun(marker, data, choices, cutoff, from + 1, to);
      Associate([data[from]], data[from + 1..to], Scan(marker, data, choices, cutoff, to).0);
      assert data[from..to] == [data[from]] + data[from + 1..to];
    }
  }

  /** A scan is the beginning of the replacement in any longer text whose choices agree up to the cutoff. */
  lemma {:induction false} ScanThenReplace(
    marker: Bytes, data: Bytes, choices: seq<nat>, cutoff: nat, at: nat, whole: Bytes, all: seq<nat>)
    requires |choices| == |data| && cutoff <= |data| <= |whole| && |all| == |whole|
    requires forall i :: 0 <= i < cutoff ==> all[i] == choices[i] && whole[i] == data[i]
    ensures var r := Scan(marker, data, choices, cutoff, at);
            Replace(marker, whole, all, at) == r.0 + Replace(marker, whole, all, r.1)
    decreases |data| - at
  {
    if at < cutoff {
      var next := at + if choices[at] > 0 then choices[at] else 1;
      ScanThenReplace(marker, data, choices, cutoff, next, whole, all);
      var later := Scan(marker, data, choices, cutoff, next);
      Associate(if choices[at] > 0 then marker else [data[at]], later.0, Replace(marker, whole, all, later.1));
    }
  }

  lemma {:induction false} ReplaceShift(
    marker: Bytes, whole: Bytes, all: seq<nat>, cut: nat, data: Bytes, choices: seq<nat>, at: nat)
    requires |all| == |whole| && |choices| == |data| == |whole| - cut && cut <= |whole|
    requires forall i :: 0 <= i < |data| ==> data[i] == whole[cut + i] && choices[i] == all[cut + i]
    ensures Replace(marker, whole, all, cut + at) == Replace(marker, data, choices, at)
    decreases |data| - at
  {
    if at < |data| {
      if choices[at] > 0 {
        ReplaceShift(marker, whole, all, cut, data, choices, at + choices[at]);
        assert cut + (at + choices[at]) == (cut + at) + all[cut + at];
      } else {
        ReplaceShift(marker, whole, all, cut, data, choices, at + 1);
        assert cut + (at + 1) == (cut + at) + 1;
      }
    }
  }

  function MaxLength(secrets: seq<Bytes>): (n: nat)
    ensures forall s :: s in secrets ==> |s| <= n
    ensures n == 0 || exists s :: s in secrets && |s| == n
  {
    if secrets == [] then 0
    else
      var rest := MaxLength(secrets[1..]);
      if |secrets[0]| > rest then |secrets[0]| else rest
  }

  /** Bytes that have not arrived yet cannot change a choice made far enough before the end. */
  lemma {:induction false} ChoiceStable(secrets: seq<Bytes>, data: Bytes, more: Bytes, at: nat)
    requires at + MaxLength(secrets) <= |data|
    ensures LongestAt(secrets, data + more, at) == LongestAt(secrets, data, at)
  {
    if secrets != [] {
      assert (data + more)[at..at + |secrets[0]|] == data[at..at + |secrets[0]|];
      ChoiceStable(secrets[1..], data, more, at);
    }
  }

  lemma {:induction false} ChoiceShift(secrets: seq<Bytes>, data: Bytes, cut: nat, at: nat)
    requires cut + at <= |data|
    ensures LongestAt(secrets, data[cut..], at) == LongestAt(secrets, data, cut + at)
  {
    if secrets != [] {
      if cut + at + |secrets[0]| <= |data| {
        assert data[cut..][at..at + |secrets[0]|] == data[cut + at..cut + at + |secrets[0]|];
      }
      ChoiceShift(secrets[1..], data, cut, at);
    }
  }

  lemma RedactFromCut(secrets: seq<Bytes>, marker: Bytes, data: Bytes, cut: nat)
    requires cut <= |data|
    ensures Replace(marker, data, Choices(secrets, data), cut) == Redact(secrets, marker, data[cut..])
  {
    forall i | 0 <= i < |data| - cut
      ensures Choices(secrets, data[cut..])[i] == Choices(secrets, data)[cut + i]
    {
      ChoiceShift(secrets, data, cut, i);
      ChoiceAt(secrets, data[cut..], |data| - cut, i);
      ChoiceAt(secrets, data, |data|, cut + i);
    }
    ReplaceShift(marker, data, Choices(secrets, data), cut, data[cut..], Choices(secrets, data[cut..]), 0);
  }

  /** A scan may stop early: what it wrote, followed by the redaction of what it left together with
      anything that may still arrive, is the redaction of the whole. */
  lemma ScanThenRest(secrets: seq<Bytes>, marker: Bytes, data: Bytes, cutoff: nat, more: Bytes)
    requires cutoff <= |data|
    requires cutoff + MaxLength(secrets) <= |data| + 1 || more == []
    ensures var r := Scan(marker, data, Choices(secrets, data), cutoff, 0);
            r.1 <= |data| && Redact(secrets, marker, data + more) == r.0 + Redact(secrets, marker, data[r.1..] + more)
  {
    var whole := data + more;
    var choices, all := Choices(secrets, data), Choices(secrets, whole);
    forall i | 0 <= i < cutoff
      ensures all[i] == choices[i]
    {
      if more == [] {
        assert whole == data;
      } else {
        ChoiceAt(secrets, data, |data|, i);
        ChoiceAt(secrets, whole, |whole|, i);
        ChoiceStable(secrets, data, more, i);
      }
    }
    ChoicesFit(secrets, data);
    ScanStaysInside(marker, data, choices, cutoff, 0);
    ScanThenReplace(marker, data, choices, cutoff, 0, whole, all);
    var stop := Scan(marker, data, choices, cutoff, 0).1;
    assert whole[stop..] == data[stop..] + more;
    RedactFromCut(secrets, marker, whole, stop);
  }

  // --- The two loops of the source. ---

  /** First occurrence of a secret at or after a position, -1 when there is none. */
  function FindFrom(data: Bytes, secret: Bytes, from: nat): (index: int)
    requires from <= |data|
    ensures index >= 0 ==> from <= index <= |data| && OccursAt(data, index, secret)
    ensures forall p :: from <= p && (index < 0 || p < index) ==> !OccursAt(data, p, secret)
    decreases |data| - from
  {
    if OccursAt(data, from, secret) then from
    else if from == |data| then -1
    else FindFrom(data, secret, from + 1)
  }

  /** The nearest of some secrets before the cutoff, and the longest of them that starts there. */
  ghost predicate Nearest(
      data: Bytes, some: seq<Bytes>, cursor: nat, cutoff: nat, found: bool, index: nat, length: nat)
  {
    && (forall s, p :: s in some && cursor <= p < index ==> !OccursAt(data, p, s))
    && if found then
         && cursor <= index < cutoff
         && (exists s :: s in some && OccursAt(data, index, s) && |s| == length)
         && (forall s :: s in some && OccursAt(data, index, s) ==> |s| <= length)
       else index == cutoff
  }

  /** One more secret, first found at `at`, if at all. */
  lemma NearestStep(data: Bytes, some: seq<Bytes>, secret: Bytes, at: int, cursor: nat, cutoff: nat,
                    found: bool, index: nat, length: nat)
    requires Nearest(data, some, cursor, cutoff, found, index, length)
    requires at >= 0 ==> cursor <= at && OccursAt(data, at, secret)
    requires forall p :: cursor <= p && (at < 0 || p < at) ==> !OccursAt(data, p, secret)
    ensures var more := some + [secret];
            if 0 <= at < cutoff && (!found || at < index) then
              Nearest(data, more, cursor, cutoff, true, at, |secret|)
            else if 0 <= at < cutoff && at == index && |secret| > length then
              Nearest(data, more, cursor, cutoff, found, index, |secret|)
            else Nearest(data, more, cursor, cutoff, found, index, length)
  {
    var more := some + [secret];
    assert forall s :: s in more <==> s in some || s == secret;
    if found {
      var s :| s in some && OccursAt(data, index, s) && |s| == length;
      assert s in more;
    }
    assert secret in more;
  }

  lemma NearestIsLongest(
      data: Bytes, secrets: seq<Bytes>, cursor: nat, cutoff: nat, found: bool, index: nat, length: nat)
    requires cutoff <= |data| && [] !in secrets
    requires Nearest(data, secrets, cursor, cutoff, found, index, length)
    ensures found ==> length == LongestAt(secrets, data, index) > 0
    ensures forall p :: cursor <= p < index ==> LongestAt(secrets, data, p) == 0
  {
    forall p | cursor <= p < index
      ensures LongestAt(secrets, data, p) == 0
    {
      LongestAtIs(secrets, data, p);
    }
    if found {
      LongestAtIs(secrets, data, index);
      assert IsLongest(secrets, data, index, length);
    }
  }

  /** The nearest secret before the cutoff, and the longest one that starts there. */
  method NearestSecret(data: Bytes, secrets: seq<Bytes>, cursor: nat, cutoff: nat)
    returns (found: bool, index: nat, length: nat)
    requires cursor < cutoff <= |data|
    requires [] !in secrets
    ensures found ==> cursor <= index < cutoff && length == LongestAt(secrets, data, index) > 0
    ensures forall p :: cursor <= p < (if found then index else cutoff) ==> LongestAt(secrets, data, p) == 0
  {
    found, index, length := false, cutoff, 0;
    for k := 0 to |secrets|
      invariant Nearest(data, secrets[..k], cursor, cutoff, found, index, length)
    {
      var at := FindFrom(data, secrets[k], cursor);
      NearestStep(data, secrets[..k], secrets[k], at, cursor, cutoff, found, index, length);
      assert secrets[..k] + [secrets[k]] == secrets[..k + 1];
      if 0 <= at < cutoff {
        if !found || at < index {
          found, index, length := true, at, |secrets[k]|;
        } else if at == index && |secrets[k]| > length {
          length := |secrets[k]|;
        }
      }
    }
    assert secrets[..|secrets|] == secrets;
    NearestIsLongest(data, secrets, cursor, cutoff, found, index, length);
  }

  /** What one scan of a buffer up to a cutoff hands on, and what it leaves. */
  predicate Cut(secrets: seq<Bytes>, marker: Bytes, data: Bytes, cutoff: nat, safe: Bytes, rest: Bytes)
    requires cutoff <= |data|
  {
    var r := Scan(marker, data, Choices(secrets, data), cutoff, 0);
    r.1 <= |data| && safe == r.0 && rest == data[r.1..]
  }

  lemma ScanAdvance(marker: Bytes, data: Bytes, choices: seq<nat>, cutoff: nat, safe: Bytes, cursor: nat, stop: nat)
    requires |choices| == |data| && cursor <= stop <= cutoff <= |data|
    requires forall p :: cursor <= p < stop ==> choices[p] == 0
    ensures Scan(marker, data, choices, cutoff, cursor).1 == Scan(marker, data, choices, cutoff, stop).1
    ensures safe + Scan(marker, data, choices, cutoff, cursor).0
         == (safe + data[cursor..stop]) + Scan(marker, data, choices, cutoff, stop).0
  {
    ScanLiteralRun(marker, data, choices, cutoff, cursor, stop);
    Associate(safe, data[cursor..stop], Scan(marker, data, choices, cutoff, stop).0);
  }

  lemma ScanMark(marker: Bytes, data: Bytes, choices: seq<nat>, cutoff: nat, safe: Bytes, at: nat)
    requires |choices| == |data| && at < cutoff <= |data| && choices[at] > 0
    ensures Scan(marker, data, choices, cutoff, at).1 == Scan(marker, data, choices, cutoff, at + choices[at]).1
    ensures safe + Scan(marker, data, choices, cutoff, at).0
         == (safe + marker) + Scan(marker, data, choices, cutoff, at + choices[at]).0
  {
    Associate(safe, marker, Scan(marker, data, choices, cutoff, at + choices[at]).0);
  }

  lemma ChoicesAre(secrets: seq<Bytes>, data: Bytes)
    ensures forall i :: 0 <= i < |data| ==> Choices(secrets, data)[i] == LongestAt(secrets, data, i)
  {
    forall i | 0 <= i < |data|
      ensures Choices(secrets, data)[i] == LongestAt(secrets, data, i)
    {
      ChoiceAt(secrets, data, |data|, i);
    }
  }

  /** What was put out, followed by the scan from the cursor on, is the whole scan. */
  ghost predicate Ahead(marker: Bytes, data: Bytes, choices: seq<nat>, cutoff: nat, safe: Bytes, cursor: nat)
    requires |choices| == |data| && cutoff <= |data|
  {
    var goal, left := Scan(marker, data, choices, cutoff, 0), Scan(marker, data, choices, cutoff, cursor);
    goal.0 == safe + left.0 && goal.1 == left.1
  }

  lemma AheadBegins(marker: Bytes, data: Bytes, choices: seq<nat>, cutoff: nat)
    requires |choices| == |data| && cutoff <= |data|
    ensures Ahead(marker, data, choices, cutoff, [], 0)
  {
    assert [] + Scan(marker, data, choices, cutoff, 0).0 == Scan(marker, data, choices, cutoff, 0).0;
  }

  lemma AheadAdvances(
      marker: Bytes, data: Bytes, choices: seq<nat>, cutoff: nat, safe: Bytes, cursor: nat, stop: nat)
    requires |choices| == |data| && cursor <= stop <= cutoff <= |data|
    requires forall p :: cursor <= p < stop ==> choices[p] == 0
    requires Ahead(marker, data, choices, cutoff, safe, cursor)
    ensures Ahead(marker, data, choices, cutoff, safe + data[cursor..stop], stop)
  {
    ScanAdvance(marker, data, choices, cutoff, safe, cursor, stop);
  }

  lemma AheadMarks(marker: Bytes, data: Bytes, choices: seq<nat>, cutoff: nat, safe: Bytes, at: nat)
    requires |choices| == |data| && at < cutoff <= |data| && choices[at] > 0
    requires Ahead(marker, data, choices, cutoff, safe, at)
    ensures Ahead(marker, data, choices, cutoff, safe + marker, at + choices[at])
  {
    ScanMark(marker, data, choices, cutoff, safe, at);
  }

  lemma AheadEnds(secrets: seq<Bytes>, marker: Bytes, data: Bytes, cutoff: nat, safe: Bytes, cursor: nat)
    requires cutoff <= |data| && cutoff <= cursor <= |data|
    requires Ahead(marker, data, Choices(secrets, data), cutoff, safe, cursor)
    ensures Cut(secrets, marker, data, cutoff, safe, data[cursor..])
  {
    assert safe + [] == safe;
  }

  /** The literal bytes up to the nearest secret, and the marker in its place. */
  method RedactNext(data: Bytes, secrets: seq<Bytes>, marker: Bytes, cutoff: nat, safe: Bytes, cursor: nat)
    returns (more: Bytes, next: nat)
    requires cursor < cutoff <= |data| && [] !in secrets
    requires Ahead(marker, data, Choices(secrets, data), cutoff, safe, cursor)
    ensures cursor < next <= |data|
    ensures Ahead(marker, data, Choices(secrets, data), cutoff, more, next)
  {
    ghost var choices := Choices(secrets, data);
    var found, index, length := NearestSecret(data, secrets, cursor, cutoff);
    ChoicesAre(secrets, data);
    if !found {
      AheadAdvances(marker, data, choices, cutoff, safe, cursor, cutoff);
      return safe + data[cursor..cutoff], cutoff;
    }
    ChoicesFit(secrets, data);
    AheadAdvances(marker, data, choices, cutoff, safe, cursor, index);
    AheadMarks(marker, data, choices, cutoff, safe + data[cursor..index], index);
    return safe + data[cursor..index] + marker, index + length;
  }

  method RedactPrefix(data: Bytes, secrets: seq<Bytes>, marker: Bytes, cutoff: nat)
    returns (safe: Bytes, rest: Bytes)
    requires cutoff <= |data|
    requires [] !in secrets
    ensures Cut(secrets, marker, data, cutoff, safe, rest)
  {
    var cursor := 0;
    safe := [];
    AheadBegins(marker, data, Choices(secrets, data), cutoff);
    while cursor < cutoff
      invariant cursor <= |data|
      invariant Ahead(marker, data, Choices(secrets, data), cutoff, safe, cursor)
      decreases |data| - cursor
    {
      safe, cursor := RedactNext(data, secrets, marker, cutoff, safe, cursor);
    }
    AheadEnds(secrets, marker, data, cutoff, safe, cursor);
    rest := data[cursor..];
  }

  /** What a reader sees before the first empty read. */
  function UntilEof(chunks: seq<Bytes>): seq<Bytes> {
    if chunks == [] || chunks[0] == [] then [] else [chunks[0]] + UntilEof(chunks[1..])
  }

  /** The first empty read is the end, whatever stands behind it. */
  lemma {:induction false} UntilEofStops(front: seq<Bytes>, behind: seq<Bytes>)
    requires [] !in front
    ensures UntilEof(front + [[]] + behind) == front && UntilEof(front) == front
    decreases |front|
  {
    if front != [] {
      UntilEofStops(front[1..], behind);
      assert (front + [[]] + behind)[1..] == front[1..] + [[]] + behind && [front[0]] + front[1..] == front;
    }
  }

  lemma NextRead(chunks: seq<Bytes>)
    requires chunks != [] && chunks[0] != []
    ensures Flatten(UntilEof(chunks)) == chunks[0] + Flatten(UntilEof(chunks[1..]))
  {
    FlattenFirst(chunks[0], UntilEof(chunks[1..]));
  }

  function NonEmpty(items: seq<Bytes>): (kept: seq<Bytes>)
    ensures forall s :: s in kept <==> s in items && s != []
  {
    if items == [] then []
    else if items[0] == [] then NonEmpty(items[1..])
    else [items[0]] + NonEmpty(items[1..])
  }

  /** The state of the drain after some reads: whatever else arrives, redacting all of it is what
      was handed on so far followed by the redaction of what is pending and what arrives. */
  ghost predicate Drained(secrets: seq<Bytes>, marker: Bytes, read: Bytes, handed: Bytes, pending: Bytes) {
    forall more: Bytes {:trigger Redact(secrets, marker, read + more)} ::
      Redact(secrets, marker, read + more) == handed + Redact(secrets, marker, pending + more)
  }

  lemma DrainArrive(secrets: seq<Bytes>, marker: Bytes, read: Bytes, handed: Bytes, pending: Bytes, chunk: Bytes)
    requires Drained(secrets, marker, read, handed, pending)
    ensures Drained(secrets, marker, read + chunk, handed, pending + chunk)
  {
    forall more: Bytes
      ensures Redact(secrets, marker, (read + chunk) + more)
           == handed + Redact(secrets, marker, (pending + chunk) + more)
    {
      Associate(read, chunk, more);
      Associate(pending, chunk, more);
      assert Redact(secrets, marker, read + (chunk + more))
        == handed + Redact(secrets, marker, pending + (chunk + more));
    }
  }

  lemma DrainHandOn(secrets: seq<Bytes>, marker: Bytes, read: Bytes, handed: Bytes, pending: Bytes,
      cutoff: nat, safe: Bytes, rest: Bytes)
    requires Drained(secrets, marker, read, handed, pending)
    requires cutoff <= |pending| && cutoff + MaxLength(secrets) <= |pending| + 1
    requires Cut(secrets, marker, pending, cutoff, safe, rest)
    ensures Drained(secrets, marker, read, handed + safe, rest)
  {
    forall more: Bytes
      ensures Redact(secrets, marker, read + more) == handed + safe + Redact(secrets, marker, rest + more)
    {
      ScanThenRest(secrets, marker, pending, cutoff, more);
      Associate(handed, safe, Redact(secrets, marker, rest + more));
    }
  }

  lemma DrainEnd(
      secrets: seq<Bytes>, marker: Bytes, read: Bytes, handed: Bytes, pending: Bytes, safe: Bytes, rest: Bytes)
    requires Drained(secrets, marker, read, handed, pending)
    requires Cut(secrets, marker, pending, |pending|, safe, rest)
    ensures Redact(secrets, marker, read) == handed + safe
  {
    assert read + [] == read && pending + [] == pending;
    ScanThenRest(secrets, marker, pending, |pending|, []);
    ChoicesFit(secrets, pending);
    ScanStaysInside(marker, pending, Choices(secrets, pending), |pending|, 0);
    assert rest + [] == [] && safe + [] == safe;
  }

  /** One read: whatever can no longer take part in a longer match is handed on. */
  method Absorb(
      secrets: seq<Bytes>, marker: Bytes, pending: Bytes, chunk: Bytes, ghost read: Bytes, ghost handed: Bytes)
    returns (safe: Bytes, rest: Bytes)
    requires [] !in secrets
    requires Drained(secrets, marker, read, handed, pending)
    ensures Drained(secrets, marker, read + chunk, handed + safe, rest)
    ensures rest == [] || |rest| < MaxLength(secrets)
  {
    DrainArrive(secrets, marker, read, handed, pending, chunk);
    var joined := pending + chunk;
    var longest := MaxLength(secrets);
    var keep := if longest == 0 then 0 else longest - 1;
    if |joined| > keep {
      assert |joined| - keep + MaxLength(secrets) <= |joined| + 1;
      safe, rest := RedactPrefix(joined, secrets, marker, |joined| - keep);
      DrainHandOn(secrets, marker, read + chunk, handed, joined, |joined| - keep, safe, rest);
      ChoicesFit(secrets, joined);
      ScanStaysInside(marker, joined, Choices(secrets, joined), |joined| - keep, 0);
    } else {
      assert handed + [] == handed;
      return [], joined;
    }
  }

  /** However the log is cut into reads, the consumer receives the redaction of the whole log. */
  method DrainRedacted(chunks: seq<Bytes>, items: seq<Bytes>, marker: Bytes) returns (consumed: seq<Bytes>)
    ensures Flatten(consumed) == Redact(NonEmpty(items), marker, Flatten(UntilEof(chunks)))
    ensures [] !in consumed
  {
    var secrets := NonEmpty(items);
    var pending: Bytes := [];
    consumed := [];
    ghost var read: Bytes := [];
    ghost var handed: Bytes := [];
    var i := 0;
    while i < |chunks|
      invariant i <= |chunks|
      invariant handed == Flatten(consumed)
      invariant Drained(secrets, marker, read, handed, pending)
      invariant Flatten(UntilEof(chunks)) == read + Flatten(UntilEof(chunks[i..]))
      invariant [] !in consumed
    {
      var chunk := chunks[i];
      assert chunks[i..][0] == chunk;
      if chunk == [] {
        break;
      }
      NextRead(chunks[i..]);
      assert chunks[i..][1..] == chunks[i + 1..];
      Associate(read, chunk, Flatten(UntilEof(chunks[i + 1..])));
      var safe, rest := Absorb(secrets, marker, pending, chunk, read, handed);
      read, handed, pending := read + chunk, handed + safe, rest;
      if safe != [] {
        FlattenSnoc(consumed, safe);
        consumed := consumed + [safe];
      }
      i := i + 1;
    }
    assert UntilEof(chunks[i..]) == [] && read + [] == read;
    var safe, rest := RedactPrefix(pending, secrets, marker, |pending|);
    DrainEnd(secrets, marker, read, handed, pending, safe, rest);
    if safe != [] {
      FlattenSnoc(consumed, safe);
      consumed := consumed + [safe];
    }
  }
}

/** What can still be read in a redacted text: where an occurrence of a secret has to lie, and exactly which
    secrets the marker can spell together with its neighbours. */
module RedactedText {
  import opened ByteStrings
  import opened Redaction

  // --- Redaction as a list of pieces. ---

  /** Length of the longest secret in front. */
  function First(secrets: seq<Bytes>, data: Bytes): nat {
    LongestAt(secrets, data, 0)
  }

  datatype Piece = Literal(b: byte) | Marked(secret: Bytes)

  function Source(piece: Piece): Bytes {
    match piece
    case Literal(b) => [b]
    case Marked(secret) => secret
  }

  function Shown(marker: Bytes, piece: Piece): Bytes {
    match piece
    case Literal(b) => [b]
    case Marked(_) => marker
  }

  function Data(pieces: seq<Piece>): Bytes {
    if pieces == [] then [] else Source(pieces[0]) + Data(pieces[1..])
  }

  function Text(marker: Bytes, pieces: seq<Piece>): Bytes {
    if pieces == [] then [] else Shown(marker, pieces[0]) + Text(marker, pieces[1..])
  }

  /** In front of the given bytes redaction leaves the byte, or replaces exactly the secret. */
  predicate Fits(secrets: seq<Bytes>, piece: Piece, right: Bytes) {
    match piece
    case Literal(b) => First(secrets, [b] + right) == 0
    case Marked(secret) => secret in secrets && secret != [] && First(secrets, secret + right) == |secret|
  }

  predicate Valid(secrets: seq<Bytes>, pieces: seq<Piece>) {
    pieces == [] || (Fits(secrets, pieces[0], Data(pieces[1..])) && Valid(secrets, pieces[1..]))
  }

  lemma RedactHead(secrets: seq<Bytes>, marker: Bytes, data: Bytes)
    requires data != []
    ensures var n := First(secrets, data);
            && n <= |data|
            && Redact(secrets, marker, data)
               == if n == 0 then [data[0]] + Redact(secrets, marker, data[1..])
                  else marker + Redact(secrets, marker, data[n..])
  {
    var n := First(secrets, data);
    LongestAtBounds(secrets, data, 0);
    ChoiceAt(secrets, data, |data|, 0);
    RedactFromCut(secrets, marker, data, if n == 0 then 1 else n);
  }

  lemma {:induction false} ValidIsRedact(secrets: seq<Bytes>, marker: Bytes, pieces: seq<Piece>)
    requires Valid(secrets, pieces)
    ensures Redact(secrets, marker, Data(pieces)) == Text(marker, pieces)
  {
    if pieces != [] {
      var piece, rest := pieces[0], Data(pieces[1..]);
      RedactHead(secrets, marker, Data(pieces));
      ValidIsRedact(secrets, marker, pieces[1..]);
      assert Data(pieces)[|Source(piece)|..] == rest;
    }
  }

  lemma FrontPiece(secrets: seq<Bytes>, data: Bytes) returns (piece: Piece, rest: Bytes)
    requires data != []
    ensures data == Source(piece) + rest && |rest| < |data| && Fits(secrets, piece, rest)
  {
    LongestAtBounds(secrets, data, 0);
    var n := First(secrets, data);
    piece, rest := Literal(data[0]), data[1..];
    if n > 0 {
      piece, rest := Marked(data[..n]), data[n..];
    }
    assert data == Source(piece) + rest;
  }

  /** Every text is such a list. */
  lemma {:induction false} PiecesExist(secrets: seq<Bytes>, data: Bytes) returns (pieces: seq<Piece>)
    ensures Valid(secrets, pieces) && Data(pieces) == data
    decreases |data|
  {
    if data == [] {
      pieces := [];
    } else {
      var piece, right := FrontPiece(secrets, data);
      var rest := PiecesExist(secrets, right);
      pieces := [piece] + rest;
      assert pieces[0] == piece && pieces[1..] == rest;
    }
  }

  lemma ConcatTail(left: seq<Piece>, right: seq<Piece>)
    requires left != []
    ensures (left + right)[0] == left[0] && (left + right)[1..] == left[1..] + right
  {
  }

  lemma {:induction false} DataConcat(left: seq<Piece>, right: seq<Piece>)
    ensures Data(left + right) == Data(left) + Data(right)
  {
    if left == [] {
      assert left + right == right;
    } else {
      var first, rest := Source(left[0]), left[1..];
      DataConcat(rest, right);
      ConcatTail(left, right);
      assert Data(left + right) == first + Data(rest + right);
      Associate(first, Data(rest), Data(right));
    }
  }

  lemma {:induction false} TextConcat(marker: Bytes, left: seq<Piece>, right: seq<Piece>)
    ensures Text(marker, left + right) == Text(marker, left) + Text(marker, right)
  {
    if left == [] {
      assert left + right == right;
    } else {
      var first, rest := Shown(marker, left[0]), left[1..];
      TextConcat(marker, rest, right);
      ConcatTail(left, right);
      assert Text(marker, left + right) == first + Text(marker, rest + right);
      Associate(first, Text(marker, rest), Text(marker, right));
    }
  }

  lemma TextSnoc(marker: Bytes, pieces: seq<Piece>)
    requires pieces != []
    ensures Text(marker, pieces)
         == Text(marker, pieces[..|pieces| - 1]) + Shown(marker, pieces[|pieces| - 1])
  {
    var front, last := pieces[..|pieces| - 1], pieces[|pieces| - 1];
    TextConcat(marker, front, [last]);
    assert front + [last] == pieces && [last][1..] == [];
    assert Shown(marker, last) + [] == Shown(marker, last);
  }

  lemma {:induction false} ValidBehind(secrets: seq<Bytes>, left: seq<Piece>, right: seq<Piece>)
    requires Valid(secrets, left + right)
    ensures Valid(secrets, right)
  {
    if left == [] {
      assert left + right == right;
    } else {
      assert (left + right)[1..] == left[1..] + right;
      ValidBehind(secrets, left[1..], right);
    }
  }

  /** What arrives later can only add secrets, so less of it fits all the more. */
  lemma FitsTruncated(secrets: seq<Bytes>, piece: Piece, right: Bytes, more: Bytes)
    requires Fits(secrets, piece, right + more)
    ensures Fits(secrets, piece, right)
  {
    var short, long := Source(piece) + right, Source(piece) + (right + more);
    LongestAtIs(secrets, short, 0);
    LongestAtBounds(secrets, long, 0);
    LongestAtBounds(secrets, short, 0);
    forall s | s in secrets && OccursAt(short, 0, s)
      ensures OccursAt(long, 0, s)
    {
      assert long[..|s|] == short[..|s|];
    }
    if piece.Marked? {
      assert OccursAt(short, 0, piece.secret);
    }
  }

  lemma {:induction false} ValidTruncated(secrets: seq<Bytes>, left: seq<Piece>, right: seq<Piece>)
    requires Valid(secrets, left + right)
    ensures Valid(secrets, left)
  {
    if left != [] {
      assert (left + right)[1..] == left[1..] + right;
      DataConcat(left[1..], right);
      FitsTruncated(secrets, left[0], Data(left[1..]), Data(right));
      ValidTruncated(secrets, left[1..], right);
    }
  }

  // --- Every occurrence of a secret touches a copy of the marker. ---

  /** Where the copies of the marker begin in the text the pieces show. */
  function MarkerStarts(marker: Bytes, pieces: seq<Piece>, shift: nat): seq<nat> {
    if pieces == [] then []
    else
      (if pieces[0].Marked? then [shift] else [])
      + MarkerStarts(marker, pieces[1..], shift + |Shown(marker, pieces[0])|)
  }

  /** The stretch from `at` of the given length and some copy of the marker have a byte in common. */
  ghost predicate Touches(marker: Bytes, starts: seq<nat>, at: nat, len: nat) {
    exists i :: 0 <= i < |starts| && starts[i] < at + len && at < starts[i] + |marker|
  }

  lemma TouchesLater(marker: Bytes, first: seq<nat>, later: seq<nat>, at: nat, len: nat)
    requires Touches(marker, later, at, len)
    ensures Touches(marker, first + later, at, len)
  {
    var i :| 0 <= i < |later| && later[i] < at + len && at < later[i] + |marker|;
    assert (first + later)[|first| + i] == later[i];
  }

  lemma TouchesFirst(marker: Bytes, start: nat, later: seq<nat>, at: nat, len: nat)
    requires start < at + len && at < start + |marker|
    ensures Touches(marker, [start] + later, at, len)
  {
    assert ([start] + later)[0] == start;
  }

  lemma OccursBehind(head: Bytes, tail: Bytes, at: nat, secret: Bytes)
    requires OccursAt(head + tail, at, secret) && at >= |head|
    ensures OccursAt(tail, at - |head|, secret)
  {
    assert (head + tail)[at..at + |secret|] == tail[at - |head|..at - |head| + |secret|];
  }

  lemma UntouchedRest(marker: Bytes, pieces: seq<Piece>, shift: nat, n: nat)
    requires marker != [] && 0 < n <= |Text(marker, pieces)|
    requires !Touches(marker, MarkerStarts(marker, pieces, shift), shift, n)
    ensures pieces[0].Literal?
    ensures !Touches(marker, MarkerStarts(marker, pieces[1..], shift + 1), shift + 1, n - 1)
  {
    var later := MarkerStarts(marker, pieces[1..], shift + |Shown(marker, pieces[0])|);
    if pieces[0].Marked? {
      TouchesFirst(marker, shift, later, shift, n);
    } else {
      assert [] + later == later;
      if i :| 0 <= i < |later| && later[i] < shift + n && shift + 1 < later[i] + |marker| {
        assert Touches(marker, later, shift, n);
      }
    }
  }

  lemma SameFront(b: byte, data: Bytes, text: Bytes, n: nat)
    requires 0 < n <= |text| + 1 && n <= |data| + 1 && data[..n - 1] == text[..n - 1]
    ensures ([b] + data)[..n] == ([b] + text)[..n]
  {
    assert ([b] + data)[..n] == [b] + data[..n - 1] && ([b] + text)[..n] == [b] + text[..n - 1];
  }

  /** Where no marker is touched the text is the input. */
  lemma {:induction false} UntouchedIsInput(marker: Bytes, pieces: seq<Piece>, shift: nat, n: nat)
    requires marker != [] && n <= |Text(marker, pieces)|
    requires !Touches(marker, MarkerStarts(marker, pieces, shift), shift, n)
    ensures n <= |Data(pieces)| && Data(pieces)[..n] == Text(marker, pieces)[..n]
    ensures n > 0 ==> pieces[0].Literal?
    decreases n
  {
    if n > 0 {
      UntouchedRest(marker, pieces, shift, n);
      UntouchedIsInput(marker, pieces[1..], shift + 1, n - 1);
      SameFront(pieces[0].b, Data(pieces[1..]), Text(marker, pieces[1..]), n);
    }
  }

  lemma UntouchedIsFit(secrets: seq<Bytes>, marker: Bytes, pieces: seq<Piece>, shift: nat, secret: Bytes)
    requires marker != [] && Valid(secrets, pieces) && secret in secrets && secret != []
    requires OccursAt(Text(marker, pieces), 0, secret)
    ensures Touches(marker, MarkerStarts(marker, pieces, shift), shift, |secret|)
  {
    if !Touches(marker, MarkerStarts(marker, pieces, shift), shift, |secret|) {
      UntouchedIsInput(marker, pieces, shift, |secret|);
      LongestAtBounds(secrets, Data(pieces), 0);
      assert OccursAt(Data(pieces), 0, secret);
    }
  }

  lemma StartsFirst(marker: Bytes, pieces: seq<Piece>, shift: nat, at: nat, len: nat)
    requires pieces != [] && 0 < len && 0 < at < |Shown(marker, pieces[0])|
    ensures Touches(marker, MarkerStarts(marker, pieces, shift), shift + at, len)
  {
    var later := MarkerStarts(marker, pieces[1..], shift + |Shown(marker, pieces[0])|);
    TouchesFirst(marker, shift, later, shift + at, len);
  }

  lemma StartsRest(marker: Bytes, pieces: seq<Piece>, shift: nat, size: nat, at: nat, len: nat)
    requires pieces != [] && size == |Shown(marker, pieces[0])|
    requires Touches(marker, MarkerStarts(marker, pieces[1..], shift + size), at, len)
    ensures Touches(marker, MarkerStarts(marker, pieces, shift), at, len)
  {
    var later := MarkerStarts(marker, pieces[1..], shift + size);
    TouchesLater(marker, if pieces[0].Marked? then [shift] else [], later, at, len);
  }

  lemma OccursInRest(secrets: seq<Bytes>, marker: Bytes, pieces: seq<Piece>, at: nat, secret: Bytes)
    requires Valid(secrets, pieces) && pieces != [] && secret != []
    requires OccursAt(Text(marker, pieces), at, secret) && at >= |Shown(marker, pieces[0])|
    ensures Valid(secrets, pieces[1..])
    ensures OccursAt(Text(marker, pieces[1..]), at - |Shown(marker, pieces[0])|, secret)
  {
    OccursBehind(Shown(marker, pieces[0]), Text(marker, pieces[1..]), at, secret);
  }

  lemma {:induction false} OccurrenceTouches(
      secrets: seq<Bytes>, marker: Bytes, pieces: seq<Piece>, shift: nat, at: nat, secret: Bytes)
    requires marker != [] && Valid(secrets, pieces) && secret in secrets && secret != []
    requires OccursAt(Text(marker, pieces), at, secret)
    ensures Touches(marker, MarkerStarts(marker, pieces, shift), shift + at, |secret|)
    decreases |pieces|
  {
    if at == 0 {
      UntouchedIsFit(secrets, marker, pieces, shift, secret);
    } else if at < |Shown(marker, pieces[0])| {
      StartsFirst(marker, pieces, shift, at, |secret|);
    } else {
      var size := |Shown(marker, pieces[0])|;
      OccursInRest(secrets, marker, pieces, at, secret);
      OccurrenceTouches(secrets, marker, pieces[1..], shift + size, at - size, secret);
      StartsRest(marker, pieces, shift, size, shift + size + (at - size), |secret|);
    }
  }

  /** Wherever a secret can be read in a redacted text, it takes at least one byte from a copy of the
      marker: no secret comes through as it stood in the input. */
  lemma SecretTouchesMarker(
      secrets: seq<Bytes>, marker: Bytes, data: Bytes, pieces: seq<Piece>, at: nat, secret: Bytes)
    requires marker != [] && Valid(secrets, pieces) && Data(pieces) == data
    requires secret in secrets && secret != [] && OccursAt(Redact(secrets, marker, data), at, secret)
    ensures Touches(marker, MarkerStarts(marker, pieces, 0), at, |secret|)
  {
    ValidIsRedact(secrets, marker, pieces);
    OccurrenceTouches(secrets, marker, pieces, 0, at, secret);
  }

  // --- Which secrets can be spelled. ---

  predicate EndsWith(data: Bytes, tail: Bytes) {
    |tail| <= |data| && data[|data| - |tail|..] == tail
  }

  /** Read from its end, the text consists of literal bytes none of which starts a secret in what stands to
      its right, and of markers, each standing for a secret that is the longest where it stands. Only the end
      of the first marker has to be part of the text. */
  predicate Before(secrets: seq<Bytes>, marker: Bytes, text: Bytes, right: Bytes)
    requires marker != []
    decreases |text|
  {
    || text == []
    || (Fits(secrets, Literal(text[|text| - 1]), right)
        && Before(secrets, marker, text[..|text| - 1], [text[|text| - 1]] + right))
    || exists s :: s in secrets && Fits(secrets, Marked(s), right) &&
         if |text| <= |marker| then EndsWith(marker, text)
         else EndsWith(text, marker) && Before(secrets, marker, text[..|text| - |marker|], s + right)
  }

  predicate Inside(marker: Bytes, secret: Bytes) {
    exists at :: 0 <= at <= |marker| && OccursAt(marker, at, secret)
  }

  /** A secret can be spelled inside the marker, or ending in a literal byte or with a whole marker, or with
      the beginning of a marker. This looks at the secrets and the marker only. */
  predicate CanSpell(secrets: seq<Bytes>, marker: Bytes, secret: Bytes)
    requires marker != []
  {
    || Inside(marker, secret)
    || Before(secrets, marker, secret, [])
    || exists cut, s :: 0 <= cut < |secret| && s in secrets && s != [] && secret[cut..] <= marker
         && Before(secrets, marker, secret[..cut], s)
  }

  // --- Whatever is spelled that way does come out. ---

  ghost predicate Shows(secrets: seq<Bytes>, marker: Bytes, text: Bytes, right: seq<Piece>, left: seq<Piece>) {
    Valid(secrets, left + right) && EndsWith(Text(marker, left), text)
  }

  lemma ValidCons(secrets: seq<Bytes>, piece: Piece, pieces: seq<Piece>)
    requires Valid(secrets, pieces) && Fits(secrets, piece, Data(pieces))
    ensures Valid(secrets, [piece] + pieces) && Data([piece] + pieces) == Source(piece) + Data(pieces)
  {
    assert ([piece] + pieces)[1..] == pieces;
  }

  lemma EndsWithMore(front: Bytes, tail: Bytes, last: Bytes)
    requires EndsWith(front, tail)
    ensures EndsWith(front + last, tail + last)
  {
    assert front == front[..|front| - |tail|] + tail;
    Associate(front[..|front| - |tail|], tail, last);
  }

  lemma ShowsMore(
      secrets: seq<Bytes>, marker: Bytes, text: Bytes, piece: Piece, right: seq<Piece>, left: seq<Piece>)
    requires Shows(secrets, marker, text, [piece] + right, left)
    ensures Shows(secrets, marker, text + Shown(marker, piece), right, left + [piece])
  {
    Associate(left, [piece], right);
    TextConcat(marker, left, [piece]);
    assert [piece][1..] == [] && Shown(marker, piece) + [] == Shown(marker, piece);
    EndsWithMore(Text(marker, left), text, Shown(marker, piece));
  }

  lemma OneShown(marker: Bytes, piece: Piece)
    ensures Text(marker, [piece]) == Shown(marker, piece) && Data([piece]) == Source(piece)
  {
    assert [piece][1..] == [];
    assert Shown(marker, piece) + [] == Shown(marker, piece) && Source(piece) + [] == Source(piece);
  }

  lemma ShowsOne(secrets: seq<Bytes>, marker: Bytes, text: Bytes, piece: Piece, right: seq<Piece>)
    requires Valid(secrets, right) && Fits(secrets, piece, Data(right)) && EndsWith(Shown(marker, piece), text)
    ensures Shows(secrets, marker, text, right, [piece])
  {
    ValidCons(secrets, piece, right);
    OneShown(marker, piece);
  }

  lemma ShowsNothing(secrets: seq<Bytes>, marker: Bytes, right: seq<Piece>)
    requires Valid(secrets, right)
    ensures Shows(secrets, marker, [], right, [])
  {
    assert [] + right == right;
  }

  ghost predicate LastIsLiteral(secrets: seq<Bytes>, marker: Bytes, text: Bytes, right: Bytes)
    requires marker != [] && text != []
  {
    && Fits(secrets, Literal(text[|text| - 1]), right)
    && Before(secrets, marker, text[..|text| - 1], [text[|text| - 1]] + right)
  }

  ghost predicate LastIsMarker(secrets: seq<Bytes>, marker: Bytes, text: Bytes, right: Bytes, s: Bytes)
    requires marker != []
  {
    && s in secrets && Fits(secrets, Marked(s), right)
    && if |text| <= |marker| then EndsWith(marker, text)
       else EndsWith(text, marker) && Before(secrets, marker, text[..|text| - |marker|], s + right)
  }

  lemma BeforeCases(secrets: seq<Bytes>, marker: Bytes, text: Bytes, right: Bytes) returns (s: Bytes)
    requires marker != [] && text != [] && Before(secrets, marker, text, right)
    ensures LastIsLiteral(secrets, marker, text, right) || LastIsMarker(secrets, marker, text, right, s)
  {
    s := [];
    if !LastIsLiteral(secrets, marker, text, right) {
      s :| s in secrets && Fits(secrets, Marked(s), right) &&
        if |text| <= |marker| then EndsWith(marker, text)
        else EndsWith(text, marker) && Before(secrets, marker, text[..|text| - |marker|], s + right);
    }
  }

  /** The piece the text ends with, and the text in front of it. */
  lemma BeforePiece(secrets: seq<Bytes>, marker: Bytes, text: Bytes, right: Bytes) returns (piece: Piece)
    requires marker != [] && text != [] && Before(secrets, marker, text, right)
    ensures Fits(secrets, piece, right)
    ensures var shown := Shown(marker, piece);
            if |text| <= |shown| then EndsWith(shown, text)
            else EndsWith(text, shown) && Before(secrets, marker, text[..|text| - |shown|], Source(piece) + right)
  {
    var s := BeforeCases(secrets, marker, text, right);
    if LastIsLiteral(secrets, marker, text, right) {
      piece := Literal(text[|text| - 1]);
      assert text[|text| - 1..] == [text[|text| - 1]];
    } else {
      piece := Marked(s);
    }
  }

  /** One more piece shown in front of what stands to the right. */
  lemma ShowsStep(
      secrets: seq<Bytes>, marker: Bytes, text: Bytes, front: Bytes, piece: Piece, right: seq<Piece>, left: seq<Piece>)
    requires EndsWith(text, Shown(marker, piece)) && front == text[..|text| - |Shown(marker, piece)|]
    requires Shows(secrets, marker, front, [piece] + right, left)
    ensures Shows(secrets, marker, text, right, left + [piece])
  {
    ShowsMore(secrets, marker, front, piece, right, left);
    assert front + Shown(marker, piece) == text;
  }

  lemma RightOfPiece(
      secrets: seq<Bytes>, marker: Bytes, right: seq<Piece>, piece: Piece, front: Bytes)
    requires marker != [] && Valid(secrets, right) && Fits(secrets, piece, Data(right))
    requires Before(secrets, marker, front, Source(piece) + Data(right))
    ensures Valid(secrets, [piece] + right) && Before(secrets, marker, front, Data([piece] + right))
  {
    ValidCons(secrets, piece, right);
  }

  lemma {:induction false} BeforeShows(secrets: seq<Bytes>, marker: Bytes, text: Bytes, right: seq<Piece>)
    returns (left: seq<Piece>)
    requires marker != [] && Valid(secrets, right) && Before(secrets, marker, text, Data(right))
    ensures Shows(secrets, marker, text, right, left)
    decreases |text|
  {
    if text == [] {
      ShowsNothing(secrets, marker, right);
      return [];
    }
    var piece := BeforePiece(secrets, marker, text, Data(right));
    var shown := Shown(marker, piece);
    if |text| <= |shown| {
      ShowsOne(secrets, marker, text, piece, right);
      return [piece];
    }
    var front := text[..|text| - |shown|];
    RightOfPiece(secrets, marker, right, piece, front);
    left := BeforeShows(secrets, marker, front, [piece] + right);
    ShowsStep(secrets, marker, text, front, piece, right, left);
    left := left + [piece];
  }

  /** Some text of which this secret can be read in the redaction. */
  ghost predicate Survives(secrets: seq<Bytes>, marker: Bytes, secret: Bytes) {
    exists data: Bytes, at: nat :: OccursAt(Redact(secrets, marker, data), at, secret)
  }

  lemma SurvivesAt(secrets: seq<Bytes>, marker: Bytes, secret: Bytes, pieces: seq<Piece>, at: nat)
    requires Valid(secrets, pieces) && OccursAt(Text(marker, pieces), at, secret)
    ensures Survives(secrets, marker, secret)
  {
    ValidIsRedact(secrets, marker, pieces);
  }

  /** A secret always fits in front of nothing. */
  lemma AloneFits(secrets: seq<Bytes>, secret: Bytes)
    requires secret in secrets && secret != []
    ensures Fits(secrets, Marked(secret), []) && Valid(secrets, [Marked(secret)])
  {
    LongestAtBounds(secrets, secret, 0);
    assert secret + [] == secret && OccursAt(secret, 0, secret);
    assert [Marked(secret)][1..] == [];
  }

  lemma InsideSurvives(secrets: seq<Bytes>, marker: Bytes, secret: Bytes, at: nat)
    requires secret in secrets && secret != [] && OccursAt(marker, at, secret)
    ensures Survives(secrets, marker, secret)
  {
    AloneFits(secrets, secret);
    OneShown(marker, Marked(secret));
    SurvivesAt(secrets, marker, secret, [Marked(secret)], at);
  }

  lemma EndingSurvives(secrets: seq<Bytes>, marker: Bytes, secret: Bytes)
    requires marker != [] && Before(secrets, marker, secret, [])
    ensures Survives(secrets, marker, secret)
  {
    var left := BeforeShows(secrets, marker, secret, []);
    assert left + [] == left;
    SurvivesAt(secrets, marker, secret, left, |Text(marker, left)| - |secret|);
  }

  lemma OccursAcross(text: Bytes, marker: Bytes, secret: Bytes, cut: nat)
    requires cut < |secret| && secret[cut..] <= marker && EndsWith(text, secret[..cut])
    ensures OccursAt(text + marker, |text| - cut, secret)
  {
    var at := |text| - cut;
    assert text[at..] == secret[..cut] && marker[..|secret| - cut] == secret[cut..];
    assert (text + marker)[at..at + |secret|] == text[at..] + marker[..|secret| - cut];
    assert secret == secret[..cut] + secret[cut..];
  }

  lemma ShowsAcross(secrets: seq<Bytes>, marker: Bytes, secret: Bytes, cut: nat, s: Bytes, left: seq<Piece>)
    requires cut < |secret| && secret[cut..] <= marker
    requires Shows(secrets, marker, secret[..cut], [Marked(s)], left)
    ensures Survives(secrets, marker, secret)
  {
    OneShown(marker, Marked(s));
    TextConcat(marker, left, [Marked(s)]);
    OccursAcross(Text(marker, left), marker, secret, cut);
    SurvivesAt(secrets, marker, secret, left + [Marked(s)], |Text(marker, left)| - cut);
  }

  lemma AcrossSurvives(secrets: seq<Bytes>, marker: Bytes, secret: Bytes, cut: nat, s: Bytes)
    requires marker != [] && cut < |secret| && s in secrets && s != []
    requires secret[cut..] <= marker && Before(secrets, marker, secret[..cut], s)
    ensures Survives(secrets, marker, secret)
  {
    AloneFits(secrets, s);
    OneShown(marker, Marked(s));
    var left := BeforeShows(secrets, marker, secret[..cut], [Marked(s)]);
    ShowsAcross(secrets, marker, secret, cut, s, left);
  }

  lemma CanSpellSurvives(secrets: seq<Bytes>, marker: Bytes, secret: Bytes)
    requires marker != [] && secret in secrets && secret != [] && CanSpell(secrets, marker, secret)
    ensures Survives(secrets, marker, secret)
  {
    if Inside(marker, secret) {
      var at :| 0 <= at <= |marker| && OccursAt(marker, at, secret);
      InsideSurvives(secrets, marker, secret, at);
    } else if Before(secrets, marker, secret, []) {
      EndingSurvives(secrets, marker, secret);
    } else {
      var cut, s :| 0 <= cut < |secret| && s in secrets && s != [] && secret[cut..] <= marker
        && Before(secrets, marker, secret[..cut], s);
      AcrossSurvives(secrets, marker, secret, cut, s);
    }
  }

  // --- And nothing else does. ---

  /** Text that ends with a piece's own text, less what that shows. */
  lemma EndsBefore(front: Bytes, last: Bytes, tail: Bytes)
    requires EndsWith(front + last, tail)
    ensures |tail| <= |last| ==> EndsWith(last, tail)
    ensures |tail| >= |last| ==> EndsWith(tail, last) && EndsWith(front, tail[..|tail| - |last|])
  {
    var whole := front + last;
    var lost := |whole| - |tail|;
    if |tail| <= |last| {
      assert whole[lost..] == last[|last| - |tail|..];
    }
    if |tail| >= |last| {
      assert whole[lost..] == front[lost..] + last;
    }
  }

  lemma LastPiece(secrets: seq<Bytes>, front: seq<Piece>, piece: Piece, right: seq<Piece>)
    requires Valid(secrets, front + [piece] + right)
    ensures Valid(secrets, front + ([piece] + right)) && Fits(secrets, piece, Data(right))
    ensures Data([piece] + right) == Source(piece) + Data(right)
  {
    Associate(front, [piece], right);
    ValidBehind(secrets, front, [piece] + right);
    assert ([piece] + right)[1..] == right;
  }

  lemma BeforeStep(secrets: seq<Bytes>, marker: Bytes, text: Bytes, piece: Piece, right: Bytes)
    requires marker != [] && text != [] && Fits(secrets, piece, right)
    requires var shown := Shown(marker, piece);
             if |text| <= |shown| then EndsWith(shown, text)
             else EndsWith(text, shown) && Before(secrets, marker, text[..|text| - |shown|], Source(piece) + right)
    ensures Before(secrets, marker, text, right)
  {
    match piece
    case Marked(_) =>
    case Literal(b) =>
      if |text| > 1 {
        assert text[|text| - 1..][0] == b;
      }
  }

  /** The last piece on the left, and what is left of the text in front of it. */
  lemma Peel(secrets: seq<Bytes>, marker: Bytes, text: Bytes, left: seq<Piece>, right: seq<Piece>)
    returns (front: seq<Piece>, piece: Piece)
    requires Shows(secrets, marker, text, right, left) && text != []
    ensures |front| < |left| && Fits(secrets, piece, Data(right))
    ensures Data([piece] + right) == Source(piece) + Data(right)
    ensures var shown := Shown(marker, piece);
            if |text| <= |shown| then EndsWith(shown, text)
            else EndsWith(text, shown) && Shows(secrets, marker, text[..|text| - |shown|], [piece] + right, front)
  {
    front, piece := left[..|left| - 1], left[|left| - 1];
    assert front + [piece] == left;
    TextSnoc(marker, left);
    LastPiece(secrets, front, piece, right);
    EndsBefore(Text(marker, front), Shown(marker, piece), text);
  }

  lemma {:induction false} ShowsIsBefore(
      secrets: seq<Bytes>, marker: Bytes, text: Bytes, left: seq<Piece>, right: seq<Piece>)
    requires marker != [] && Shows(secrets, marker, text, right, left)
    ensures Before(secrets, marker, text, Data(right))
    decreases |left|
  {
    if text != [] {
      var front, piece := Peel(secrets, marker, text, left, right);
      if |text| > |Shown(marker, piece)| {
        ShowsIsBefore(secrets, marker, text[..|text| - |Shown(marker, piece)|], front, [piece] + right);
      }
      BeforeStep(secrets, marker, text, piece, Data(right));
    }
  }

  lemma OccursBefore(head: Bytes, tail: Bytes, at: nat, secret: Bytes)
    requires OccursAt(head + tail, at, secret)
    ensures at + |secret| <= |head| ==> OccursAt(head, at, secret)
    ensures at + |secret| == |head + tail| ==> EndsWith(head + tail, secret)
  {
    var whole := head + tail;
    if at + |secret| <= |head| {
      assert whole[at..at + |secret|] == head[at..at + |secret|];
    }
    if at + |secret| == |whole| {
      assert whole[at..at + |secret|] == whole[at..];
    }
  }

  lemma EndsInText(secrets: seq<Bytes>, marker: Bytes, pieces: seq<Piece>, secret: Bytes)
    requires marker != [] && Valid(secrets, pieces) && EndsWith(Text(marker, pieces), secret)
    ensures Before(secrets, marker, secret, [])
  {
    assert pieces + [] == pieces;
    ShowsIsBefore(secrets, marker, secret, pieces, []);
  }

  lemma {:induction false} OccurrenceIsSpelled(
      secrets: seq<Bytes>, marker: Bytes, pieces: seq<Piece>, at: nat, secret: Bytes)
    requires marker != [] && secret != [] && Valid(secrets, pieces) && OccursAt(Text(marker, pieces), at, secret)
    ensures CanSpell(secrets, marker, secret)
    decreases |pieces|
  {
    var front, piece := pieces[..|pieces| - 1], pieces[|pieces| - 1];
    assert front + [piece] == pieces;
    TextSnoc(marker, pieces);
    OccursBefore(Text(marker, front), Shown(marker, piece), at, secret);
    if at + |secret| <= |Text(marker, front)| {
      ValidTruncated(secrets, front, [piece]);
      OccurrenceIsSpelled(secrets, marker, front, at, secret);
    } else if at + |secret| == |Text(marker, pieces)| {
      EndsInText(secrets, marker, pieces, secret);
    } else {
      EndsInMarker(secrets, marker, front, piece.secret, at, secret);
    }
  }

  lemma CutAcross(text: Bytes, marker: Bytes, at: nat, secret: Bytes)
    requires at < |text| < at + |secret| && OccursAt(text + marker, at, secret)
    ensures var cut := |text| - at; EndsWith(text, secret[..cut]) && secret[cut..] <= marker
  {
    var cut := |text| - at;
    forall i | 0 <= i < |secret|
      ensures secret[i] == (text + marker)[at + i]
    {
      assert (text + marker)[at..at + |secret|][i] == secret[i];
    }
    assert text[at..] == secret[..cut];
    assert marker[..|secret| - cut] == secret[cut..];
  }

  lemma EndsInMarker(secrets: seq<Bytes>, marker: Bytes, front: seq<Piece>, s: Bytes, at: nat, secret: Bytes)
    requires marker != [] && Valid(secrets, front + [Marked(s)]) && secret != []
    requires OccursAt(Text(marker, front) + marker, at, secret) && |Text(marker, front)| < at + |secret|
    ensures CanSpell(secrets, marker, secret)
  {
    var text := Text(marker, front);
    if at >= |text| {
      OccursBehind(text, marker, at, secret);
    } else {
      CutAcross(text, marker, at, secret);
      BeforeCut(secrets, marker, front, s, secret[..|text| - at]);
    }
  }

  lemma BeforeCut(secrets: seq<Bytes>, marker: Bytes, front: seq<Piece>, s: Bytes, text: Bytes)
    requires marker != [] && Valid(secrets, front + [Marked(s)]) && EndsWith(Text(marker, front), text)
    ensures Before(secrets, marker, text, s) && s in secrets && s != []
  {
    ValidBehind(secrets, front, [Marked(s)]);
    OneShown(marker, Marked(s));
    ShowsIsBefore(secrets, marker, text, front, [Marked(s)]);
  }

  /** Exactly which secrets can still be read in some redacted text: those the marker can spell. */
  lemma SurvivesExactlyWhen(secrets: seq<Bytes>, marker: Bytes, secret: Bytes)
    requires marker != [] && secret in secrets && secret != []
    ensures Survives(secrets, marker, secret) <==> CanSpell(secrets, marker, secret)
  {
    if CanSpell(secrets, marker, secret) {
      CanSpellSurvives(secrets, marker, secret);
    }
    if Survives(secrets, marker, secret) {
      var data: Bytes, at: nat :| OccursAt(Redact(secrets, marker, data), at, secret);
      var pieces := PiecesExist(secrets, data);
      ValidIsRedact(secrets, marker, pieces);
      OccurrenceIsSpelled(secrets, marker, pieces, at, secret);
    }
  }

  // --- What this means for the secrets at hand. ---

  predicate Borderless(marker: Bytes, secret: Bytes)
    requires marker != []
  {
    marker[0] !in secret && marker[|marker| - 1] !in secret
  }

  lemma EndsWithLast(marker: Bytes, text: Bytes)
    requires marker != [] && text != []
    requires if |text| <= |marker| then EndsWith(marker, text) else EndsWith(text, marker)
    ensures marker[|marker| - 1] in text
  {
    if |text| <= |marker| {
      assert text[|text| - 1] == marker[|marker| - |text|..][|text| - 1];
    } else {
      assert text[|text| - 1] == text[|text| - |marker|..][|marker| - 1];
    }
  }

  /** Without the marker's last byte only literal bytes are left to spell with. */
  lemma {:induction false} OnlyLiterals(secrets: seq<Bytes>, marker: Bytes, text: Bytes, right: Bytes)
    requires marker != [] && text != [] && Before(secrets, marker, text, right)
    ensures marker[|marker| - 1] in text || First(secrets, text + right) == 0
    decreases |text|
  {
    var n := |text| - 1;
    var s := BeforeCases(secrets, marker, text, right);
    if LastIsMarker(secrets, marker, text, right, s) {
      EndsWithLast(marker, text);
    } else {
      var front, last := text[..n], [text[n]];
      assert front + last == text;
      Associate(front, last, right);
      if front != [] {
        OnlyLiterals(secrets, marker, front, last + right);
        assert forall b :: b in front ==> b in text;
      } else {
        assert text == last;
      }
    }
  }

  lemma StartsWithFirst(marker: Bytes, secret: Bytes, cut: nat)
    requires marker != [] && cut < |secret| && secret[cut..] <= marker
    ensures marker[0] in secret
  {
    assert secret[cut] == secret[cut..][0] == marker[0];
  }

  lemma SpellingTakesABorder(secrets: seq<Bytes>, marker: Bytes, secret: Bytes)
    requires marker != [] && secret in secrets && secret != []
    requires CanSpell(secrets, marker, secret) && !Inside(marker, secret)
    ensures !Borderless(marker, secret)
  {
    if Before(secrets, marker, secret, []) {
      OnlyLiterals(secrets, marker, secret, []);
      AloneFits(secrets, secret);
    } else {
      var cut, s :| 0 <= cut < |secret| && s in secrets && s != [] && secret[cut..] <= marker
                    && Before(secrets, marker, secret[..cut], s);
      StartsWithFirst(marker, secret, cut);
    }
  }

  /** A secret without the marker's first and last byte, such as any token without brackets, can be read in
      a redacted text exactly if it is part of the marker itself. */
  lemma BorderlessSurvivesExactlyWhen(secrets: seq<Bytes>, marker: Bytes, secret: Bytes)
    requires marker != [] && secret in secrets && secret != [] && Borderless(marker, secret)
    ensures Survives(secrets, marker, secret) <==> Inside(marker, secret)
  {
    SurvivesExactlyWhen(secrets, marker, secret);
    if CanSpell(secrets, marker, secret) && !Inside(marker, secret) {
      SpellingTakesABorder(secrets, marker, secret);
    }
  }

  lemma NoSecretSurvives(secrets: seq<Bytes>, marker: Bytes, data: Bytes, secret: Bytes, at: nat)
    requires marker != [] && secret in secrets && secret != []
    requires Borderless(marker, secret) && !Inside(marker, secret)
    ensures !OccursAt(Redact(secrets, marker, data), at, secret)
  {
    BorderlessSurvivesExactlyWhen(secrets, marker, secret);
  }

  const MARKER: Bytes := [
    0x5B, 0x52, 0x45, 0x44, 0x41, 0x43, 0x54, 0x45, 0x44, 0x5F, 0x4C, 0x4F, 0x43, 0x41, 0x4C, 0x5F,
    0x43, 0x52, 0x45, 0x44, 0x45, 0x4E, 0x54, 0x49, 0x41, 0x4C, 0x5D]

  /** Any secret made of a byte and the marker's first one is spelled, even if it is the only secret: in the
      byte twice and that first byte, as `a[` in `aa[` with the source's marker. */
  lemma MarkerCanSpellASecret(marker: Bytes, a: byte)
    requires marker != [] && a != marker[0]
    ensures OccursAt(Redact([[a, marker[0]]], marker, [a, a, marker[0]]), 0, [a, marker[0]])
  {
    var secret: Bytes := [a, marker[0]];
    var pieces := [Literal(a), Marked(secret)];
    AloneFits([secret], secret);
    OneShown(marker, Marked(secret));
    assert pieces[1..] == [Marked(secret)];
    assert [a] + secret == [a, a, marker[0]];
    assert !OccursAt([a] + secret, 0, secret) by {
      assert ([a] + secret)[0..2] == [a, a];
    }
    LongestAtIs([secret], [a] + secret, 0);
    ValidIsRedact([secret], marker, pieces);
    var out := Text(marker, pieces);
    assert out == [a] + marker;
    assert out[0..2] == secret;
  }

  /** The printable instance. */
  lemma BracketIsSpelled()
    ensures Survives([[0x61, 0x5B]], MARKER, [0x61, 0x5B])
  {
    MarkerCanSpellASecret(MARKER, 0x61);
  }
}

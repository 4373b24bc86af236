/** Extracting boxed answers (sglang/benchmark/reasoning_benchmark/answer_extraction.py,
    `extract_boxed_answers`). */
module Boxed {
  import opened Wrappers

  const SEP: string := "boxed{"

  // ----- text.split("boxed{")

  /** The separator starts at place `k`. */
  predicate SepAt(text: string, k: nat)
    ensures SepAt(text, k) <==> k + 6 <= |text| && text[k..k + 6] == SEP
  {
    && k + 6 <= |text|
    && text[k] == 'b' && text[k + 1] == 'o' && text[k + 2] == 'x' && text[k + 3] == 'e' && text[k + 4] == 'd' && text[k + 5] == '{'
  }

  function SepFrom(text: string, from: nat): (i: nat)
    requires from <= |text|
    ensures from <= i <= |text|
    ensures i < |text| ==> SepAt(text, i)
    ensures forall k: nat :: from <= k < i ==> !SepAt(text, k)
    decreases |text| - from
  {
    if from == |text| || SepAt(text, from) then from else SepFrom(text, from + 1)
  }

  /** The first place where the separator starts, or the end of the text. */
  function FirstSep(text: string): (i: nat)
    ensures i <= |text|
    ensures i < |text| ==> SepAt(text, i)
    ensures forall k: nat :: k < i ==> !SepAt(text, k)
  {
    SepFrom(text, 0)
  }

  function Split(text: string): (pieces: seq<string>)
    ensures |pieces| >= 1
    decreases |text|
  {
    var i := FirstSep(text);
    if i == |text| then [text] else [text[..i]] + Split(text[i + 6..])
  }

  ghost predicate ContainsSep(text: string) {
    exists k: nat :: SepAt(text, k)
  }

  // ----- Braces

  function Delta(c: char): int {
    if c == '{' then 1 else if c == '}' then -1 else 0
  }

  function Depth(s: string): int {
    if s == "" then 0 else Depth(s[..|s| - 1]) + Delta(s[|s| - 1])
  }

  ghost predicate NeverNegative(s: string) {
    forall k :: 0 <= k <= |s| ==> Depth(s[..k]) >= 0
  }

  ghost predicate Balanced(s: string) {
    NeverNegative(s) && Depth(s) == 0
  }

  /** `i` is where the box that opened just before `piece` closes. */
  ghost predicate ClosesAt(piece: string, i: nat) {
    i < |piece| && piece[i] == '}' && Balanced(piece[..i])
  }

  lemma DepthNext(s: string, k: nat)
    requires k < |s|
    ensures Depth(s[..k + 1]) == Depth(s[..k]) + Delta(s[k])
  {
    assert s[..k + 1][..k] == s[..k];
  }

  lemma NonNegativeGrows(s: string, k: nat)
    requires k < |s| && NeverNegative(s[..k]) && Depth(s[..k + 1]) >= 0
    ensures NeverNegative(s[..k + 1])
  {
    var t := s[..k + 1];
    forall j | 0 <= j <= |t| ensures Depth(t[..j]) >= 0 {
      assert t[..j] == s[..j];
      if j <= k {
        assert s[..k][..j] == s[..j];
      }
    }
  }

  lemma ClosesOnce(piece: string, i: nat, j: nat)
    requires ClosesAt(piece, i) && ClosesAt(piece, j)
    ensures i == j
  {
    if i < j {
      ClosesFirst(piece, i, j);
    } else if j < i {
      ClosesFirst(piece, j, i);
    }
  }

  lemma ClosesFirst(piece: string, i: nat, j: nat)
    requires ClosesAt(piece, i) && i < j <= |piece|
    ensures !NeverNegative(piece[..j])
  {
    DepthNext(piece, i);
    assert piece[..j][..i + 1] == piece[..i + 1];
  }

  // ----- The extractor

  /** What one piece contributes: the text up to the closing brace, with that brace included when a
      percent sign follows it. */
  ghost predicate IsAnswer(piece: string, answer: Option<string>) {
    match answer
    case None => forall i: nat :: !ClosesAt(piece, i)
    case Some(a) =>
      exists i: nat :: ClosesAt(piece, i)
                    && a == (if i + 1 < |piece| && piece[i + 1] == '%' then piece[..i + 1] else piece[..i])
  }

  /** The inner loop over one piece. */
  method ScanPiece(piece: string) returns (answer: Option<string>)
    ensures IsAnswer(piece, answer)
  {
    var n := 0;
    for i := 0 to |piece|
      invariant n == Depth(piece[..i]) && NeverNegative(piece[..i])
    {
      DepthNext(piece, i);
      if piece[i] == '{' {
        n := n + 1;
      } else if piece[i] == '}' {
        n := n - 1;
        if n < 0 {
          assert ClosesAt(piece, i);
          return if i + 1 < |piece| && piece[i + 1] == '%' then Some(piece[..i + 1]) else Some(piece[..i]);
        }
      }
      NonNegativeGrows(piece, i);
    }
    assert piece[..|piece|] == piece;
    forall i: nat ensures !ClosesAt(piece, i) {
      if ClosesAt(piece, i) {
        ClosesFirst(piece, i, |piece|);
      }
    }
    answer := None;
  }

  /** `answers` lists, in order, what the pieces contribute. */
  ghost predicate AnswersOf(pieces: seq<string>, answers: seq<string>)
    decreases |pieces|
  {
    if pieces == [] then answers == []
    else
      var n, m := |pieces| - 1, |answers| - 1;
      || (IsAnswer(pieces[n], None) && AnswersOf(pieces[..n], answers))
      || (answers != [] && IsAnswer(pieces[n], Some(answers[m])) && AnswersOf(pieces[..n], answers[..m]))
  }

  lemma NextAnswer(pieces: seq<string>, i: nat, answers: seq<string>, a: Option<string>)
    requires i < |pieces| && AnswersOf(pieces[..i], answers) && IsAnswer(pieces[i], a)
    ensures AnswersOf(pieces[..i + 1], if a.Some? then answers + [a.value] else answers)
  {
    assert pieces[..i + 1][..i] == pieces[..i] && pieces[..i + 1][i] == pieces[i];
    if a.Some? {
      assert (answers + [a.value])[..|answers|] == answers;
    }
  }

  method ExtractBoxedAnswers(text: string) returns (answers: seq<string>)
    ensures AnswersOf(Split(text)[1..], answers)
  {
    var pieces := Split(text)[1..];
    answers := [];
    for i := 0 to |pieces|
      invariant AnswersOf(pieces[..i], answers)
    {
      var a := ScanPiece(pieces[i]);
      NextAnswer(pieces, i, answers, a);
      if a.Some? {
        answers := answers + [a.value];
      }
    }
    assert pieces[..|pieces|] == pieces;
  }

  // ----- Every answer, for every input

  lemma AnswerUnique(piece: string, a: Option<string>, b: Option<string>)
    requires IsAnswer(piece, a) && IsAnswer(piece, b)
    ensures a == b
  {
    if a.Some? && b.Some? {
      var i: nat :| ClosesAt(piece, i)
        && a.value == (if i + 1 < |piece| && piece[i + 1] == '%' then piece[..i + 1] else piece[..i]);
      var j: nat :| ClosesAt(piece, j)
        && b.value == (if j + 1 < |piece| && piece[j + 1] == '%' then piece[..j + 1] else piece[..j]);
      ClosesOnce(piece, i, j);
    }
  }

  /** The contract pins the result: there is one list of answers for each text. */
  lemma {:induction false} AnswersUnique(pieces: seq<string>, x: seq<string>, y: seq<string>)
    requires AnswersOf(pieces, x) && AnswersOf(pieces, y)
    ensures x == y
    decreases |pieces|
  {
    if pieces != [] {
      var n := |pieces| - 1;
      if IsAnswer(pieces[n], None) {
        NoneOnly(pieces, x);
        NoneOnly(pieces, y);
        AnswersUnique(pieces[..n], x, y);
      } else {
        var k, l := |x| - 1, |y| - 1;
        AnswerUnique(pieces[n], Some(x[k]), Some(y[l]));
        AnswersUnique(pieces[..n], x[..k], y[..l]);
        assert x == x[..k] + [x[k]] && y == y[..l] + [y[l]];
      }
    }
  }

  lemma NoneOnly(pieces: seq<string>, x: seq<string>)
    requires pieces != [] && AnswersOf(pieces, x) && IsAnswer(pieces[|pieces| - 1], None)
    ensures AnswersOf(pieces[..|pieces| - 1], x)
  {
    var n := |pieces| - 1;
    if x != [] && IsAnswer(pieces[n], Some(x[|x| - 1])) {
      AnswerUnique(pieces[n], None, Some(x[|x| - 1]));
    }
  }

  /** A percent sign follows the closing brace. */
  ghost predicate PercentAfter(piece: string, i: nat) {
    i + 1 < |piece| && piece[i + 1] == '%'
  }

  /** `a` is what `piece` contributes, its box closing at `i`. It has balanced braces unless a percent sign
      follows the box; then it is the balanced text up to the closing brace, with that brace. */
  ghost predicate CutFrom(piece: string, i: nat, a: string) {
    && ClosesAt(piece, i)
    && a == (if PercentAfter(piece, i) then piece[..i + 1] else piece[..i])
    && (Balanced(a) <==> !PercentAfter(piece, i))
  }

  lemma CutIsBalanced(piece: string, i: nat, a: string)
    requires ClosesAt(piece, i) && a == (if PercentAfter(piece, i) then piece[..i + 1] else piece[..i])
    ensures CutFrom(piece, i, a)
  {
    DepthNext(piece, i);
  }

  ghost predicate CutFromSome(pieces: seq<string>, a: string) {
    exists j: nat, i: nat :: j < |pieces| && CutFrom(pieces[j], i, a)
  }

  lemma MorePieces(pieces: seq<string>, a: string)
    requires pieces != [] && CutFromSome(pieces[..|pieces| - 1], a)
    ensures CutFromSome(pieces, a)
  {
    var j: nat, i: nat :| j < |pieces| - 1 && CutFrom(pieces[..|pieces| - 1][j], i, a);
    assert CutFrom(pieces[j], i, a);
  }

  /** For any input, every answer is cut from some piece, and its braces are balanced exactly if no percent
      sign follows its box there. */
  lemma {:induction false} AnswersBalanced(pieces: seq<string>, answers: seq<string>, k: nat)
    requires AnswersOf(pieces, answers) && k < |answers|
    ensures CutFromSome(pieces, answers[k])
    decreases |pieces|
  {
    var n, m := |pieces| - 1, |answers| - 1;
    var piece := pieces[n];
    if IsAnswer(piece, None) && AnswersOf(pieces[..n], answers) {
      AnswersBalanced(pieces[..n], answers, k);
      MorePieces(pieces, answers[k]);
    } else if k < m {
      AnswersBalanced(pieces[..n], answers[..m], k);
      MorePieces(pieces, answers[k]);
    } else {
      var i: nat :| ClosesAt(piece, i)
        && answers[m] == (if i + 1 < |piece| && piece[i + 1] == '%' then piece[..i + 1] else piece[..i]);
      CutIsBalanced(piece, i, answers[m]);
    }
  }

  // ----- Round trip

  /** A box around `content`, followed by more text. */
  datatype Box = Box(content: string, after: string)

  function Piece(b: Box): string {
    b.content + "}" + b.after
  }

  function RenderBoxes(boxes: seq<Box>): string {
    if boxes == [] then "" else SEP + Piece(boxes[0]) + RenderBoxes(boxes[1..])
  }

  function Render(lead: string, boxes: seq<Box>): string {
    lead + RenderBoxes(boxes)
  }

  function Expected(b: Box): string {
    if b.after != "" && b.after[0] == '%' then b.content + "}" else b.content
  }

  function ExpectedAll(boxes: seq<Box>): seq<string> {
    seq(|boxes|, i requires 0 <= i < |boxes| => Expected(boxes[i]))
  }

  function Pieces(boxes: seq<Box>): seq<string> {
    seq(|boxes|, i requires 0 <= i < |boxes| => Piece(boxes[i]))
  }

  ghost predicate BoxOk(b: Box) {
    Balanced(b.content) && !ContainsSep(b.content) && !ContainsSep(b.after)
  }

  /** Separators of a longer text that start inside a separator-free part end outside of it. */
  lemma PartFree(text: string, part: string, at: nat, k: nat)
    requires !ContainsSep(part) && at + |part| <= |text| && forall i :: 0 <= i < |part| ==> text[at + i] == part[i]
    requires at <= k && k + 6 <= at + |part|
    ensures !SepAt(text, k)
  {
    assert !SepAt(part, k - at);
  }

  lemma BraceBreaks(text: string, n: nat, k: nat)
    requires n < |text| && text[n] == '}' && k <= n < k + 6
    ensures !SepAt(text, k)
  {
  }

  /** Closing a box adds no separator, since the separator has no closing brace. */
  lemma PieceFree(b: Box)
    requires BoxOk(b)
    ensures !ContainsSep(Piece(b))
  {
    var p, n := Piece(b), |b.content|;
    assert p[n] == '}';
    forall k: nat ensures !SepAt(p, k) {
      if k + 6 <= |p| {
        if k > n {
          PartFree(p, b.after, n + 1, k);
        } else if k + 6 <= n {
          PartFree(p, b.content, 0, k);
        } else {
          BraceBreaks(p, n, k);
        }
      }
    }
  }

  /** The separator cannot overlap itself, so the first one after separator-free text is found. */
  lemma FirstSepAfter(lead: string, rest: string)
    requires !ContainsSep(lead)
    ensures FirstSep(lead + SEP + rest) == |lead|
  {
    var t, n := lead + SEP + rest, |lead|;
    assert t[n..n + 6] == SEP && t[n] == 'b';
    assert SepAt(t, n);
    forall k: nat | k < n ensures !SepAt(t, k) {
      if k + 6 <= n {
        assert t[k..k + 6] == lead[k..k + 6];
        assert !SepAt(lead, k);
      }
    }
  }

  lemma FirstSepNone(text: string)
    requires !ContainsSep(text)
    ensures FirstSep(text) == |text|
  {
  }

  lemma SplitAfter(lead: string, rest: string)
    requires !ContainsSep(lead)
    ensures Split(lead + SEP + rest) == [lead] + Split(rest)
  {
    var t := lead + SEP + rest;
    FirstSepAfter(lead, rest);
    assert t[|lead| + 6..] == rest && t[..|lead|] == lead;
  }

  lemma PiecesFirst(boxes: seq<Box>)
    requires boxes != []
    ensures Pieces(boxes) == [Piece(boxes[0])] + Pieces(boxes[1..])
  {
  }

  lemma RenderFirst(lead: string, boxes: seq<Box>)
    requires boxes != []
    ensures Render(lead, boxes) == lead + SEP + Render(Piece(boxes[0]), boxes[1..])
  {
    Reassociate(lead, SEP, Piece(boxes[0]), RenderBoxes(boxes[1..]));
  }

  lemma Reassociate(a: string, b: string, c: string, d: string)
    ensures a + (b + c + d) == a + b + (c + d)
  {
  }

  lemma {:induction false} SplitRender(lead: string, boxes: seq<Box>)
    requires !ContainsSep(lead) && forall b :: b in boxes ==> BoxOk(b)
    ensures Split(Render(lead, boxes)) == [lead] + Pieces(boxes)
    decreases |boxes|
  {
    if boxes == [] {
      assert Render(lead, boxes) == lead;
      FirstSepNone(lead);
    } else {
      var p := Piece(boxes[0]);
      assert boxes[0] in boxes && forall b :: b in boxes[1..] ==> b in boxes;
      PieceFree(boxes[0]);
      SplitRender(p, boxes[1..]);
      RenderFirst(lead, boxes);
      PiecesFirst(boxes);
      SplitAfter(lead, Render(p, boxes[1..]));
    }
  }

  lemma BoxAnswer(b: Box)
    requires BoxOk(b)
    ensures IsAnswer(Piece(b), Some(Expected(b)))
  {
    var p, n := Piece(b), |b.content|;
    assert p[..n] == b.content && p[n] == '}';
    assert p[..n + 1] == b.content + "}";
    assert ClosesAt(p, n);
    if b.after != "" {
      assert p[n + 1] == b.after[0];
    }
  }

  lemma {:induction false} BoxAnswers(boxes: seq<Box>)
    requires forall b :: b in boxes ==> BoxOk(b)
    ensures AnswersOf(Pieces(boxes), ExpectedAll(boxes))
    decreases |boxes|
  {
    if boxes != [] {
      var n := |boxes| - 1;
      assert boxes[n] in boxes && forall b :: b in boxes[..n] ==> b in boxes;
      BoxAnswer(boxes[n]);
      BoxAnswers(boxes[..n]);
      assert Pieces(boxes)[..n] == Pieces(boxes[..n]) && ExpectedAll(boxes)[..n] == ExpectedAll(boxes[..n]);
    }
  }

  /** What comes back, percent signs included: from any separator-free text interleaved with boxes around
      balanced, separator-free contents, exactly the contents in order, each with a closing brace appended if
      and only if a percent sign follows its box. */
  lemma RoundTrip(lead: string, boxes: seq<Box>, answers: seq<string>)
    requires !ContainsSep(lead) && forall b :: b in boxes ==> BoxOk(b)
    requires AnswersOf(Split(Render(lead, boxes))[1..], answers)
    ensures answers == ExpectedAll(boxes)
  {
    SplitRender(lead, boxes);
    assert Split(Render(lead, boxes))[1..] == Pieces(boxes);
    BoxAnswers(boxes);
    AnswersUnique(Pieces(boxes), answers, ExpectedAll(boxes));
  }

  // ----- Nested boxes

  lemma PrefixFree(text: string, k: nat)
    requires k <= |text| && forall j: nat :: j < k ==> !SepAt(text, j)
    ensures !ContainsSep(text[..k])
  {
    var p := text[..k];
    forall j: nat ensures !SepAt(p, j) {
      if j + 6 <= k {
        assert p[j..j + 6] == text[j..j + 6];
        assert !SepAt(text, j);
      }
    }
  }

  /** No piece of a split text contains the separator. */
  function Join(pieces: seq<string>): string {
    if pieces == [] then "" else if |pieces| == 1 then pieces[0] else pieces[0] + SEP + Join(pieces[1..])
  }

  lemma JoinMore(p: string, rest: seq<string>)
    requires rest != []
    ensures Join([p] + rest) == p + SEP + Join(rest)
  {
    assert ([p] + rest)[1..] == rest;
  }

  lemma CutAtSep(text: string, i: nat)
    requires SepAt(text, i)
    ensures text == text[..i] + SEP + text[i + 6..]
  {
    assert text[i..i + 6] == SEP;
  }

  /** For every text, the pieces joined by the separator are the text. */
  lemma {:induction false} SplitJoins(text: string)
    ensures Join(Split(text)) == text
    decreases |text|
  {
    var i := FirstSep(text);
    if i < |text| {
      SplitJoins(text[i + 6..]);
      JoinMore(text[..i], Split(text[i + 6..]));
      CutAtSep(text, i);
    }
  }

  lemma {:induction false} SplitFree(text: string, k: nat)
    requires k < |Split(text)|
    ensures !ContainsSep(Split(text)[k])
    decreases |text|
  {
    var i := FirstSep(text);
    if k == 0 {
      assert text[..|text|] == text;
      PrefixFree(text, i);
    } else {
      SplitFree(text[i + 6..], k - 1);
    }
  }

  lemma {:induction false} AnswersFree(pieces: seq<string>, answers: seq<string>, a: string)
    requires AnswersOf(pieces, answers) && a in answers
    requires forall p :: p in pieces ==> !ContainsSep(p)
    ensures !ContainsSep(a)
    decreases |pieces|
  {
    var n, m := |pieces| - 1, |answers| - 1;
    assert forall p :: p in pieces[..n] ==> p in pieces;
    if IsAnswer(pieces[n], None) && AnswersOf(pieces[..n], answers) {
      AnswersFree(pieces[..n], answers, a);
    } else if a in answers[..m] {
      AnswersFree(pieces[..n], answers[..m], a);
    } else {
      var piece := pieces[n];
      assert piece in pieces && a == answers[m];
      var i: nat :| ClosesAt(piece, i)
        && a == (if i + 1 < |piece| && piece[i + 1] == '%' then piece[..i + 1] else piece[..i]);
      PrefixFree(piece, i);
      PrefixFree(piece, i + 1);
    }
  }

  lemma LongerContains(content: string, more: string)
    requires ContainsSep(content)
    ensures ContainsSep(content + more)
  {
    var k: nat :| SepAt(content, k);
    assert (content + more)[k..k + 6] == content[k..k + 6];
    assert SepAt(content + more, k);
  }

  /** The converse: from any separator-free text interleaved with boxes around balanced contents, the contents,
      with the closing braces that percent signs append, come back if and only if none of them holds a further
      box. */
  lemma RoundTripIff(lead: string, boxes: seq<Box>, answers: seq<string>)
    requires !ContainsSep(lead) && forall b :: b in boxes ==> Balanced(b.content) && !ContainsSep(b.after)
    requires AnswersOf(Split(Render(lead, boxes))[1..], answers)
    ensures answers == ExpectedAll(boxes) <==> forall b :: b in boxes ==> !ContainsSep(b.content)
  {
    if forall b :: b in boxes ==> !ContainsSep(b.content) {
      RoundTrip(lead, boxes, answers);
    } else {
      var b :| b in boxes && ContainsSep(b.content);
      var j: nat :| j < |boxes| && boxes[j] == b;
      LongerContains(b.content, "}");
      assert ExpectedAll(boxes)[j] == Expected(b) && ContainsSep(Expected(b));
      if Expected(b) in answers {
        SplitAnswersFree(Render(lead, boxes), answers, Expected(b));
      }
      assert Expected(b) in ExpectedAll(boxes);
    }
  }

  function Contents(boxes: seq<Box>): seq<string> {
    seq(|boxes|, i requires 0 <= i < |boxes| => boxes[i].content)
  }

  /** A percent sign follows the box. */
  ghost predicate BeforePercent(b: Box) {
    b.after != "" && b.after[0] == '%'
  }

  /** Exactly when boxing is undone: the contents themselves come back if and only if none of them holds a
      further box and no box is followed by a percent sign. */
  lemma ContentsIff(lead: string, boxes: seq<Box>, answers: seq<string>)
    requires !ContainsSep(lead) && forall b :: b in boxes ==> Balanced(b.content) && !ContainsSep(b.after)
    requires AnswersOf(Split(Render(lead, boxes))[1..], answers)
    ensures answers == Contents(boxes) <==> forall b :: b in boxes ==> !ContainsSep(b.content) && !BeforePercent(b)
  {
    if forall b :: b in boxes ==> !ContainsSep(b.content) {
      RoundTrip(lead, boxes, answers);
      ExpectedIsContents(boxes);
    } else {
      var j: nat :| j < |boxes| && ContainsSep(boxes[j].content);
      assert boxes[j] in boxes && Contents(boxes)[j] in Contents(boxes);
      if boxes[j].content in answers {
        SplitAnswersFree(Render(lead, boxes), answers, boxes[j].content);
      }
    }
  }

  lemma ExpectedIsContents(boxes: seq<Box>)
    ensures ExpectedAll(boxes) == Contents(boxes) <==> forall b :: b in boxes ==> !BeforePercent(b)
  {
    if forall b :: b in boxes ==> !BeforePercent(b) {
      forall i | 0 <= i < |boxes| ensures Expected(boxes[i]) == boxes[i].content {
        assert boxes[i] in boxes;
      }
    } else {
      var j: nat :| j < |boxes| && BeforePercent(boxes[j]);
      assert |ExpectedAll(boxes)[j]| != |Contents(boxes)[j]|;
    }
  }

  /** No answer contains the separator. */
  lemma SplitAnswersFree(text: string, answers: seq<string>, a: string)
    requires AnswersOf(Split(text)[1..], answers) && a in answers
    ensures !ContainsSep(a)
  {
    var pieces := Split(text)[1..];
    forall p | p in pieces ensures !ContainsSep(p) {
      var k: nat :| k < |pieces| && pieces[k] == p;
      SplitFree(text, k + 1);
    }
    AnswersFree(pieces, answers, a);
  }

  lemma {:induction false} DepthAppend(a: string, b: string)
    ensures Depth(a + b) == Depth(a) + Depth(b)
  {
    if b == "" {
      assert a + b == a;
    } else {
      var n := |b| - 1;
      DepthAppend(a, b[..n]);
      assert (a + b)[..|a + b| - 1] == a + b[..n];
    }
  }

  lemma {:induction false} Flat(s: string)
    requires forall i :: 0 <= i < |s| ==> Delta(s[i]) == 0
    ensures Depth(s) == 0
  {
    if s != "" {
      Flat(s[..|s| - 1]);
    }
  }

  lemma SepDepth(k: nat)
    requires k <= 6
    ensures Depth(SEP[..k]) == if k == 6 then 1 else 0
  {
    Flat(SEP[..if k < 6 then k else 5]);
    DepthNext(SEP, 5);
  }

  lemma BoxedIsBalanced(x: string)
    requires Balanced(x)
    ensures Balanced(SEP + x + "}")
  {
    var s := SEP + x + "}";
    forall k | 0 <= k <= |s| ensures Depth(s[..k]) >= 0 && (k == |s| ==> Depth(s[..k]) == 0) {
      if k <= 6 {
        assert s[..k] == SEP[..k];
        SepDepth(k);
      } else {
        SepDepth(6);
        assert SEP[..6] == SEP;
        var m := if k - 6 <= |x| then k - 6 else |x|;
        assert s[..6 + m] == SEP + x[..m];
        DepthAppend(SEP, x[..m]);
        if k == |s| {
          assert x[..m] == x;
          DepthNext(s, 6 + m);
        }
      }
    }
    assert s[..|s|] == s;
  }

  /** Every box around a box is lost. */
  lemma NestedBoxIsLost(x: string, answers: seq<string>)
    requires Balanced(x) && AnswersOf(Split(Render("", [Box(SEP + x + "}", "")]))[1..], answers)
    ensures answers != [SEP + x + "}"]
  {
    var content := SEP + x + "}";
    var box := Box(content, "");
    BoxedIsBalanced(x);
    assert content[0..6] == SEP;
    assert SepAt(content, 0);
    RoundTripIff("", [box], answers);
    assert ExpectedAll([box]) == [content];
    assert box in [box];
  }
}

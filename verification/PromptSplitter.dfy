// Lossless splitting of a large JSON prompt into text parts that the receiver joins with
// newlines. Token rules are those of section 2 of RFC 8259.
module PromptSplitter {
  import opened Common

  // A part holds at most PART_LIMIT characters; a prompt of at most WHOLE_LIMIT stays whole.
  const PART_LIMIT: nat := 32768
  const WHOLE_LIMIT: nat := 65536
  const MAX_PARTS: nat := 100

  datatype Content = Whole(text: string) | Parts(parts: seq<string>)

  datatype SplitError = InvalidJson | TokenTooLong | TooManyParts

  // ---------------------------------------------------------------- the string automaton

  datatype Scan = Scan(inString: bool, escaped: bool)

  function Advance(s: Scan, c: char): Scan {
    if s.inString then
      if s.escaped then Scan(true, false)
      else if c == '\\' then Scan(true, true)
      else if c == '"' then Scan(false, s.escaped)
      else s
    else if c == '"' then Scan(true, s.escaped)
    else s
  }

  function ScanTo(p: string, n: nat): Scan
    requires n <= |p|
  {
    if n == 0 then Scan(false, false) else Advance(ScanTo(p, n - 1), p[n - 1])
  }

  predicate Structural(c: char) {
    c in ",:{}[]"
  }

  // Position `n` directly follows a structural character outside any string.
  predicate Boundary(p: string, n: nat) {
    0 < n <= |p| && !ScanTo(p, n - 1).inString && Structural(p[n - 1])
  }

  // The last boundary at or before `n`, or 0.
  function LastBoundary(p: string, n: nat): (b: nat)
    requires n <= |p|
    ensures b <= n && (b > 0 ==> Boundary(p, b))
    ensures forall m :: b < m <= n ==> !Boundary(p, m)
  {
    if n == 0 then 0 else if Boundary(p, n) then n else LastBoundary(p, n - 1)
  }

  // ---------------------------------------------------------------- partitions

  // Cut positions from 0 to |p|: every inner cut is a boundary and no piece is empty or too long.
  ghost predicate Legal(p: string, cuts: seq<nat>) {
    && |cuts| > 0 && cuts[0] == 0 && cuts[|cuts| - 1] == |p|
    && (forall i :: 0 < i < |cuts| ==> cuts[i - 1] < cuts[i] <= cuts[i - 1] + PART_LIMIT)
    && (forall i :: 0 < i < |cuts| - 1 ==> Boundary(p, cuts[i]))
  }

  // The partitions the greedy pass can reach: a piece of full length must end at a boundary.
  ghost predicate Reachable(p: string, cuts: seq<nat>) {
    && Legal(p, cuts)
    && (|cuts| > 1 ==> cuts[|cuts| - 1] - cuts[|cuts| - 2] < PART_LIMIT || Boundary(p, |p|))
  }

  predicate Ordered(p: string, cuts: seq<nat>) {
    && |cuts| > 0
    && (forall i :: 0 <= i < |cuts| ==> cuts[i] <= |p|)
    && (forall i :: 0 < i < |cuts| ==> cuts[i - 1] <= cuts[i])
  }

  function Pieces(p: string, cuts: seq<nat>): (r: seq<string>)
    requires Ordered(p, cuts)
    ensures |r| == |cuts| - 1
    ensures forall i :: 0 <= i < |r| ==> r[i] == p[cuts[i]..cuts[i + 1]]
  {
    if |cuts| == 1 then []
    else Pieces(p, cuts[..|cuts| - 1]) + [p[cuts[|cuts| - 2]..cuts[|cuts| - 1]]]
  }

  lemma LegalPiecesDefined(p: string, cuts: seq<nat>)
    requires Legal(p, cuts)
    ensures Ordered(p, cuts)
  {
  }

  ghost predicate IsSplit(p: string, cuts: seq<nat>, parts: seq<string>) {
    Reachable(p, cuts) && (LegalPiecesDefined(p, cuts); parts == Pieces(p, cuts))
  }

  ghost predicate Fewest(p: string, cuts: seq<nat>) {
    forall other: seq<nat> :: Reachable(p, other) ==> |cuts| <= |other|
  }

  // ---------------------------------------------------------------- the greedy pass

  // Cuts made so far: like a legal partition of the prefix ending at the last cut.
  ghost predicate Underway(p: string, cuts: seq<nat>, start: nat) {
    && |cuts| > 0 && cuts[0] == 0 && cuts[|cuts| - 1] == start <= |p|
    && (forall i :: 0 < i < |cuts| ==> cuts[i - 1] < cuts[i] <= cuts[i - 1] + PART_LIMIT)
    && (forall i :: 0 < i < |cuts| ==> cuts[i] <= |p| && Boundary(p, cuts[i]))
  }

  // Greedy stays ahead: no reachable partition is further after the same number of pieces.
  ghost predicate Ahead(p: string, cuts: seq<nat>) {
    |cuts| > 0 &&
    forall other: seq<nat> :: Reachable(p, other) ==>
      |cuts| <= |other| && other[|cuts| - 1] <= cuts[|cuts| - 1]
  }

  lemma StartIsAhead(p: string)
    ensures Greedy(p, 0, 0, 0, [0], [])
    ensures ScanTo(p, 0) == Scan(false, false) && LastBoundary(p, 0) == 0
  {
  }

  lemma CutAddsPiece(p: string, cuts: seq<nat>, start: nat, cut: nat)
    requires Underway(p, cuts, start) && Ordered(p, cuts) && start < cut <= |p|
    ensures Ordered(p, cuts + [cut]) && Pieces(p, cuts + [cut]) == Pieces(p, cuts) + [p[start..cut]]
  {
    assert (cuts + [cut])[..|cuts|] == cuts;
  }

  // A reachable partition must have a boundary in every full window that starts at or after
  // one of its cuts.
  lemma {:induction false} WindowHasBoundary(p: string, other: seq<nat>, k: nat, start: nat) returns (j: nat)
    requires Reachable(p, other) && k < |other| && other[k] <= start && start + PART_LIMIT <= |p|
    ensures k < j < |other| && other[j - 1] <= start < other[j] <= start + PART_LIMIT && Boundary(p, other[j])
    decreases |other| - k
  {
    j := k + 1;
    if k + 1 < |other| && other[k + 1] <= start {
      j := WindowHasBoundary(p, other, k + 1, start);
    }
  }

  lemma CutStaysUnderway(p: string, cuts: seq<nat>, start: nat, cut: nat)
    requires Underway(p, cuts, start) && start < cut <= start + PART_LIMIT && Boundary(p, cut)
    ensures Underway(p, cuts + [cut], cut)
  {
  }

  lemma CutStaysAhead(p: string, cuts: seq<nat>, start: nat, cut: nat)
    requires Underway(p, cuts, start) && Ahead(p, cuts) && start + PART_LIMIT <= |p|
    requires cut == LastBoundary(p, start + PART_LIMIT) > start
    ensures Ahead(p, cuts + [cut])
  {
  }

  lemma {:induction false} CutsIncrease(p: string, cuts: seq<nat>, i: nat, j: nat)
    requires Legal(p, cuts) && i <= j < |cuts|
    ensures cuts[i] <= cuts[j]
    decreases j - i
  {
    if i < j {
      CutsIncrease(p, cuts, i, j - 1);
    }
  }

  lemma NoBoundaryNoPartition(p: string, cuts: seq<nat>, start: nat)
    requires Underway(p, cuts, start) && Ahead(p, cuts) && start + PART_LIMIT <= |p|
    requires LastBoundary(p, start + PART_LIMIT) <= start
    ensures forall other: seq<nat> :: !Reachable(p, other)
  {
    forall other: seq<nat> | Reachable(p, other)
      ensures false
    {
      var j := WindowHasBoundary(p, other, |cuts| - 1, start);
    }
  }

  // The remainder after the last cut, if any, becomes the last piece.
  function Completed(p: string, cuts: seq<nat>, start: nat): seq<nat> {
    if start < |p| then cuts + [|p|] else cuts
  }

  lemma CompletedIsReachable(p: string, cuts: seq<nat>, start: nat)
    requires Underway(p, cuts, start) && |p| - start < PART_LIMIT && p != []
    ensures Reachable(p, Completed(p, cuts, start))
  {
    var done := Completed(p, cuts, start);
    assert forall i :: 0 <= i < |cuts| ==> done[i] == cuts[i];
  }

  lemma CompletedIsFewest(p: string, cuts: seq<nat>, start: nat)
    requires Underway(p, cuts, start) && Ahead(p, cuts) && |p| - start < PART_LIMIT
    ensures Fewest(p, Completed(p, cuts, start))
  {
  }

  // What holds after `index` characters of the pass.
  ghost predicate Greedy(p: string, index: nat, start: nat, boundary: nat, cuts: seq<nat>, parts: seq<string>) {
    && start <= boundary <= index <= |p| && index - start < PART_LIMIT
    && boundary == LastBoundary(p, index)
    && Underway(p, cuts, start) && Ahead(p, cuts)
    && Ordered(p, cuts) && parts == Pieces(p, cuts)
  }

  // Character `index` is read without completing a window.
  lemma GreedyReads(p: string, index: nat, start: nat, boundary: nat, cuts: seq<nat>, parts: seq<string>)
    requires Greedy(p, index, start, boundary, cuts, parts) && index < |p| && index + 1 - start < PART_LIMIT
    ensures Greedy(p, index + 1, start, LastBoundary(p, index + 1), cuts, parts)
  {
  }

  // A full window is cut at its last boundary.
  lemma GreedyCuts(p: string, index: nat, start: nat, boundary: nat, cuts: seq<nat>, parts: seq<string>)
    requires Greedy(p, index, start, boundary, cuts, parts) && index < |p| && index + 1 - start >= PART_LIMIT
    ensures var cut := LastBoundary(p, index + 1);
      if cut <= start then forall other: seq<nat> :: !Reachable(p, other)
      else Greedy(p, index + 1, cut, cut, cuts + [cut], parts + [p[start..cut]])
  {
    hide Underway, Ahead, Ordered, Pieces, Reachable;
    var cut := LastBoundary(p, index + 1);
    if cut <= start {
      NoBoundaryNoPartition(p, cuts, start);
    } else {
      CutStaysUnderway(p, cuts, start, cut);
      CutStaysAhead(p, cuts, start, cut);
      CutAddsPiece(p, cuts, start, cut);
    }
  }

  lemma GreedyEnds(p: string, start: nat, boundary: nat, cuts: seq<nat>, parts: seq<string>)
    requires p != [] && Greedy(p, |p|, start, boundary, cuts, parts)
    ensures var done := Completed(p, cuts, start);
      IsSplit(p, done, if start < |p| then parts + [p[start..]] else parts) && Fewest(p, done)
  {
    hide Underway, Ahead, Reachable, Fewest, Ordered, Pieces, LastBoundary, Boundary;
    CompletedIsReachable(p, cuts, start);
    CompletedIsFewest(p, cuts, start);
    if start < |p| {
      CutAddsPiece(p, cuts, start, |p|);
      assert p[start..] == p[start..|p|];
      assert parts + [p[start..]] == Pieces(p, cuts + [|p|]);
    }
  }

  lemma ReadOne(p: string, index: nat)
    requires index < |p|
    ensures ScanTo(p, index + 1) == Advance(ScanTo(p, index), p[index])
    ensures LastBoundary(p, index + 1)
         == if !ScanTo(p, index).inString && Structural(p[index]) then index + 1 else LastBoundary(p, index)
  {
  }

  // One character through the automaton and the last boundary.
  method ReadCharacter(c: char, index: nat, wasInString: bool, wasEscaped: bool, lastBoundary: nat)
    returns (inString: bool, escaped: bool, boundary: nat)
    ensures Scan(inString, escaped) == Advance(Scan(wasInString, wasEscaped), c)
    ensures boundary == if !wasInString && Structural(c) then index + 1 else lastBoundary
  {
    inString, escaped, boundary := wasInString, wasEscaped, lastBoundary;
    if inString {
      if escaped {
        escaped := false;
      } else if c == '\\' {
        escaped := true;
      } else if c == '"' {
        inString := false;
      }
    } else if c == '"' {
      inString := true;
    } else if c in ",:{}[]" {
      boundary := index + 1;
    }
  }

  method SplitAtBoundaries(p: string) returns (r: Result<seq<string>, SplitError>, ghost cuts: seq<nat>)
    requires p != []
    ensures r.Ok? ==> IsSplit(p, cuts, r.value) && Fewest(p, cuts)
    ensures r.Err? ==> r.error == TokenTooLong && forall other: seq<nat> :: !Reachable(p, other)
  {
    var parts: seq<string> := [];
    var start, boundary := 0, 0;
    var inString, escaped := false, false;
    cuts := [0];
    StartIsAhead(p);
    hide Greedy, IsSplit, Fewest, Reachable, ScanTo, LastBoundary, Boundary, Advance, Structural;
    for index := 0 to |p|
      invariant 0 <= start <= index
      invariant Greedy(p, index, start, boundary, cuts, parts)
      invariant boundary == LastBoundary(p, index)
      invariant Scan(inString, escaped) == ScanTo(p, index)
    {
      ReadOne(p, index);
      inString, escaped, boundary := ReadCharacter(p[index], index, inString, escaped, boundary);
      if index + 1 - start >= PART_LIMIT {
        GreedyCuts(p, index, start, LastBoundary(p, index), cuts, parts);
        if boundary <= start {
          return Err(TokenTooLong), cuts;
        }
        parts := parts + [p[start..boundary]];
        cuts := cuts + [boundary];
        start := boundary;
      } else {
        GreedyReads(p, index, start, LastBoundary(p, index), cuts, parts);
      }
    }
    GreedyEnds(p, start, boundary, cuts, parts);
    cuts := Completed(p, cuts, start);
    if start < |p| {
      parts := parts + [p[start..]];
    }
    r := Ok(parts);
  }

  // The whole function. `parses` is whether the JSON reader accepts the prompt (unique property
  // names and finite numbers included). A long prompt is split exactly when it parses and some
  // reachable partition has at most MAX_PARTS pieces, and then into the fewest such pieces.
  method PromptContent(prompt: string, parses: bool) returns (r: Result<Content, SplitError>, ghost cuts: seq<nat>)
    ensures |prompt| <= WHOLE_LIMIT ==> r == Ok(Whole(prompt))
    ensures |prompt| > WHOLE_LIMIT ==>
      (r.Ok? <==> parses && exists c: seq<nat> :: Reachable(prompt, c) && |c| - 1 <= MAX_PARTS)
    ensures |prompt| > WHOLE_LIMIT && r.Ok? ==>
      r.value.Parts? && IsSplit(prompt, cuts, r.value.parts) && Fewest(prompt, cuts)
  {
    cuts := [];
    if |prompt| <= WHOLE_LIMIT {
      return Ok(Whole(prompt)), cuts;
    }
    if !parses {
      return Err(InvalidJson), cuts;
    }
    var split;
    split, cuts := SplitAtBoundaries(prompt);
    match split {
      case Err(error) => r := Err(error);
      case Ok(parts) =>
        if |parts| > MAX_PARTS {
          r := Err(TooManyParts);
        } else {
          r := Ok(Parts(parts));
        }
    }
  }

  // ---------------------------------------------------------------- nothing is lost

  function Concat(parts: seq<string>): string {
    if parts == [] then "" else Concat(parts[..|parts| - 1]) + parts[|parts| - 1]
  }

  // The parts concatenate to the prompt; each is non-empty and within the limit.
  lemma PartsAreThePrompt(p: string, cuts: seq<nat>, parts: seq<string>)
    requires IsSplit(p, cuts, parts)
    ensures Concat(parts) == p
    ensures forall i :: 0 <= i < |parts| ==> 0 < |parts[i]| <= PART_LIMIT
  {
    LegalPiecesDefined(p, cuts);
    PrefixConcat(p, cuts, |cuts|);
    assert cuts[..|cuts|] == cuts && p[..|p|] == p;
    forall i | 0 <= i < |parts|
      ensures 0 < |parts[i]| <= PART_LIMIT
    {
      assert cuts[i + 1 - 1] < cuts[i + 1];
    }
  }

  lemma {:induction false} PrefixConcat(p: string, cuts: seq<nat>, n: nat)
    requires 0 < n <= |cuts| && cuts[0] == 0 && Ordered(p, cuts)
    ensures cuts[n - 1] <= |p| && Concat(Pieces(p, cuts[..n])) == p[..cuts[n - 1]]
  {
    if n > 1 {
      PrefixConcat(p, cuts, n - 1);
      assert cuts[..n][..n - 1] == cuts[..n - 1];
      var parts := Pieces(p, cuts[..n]);
      assert parts[..n - 2] == Pieces(p, cuts[..n - 1]);
      assert p[..cuts[n - 1]] == p[..cuts[n - 2]] + p[cuts[n - 2]..cuts[n - 1]];
    }
  }

  // ---------------------------------------------------------------- JSON tokens

  // Section 2 of RFC 8259: six structural characters, strings, and runs of other characters
  // (numbers and literals), separated by optional whitespace.
  datatype Lexer = Lexer(tokens: seq<string>, pending: string, scan: Scan)

  predicate Whitespace(c: char) {
    c in " \t\n\r"
  }

  function Flush(l: Lexer): seq<string> {
    if l.pending == "" then l.tokens else l.tokens + [l.pending]
  }

  function Lex(l: Lexer, c: char): Lexer {
    var scan := Advance(l.scan, c);
    if l.scan.inString then
      if scan.inString then Lexer(l.tokens, l.pending + [c], scan)
      else Lexer(l.tokens + [l.pending + [c]], "", scan)
    else if c == '"' then Lexer(Flush(l), [c], scan)
    else if Structural(c) then Lexer(Flush(l) + [[c]], "", scan)
    else if Whitespace(c) then Lexer(Flush(l), "", scan)
    else Lexer(l.tokens, l.pending + [c], scan)
  }

  function LexAll(l: Lexer, s: string): Lexer {
    if s == "" then l else Lex(LexAll(l, s[..|s| - 1]), s[|s| - 1])
  }

  const LEX_START := Lexer([], "", Scan(false, false))

  function Tokens(s: string): seq<string> {
    Flush(LexAll(LEX_START, s))
  }

  // The receiver's join.
  function JoinLines(parts: seq<string>): string {
    if parts == [] then ""
    else if |parts| == 1 then parts[0]
    else JoinLines(parts[..|parts| - 1]) + "\n" + parts[|parts| - 1]
  }

  lemma {:induction false} LexAppend(l: Lexer, a: string, b: string)
    ensures LexAll(l, a + b) == LexAll(LexAll(l, a), b)
    decreases |b|
  {
    if b == "" {
      assert a + b == a;
    } else {
      LexAppend(l, a, b[..|b| - 1]);
      assert (a + b)[..|a + b| - 1] == a + b[..|b| - 1];
    }
  }

  lemma {:induction false} LexerScans(p: string, n: nat)
    requires n <= |p|
    ensures LexAll(LEX_START, p[..n]).scan == ScanTo(p, n)
  {
    if n > 0 {
      LexerScans(p, n - 1);
      assert p[..n][..n - 1] == p[..n - 1];
    }
  }

  // A newline right after a structural character outside strings changes nothing.
  lemma NewlineAtBoundary(p: string, n: nat)
    requires Boundary(p, n)
    ensures var l := LexAll(LEX_START, p[..n]); LexAll(l, "\n") == l
  {
    LexerScans(p, n);
    LexerScans(p, n - 1);
    assert p[..n][..n - 1] == p[..n - 1];
    var l := LexAll(LEX_START, p[..n]);
    assert l == Lex(LexAll(LEX_START, p[..n - 1]), p[n - 1]);
    assert LexAll(l, "\n") == Lex(LexAll(l, ""), '\n');
  }

  // One more joined piece.
  lemma JoinedPieceLexes(p: string, before: string, from: nat, to: nat)
    requires Boundary(p, from) && from <= to <= |p|
    requires LexAll(LEX_START, before) == LexAll(LEX_START, p[..from])
    ensures LexAll(LEX_START, before + "\n" + p[from..to]) == LexAll(LEX_START, p[..to])
  {
    hide LexAll, Boundary;
    LexAppend(LEX_START, before + "\n", p[from..to]);
    LexAppend(LEX_START, before, "\n");
    NewlineAtBoundary(p, from);
    LexAppend(LEX_START, p[..from], p[from..to]);
    assert p[..to] == p[..from] + p[from..to];
  }

  lemma {:induction false} JoinedLexesAlike(p: string, cuts: seq<nat>, n: nat)
    requires 1 < n <= |cuts| && Legal(p, cuts) && Ordered(p, cuts)
    ensures LexAll(LEX_START, JoinLines(Pieces(p, cuts[..n]))) == LexAll(LEX_START, p[..cuts[n - 1]])
  {
    hide LexAll;
    var parts := Pieces(p, cuts[..n]);
    if n == 2 {
      assert parts == [p[cuts[0]..cuts[1]]];
      assert p[0..cuts[1]] == p[..cuts[1]];
    } else {
      JoinedLexesAlike(p, cuts, n - 1);
      assert Boundary(p, cuts[n - 2]);
      hide Boundary, Legal;
      assert cuts[..n][..n - 1] == cuts[..n - 1];
      assert parts[..n - 2] == Pieces(p, cuts[..n - 1]);
      assert parts[n - 2] == p[cuts[n - 2]..cuts[n - 1]];
      JoinedPieceLexes(p, JoinLines(Pieces(p, cuts[..n - 1])), cuts[n - 2], cuts[n - 1]);
    }
  }

  // The newline-joined parts have the JSON tokens of the prompt, in the same order.
  lemma JoiningKeepsTokens(p: string, cuts: seq<nat>, parts: seq<string>)
    requires p != [] && IsSplit(p, cuts, parts)
    ensures Tokens(JoinLines(parts)) == Tokens(p)
  {
    LegalPiecesDefined(p, cuts);
    JoinedLexesAlike(p, cuts, |cuts|);
    assert cuts[..|cuts|] == cuts && p[..|p|] == p;
  }

  // ---------------------------------------------------------------- optimality and its limit

  // The one family of prompts whose tail defeats the pass: exactly PART_LIMIT characters after
  // the last boundary.
  predicate FullTail(p: string) {
    |p| >= PART_LIMIT && LastBoundary(p, |p|) == |p| - PART_LIMIT
  }

  lemma RefineLastPiece(p: string, cuts: seq<nat>) returns (finer: seq<nat>)
    requires |p| > PART_LIMIT && Legal(p, cuts) && !FullTail(p)
    ensures Reachable(p, finer) && |cuts| <= |finer| <= |cuts| + 1
  {
    hide Boundary, LastBoundary;
    if Reachable(p, cuts) {
      return cuts;
    }
    var m := |cuts| - 1;
    var tail := cuts[m - 1];
    var b := LastBoundary(p, |p|);
    assert tail == |p| - PART_LIMIT && Boundary(p, tail);
    finer := cuts[..m] + [b, |p|];
  }

  lemma FullTailUnreachable(p: string, cuts: seq<nat>)
    requires |p| > PART_LIMIT && Legal(p, cuts) && FullTail(p)
    ensures !Reachable(p, cuts)
  {
  }

  // A long prompt has a reachable partition exactly when it has a legal one and its tail after
  // the last boundary is not exactly one full part.
  lemma SplittableExactly(p: string)
    requires |p| > PART_LIMIT
    ensures (exists c: seq<nat> :: Reachable(p, c)) <==> (exists c: seq<nat> :: Legal(p, c)) && !FullTail(p)
  {
    if c: seq<nat> :| Legal(p, c) {
      if FullTail(p) {
        forall other: seq<nat> | Legal(p, other)
          ensures !Reachable(p, other)
        {
          FullTailUnreachable(p, other);
        }
      } else {
        var finer := RefineLastPiece(p, c);
        assert Reachable(p, finer);
      }
    }
  }

  // Greedy uses at most one part more than any legal partition, and no more at all when the
  // prompt ends in a structural character.
  lemma GreedyIsNearlyOptimal(p: string, cuts: seq<nat>, legal: seq<nat>)
    requires |p| > PART_LIMIT && Reachable(p, cuts) && Fewest(p, cuts) && Legal(p, legal)
    ensures |cuts| <= |legal| + 1
    ensures Boundary(p, |p|) ==> |cuts| <= |legal|
  {
    if Boundary(p, |p|) {
      assert Reachable(p, legal);
    } else {
      if FullTail(p) {
        FullTailUnreachable(p, cuts);
      }
      var finer := RefineLastPiece(p, legal);
    }
  }

  // A JSON array of zeros followed by 32768 blanks: 65537 characters.
  const PADDED_ARRAY: string :=
    seq(65537, i => if i == 0 then '[' else if i == 32768 then ']' else if i > 32768 then ' '
                    else if i % 2 == 1 then '0' else ',')

  lemma {:induction false} NoQuotesNoStrings(p: string, n: nat)
    requires n <= |p| && forall i :: 0 <= i < n ==> p[i] != '"'
    ensures ScanTo(p, n) == Scan(false, false)
  {
    if n > 0 {
      NoQuotesNoStrings(p, n - 1);
    }
  }

  // It has a legal partition, but the greedy pass refuses it.
  lemma PaddedArrayIsRefused()
    ensures Legal(PADDED_ARRAY, [0, 32767, 32769, 65537])
    ensures forall c: seq<nat> :: !Reachable(PADDED_ARRAY, c)
  {
    var p := PADDED_ARRAY;
    forall n: nat | 0 < n <= |p|
      ensures Boundary(p, n) <==> Structural(p[n - 1])
    {
      NoQuotesNoStrings(p, n - 1);
    }
    var cuts: seq<nat> := [0, 32767, 32769, 65537];
    assert Boundary(p, 32769) && Boundary(p, 32767);
    assert Legal(p, cuts);
    forall n | 32769 < n <= |p|
      ensures !Boundary(p, n)
    {
    }
    var b := LastBoundary(p, |p|);
    assert b == 32769;
    SplittableExactly(p);
  }
}

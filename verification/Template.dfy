/** Templates: text with `${ ... }` blocks. A source is cut into literal text and blocks, compiled and evaluated. */
module Template {
  import opened Wrappers
  import opened Lexing

  // ----- Trimming -----

  predicate Blank(s: string) {
    forall i | 0 <= i < |s| :: IsWhitespace(s[i])
  }

  function TrimStart(s: string): (t: string)
    ensures t != "" ==> !IsWhitespace(t[0])
    ensures |t| <= |s| && Blank(s[..|s| - |t|]) && t == s[|s| - |t|..]
  {
    if s != "" && IsWhitespace(s[0]) then
      var t := TrimStart(s[1..]);
      BlankInFront(s, t);
      t
    else s
  }

  lemma BlankInFront(s: string, t: string)
    requires s != "" && IsWhitespace(s[0]) && |t| < |s|
    requires Blank(s[1..][..|s[1..]| - |t|]) && t == s[1..][|s[1..]| - |t|..]
    ensures Blank(s[..|s| - |t|]) && t == s[|s| - |t|..]
  {
    hide IsWhitespace;
    var n := |s| - |t|;
    forall i | 0 <= i < n ensures IsWhitespace(s[..n][i]) {
      assert i > 0 ==> s[..n][i] == s[1..][..n - 1][i - 1];
    }
  }

  function TrimEnd(s: string): (t: string)
    ensures t != "" ==> !IsWhitespace(t[|t| - 1])
    ensures t <= s && Blank(s[|t|..])
  {
    if s != "" && IsWhitespace(s[|s| - 1]) then
      var t := TrimEnd(s[..|s| - 1]);
      BlankBehind(s, t);
      t
    else s
  }

  lemma BlankBehind(s: string, t: string)
    requires s != "" && IsWhitespace(s[|s| - 1]) && t <= s[..|s| - 1] && Blank(s[..|s| - 1][|t|..])
    ensures t <= s && Blank(s[|t|..])
  {
    hide IsWhitespace;
    var n := |t|;
    forall i | 0 <= i < |s| - n ensures IsWhitespace(s[n..][i]) {
      assert i < |s| - n - 1 ==> s[n..][i] == s[..|s| - 1][n..][i];
    }
  }

  function Trim(s: string): string {
    TrimEnd(TrimStart(s))
  }

  // ----- Finding the end of a block -----

  const OPEN := '{'
  const CLOSE := '}'

  predicate OpensBlock(s: string, i: nat) {
    i + 1 < |s| && s[i] == '$' && s[i + 1] == OPEN
  }

  predicate HasMarker(s: string) {
    exists i | 0 <= i < |s| :: OpensBlock(s, i)
  }

  function Step(c: char): int {
    if c == OPEN then 1 else if c == CLOSE then -1 else 0
  }

  function Depth(s: string): int {
    if s == "" then 0 else Step(s[0]) + Depth(s[1..])
  }

  /** The braces of a block's inner text match. */
  predicate Balanced(inner: string) {
    Depth(inner) == 0 && forall k | 0 <= k <= |inner| :: Depth(inner[..k]) >= 0
  }

  /** Where the depth first falls back to zero, scanning from i; quotes play no role. */
  function CloseAt(s: string, i: nat, depth: int): (r: Option<nat>)
    requires i <= |s|
    ensures r.Some? ==> i <= r.value < |s| && s[r.value] == CLOSE
    decreases |s| - i
  {
    if i == |s| then None
    else if s[i] == CLOSE && depth == 1 then Some(i)
    else CloseAt(s, i + 1, depth + Step(s[i]))
  }

  lemma DepthStep(s: string, i: nat, j: nat)
    requires i < j <= |s|
    ensures Depth(s[i..j]) == Step(s[i]) + Depth(s[i + 1..j])
  {
    assert s[i..j][1..] == s[i + 1..j];
  }

  /** The depth stays positive on every prefix. */
  predicate Above(s: string, i: nat, depth: int, close: nat)
    requires i <= close <= |s|
  {
    forall k | i <= k <= close :: Between(s, i, k) > -depth
  }

  function Between(s: string, i: nat, j: nat): int
    requires i <= j <= |s|
  {
    Depth(s[i..j])
  }

  lemma AboveStep(s: string, i: nat, depth: int, close: nat)
    requires i < close <= |s| && depth > 0
    ensures Above(s, i, depth, close) <==> Above(s, i + 1, depth + Step(s[i]), close)
  {
    var j := i + 1;
    forall k | j <= k <= close ensures Between(s, i, k) == Step(s[i]) + Between(s, j, k) {
      DepthStep(s, i, k);
    }
    assert s[i..i] == "";
    if Above(s, i, depth, close) {
      forall k | j <= k <= close ensures Between(s, j, k) > -depth - Step(s[i]) {
        assert Between(s, i, k) > -depth;
      }
    }
  }

  /** From a positive depth, the position found is the only one at which the depth reaches zero for the first time. */
  lemma {:induction false} CloseExactly(s: string, i: nat, depth: int, close: nat)
    requires i <= close < |s| && depth > 0
    ensures CloseAt(s, i, depth) == Some(close) <==>
            s[close] == CLOSE && Depth(s[i..close]) == 1 - depth && Above(s, i, depth, close)
    decreases |s| - i
  {
    assert s[i..i] == "";
    if i == close {
      assert Above(s, i, depth, close);
    } else {
      AboveStep(s, i, depth, close);
      DepthStep(s, i, close);
      assert s[i + 1..i + 1] == "";
      hide Depth;
      var next := depth + Step(s[i]);
      if next > 0 {
        CloseExactly(s, i + 1, next, close);
      } else {
        assert Between(s, i + 1, i + 1) == 0 by { NoDepth(); }
      }
    }
  }

  lemma NoDepth()
    ensures Depth("") == 0
  {
  }

  lemma PartOfInner(s: string, start: nat, k: nat, close: nat)
    requires start <= k <= close <= |s|
    ensures s[start..k] == s[start..close][..k - start]
  {
    var part, inner := s[start..k], s[start..close];
    forall i | 0 <= i < |part| ensures part[i] == inner[..k - start][i] {
      assert part[i] == s[start + i] == inner[i];
    }
  }

  lemma InnerText(s: string, open: nat, close: nat)
    requires open < close < |s| && s[open] == OPEN
    ensures CloseAt(s, open, 0) == Some(close) <==> s[close] == CLOSE && Balanced(s[open + 1..close])
  {
    var inner := s[open + 1..close];
    CloseExactly(s, open + 1, 1, close);
    hide Depth;
    if Balanced(inner) {
      var start := open + 1;
      forall k | start <= k <= close ensures Between(s, start, k) > -1 {
        PartOfInner(s, start, k, close);
      }
    }
    if Above(s, open + 1, 1, close) {
      forall k | 0 <= k <= |inner| ensures Depth(inner[..k]) >= 0 {
        PartOfInner(s, open + 1, open + 1 + k, close);
        assert Between(s, open + 1, open + 1 + k) > -1;
      }
    }
  }

  /** Where the loop over a string literal stops. */
  function LiteralEnd(s: string, j: nat): nat
    decreases |s| - j
  {
    if j >= |s| || s[j] == '\"' then j else LiteralEnd(s, if s[j] == '\\' then j + 2 else j + 1)
  }

  method SkipLiteral(chars: string, start: nat) returns (j: nat)
    ensures j == LiteralEnd(chars, start)
  {
    j := start;
    while j < |chars| && chars[j] != '\"'
      invariant LiteralEnd(chars, j) == LiteralEnd(chars, start)
    {
      j := if chars[j] == '\\' then j + 2 else j + 1;
    }
  }

  /** The branch for string literals stops at the quote it starts from, so it never skips anything. */
  method FindBlockClose(chars: string, open: nat) returns (r: Option<nat>)
    requires open <= |chars|
    ensures r == CloseAt(chars, open, 0)
  {
    var depth := 0;
    for i := open to |chars|
      invariant CloseAt(chars, i, depth) == CloseAt(chars, open, 0)
    {
      if chars[i] == OPEN {
        depth := depth + 1;
      } else if chars[i] == CLOSE {
        depth := depth - 1;
        if depth == 0 {
          return Some(i);
        }
      } else if chars[i] == '\"' {
        var j := SkipLiteral(chars, i);
        if j >= |chars| {
          return None;
        }
      }
    }
    r := None;
  }

  // ----- The scan that would skip string literals -----

  /** Outside a literal, inside one, or behind a backslash inside one. */
  datatype Mode = InCode | InLiteral | AfterBackslash

  function NextMode(mode: Mode, c: char): Mode {
    match mode
    case InCode => if c == '\"' then InLiteral else InCode
    case InLiteral => if c == '\\' then AfterBackslash else if c == '\"' then InCode else InLiteral
    case AfterBackslash => InLiteral
  }

  /** What a character adds to the depth when braces inside literals do not count, and what it adds besides. */
  function CodeStep(mode: Mode, c: char): int {
    if mode.InCode? then Step(c) else 0
  }

  function LiteralStep(mode: Mode, c: char): int {
    if mode.InCode? then 0 else Step(c)
  }

  function QuotedCloseAt(s: string, i: nat, mode: Mode, depth: int): (r: Option<nat>)
    requires i <= |s|
    ensures r.Some? ==> i <= r.value < |s|
    decreases |s| - i
  {
    if i == |s| then None
    else if mode.InCode? && s[i] == CLOSE && depth == 1 then Some(i)
    else QuotedCloseAt(s, i + 1, NextMode(mode, s[i]), depth + CodeStep(mode, s[i]))
  }

  /** It is the scan whose loop over a literal starts behind the opening quote. */
  lemma {:induction false} LiteralsAreSkipped(s: string, i: nat, depth: int)
    requires i <= |s|
    ensures QuotedCloseAt(s, i, InLiteral, depth) ==
            if LiteralEnd(s, i) >= |s| then None else QuotedCloseAt(s, LiteralEnd(s, i) + 1, InCode, depth)
    decreases |s| - i
  {
    if i < |s| && s[i] != '\"' {
      if s[i] == '\\' && i + 1 < |s| {
        assert QuotedCloseAt(s, i + 1, AfterBackslash, depth) == QuotedCloseAt(s, i + 2, InLiteral, depth);
        LiteralsAreSkipped(s, i + 2, depth);
      } else {
        LiteralsAreSkipped(s, i + 1, depth);
      }
    }
  }

  /** No brace stands inside a literal between i and end. */
  predicate BraceFree(s: string, i: nat, mode: Mode, end: nat)
    requires i <= end <= |s|
    decreases end - i
  {
    i == end || (LiteralStep(mode, s[i]) == 0 && BraceFree(s, i + 1, NextMode(mode, s[i]), end))
  }

  /** With no brace inside a literal up to the close it finds, the scanner keeps its promise, on every text. */
  lemma {:induction false} PromiseKept(s: string, i: nat, mode: Mode, depth: int)
    requires i <= |s|
    requires var close := CloseAt(s, i, depth); BraceFree(s, i, mode, if close.Some? then close.value + 1 else |s|)
    ensures CloseAt(s, i, depth) == QuotedCloseAt(s, i, mode, depth)
    decreases |s| - i
  {
    if i < |s| && !(s[i] == CLOSE && depth == 1) {
      PromiseKept(s, i + 1, NextMode(mode, s[i]), depth + Step(s[i]));
    }
  }

  /**
   * Up to the end, the braces inside literals never use up the depth, and if a close is due there they have
   * cancelled out; surplus is what they have added so far.
   */
  predicate Harmless(s: string, i: nat, mode: Mode, depth: int, surplus: int, end: nat, due: bool)
    requires i <= end <= |s|
    decreases end - i
  {
    && depth + surplus > 0
    && if i == end then due ==> surplus == 0
       else Harmless(s, i + 1, NextMode(mode, s[i]), depth + CodeStep(mode, s[i]), surplus + LiteralStep(mode, s[i]),
                     end, due)
  }

  /** Up to the close that respects quotes or, if there is none, up to the end of the text. */
  predicate HarmlessBraces(s: string, i: nat, mode: Mode, depth: int, surplus: int)
    requires i <= |s|
  {
    var close := QuotedCloseAt(s, i, mode, depth);
    Harmless(s, i, mode, depth, surplus, if close.Some? then close.value else |s|, close.Some?)
  }

  /** On every text, the scanner answers as the quotes demand exactly when the braces inside literals are harmless. */
  lemma {:induction false} PromiseKeptExactly(s: string, i: nat, mode: Mode, depth: int, surplus: int)
    requires i <= |s| && depth + surplus > 0
    ensures CloseAt(s, i, depth + surplus) == QuotedCloseAt(s, i, mode, depth) <==>
            HarmlessBraces(s, i, mode, depth, surplus)
    decreases |s| - i
  {
    if i < |s| && !(mode.InCode? && s[i] == CLOSE && depth == 1) {
      var code, literal := depth + CodeStep(mode, s[i]), surplus + LiteralStep(mode, s[i]);
      assert code + literal == depth + surplus + Step(s[i]);
      if code + literal > 0 {
        PromiseKeptExactly(s, i + 1, NextMode(mode, s[i]), code, literal);
      } else {
        NotBefore(s, i + 1, NextMode(mode, s[i]), code);
        var close := QuotedCloseAt(s, i, mode, depth);
        var end := if close.Some? then close.value else |s|;
        assert CloseAt(s, i, depth + surplus) == Some(i);
        assert !Harmless(s, i + 1, NextMode(mode, s[i]), code, literal, end, close.Some?);
      }
    }
  }

  lemma NotBefore(s: string, i: nat, mode: Mode, depth: int)
    requires i <= |s|
    ensures QuotedCloseAt(s, i, mode, depth).Some? ==> i <= QuotedCloseAt(s, i, mode, depth).value
  {
  }

  /** The braces inside literals between i and end all count the same way. */
  predicate OneSided(s: string, i: nat, mode: Mode, end: nat, step: int)
    requires i <= end <= |s|
    decreases end - i
  {
    i == end
    || ((LiteralStep(mode, s[i]) == 0 || LiteralStep(mode, s[i]) == step)
        && OneSided(s, i + 1, NextMode(mode, s[i]), end, step))
  }

  lemma {:induction false} SurplusStays(
    s: string, i: nat, mode: Mode, depth: int, surplus: int, close: nat, step: int)
    requires i <= close <= |s| && step != 0 && OneSided(s, i, mode, close, step)
    requires step > 0 ==> surplus >= 0
    requires step < 0 ==> surplus <= 0
    requires surplus != 0 || !BraceFree(s, i, mode, close)
    ensures !Harmless(s, i, mode, depth, surplus, close, true)
    decreases close - i
  {
    if i < close {
      SurplusStays(s, i + 1, NextMode(mode, s[i]), depth + CodeStep(mode, s[i]), surplus + LiteralStep(mode, s[i]),
                   close, step);
    }
  }

  lemma {:induction false} NoBraceNoHarm(s: string, i: nat, mode: Mode, depth: int, close: nat)
    requires i <= close < |s| && QuotedCloseAt(s, i, mode, depth) == Some(close) && depth > 0
    requires BraceFree(s, i, mode, close)
    ensures Harmless(s, i, mode, depth, 0, close, true)
    decreases close - i
  {
    if i < close {
      NoBraceNoHarm(s, i + 1, NextMode(mode, s[i]), depth + CodeStep(mode, s[i]), close);
    }
  }

  /** If they are all of one kind, in a block that closes, that is exactly when there are none. */
  lemma OneSidedBracesBreakIt(s: string, i: nat, mode: Mode, depth: int, close: nat, step: int)
    requires i <= close < |s| && QuotedCloseAt(s, i, mode, depth) == Some(close) && depth > 0
    requires step != 0 && OneSided(s, i, mode, close, step)
    ensures CloseAt(s, i, depth) == Some(close) <==> BraceFree(s, i, mode, close)
  {
    PromiseKeptExactly(s, i, mode, depth, 0);
    if BraceFree(s, i, mode, close) {
      NoBraceNoHarm(s, i, mode, depth, close);
    } else {
      SurplusStays(s, i, mode, depth, 0, close, step);
    }
  }

  /** A closing brace in a literal ends the block there and then. */
  lemma QuotedBraceEndsBlock()
    ensures var s := [OPEN, '\"', CLOSE, '\"', CLOSE];
            CloseAt(s, 0, 0) == Some(2) && QuotedCloseAt(s, 0, InCode, 0) == Some(4)
  {
    var s := [OPEN, '\"', CLOSE, '\"', CLOSE];
    assert CloseAt(s, 1, 1) == Some(2);
    assert QuotedCloseAt(s, 3, InLiteral, 1) == QuotedCloseAt(s, 4, InCode, 1) == Some(4);
    assert QuotedCloseAt(s, 1, InCode, 1) == QuotedCloseAt(s, 2, InLiteral, 1);
  }

  // ----- Splitting -----

  /** A piece of a template's text; Unclosed marks a block that never ends. */
  datatype Section = Words(text: string) | Code(inner: string) | Unclosed(pos: nat)

  function Pending(literal: string): seq<Section> {
    if literal == "" then [] else [Words(literal)]
  }

  function Split(s: string, i: nat, literal: string): seq<Section>
    requires i <= |s|
    decreases |s| - i
  {
    if i == |s| then Pending(literal)
    else if !OpensBlock(s, i) then Split(s, i + 1, literal + [s[i]])
    else
      match CloseAt(s, i + 1, 0)
      case None => Pending(literal) + [Unclosed(i)]
      case Some(close) => Pending(literal) + [Code(s[i + 2..close])] + Split(s, close + 1, "")
  }

  function SectionText(section: Section): string {
    match section
    case Words(text) => text
    case Code(inner) => "${" + inner + "}"
    case Unclosed(_) => ""
  }

  function Joined(sections: seq<Section>): string {
    if sections == [] then "" else SectionText(sections[0]) + Joined(sections[1..])
  }

  predicate Closed(sections: seq<Section>) {
    forall i | 0 <= i < |sections| :: !sections[i].Unclosed?
  }

  predicate GoodSection(section: Section) {
    match section
    case Words(text) => text != "" && !HasMarker(text)
    case Code(inner) => Balanced(inner)
    case Unclosed(_) => false
  }

  /** Literals hold no block marker, blocks are balanced, and no two literals are adjacent. */
  predicate WellSplit(sections: seq<Section>) {
    sections == []
    || (GoodSection(sections[0]) && WellSplit(sections[1..])
        && (|sections| > 1 ==> !(sections[0].Words? && sections[1].Words?)))
  }

  lemma JoinedAppend(a: seq<Section>, b: seq<Section>)
    ensures Joined(a + b) == Joined(a) + Joined(b)
  {
    if a == [] {
      assert a + b == b;
    } else {
      assert (a + b)[1..] == a[1..] + b;
      JoinedAppend(a[1..], b);
    }
  }

  lemma JoinedPending(literal: string)
    ensures Joined(Pending(literal)) == literal
  {
    if literal != "" {
      assert Joined([Words(literal)][1..]) == "";
    }
  }

  lemma JoinedCode(inner: string)
    ensures Joined([Code(inner)]) == "${" + inner + "}"
  {
    assert Joined([Code(inner)][1..]) == "";
  }

  lemma BlockText(s: string, i: nat, close: nat)
    requires OpensBlock(s, i) && CloseAt(s, i + 1, 0) == Some(close)
    ensures i + 2 <= close && "${" + s[i + 2..close] + "}" + s[close + 1..] == s[i..]
  {
  }

  lemma UnclosedBlock(s: string, i: nat, literal: string)
    requires i <= |s| && OpensBlock(s, i)
    ensures Closed(Split(s, i, literal)) ==> CloseAt(s, i + 1, 0).Some?
  {
    if CloseAt(s, i + 1, 0).None? {
      assert Split(s, i, literal)[|Pending(literal)|] == Unclosed(i);
    }
  }

  lemma BlockCloses(s: string, i: nat, literal: string) returns (close: nat)
    requires i <= |s| && OpensBlock(s, i) && Closed(Split(s, i, literal))
    ensures i + 2 <= close && CloseAt(s, i + 1, 0) == Some(close)
    ensures Split(s, i, literal) == Pending(literal) + [Code(s[i + 2..close])] + Split(s, close + 1, "")
    ensures Closed(Split(s, close + 1, ""))
  {
    UnclosedBlock(s, i, literal);
    close := CloseAt(s, i + 1, 0).value;
    var head, tail := Pending(literal) + [Code(s[i + 2..close])], Split(s, close + 1, "");
    forall k | 0 <= k < |tail| ensures !tail[k].Unclosed? {
      assert (head + tail)[|head| + k] == tail[k];
    }
  }

  /** Putting the pieces back together restores the text. */
  lemma {:induction false} SplitRestores(s: string, i: nat, literal: string)
    requires i <= |s| && Closed(Split(s, i, literal))
    ensures Joined(Split(s, i, literal)) == literal + s[i..]
    decreases |s| - i
  {
    hide Joined;
    JoinedPending(literal);
    if i == |s| {
    } else if !OpensBlock(s, i) {
      SplitRestores(s, i + 1, literal + [s[i]]);
      assert literal + [s[i]] + s[i + 1..] == literal + s[i..];
    } else {
      var close := BlockCloses(s, i, literal);
      var head, tail := Pending(literal) + [Code(s[i + 2..close])], Split(s, close + 1, "");
      SplitRestores(s, close + 1, "");
      JoinedAppend(head, tail);
      JoinedAppend(Pending(literal), [Code(s[i + 2..close])]);
      JoinedCode(s[i + 2..close]);
      BlockText(s, i, close);
    }
  }

  lemma GrowLiteral(s: string, i: nat, literal: string)
    requires i < |s| && !HasMarker(literal) && !OpensBlock(s, i) && !Opening(literal, s, i)
    ensures !HasMarker(literal + [s[i]]) && !Opening(literal + [s[i]], s, i + 1)
  {
    var grown := literal + [s[i]];
    forall k | 0 <= k < |grown| ensures !OpensBlock(grown, k) {
      if k + 1 < |literal| {
        assert !OpensBlock(literal, k);
      }
    }
  }

  /** The literal ends in a dollar sign and a brace follows. */
  predicate Opening(literal: string, s: string, i: nat) {
    literal != "" && literal[|literal| - 1] == '$' && i < |s| && s[i] == OPEN
  }

  lemma WellSplitJoin(literal: string, inner: string, tail: seq<Section>)
    requires !HasMarker(literal) && Balanced(inner) && WellSplit(tail)
    ensures WellSplit(Pending(literal) + [Code(inner)] + tail)
  {
    hide Balanced, HasMarker;
    var rest := [Code(inner)] + tail;
    assert rest[1..] == tail;
    if literal != "" {
      var all := [Words(literal)] + [Code(inner)] + tail;
      assert all[1..] == rest;
    } else {
      assert [] + [Code(inner)] + tail == rest;
    }
  }

  /** Every piece is well formed. */
  lemma {:induction false} SplitIsWellFormed(s: string, i: nat, literal: string)
    requires i <= |s| && Closed(Split(s, i, literal))
    requires !HasMarker(literal) && !Opening(literal, s, i)
    ensures WellSplit(Split(s, i, literal))
    decreases |s| - i
  {
    hide HasMarker, Balanced, Opening;
    if i == |s| {
      assert [Words(literal)][1..] == [];
    } else if !OpensBlock(s, i) {
      GrowLiteral(s, i, literal);
      SplitIsWellFormed(s, i + 1, literal + [s[i]]);
    } else {
      var close := BlockCloses(s, i, literal);
      EmptyLiteral(s, close + 1);
      SplitIsWellFormed(s, close + 1, "");
      BlockIsBalanced(s, i, close);
      WellSplitJoin(literal, s[i + 2..close], Split(s, close + 1, ""));
    }
  }

  lemma EmptyLiteral(s: string, i: nat)
    ensures !HasMarker("") && !Opening("", s, i)
  {
  }

  lemma BlockIsBalanced(s: string, i: nat, close: nat)
    requires OpensBlock(s, i) && CloseAt(s, i + 1, 0) == Some(close)
    ensures Balanced(s[i + 2..close])
  {
    hide Balanced;
    InnerText(s, i + 1, close);
  }

  // ----- The split is the only one -----

  lemma {:induction false} ScanWords(s: string, i: nat, j: nat, literal: string)
    requires i <= j <= |s| && forall k | i <= k < j :: !OpensBlock(s, k)
    ensures Split(s, i, literal) == Split(s, j, literal + s[i..j])
    decreases j - i
  {
    if i == j {
      assert literal + s[i..j] == literal;
    } else {
      ScanWords(s, i + 1, j, literal + [s[i]]);
      assert literal + [s[i]] + s[i + 1..j] == literal + s[i..j];
    }
  }

  lemma WordsOpenNothing(s: string, i: nat, sections: seq<Section>)
    requires i <= |s| && WellSplit(sections) && sections != [] && sections[0].Words? && s[i..] == Joined(sections)
    ensures i + |sections[0].text| <= |s|
    ensures s[i..i + |sections[0].text|] == sections[0].text
    ensures s[i + |sections[0].text|..] == Joined(sections[1..])
    ensures forall k | i <= k < i + |sections[0].text| :: !OpensBlock(s, k)
  {
    var text, after := sections[0].text, Joined(sections[1..]);
    assert s[i..] == text + after;
    assert s[i..i + |text|] == (text + after)[..|text|];
    assert s[i + |text|..] == (text + after)[|text|..];
    forall k | i <= k < i + |text| ensures !OpensBlock(s, k) {
      assert s[k] == text[k - i];
      if k + 1 < i + |text| {
        assert s[k + 1] == text[k + 1 - i];
        assert !OpensBlock(text, k - i);
      } else if k + 1 < |s| {
        assert s[k + 1] == after[0];
        assert sections[1].Code?;
        assert after[0] == SectionText(sections[1])[0];
      }
    }
  }

  lemma CodeCloses(s: string, i: nat, inner: string, after: string)
    requires i <= |s| && Balanced(inner) && s[i..] == "${" + inner + "}" + after
    ensures OpensBlock(s, i) && CloseAt(s, i + 1, 0) == Some(i + 2 + |inner|)
    ensures s[i + 2..i + 2 + |inner|] == inner && s[i + 3 + |inner|..] == after
  {
    hide Balanced, CloseAt;
    var text, close := "${" + inner + "}" + after, i + 2 + |inner|;
    forall k | 0 <= k < |text| ensures s[i + k] == text[k] {
      assert s[i + k] == s[i..][k];
    }
    assert text[0] == '$' && text[1] == OPEN && text[2 + |inner|] == CLOSE;
    forall k | 0 <= k < |inner| ensures s[i + 2 + k] == inner[k] {
      assert s[i + 2 + k] == s[i + (2 + k)] == text[2 + k] == inner[k];
    }
    assert s[i + 2..close] == inner;
    forall k | 0 <= k < |after| ensures s[close + 1 + k] == after[k] {
      assert s[close + 1 + k] == s[i + (3 + |inner| + k)] == text[3 + |inner| + k] == after[k];
    }
    assert s[close + 1..] == after;
    InnerText(s, i + 1, close);
  }

  lemma SplitAtCode(s: string, i: nat, literal: string, close: nat)
    requires i <= |s| && OpensBlock(s, i) && CloseAt(s, i + 1, 0) == Some(close)
    ensures i + 2 <= close
    ensures Split(s, i, literal) == Pending(literal) + [Code(s[i + 2..close])] + Split(s, close + 1, "")
  {
  }

  lemma SplitAtEnd(s: string, literal: string)
    ensures Split(s, |s|, literal) == Pending(literal)
  {
  }

  lemma WellSplitParts(sections: seq<Section>)
    requires WellSplit(sections) && sections != []
    ensures GoodSection(sections[0]) && WellSplit(sections[1..])
    ensures sections[0].Words? && |sections| > 1 ==> sections[1].Code?
    ensures Joined(sections) == SectionText(sections[0]) + Joined(sections[1..])
  {
    if |sections| > 1 {
      assert sections[1] == sections[1..][0];
    }
  }

  lemma CodeFound(s: string, i: nat, literal: string, sections: seq<Section>)
    requires i <= |s| && WellSplit(sections) && s[i..] == Joined(sections) && sections != [] && sections[0].Code?
    ensures i + 3 + |sections[0].inner| <= |s| && s[i + 3 + |sections[0].inner|..] == Joined(sections[1..])
    ensures Split(s, i, literal) ==
            Pending(literal) + [sections[0]] + Split(s, i + 3 + |sections[0].inner|, "")
  {
    hide Split, Joined, WellSplit, CloseAt, OpensBlock, Balanced;
    WellSplitParts(sections);
    var inner := sections[0].inner;
    CodeCloses(s, i, inner, Joined(sections[1..]));
    SplitAtCode(s, i, literal, i + 2 + |inner|);
  }

  lemma {:induction false} SplitFinds(s: string, i: nat, sections: seq<Section>)
    requires i <= |s| && WellSplit(sections) && s[i..] == Joined(sections)
    ensures Split(s, i, "") == sections
    decreases |sections|
  {
    hide Split, Joined, WellSplit, OpensBlock, GoodSection;
    if sections == [] {
      NothingJoined();
      assert i == |s|;
      SplitAtEnd(s, "");
    } else if sections[0].Code? {
      WellSplitParts(sections);
      CodeFound(s, i, "", sections);
      SplitFinds(s, i + 3 + |sections[0].inner|, sections[1..]);
      assert [] + [sections[0]] + sections[1..] == sections;
    } else {
      WordsFound(s, i, sections);
      if |sections| > 1 {
        WellSplitParts(sections);
        var rest := sections[1..];
        WellSplitParts(rest);
        SplitFinds(s, i + |sections[0].text| + 3 + |rest[0].inner|, rest[1..]);
        assert [sections[0]] + [rest[0]] + rest[1..] == sections;
      }
    }
  }

  lemma NothingJoined()
    ensures Joined([]) == ""
  {
  }

  lemma WordsFound(s: string, i: nat, sections: seq<Section>)
    requires i <= |s| && WellSplit(sections) && s[i..] == Joined(sections) && sections != [] && !sections[0].Code?
    ensures sections[0].Words?
    ensures |sections| == 1 ==> Split(s, i, "") == sections
    ensures |sections| > 1 ==>
              && sections[1].Code?
              && var next := i + |sections[0].text| + 3 + |sections[1].inner|;
                 next <= |s| && s[next..] == Joined(sections[1..][1..])
                 && Split(s, i, "") == [sections[0]] + [sections[1]] + Split(s, next, "")
  {
    hide Split, Joined, WellSplit, OpensBlock, HasMarker;
    WellSplitParts(sections);
    var text := sections[0].text;
    var j := i + |text|;
    WordsOpenNothing(s, i, sections);
    ScanWords(s, i, j, "");
    assert "" + s[i..j] == text;
    if |sections| == 1 {
      NothingJoined();
      assert j == |s|;
      SplitAtEnd(s, text);
      assert sections == [Words(text)];
    } else {
      CodeFound(s, j, text, sections[1..]);
    }
  }

  /** Splitting and joining are inverse to each other: the split of a text is the only well-formed one. */
  lemma SplitIsTheOnlyOne(s: string, sections: seq<Section>)
    requires Closed(Split(s, 0, ""))
    ensures WellSplit(sections) && Joined(sections) == s <==> sections == Split(s, 0, "")
  {
    hide *;
    EmptyLiteral(s, 0);
    assert s[0..] == s && "" + s == s;
    SplitRestores(s, 0, "");
    SplitIsWellFormed(s, 0, "");
    if WellSplit(sections) && Joined(sections) == s {
      SplitFinds(s, 0, sections);
    }
  }

  lemma {:induction false} UnclosedHasNoSplit(s: string, sections: seq<Section>)
    requires !Closed(Split(s, 0, "")) && WellSplit(sections)
    ensures Joined(sections) != s
  {
    hide Split, Joined, GoodSection;
    if Joined(sections) == s {
      assert s[0..] == s;
      SplitFinds(s, 0, sections);
      WellSplitIsClosed(sections);
    }
  }

  lemma {:induction false} WellSplitIsClosed(sections: seq<Section>)
    requires WellSplit(sections)
    ensures Closed(sections)
  {
    if sections != [] {
      WellSplitIsClosed(sections[1..]);
      forall i | 0 <= i < |sections| ensures !sections[i].Unclosed? {
        assert i > 0 ==> sections[i] == sections[1..][i - 1];
      }
    }
  }
}

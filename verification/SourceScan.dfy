/**
 The source scanner of scripts/generate-svm-event-manifest.ts: comment stripping, brace matching and the
 search for ponder.on registrations. Strings are not recognised: a // inside a literal is a comment and a
 brace inside one counts.
 */
module SourceScan {
  import opened Common

  // ---------------------------------------------------------------- substrings

  predicate StartsAt(s: string, pat: string, i: nat) {
    i + |pat| <= |s| && s[i..i + |pat|] == pat
  }

  /** Least position from the given one at which the pattern starts. */
  function IndexOf(s: string, pat: string, from: nat): (r: Option<nat>)
    ensures r.Some? ==>
      from <= r.value && StartsAt(s, pat, r.value) && forall i :: from <= i < r.value ==> !StartsAt(s, pat, i)
    ensures r.None? ==> forall i :: from <= i ==> !StartsAt(s, pat, i)
    decreases |s| - from
  {
    if StartsAt(s, pat, from) then Some(from)
    else if from >= |s| then None
    else IndexOf(s, pat, from + 1)
  }

  // ---------------------------------------------------------------- comments

  function SkipLine(s: string, i: nat): (j: nat)
    requires i <= |s|
    ensures i <= j <= |s|
    decreases |s| - i
  {
    if i < |s| && s[i] != '\n' then SkipLine(s, i + 1) else i
  }

  function SkipBlock(s: string, i: nat): (j: nat)
    requires i <= |s|
    ensures i <= j <= |s|
    decreases |s| - i
  {
    if i < |s| && !StartsAt(s, "*/", i) then SkipBlock(s, i + 1) else i
  }

  function Least(x: nat, y: nat): nat { if x < y then x else y }

  /** Source from position i without its comments. */
  function StripFrom(s: string, i: nat): string
    decreases |s| - i
  {
    if i >= |s| then ""
    else if StartsAt(s, "//", i) then StripFrom(s, SkipLine(s, i + 2))
    else if StartsAt(s, "/*", i) then StripFrom(s, SkipBlock(s, i + 2) + 2)
    else [s[i]] + StripFrom(s, i + 1)
  }

  function Strip(s: string): string { StripFrom(s, 0) }

  method StripJsComments(source: string) returns (out: string)
    ensures out == Strip(source)
  {
    out := "";
    var i := 0;
    while i < |source|
      invariant out + StripFrom(source, i) == Strip(source)
      decreases |source| - i
    {
      Skips(source, i);
      if StartsAt(source, "//", i) {
        i := LineEnd(source, i + 2);
      } else if StartsAt(source, "/*", i) {
        i := BlockEnd(source, i + 2);
        i := i + 2;
      } else {
        KeepOne(source, i, out);
        out := out + [source[i]];
        i := i + 1;
      }
    }
    NothingLeft(source, i, out);
  }

  lemma Skips(s: string, i: nat)
    requires i < |s|
    ensures StartsAt(s, "//", i) ==> i + 2 <= |s| && StripFrom(s, i) == StripFrom(s, SkipLine(s, i + 2))
    ensures !StartsAt(s, "//", i) && StartsAt(s, "/*", i) ==>
      i + 2 <= |s| && StripFrom(s, i) == StripFrom(s, SkipBlock(s, i + 2) + 2)
  {
  }

  lemma NothingLeft(s: string, i: nat, out: string)
    requires i >= |s|
    ensures out + StripFrom(s, i) == out
  {
  }

  method LineEnd(source: string, from: nat) returns (i: nat)
    requires from <= |source|
    ensures i == SkipLine(source, from)
  {
    i := from;
    while i < |source| && source[i] != '\n'
      invariant i <= |source| && SkipLine(source, i) == SkipLine(source, from)
    {
      i := i + 1;
    }
  }

  method BlockEnd(source: string, from: nat) returns (i: nat)
    requires from <= |source|
    ensures i == SkipBlock(source, from)
  {
    i := from;
    while i < |source| && !StartsAt(source, "*/", i)
      invariant i <= |source| && SkipBlock(source, i) == SkipBlock(source, from)
    {
      i := i + 1;
    }
  }

  lemma KeepOne(s: string, i: nat, out: string)
    requires i < |s| && !StartsAt(s, "//", i) && !StartsAt(s, "/*", i)
    ensures out + StripFrom(s, i) == (out + [s[i]]) + StripFrom(s, i + 1)
  {
  }

  predicate Marker(s: string, i: nat) {
    StartsAt(s, "//", i) || StartsAt(s, "/*", i)
  }

  lemma MarkerChars(s: string, i: nat)
    ensures Marker(s, i) <==> i + 1 < |s| && s[i] == '/' && (s[i + 1] == '/' || s[i + 1] == '*')
  {
    if i + 2 <= |s| { assert s[i..i + 2] == [s[i], s[i + 1]]; }
  }

  /** A slash that is kept is followed by what followed it in the source, so no marker is formed. */
  lemma {:induction false} StripHead(s: string, i: nat)
    requires i < |s| && !Marker(s, i) && s[i] == '/'
    ensures i + 1 < |s| ==> StripFrom(s, i + 1) != "" && StripFrom(s, i + 1)[0] == s[i + 1] != '/' && s[i + 1] != '*'
    ensures i + 1 == |s| ==> StripFrom(s, i + 1) == ""
  {
    MarkerChars(s, i);
    MarkerChars(s, i + 1);
  }

  lemma {:induction false} NoMarkerFrom(s: string, i: nat, k: nat)
    ensures !Marker(StripFrom(s, i), k)
    decreases |s| - i, k
  {
    var t := StripFrom(s, i);
    MarkerChars(t, k);
    if i >= |s| {
    } else if StartsAt(s, "//", i) {
      NoMarkerFrom(s, SkipLine(s, i + 2), k);
    } else if StartsAt(s, "/*", i) {
      NoMarkerFrom(s, SkipBlock(s, i + 2) + 2, k);
    } else if k == 0 {
      if s[i] == '/' { StripHead(s, i); }
    } else {
      NoMarkerFrom(s, i + 1, k - 1);
      MarkerChars(StripFrom(s, i + 1), k - 1);
    }
  }

  lemma {:induction false} CleanStays(s: string, i: nat)
    requires i <= |s| && forall k :: i <= k ==> !Marker(s, k)
    ensures StripFrom(s, i) == s[i..]
    decreases |s| - i
  {
    if i < |s| {
      assert !Marker(s, i);
      CleanStays(s, i + 1);
      assert s[i..] == [s[i]] + s[i + 1..];
    }
  }

  lemma {:induction false} NoLonger(s: string, i: nat)
    ensures i <= |s| ==> |StripFrom(s, i)| <= |s| - i
    ensures i > |s| ==> StripFrom(s, i) == ""
    decreases |s| - i
  {
    if i < |s| {
      if StartsAt(s, "//", i) {
        NoLonger(s, SkipLine(s, i + 2));
      } else if StartsAt(s, "/*", i) {
        NoLonger(s, SkipBlock(s, i + 2) + 2);
      } else {
        NoLonger(s, i + 1);
      }
    }
  }

  lemma {:induction false} Shorter(s: string, i: nat, k: nat)
    requires i <= k <= |s| && Marker(s, k)
    ensures |StripFrom(s, i)| < |s| - i
    decreases |s| - i
  {
    MarkerChars(s, k);
    if StartsAt(s, "//", i) {
      NoLonger(s, SkipLine(s, i + 2));
    } else if StartsAt(s, "/*", i) {
      NoLonger(s, SkipBlock(s, i + 2) + 2);
    } else {
      Shorter(s, i + 1, k);
    }
  }

  /**
   No comment marker survives; what has none is unchanged, and nothing else is; so stripping twice is
   stripping once.
   */
  lemma StripLeavesNoMarker(s: string)
    ensures forall k :: !Marker(Strip(s), k)
    ensures Strip(Strip(s)) == Strip(s)
    ensures Strip(s) == s <==> forall k :: !Marker(s, k)
  {
    forall k ensures !Marker(Strip(s), k) { NoMarkerFrom(s, 0, k); }
    CleanStays(Strip(s), 0);
    if forall k :: !Marker(s, k) {
      CleanStays(s, 0);
      assert s[0..] == s;
    } else {
      var k :| Marker(s, k);
      MarkerChars(s, k);
      Shorter(s, 0, k);
    }
  }

  // ---------------------------------------------------------------- comments, one character at a time

  datatype State = Code | Slash | Line | Block | BlockStar

  function NextState(q: State, c: char): State {
    match q
    case Code => if c == '/' then Slash else Code
    case Slash => if c == '/' then Line else if c == '*' then Block else Code
    case Line => if c == '\n' then Code else Line
    case Block => if c == '*' then BlockStar else Block
    case BlockStar => if c == '/' then Code else if c == '*' then BlockStar else Block
  }

  /** What reading c in state q adds to the output; a slash waits for the character after it. */
  function Emit(q: State, c: char): string {
    match q
    case Code => if c == '/' then "" else [c]
    case Slash => if c == '/' || c == '*' then "" else ['/', c]
    case Line => if c == '\n' then "\n" else ""
    case Block => ""
    case BlockStar => ""
  }

  function Automaton(q: State, s: string): string
    decreases |s|
  {
    if s == "" then if q == Slash then "/" else ""
    else Emit(q, s[0]) + Automaton(NextState(q, s[0]), s[1..])
  }

  lemma {:induction false} LineIsSkipped(s: string, i: nat)
    requires i <= |s|
    ensures Automaton(Line, s[i..]) == Automaton(Code, s[SkipLine(s, i)..])
    decreases |s| - i
  {
    if i < |s| {
      assert s[i..][1..] == s[i + 1..];
      if s[i] != '\n' { LineIsSkipped(s, i + 1); }
    }
  }

  ghost predicate BlockSkipped(s: string, i: nat)
    requires i <= |s|
  {
    Automaton(Block, s[i..]) == Automaton(Code, s[Least(SkipBlock(s, i) + 2, |s|)..])
  }

  lemma {:induction false} BlockIsSkipped(s: string, i: nat)
    requires i <= |s|
    ensures BlockSkipped(s, i)
    decreases |s| - i
  {
    if i < |s| && !StartsAt(s, "*/", i) {
      BlockIsSkipped(s, i + 1);
      BlockGoesOn(s, i);
    } else if i < |s| {
      BlockStep(s, i);
    }
  }

  lemma BlockGoesOn(s: string, i: nat)
    requires i < |s| && !StartsAt(s, "*/", i) && BlockSkipped(s, i + 1)
    ensures BlockSkipped(s, i)
  {
    BlockStep(s, i);
  }

  /** Inside a block comment: it ends here, or goes on after this character. */
  lemma BlockStep(s: string, i: nat)
    requires i < |s|
    ensures StartsAt(s, "*/", i) ==> Automaton(Block, s[i..]) == Automaton(Code, s[i + 2..])
    ensures !StartsAt(s, "*/", i) ==> Automaton(Block, s[i..]) == Automaton(Block, s[i + 1..])
  {
    assert s[i..][1..] == s[i + 1..];
    if i + 2 <= |s| {
      assert s[i..i + 2] == [s[i], s[i + 1]];
      assert s[i + 1..][1..] == s[i + 2..];
    }
  }

  ghost predicate Agree(s: string, i: nat)
    requires i <= |s|
  {
    Automaton(Code, s[i..]) == StripFrom(s, i)
  }

  lemma AgreeOnLine(s: string, i: nat)
    requires StartsAt(s, "//", i) && Agree(s, SkipLine(s, i + 2))
    ensures Agree(s, i)
  {
    MarkerChars(s, i);
    CommentOpens(s, i);
    LineIsSkipped(s, i + 2);
  }

  lemma AgreeOnBlock(s: string, i: nat)
    requires StartsAt(s, "/*", i) && Agree(s, Least(SkipBlock(s, i + 2) + 2, |s|))
    ensures Agree(s, i)
  {
    MarkerChars(s, i);
    CommentOpens(s, i);
    BlockIsSkipped(s, i + 2);
  }

  lemma AgreeOnChar(s: string, i: nat)
    requires i < |s| && !Marker(s, i) && Agree(s, i + 1)
    ensures Agree(s, i)
  {
    CharKept(s, i);
  }

  lemma {:induction false} AutomatonFrom(s: string, i: nat)
    requires i <= |s|
    ensures Agree(s, i)
    decreases |s| - i
  {
    if i < |s| {
      if StartsAt(s, "//", i) {
        AutomatonFrom(s, SkipLine(s, i + 2));
        AgreeOnLine(s, i);
      } else if StartsAt(s, "/*", i) {
        AutomatonFrom(s, Least(SkipBlock(s, i + 2) + 2, |s|));
        AgreeOnBlock(s, i);
      } else {
        AutomatonFrom(s, i + 1);
        AgreeOnChar(s, i);
      }
    }
  }

  lemma CommentOpens(s: string, i: nat)
    requires i + 1 < |s| && s[i] == '/'
    ensures s[i + 1] == '/' ==> Automaton(Code, s[i..]) == Automaton(Line, s[i + 2..])
    ensures s[i + 1] == '*' ==> Automaton(Code, s[i..]) == Automaton(Block, s[i + 2..])
    ensures StartsAt(s, "//", i) <==> s[i + 1] == '/'
    ensures StartsAt(s, "/*", i) <==> s[i + 1] == '*'
  {
    assert s[i..][1..] == s[i + 1..] && s[i + 1..][1..] == s[i + 2..];
    assert s[i..i + 2] == [s[i], s[i + 1]];
    assert Automaton(Code, s[i..]) == Automaton(Slash, s[i + 1..]);
  }

  lemma CharKept(s: string, i: nat)
    requires i < |s| && !Marker(s, i)
    ensures Automaton(Code, s[i..]) == [s[i]] + Automaton(Code, s[i + 1..])
  {
    MarkerChars(s, i);
    assert s[i..][1..] == s[i + 1..];
    if s[i] == '/' && i + 1 < |s| { SlashKept(s, i); }
  }

  lemma SlashKept(s: string, i: nat)
    requires i + 1 < |s| && s[i] == '/' && s[i + 1] != '/' && s[i + 1] != '*'
    ensures Automaton(Code, s[i..]) == ['/'] + Automaton(Code, s[i + 1..])
  {
    assert s[i..][1..] == s[i + 1..] && s[i + 1..][1..] == s[i + 2..];
    assert Automaton(Slash, s[i + 1..]) == ['/', s[i + 1]] + Automaton(Code, s[i + 2..]);
    assert Automaton(Code, s[i + 1..]) == [s[i + 1]] + Automaton(Code, s[i + 2..]);
  }

  /** The position-jumping loop and the five-state reader agree on every source. */
  lemma StripIsAutomaton(s: string)
    ensures Strip(s) == Automaton(Code, s)
  {
    AutomatonFrom(s, 0);
    assert s[0..] == s;
  }

  // ---------------------------------------------------------------- braces

  function Weight(c: char): int { if c == '{' then 1 else if c == '}' then -1 else 0 }

  /** Opened minus closed in s[open..i]. */
  function Depth(s: string, open: nat, i: nat): int
    requires open <= i <= |s|
    decreases i - open
  {
    if i == open then 0 else Depth(s, open, i - 1) + Weight(s[i - 1])
  }

  predicate Closes(s: string, open: nat, i: nat) {
    open <= i < |s| && s[i] == '}' && Depth(s, open, i + 1) == 0
  }

  /** The least closing position; None is the throw. */
  method FindMatchingBrace(source: string, openBraceIndex: nat) returns (r: Option<nat>)
    ensures r.Some? ==> Closes(source, openBraceIndex, r.value)
    ensures r.Some? ==> forall i :: openBraceIndex <= i < r.value ==> !Closes(source, openBraceIndex, i)
    ensures r.None? <==> forall i :: openBraceIndex <= i < |source| ==> !Closes(source, openBraceIndex, i)
    ensures r == MatchFrom(source, openBraceIndex, openBraceIndex)
  {
    var depth, i := 0, openBraceIndex;
    while i < |source|
      invariant openBraceIndex <= i && (openBraceIndex <= |source| ==> i <= |source|)
      invariant i <= |source| ==> depth == Depth(source, openBraceIndex, i)
      invariant forall j :: openBraceIndex <= j < i ==> !Closes(source, openBraceIndex, j)
      invariant MatchFrom(source, openBraceIndex, i) == MatchFrom(source, openBraceIndex, openBraceIndex)
    {
      var ch := source[i];
      if ch == '{' {
        depth := depth + 1;
      } else if ch == '}' {
        depth := depth - 1;
        if depth == 0 { return Some(i); }
      }
      i := i + 1;
    }
    return None;
  }

  function MatchFrom(s: string, open: nat, i: nat): Option<nat>
    requires open <= i
    decreases |s| - i
  {
    if i >= |s| then None else if Closes(s, open, i) then Some(i) else MatchFrom(s, open, i + 1)
  }

  lemma {:induction false} MatchIsLeast(s: string, open: nat, i: nat)
    requires open <= i
    ensures match MatchFrom(s, open, i)
      case Some(r) => i <= r && Closes(s, open, r) && forall j :: i <= j < r ==> !Closes(s, open, j)
      case None => forall j :: i <= j < |s| ==> !Closes(s, open, j)
    decreases |s| - i
  {
    if i < |s| && !Closes(s, open, i) { MatchIsLeast(s, open, i + 1); }
  }

  /**
   From an opening brace, the span to the match is balanced: the depth is positive all the way and zero
   at its end.
   */
  lemma {:induction false} SpanIsBalanced(s: string, open: nat, i: nat)
    requires open < |s| && s[open] == '{' && open < i <= |s| && forall j :: open <= j < i ==> !Closes(s, open, j)
    ensures Depth(s, open, i) > 0
    decreases i
  {
    if i > open + 1 {
      SpanIsBalanced(s, open, i - 1);
      assert !Closes(s, open, i - 1);
    } else {
      assert Depth(s, open, open) == 0;
    }
  }

  // ---------------------------------------------------------------- registrations

  predicate IsSpace(c: char) {
    c == ' ' || '\t' <= c <= '\r' || c == '\U{00a0}' || c == '\U{feff}'
  }

  predicate AllSpace(s: string) {
    forall i :: 0 <= i < |s| ==> IsSpace(s[i])
  }

  predicate WordChar(c: char) {
    'A' <= c <= 'Z' || 'a' <= c <= 'z' || '0' <= c <= '9' || c == '_'
  }

  predicate IsWord(s: string) {
    |s| > 0 && forall i :: 0 <= i < |s| ==> WordChar(s[i])
  }

  const NEEDLE := "ponder.on(\""

  datatype Registration = Registration(contract: string, event: string, handlerEmpty: bool)

  /** One registration found, or passed over, from its start to where the search goes on. */
  datatype Span = Span(start: nat, resume: nat, found: Option<Registration>)

  datatype ScanError = InvalidTarget | MissingArrow | MissingBody | UnbalancedBraces
  datatype Step = Done | Found(span: Span) | Failed(error: ScanError)
  datatype Scan = Scanned(spans: seq<Span>) | ScanFailed(error: ScanError)

  /** One turn of the search. */
  function ScanStep(s: string, contracts: set<string>, from: nat): (r: Step)
    ensures r.Found? ==> from <= r.span.start < r.span.resume && StartsAt(s, NEEDLE, r.span.start)
  {
    if from >= |s| then Done
    else
      var start := IndexOf(s, NEEDLE, from);
      if start.None? then Done
      else
        var quoteStart := start.value + |NEEDLE| - 1;
        var quoteEnd := IndexOf(s, "\"", quoteStart + 1);
        if quoteEnd.None? then Done
        else CallStep(s, contracts, start.value, quoteEnd.value, s[quoteStart + 1..quoteEnd.value])
  }

  /** The call at `start`, whose string is the target. */
  function CallStep(s: string, contracts: set<string>, start: nat, quoteEnd: nat, target: string): (r: Step)
    requires start < quoteEnd && StartsAt(s, NEEDLE, start)
    ensures r.Found? ==> r.span.start == start < r.span.resume
  {
    var splitAt := IndexOf(target, ":", 0);
    if splitAt.None? then Failed(InvalidTarget)
    else
      var contract, event := target[..splitAt.value], target[splitAt.value + 1..];
      if contract !in contracts || !IsWord(event) then Found(Span(start, quoteEnd + 1, None))
      else HandlerStep(s, start, quoteEnd, contract, event)
  }

  function HandlerStep(s: string, start: nat, quoteEnd: nat, contract: string, event: string): (r: Step)
    requires start < quoteEnd && StartsAt(s, NEEDLE, start)
    ensures r.Found? ==> r.span.start == start < r.span.resume
  {
    var arrow := IndexOf(s, "=>", quoteEnd);
    if arrow.None? then Failed(MissingArrow)
    else
      var open := IndexOf(s, "{", arrow.value);
      if open.None? then Failed(MissingBody)
      else
        var close := MatchFrom(s, open.value, open.value);
        MatchIsLeast(s, open.value, open.value);
        if close.None? then Failed(UnbalancedBraces)
        else
          assert StartsAt(s, "{", open.value) && s[open.value] == '{';
          Found(Span(start, close.value +
            1, Some(Registration(contract, event, AllSpace(Strip(s[open.value + 1..close.value]))))))
  }

  function ScanFrom(s: string, contracts: set<string>, from: nat): Scan
    decreases |s| - from
  {
    match ScanStep(s, contracts, from)
    case Done => Scanned([])
    case Failed(e) => ScanFailed(e)
    case Found(span) =>
      var rest := ScanFrom(s, contracts, span.resume);
      if rest.ScanFailed? then rest else Scanned([span] + rest.spans)
  }

  function Registrations(spans: seq<Span>): seq<Registration> {
    if spans == [] then []
    else
      var last := spans[|spans| - 1];
      Registrations(spans[..|spans| - 1]) + if last.found.Some? then [last.found.value] else []
  }

  /** Spans are disjoint and in source order. */
  ghost predicate InOrder(spans: seq<Span>, from: nat) {
    && (forall i :: 0 <= i < |spans| ==> from <= spans[i].start < spans[i].resume)
    && (forall i, j :: 0 <= i < j < |spans| ==> spans[i].resume <= spans[j].start)
  }

  /** Every span starts at a registration call, in order and without overlap. */
  lemma {:induction false} ScanInOrder(s: string, contracts: set<string>, from: nat)
    ensures ScanFrom(s, contracts, from).Scanned? ==> InOrder(ScanFrom(s, contracts, from).spans, from)
    ensures ScanFrom(s, contracts, from).Scanned? ==>
      forall i ::
        0 <= i < |ScanFrom(s, contracts, from).spans| ==>
        StartsAt(s, NEEDLE, ScanFrom(s, contracts, from).spans[i].start)
    decreases |s| - from
  {
    var step := ScanStep(s, contracts, from);
    if step.Found? {
      ScanInOrder(s, contracts, step.span.resume);
      var rest := ScanFrom(s, contracts, step.span.resume);
      if rest.Scanned? { InOrderBehind(s, step.span, rest.spans, from); }
    }
  }

  lemma InOrderBehind(s: string, span: Span, rest: seq<Span>, from: nat)
    requires from <= span.start < span.resume && InOrder(rest, span.resume) && StartsAt(s, NEEDLE, span.start)
    requires forall i :: 0 <= i < |rest| ==> StartsAt(s, NEEDLE, rest[i].start)
    ensures InOrder([span] + rest, from)
    ensures forall i :: 0 <= i < |[span] + rest| ==> StartsAt(s, NEEDLE, ([span] + rest)[i].start)
  {
  }

  ghost predicate Covered(spans: seq<Span>, p: nat) {
    exists i :: 0 <= i < |spans| && spans[i].start <= p < spans[i].resume
  }

  /** No call with a closed first string is missed: it starts a span or lies inside one. */
  lemma {:induction false} ScanCovers(s: string, contracts: set<string>, from: nat, p: nat)
    requires ScanFrom(s, contracts, from).Scanned? && from <= p && StartsAt(s, NEEDLE, p) &&
      IndexOf(s, "\"", p + |NEEDLE|).Some?
    ensures Covered(ScanFrom(s, contracts, from).spans, p)
    decreases |s| - from
  {
    var span := NextSpan(s, contracts, from, p);
    if span.resume <= p { ScanCovers(s, contracts, span.resume, p); }
    CoveredLater(span, ScanFrom(s, contracts, span.resume).spans, p);
  }

  lemma CoveredLater(span: Span, rest: seq<Span>, p: nat)
    requires span.start <= p && (span.resume <= p ==> Covered(rest, p))
    ensures Covered([span] + rest, p)
  {
    var spans := [span] + rest;
    if p < span.resume {
      assert spans[0].start <= p < spans[0].resume;
    } else {
      var i :| 0 <= i < |rest| && rest[i].start <= p < rest[i].resume;
      assert spans[i + 1] == rest[i];
    }
  }

  lemma NextSpan(s: string, contracts: set<string>, from: nat, p: nat) returns (span: Span)
    requires ScanFrom(s, contracts, from).Scanned? && from <= p && StartsAt(s, NEEDLE, p) &&
      IndexOf(s, "\"", p + |NEEDLE|).Some?
    ensures from <= span.start <= p && span.start < span.resume && ScanFrom(s, contracts, span.resume).Scanned?
    ensures ScanFrom(s, contracts, from).spans == [span] + ScanFrom(s, contracts, span.resume).spans && from < |s|
  {
    StepFinds(s, contracts, from, p);
    span := ScanStep(s, contracts, from).span;
  }

  lemma StepFinds(s: string, contracts: set<string>, from: nat, p: nat)
    requires !ScanStep(s, contracts, from).Failed? && from <= p && StartsAt(s, NEEDLE, p) &&
      IndexOf(s, "\"", p + |NEEDLE|).Some?
    ensures ScanStep(s, contracts, from).Found? && ScanStep(s, contracts, from).span.start <= p
  {
    var start := IndexOf(s, NEEDLE, from);
    var quote := IndexOf(s, "\"", p + |NEEDLE|).value;
    assert StartsAt(s, "\"", quote) && start.value + |NEEDLE| <= quote;
  }

  datatype Parsed = Registered(registrations: seq<Registration>) | ParseError(error: ScanError)

  function Parse(s: string, contracts: set<string>): Parsed {
    match ScanFrom(s, contracts, 0)
    case Scanned(spans) => Registered(Registrations(spans))
    case ScanFailed(e) => ParseError(e)
  }

  /** The search loop; its position grows with every turn. */
  method ParsePonderRegistrations(source: string, contracts: set<string>) returns (r: Parsed)
    ensures r == Parse(source, contracts)
  {
    var registrations, searchFrom := [], 0;
    ghost var spans: seq<Span> := [];
    NothingScanned(source, contracts);
    while searchFrom < |source|
      invariant registrations == Registrations(spans)
      invariant ScannedTo(source, contracts, searchFrom, spans)
      decreases |source| - searchFrom
    {
      var step := NextStep(source, contracts, searchFrom, spans);
      match step {
        case Done => return Registered(registrations);
        case Failed(e) => return ParseError(e);
        case Found(span) =>
          if span.found.Some? { registrations := registrations + [span.found.value]; }
          spans := spans + [span];
          searchFrom := span.resume;
      }
    }
    SearchEnds(source, contracts, searchFrom, spans);
    return Registered(registrations);
  }

  /** One turn: the search ends, fails, or goes on behind the span found. */
  method NextStep(source: string, contracts: set<string>, from: nat, ghost spans: seq<Span>) returns (step: Step)
    requires ScannedTo(source, contracts, from, spans)
    ensures step.Done? ==> Parse(source, contracts) == Registered(Registrations(spans))
    ensures step.Failed? ==> Parse(source, contracts) == ParseError(step.error)
    ensures step.Found? ==>
      from < step.span.resume && ScannedTo(source, contracts, step.span.resume, spans + [step.span])
    ensures step.Found? ==>
      Registrations(spans + [step.span]) ==
      Registrations(spans) + if step.span.found.Some? then [step.span.found.value] else []
  {
    step := ScanStep(source, contracts, from);
    SearchEnds(source, contracts, from, spans);
    if step.Found? {
      Regroup(source, contracts, from, spans, step.span);
      LastRegistration(spans, step.span);
    }
  }

  function Behind(spans: seq<Span>, rest: Scan): Scan {
    if rest.ScanFailed? then rest else Scanned(spans + rest.spans)
  }

  /** The whole search is these spans and what the rest of it comes to. */
  ghost predicate ScannedTo(s: string, contracts: set<string>, from: nat, spans: seq<Span>) {
    forall rest {:trigger Behind(spans, rest)} ::
      rest == ScanFrom(s, contracts, from) ==> ScanFrom(s, contracts, 0) == Behind(spans, rest)
  }

  lemma NothingScanned(s: string, contracts: set<string>)
    ensures ScannedTo(s, contracts, 0, []) && Registrations([]) == []
  {
    var rest := ScanFrom(s, contracts, 0);
    if rest.Scanned? { assert [] + rest.spans == rest.spans; }
  }

  lemma SearchEnds(s: string, contracts: set<string>, from: nat, spans: seq<Span>)
    requires ScannedTo(s, contracts, from, spans)
    ensures ScanStep(s, contracts, from).Done? || from >= |s| ==>
      Parse(s, contracts) == Registered(Registrations(spans))
    ensures ScanStep(s, contracts, from).Failed? ==>
      Parse(s, contracts) == ParseError(ScanStep(s, contracts, from).error)
  {
    assert ScanFrom(s, contracts, 0) == Behind(spans, ScanFrom(s, contracts, from));
    assert spans + [] == spans;
  }

  lemma ScanOnce(s: string, contracts: set<string>, from: nat, span: Span)
    requires ScanStep(s, contracts, from) == Found(span)
    ensures ScanFrom(s, contracts, from) == Behind([span], ScanFrom(s, contracts, span.resume))
  {
  }

  lemma Regroup(s: string, contracts: set<string>, from: nat, spans: seq<Span>, span: Span)
    requires ScannedTo(s, contracts, from, spans) && ScanStep(s, contracts, from) == Found(span)
    ensures ScannedTo(s, contracts, span.resume, spans + [span])
  {
    ScanOnce(s, contracts, from, span);
    Reassociate(spans, span, ScanFrom(s, contracts, from), ScanFrom(s, contracts, span.resume),
      ScanFrom(s, contracts, 0));
  }

  lemma Reassociate(spans: seq<Span>, span: Span, scan: Scan, rest: Scan, whole: Scan)
    requires scan == Behind([span], rest) && whole == Behind(spans, scan)
    ensures whole == Behind(spans + [span], rest)
  {
    if rest.Scanned? { assert spans + ([span] + rest.spans) == (spans + [span]) + rest.spans; }
  }

  lemma LastRegistration(spans: seq<Span>, span: Span)
    ensures Registrations(spans + [span]) == Registrations(spans) + if span.found.Some? then [span.found.value] else []
  {
    assert (spans + [span])[..|spans|] == spans;
  }

  method IsHandlerBodyEmpty(body: string) returns (empty: bool)
    ensures empty <==> AllSpace(Automaton(Code, body))
  {
    StripIsAutomaton(body);
    var stripped := StripJsComments(body);
    empty := AllSpace(stripped);
  }
}

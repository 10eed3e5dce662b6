/**
 What the registration scan finds (scripts/generate-svm-event-manifest.ts, parsePonderRegistrations), read off the
 text: the contract and the event of every call, which calls are registered, where their handler is and when it
 counts as empty, and what each error says.
 */
module SourceRegistrations {
  import opened Common
  import opened SourceScan

  // ---------------------------------------------------------------- the text of a call

  /** The first place from the given one on where the pattern starts. */
  ghost predicate FirstAt(s: string, pat: string, from: nat, i: nat) {
    from <= i && StartsAt(s, pat, i) && forall j :: from <= j < i ==> !StartsAt(s, pat, j)
  }

  ghost predicate NoneFrom(s: string, pat: string, from: nat) {
    forall j :: from <= j ==> !StartsAt(s, pat, j)
  }

  /** A call at `start` whose first string ends at `quote`. */
  ghost predicate CallAt(s: string, start: nat, quote: nat) {
    StartsAt(s, "ponder.on(\"", start) && FirstAt(s, "\"", start + 11, quote)
  }

  /** The string is the contract up to the first colon, and the event after it. */
  ghost predicate Names(s: string, start: nat, quote: nat, contract: string, event: string) {
    CallAt(s, start, quote) && s[start + 11..quote] == contract + ":" + event && ':' !in contract
  }

  ghost predicate Word(event: string) {
    event != [] && forall c :: c in event ==> 'A' <= c <= 'Z' || 'a' <= c <= 'z' || '0' <= c <= '9' || c == '_'
  }

  /** A call of a known contract and a well-formed event is a registration. */
  ghost predicate IsRegistered(contracts: set<string>, contract: string, event: string) {
    contract in contracts && Word(event)
  }

  /** A closing brace up to which as many braces are opened as closed. */
  ghost predicate Balanced(s: string, open: nat, i: nat) {
    open <= i < |s| && s[i] == '}' && multiset(s[open..i + 1])['{'] == multiset(s[open..i + 1])['}']
  }

  ghost predicate White(c: char) {
    c in {' ', '\t', '\n', '\U{000b}', '\U{000c}', '\r', '\U{00a0}', '\U{feff}'}
  }

  /** The handler opens at the first brace after the first arrow and closes at the matching one. */
  ghost predicate HandlerAt(s: string, quote: nat, open: nat, close: nat) {
    && (exists arrow: nat :: FirstAt(s, "=>", quote, arrow) && FirstAt(s, "{", arrow, open))
    && Balanced(s, open, close) && forall i :: open <= i < close ==> !Balanced(s, open, i)
  }

  /** The handler's body holds nothing but white space outside comments. */
  ghost predicate Idle(s: string, open: nat, close: nat)
    requires open < close < |s|
  {
    forall c :: c in Automaton(Code, s[open + 1..close]) ==> White(c)
  }

  ghost predicate Registers(s: string, span: Span, quote: nat, contract: string, event: string) {
    exists open: nat, close: nat ::
      && HandlerAt(s, quote, open, close) && open < close < |s| && span.resume == close + 1
      && span.found.Some? && span.found.value.contract == contract && span.found.value.event == event
      && (span.found.value.handlerEmpty <==> Idle(s, open, close))
  }

  /** What a span says of the text. */
  ghost predicate SpanMeans(s: string, contracts: set<string>, span: Span) {
    exists quote: nat, contract, event ::
      && Names(s, span.start, quote, contract, event)
      && (if IsRegistered(contracts, contract, event) then Registers(s, span, quote, contract, event)
          else span.found.None? && span.resume == quote + 1)
  }

  /** What an error says of the text: the call it is about, and what that call lacks. */
  ghost predicate ErrorMeans(s: string, contracts: set<string>, e: ScanError, start: nat) {
    exists quote: nat ::
      && CallAt(s, start, quote)
      && match e
         case InvalidTarget => ':' !in s[start + 11..quote]
         case MissingArrow => CallRegistered(s, contracts, start, quote) && NoneFrom(s, "=>", quote)
         case MissingBody =>
           CallRegistered(s, contracts, start, quote) &&
           exists arrow: nat :: FirstAt(s, "=>", quote, arrow) && NoneFrom(s, "{", arrow)
         case UnbalancedBraces =>
           CallRegistered(s, contracts, start, quote) &&
           exists arrow: nat, open: nat ::
             FirstAt(s, "=>", quote, arrow) && FirstAt(s, "{", arrow, open) && forall i :: !Balanced(s, open, i)
  }

  ghost predicate CallRegistered(s: string, contracts: set<string>, start: nat, quote: nat) {
    exists contract, event :: Names(s, start, quote, contract, event) && IsRegistered(contracts, contract, event)
  }

  // ---------------------------------------------------------------- braces and white space

  lemma {:induction false} DepthCounts(s: string, open: nat, i: nat)
    requires open <= i <= |s|
    ensures Depth(s, open, i) + multiset(s[open..i])['}'] == multiset(s[open..i])['{']
    decreases i - open
  {
    if open < i {
      DepthCounts(s, open, i - 1);
      assert s[open..i] == s[open..i - 1] + [s[i - 1]];
    }
  }

  lemma ClosesIs(s: string, open: nat, i: nat)
    ensures Closes(s, open, i) <==> Balanced(s, open, i)
  {
    if open <= i < |s| { DepthCounts(s, open, i + 1); }
  }

  /** The brace matcher finds the least place where the braces balance, and none exactly when there is none. */
  lemma MatchBalances(s: string, open: nat)
    ensures match MatchFrom(s, open, open)
      case Some(r) => Balanced(s, open, r) && forall i :: open <= i < r ==> !Balanced(s, open, i)
      case None => forall i :: !Balanced(s, open, i)
  {
    MatchIsLeast(s, open, open);
    forall i ensures Closes(s, open, i) <==> Balanced(s, open, i) { ClosesIs(s, open, i); }
  }

  /** A handler body is empty exactly when every character outside comments is white space. */
  lemma SpaceIs(s: string)
    ensures AllSpace(s) <==> forall c :: c in s ==> White(c)
  {
    forall c ensures IsSpace(c) <==> White(c) { CharIs(c); }
    if AllSpace(s) { forall c | c in s ensures White(c) {} }
    if forall c :: c in s ==> White(c) { forall i | 0 <= i < |s| ensures IsSpace(s[i]) { assert s[i] in s; } }
  }

  lemma CharIs(c: char)
    ensures IsSpace(c) <==> White(c)
  {
    assert '\t' as int == 9 && '\r' as int == 13;
  }

  // ---------------------------------------------------------------- one turn

  lemma IsFirst(s: string, pat: string, from: nat)
    ensures var r := IndexOf(s, pat, from); if r.Some? then FirstAt(s, pat, from, r.value) else NoneFrom(s, pat, from)
  {
  }

  lemma NeedleIs()
    ensures NEEDLE == "ponder.on(\"" && |NEEDLE| == 11
  {
  }

  /** Splitting at the first colon. */
  lemma SplitsAtColon(target: string)
    ensures var r := IndexOf(target, ":", 0);
      if r.None? then ':' !in target
      else target == target[..r.value] + ":" + target[r.value + 1..] && ':' !in target[..r.value]
  {
    ColonStarts(target);
  }

  lemma ColonStarts(target: string)
    ensures forall i :: 0 <= i < |target| ==> (target[i] == ':' <==> StartsAt(target, ":", i))
  {
    forall i | 0 <= i < |target| ensures target[i] == ':' <==> StartsAt(target, ":", i) {}
  }

  lemma WordIs(event: string)
    ensures IsWord(event) <==> Word(event)
  {
    if IsWord(event) { forall c | c in event ensures WordChar(c) {} }
    if Word(event) { forall i | 0 <= i < |event| ensures WordChar(event[i]) { assert event[i] in event; } }
  }

  /** What a handler search says. */
  ghost predicate HandlerMeans(s: string, start: nat, quote: nat, contract: string, event: string, r: Step) {
    match r
    case Done => false
    case Found(span) => span.start == start && Registers(s, span, quote, contract, event)
    case Failed(InvalidTarget) => false
    case Failed(MissingArrow) => NoneFrom(s, "=>", quote)
    case Failed(MissingBody) => exists arrow: nat :: FirstAt(s, "=>", quote, arrow) && NoneFrom(s, "{", arrow)
    case Failed(UnbalancedBraces) =>
      exists arrow: nat, open: nat ::
        FirstAt(s, "=>", quote, arrow) && FirstAt(s, "{", arrow, open) && forall i :: !Balanced(s, open, i)
  }

  lemma HandlerStepMeans(s: string, start: nat, quote: nat, contract: string, event: string)
    requires start < quote && StartsAt(s, NEEDLE, start)
    ensures HandlerMeans(s, start, quote, contract, event, HandlerStep(s, start, quote, contract, event))
  {
    IsFirst(s, "=>", quote);
    var arrow := IndexOf(s, "=>", quote);
    if arrow.Some? {
      IsFirst(s, "{", arrow.value);
      var open := IndexOf(s, "{", arrow.value);
      if open.Some? { BodyMeans(s, start, quote, contract, event, arrow.value, open.value); }
    }
  }

  lemma BodyMeans(s: string, start: nat, quote: nat, contract: string, event: string, arrow: nat, open: nat)
    requires start < quote && StartsAt(s, NEEDLE, start)
    requires IndexOf(s, "=>", quote) == Some(arrow) && IndexOf(s, "{", arrow) == Some(open)
    requires FirstAt(s, "=>", quote, arrow) && FirstAt(s, "{", arrow, open)
    ensures HandlerMeans(s, start, quote, contract, event, HandlerStep(s, start, quote, contract, event))
  {
    HandlerSteps(s, start, quote, contract, event, arrow, open);
    MatchMeans(s, start, quote, contract, event, arrow, open, MatchFrom(s, open, open));
  }

  function StepOf(s: string, start: nat, contract: string, event: string, open: nat, close: Option<nat>): Step
    requires close.Some? ==> open < close.value < |s|
  {
    if close.None? then Failed(UnbalancedBraces)
    else
      var empty := AllSpace(Strip(s[open + 1..close.value]));
      Found(Span(start, close.value + 1, Some(Registration(contract, event, empty))))
  }

  lemma HandlerSteps(s: string, start: nat, quote: nat, contract: string, event: string, arrow: nat, open: nat)
    requires start < quote && StartsAt(s, NEEDLE, start)
    requires IndexOf(s, "=>", quote) == Some(arrow) && IndexOf(s, "{", arrow) == Some(open)
    ensures var close := MatchFrom(s, open, open);
      && (close.Some? ==> open < close.value < |s|)
      && HandlerStep(s, start, quote, contract, event) == StepOf(s, start, contract, event, open, close)
  {
    MatchIsLeast(s, open, open);
    assert StartsAt(s, "{", open) && s[open] == '{';
  }

  lemma MatchMeans(s: string, start: nat, quote: nat, contract: string, event: string, arrow: nat, open: nat,
      close: Option<nat>)
    requires FirstAt(s, "=>", quote, arrow) && FirstAt(s, "{", arrow, open) && close == MatchFrom(s, open, open)
    requires close.Some? ==> open < close.value < |s|
    ensures HandlerMeans(s, start, quote, contract, event, StepOf(s, start, contract, event, open, close))
  {
    MatchBalances(s, open);
    if close.Some? { ClosedMeans(s, start, quote, contract, event, arrow, open, close.value); }
  }

  lemma ClosedMeans(s: string, start: nat, quote: nat, contract: string, event: string, arrow: nat, open: nat,
      close: nat)
    requires FirstAt(s, "=>", quote, arrow) && FirstAt(s, "{", arrow, open)
    requires Balanced(s, open, close) && forall i :: open <= i < close ==> !Balanced(s, open, i)
    ensures open < close < |s|
    ensures var empty := AllSpace(Strip(s[open + 1..close]));
      Registers(s, Span(start, close + 1, Some(Registration(contract, event, empty))), quote, contract, event)
  {
    assert StartsAt(s, "{", open) && s[open] == '{';
    StripIsAutomaton(s[open + 1..close]);
    SpaceIs(Automaton(Code, s[open + 1..close]));
    assert HandlerAt(s, quote, open, close);
  }

  /** One turn of the search, read off the text. */
  ghost predicate StepMeans(s: string, contracts: set<string>, from: nat, r: Step) {
    match r
    case Done =>
      || NoneFrom(s, "ponder.on(\"", from)
      || exists start: nat :: FirstAt(s, "ponder.on(\"", from, start) && NoneFrom(s, "\"", start + 11)
    case Found(span) => FirstAt(s, "ponder.on(\"", from, span.start) && SpanMeans(s, contracts, span)
    case Failed(e) => exists start: nat :: FirstAt(s, "ponder.on(\"", from, start) && ErrorMeans(s, contracts, e, start)
  }

  lemma StepIs(s: string, contracts: set<string>, from: nat)
    ensures StepMeans(s, contracts, from, ScanStep(s, contracts, from))
  {
    NeedleIs();
    IsFirst(s, NEEDLE, from);
    var start := IndexOf(s, NEEDLE, from);
    if from < |s| && start.Some? {
      IsFirst(s, "\"", start.value + 11);
      var quote := IndexOf(s, "\"", start.value + 11);
      if quote.Some? { CallMeans(s, contracts, from, start.value, quote.value); }
    }
  }

  lemma CallMeans(s: string, contracts: set<string>, from: nat, start: nat, quote: nat)
    requires from < |s| && IndexOf(s, NEEDLE, from) == Some(start) && IndexOf(s, "\"", start + 11) == Some(quote)
    requires FirstAt(s, "ponder.on(\"", from, start) && FirstAt(s, "\"", start + 11, quote)
    ensures StepMeans(s, contracts, from, ScanStep(s, contracts, from))
  {
    NeedleIs();
    TargetMeans(s, contracts, from, start, quote, s[start + 11..quote]);
  }

  lemma TargetMeans(s: string, contracts: set<string>, from: nat, start: nat, quote: nat, target: string)
    requires FirstAt(s, "ponder.on(\"", from, start) && FirstAt(s, "\"", start + 11, quote)
    requires start < quote && StartsAt(s, NEEDLE, start) && target == s[start + 11..quote]
    ensures StepMeans(s, contracts, from, CallStep(s, contracts, start, quote, target))
  {
    var split := IndexOf(target, ":", 0);
    if split.None? {
      NoColonMeans(s, contracts, from, start, quote, target);
    } else {
      SplitsAtColon(target);
      NamedMeans(s, contracts, from, start, quote, target[..split.value], target[split.value + 1..]);
    }
  }

  lemma NoColonMeans(s: string, contracts: set<string>, from: nat, start: nat, quote: nat, target: string)
    requires FirstAt(s, "ponder.on(\"", from, start) && FirstAt(s, "\"", start + 11, quote)
    requires target == s[start + 11..quote] && IndexOf(target, ":", 0).None?
    ensures StepMeans(s, contracts, from, Failed(InvalidTarget))
  {
    SplitsAtColon(target);
    assert CallAt(s, start, quote);
    assert ErrorMeans(s, contracts, InvalidTarget, start);
  }

  lemma NamedMeans(s: string, contracts: set<string>, from: nat, start: nat, quote: nat, contract: string,
      event: string)
    requires FirstAt(s, "ponder.on(\"", from, start) && Names(s, start, quote, contract, event)
    requires start < quote && StartsAt(s, NEEDLE, start)
    ensures StepMeans(s, contracts, from,
      if contract !in contracts || !IsWord(event) then Found(Span(start, quote + 1, None))
      else HandlerStep(s, start, quote, contract, event))
  {
    WordIs(event);
    if IsRegistered(contracts, contract, event) {
      HandlerStepMeans(s, start, quote, contract, event);
      RegisteredMeans(s, contracts, from, start, quote, contract, event, HandlerStep(s, start, quote, contract, event));
    } else {
      assert SpanMeans(s, contracts, Span(start, quote + 1, None));
    }
  }

  lemma RegisteredMeans(s: string, contracts: set<string>, from: nat, start: nat, quote: nat, contract: string,
      event: string, r: Step)
    requires FirstAt(s, "ponder.on(\"", from, start) && Names(s, start, quote, contract, event)
    requires IsRegistered(contracts, contract, event) && HandlerMeans(s, start, quote, contract, event, r)
    ensures StepMeans(s, contracts, from, r)
  {
    assert CallRegistered(s, contracts, start, quote);
    if r.Failed? { assert ErrorMeans(s, contracts, r.error, start); }
  }

  // ---------------------------------------------------------------- the whole scan

  ghost predicate AllMean(s: string, contracts: set<string>, spans: seq<Span>) {
    forall i :: 0 <= i < |spans| ==> SpanMeans(s, contracts, spans[i])
  }

  ghost predicate ScanIs(s: string, contracts: set<string>, from: nat, scan: Scan) {
    match scan
    case Scanned(spans) => AllMean(s, contracts, spans)
    case ScanFailed(e) => exists start: nat :: from <= start && ErrorMeans(s, contracts, e, start)
  }

  lemma BehindMeans(s: string, contracts: set<string>, from: nat, span: Span, rest: Scan)
    requires SpanMeans(s, contracts, span) && from <= span.resume && ScanIs(s, contracts, span.resume, rest)
    ensures ScanIs(s, contracts, from, Behind([span], rest))
  {
  }

  /** Every span says what its call says; an error says what the call it is about lacks. */
  lemma {:induction false} ScanMeans(s: string, contracts: set<string>, from: nat)
    ensures ScanIs(s, contracts, from, ScanFrom(s, contracts, from))
    decreases |s| - from
  {
    StepIs(s, contracts, from);
    var step := ScanStep(s, contracts, from);
    if step.Found? {
      ScanMeans(s, contracts, step.span.resume);
      ScanOnce(s, contracts, from, step.span);
      BehindMeans(s, contracts, from, step.span, ScanFrom(s, contracts, step.span.resume));
    }
  }

  /** The registrations are what the spans carry, in their order. */
  lemma {:induction false} RegistrationsInOrder(a: seq<Span>, b: seq<Span>)
    ensures Registrations(a + b) == Registrations(a) + Registrations(b)
    decreases |b|
  {
    if b == [] {
      assert a + b == a;
    } else {
      var c, last := b[..|b| - 1], b[|b| - 1];
      RegistrationsInOrder(a, c);
      LastRegistration(a + c, last);
      LastRegistration(c, last);
      assert a + b == a + c + [last] && b == c + [last];
    }
  }

  lemma OneRegistration(span: Span)
    ensures Registrations([span]) == if span.found.Some? then [span.found.value] else []
  {
    assert [] + [span] == [span];
    LastRegistration([], span);
  }

  /** The result of the scan is the registrations of spans that mean what they say, or an error that does. */
  lemma ParseMeans(s: string, contracts: set<string>) returns (spans: seq<Span>)
    ensures match Parse(s, contracts)
      case Registered(rs) => rs == Registrations(spans) && InOrder(spans, 0) && AllMean(s, contracts, spans)
      case ParseError(e) => exists start: nat :: ErrorMeans(s, contracts, e, start)
  {
    ScanMeans(s, contracts, 0);
    ScanInOrder(s, contracts, 0);
    var scan := ScanFrom(s, contracts, 0);
    spans := if scan.Scanned? then scan.spans else [];
  }
}

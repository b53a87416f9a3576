/**
 The theorems about the log ask its line format to be lossless. This module gives one such format, so the
 assumption can be met: lines are written as tagged fields, each of which marks its own end.
 */
module LineFormat {
  import opened Basics
  import opened Text
  import opened Conversation

  // ----- Fields that mark their own end -----

  /** No line feed and no carriage return inside, and a full stop at the end. */
  function Quote(s: string): string {
    if s == "" then "." else Escape(s[0]) + Quote(s[1..])
  }

  function Escape(c: char): string {
    if c == '\n' then "n" else if c == '\r' then "r" else ['c', c]
  }

  function Digits(n: nat): string {
    if n == 0 then "." else "1" + Digits(n - 1)
  }

  function Numbers(s: seq<nat>): string {
    if s == [] then "." else "1" + (Digits(s[0]) + Numbers(s[1..]))
  }

  function Maybe(s: Option<string>): string {
    if s.Some? then "1" + Quote(s.value) else "0"
  }

  lemma SameStart(a: string, b: string, x: string, y: string)
    requires |a| == |b| && a + x == b + y
    ensures a == b && x == y
  {
    assert (a + x)[..|a|] == a && (b + y)[..|b|] == b;
    assert (a + x)[|a|..] == x && (b + y)[|b|..] == y;
  }

  lemma EscapesDiffer(a: char, b: char)
    requires Escape(a)[0] == Escape(b)[0]
    ensures |Escape(a)| == |Escape(b)| && (Escape(a) == Escape(b) ==> a == b)
  {
    assert |Escape(a)| == 2 ==> Escape(a)[1] == a;
    assert |Escape(b)| == 2 ==> Escape(b)[1] == b;
  }

  lemma QuotedFirst(a: string, x: string)
    requires a != ""
    ensures Quote(a) + x == Escape(a[0]) + (Quote(a[1..]) + x)
  {
    hide Escape;
  }

  lemma {:induction false} QuoteSplits(a: string, b: string, x: string, y: string)
    requires Quote(a) + x == Quote(b) + y
    ensures a == b && x == y
  {
    hide Quote;
    QuoteStarts(a, x);
    QuoteStarts(b, y);
    if a == "" || b == "" {
      SameStart(".", ".", x, y);
    } else {
      hide Escape;
      var restA, restB := Quote(a[1..]) + x, Quote(b[1..]) + y;
      QuotedFirst(a, x);
      QuotedFirst(b, y);
      EscapesDiffer(a[0], b[0]);
      SameStart(Escape(a[0]), Escape(b[0]), restA, restB);
      QuoteSplits(a[1..], b[1..], x, y);
      assert a == [a[0]] + a[1..] && b == [b[0]] + b[1..];
    }
  }

  lemma QuoteStarts(a: string, x: string)
    ensures Quote(a) + x != ""
    ensures a == "" ==> Quote(a) + x == "." + x
    ensures a != "" ==> (Quote(a) + x)[0] == Escape(a[0])[0] && (Quote(a) + x)[0] != '.'
  {
  }

  lemma {:induction false} DigitsSplit(a: nat, b: nat, x: string, y: string)
    requires Digits(a) + x == Digits(b) + y
    ensures a == b && x == y
  {
    var text := Digits(a) + x;
    assert text[0] == Digits(a)[0] == Digits(b)[0];
    if a == 0 {
      assert text[1..] == x && text[1..] == y;
    } else {
      assert text[1..] == Digits(a - 1) + x && text[1..] == Digits(b - 1) + y;
      DigitsSplit(a - 1, b - 1, x, y);
    }
  }

  lemma {:induction false} NumbersSplit(a: seq<nat>, b: seq<nat>, x: string, y: string)
    requires Numbers(a) + x == Numbers(b) + y
    ensures a == b && x == y
  {
    var text := Numbers(a) + x;
    assert text[0] == Numbers(a)[0] == Numbers(b)[0];
    if a == [] {
      assert text[1..] == x && text[1..] == y;
    } else {
      assert text[1..] == Digits(a[0]) + (Numbers(a[1..]) + x);
      assert text[1..] == Digits(b[0]) + (Numbers(b[1..]) + y);
      DigitsSplit(a[0], b[0], Numbers(a[1..]) + x, Numbers(b[1..]) + y);
      NumbersSplit(a[1..], b[1..], x, y);
      assert a == [a[0]] + a[1..] && b == [b[0]] + b[1..];
    }
  }

  lemma MarkSplits(a: char, b: char, x: string, y: string)
    requires [a] + x == [b] + y
    ensures a == b && x == y
  {
    assert ([a] + x)[0] == a && ([b] + y)[0] == b;
    assert ([a] + x)[1..] == x && ([b] + y)[1..] == y;
  }

  lemma MaybeSplits(a: Option<string>, b: Option<string>, x: string, y: string)
    requires Maybe(a) + x == Maybe(b) + y
    ensures a == b && x == y
  {
    hide Quote;
    var restA := if a.Some? then Quote(a.value) + x else x;
    var restB := if b.Some? then Quote(b.value) + y else y;
    var markA, markB := if a.Some? then '1' else '0', if b.Some? then '1' else '0';
    assert Maybe(a) + x == [markA] + restA && Maybe(b) + y == [markB] + restB;
    MarkSplits(markA, markB, restA, restB);
    if a.Some? { QuoteSplits(a.value, b.value, x, y); }
  }

  // ----- Lines -----

  function PhaseMark(phase: Option<Phase>): char {
    if phase.None? then '-' else if phase.value.Request? then 'q' else 's'
  }

  function KindMark(kind: Kind): char {
    match kind
    case Message => 'm'
    case Reasoning => 'r'
    case ToolCall => 'c'
    case ToolResult => 't'
    case Usage => 'u'
    case Error => 'e'
  }

  function StatusMark(status: Status): char {
    match status
    case Writing => 'w'
    case Completed => 'c'
    case Failed => 'f'
    case Partial => 'p'
  }

  /** The fields of a line behind its mark. */
  function Fields(v: LineValue): (char, string)
    requires IsWritten(v)
  {
    if v.Header? then ('H', Quote(v.threadId))
    else
      var seqNo := Digits(v.event.seqNo);
      match v.event.body
      case Window(window) => ('W', seqNo + (Maybe(window.value.windowId) + (Digits(window.value.generation) + ".")))
      case Turn(turnId, details) => ('T', seqNo + (Quote(turnId.value) + (Quote(details) + ".")))
      case Content(kind, payload) =>
        ('C', seqNo + ([KindMark(kind)]
          + ([PhaseMark(payload.phase)] + (Maybe(payload.toolCallId) + (Quote(payload.json) + ".")))))
      case Context(refs) => ('X', seqNo + (Numbers(refs.value) + "."))
      case TurnEnd(status, details) => ('E', seqNo + ([StatusMark(status)] + (Quote(details) + ".")))
  }

  function Line(v: LineValue): string
    requires IsWritten(v)
  {
    [Fields(v).0] + Fields(v).1
  }

  lemma MarksDiffer(a: Kind, b: Kind, p: Option<Phase>, q: Option<Phase>, s: Status, t: Status)
    ensures KindMark(a) == KindMark(b) <==> a == b
    ensures PhaseMark(p) == PhaseMark(q) <==> p == q
    ensures StatusMark(s) == StatusMark(t) <==> s == t
  {
  }

  /** A line determines its value. */
  lemma LinesDiffer(v: LineValue, u: LineValue)
    requires IsWritten(v) && IsWritten(u) && Line(v) == Line(u)
    ensures v == u
  {
    hide Quote, Digits, Numbers, Maybe, KindMark, PhaseMark, StatusMark;
    MarkSplits(Fields(v).0, Fields(u).0, Fields(v).1, Fields(u).1);
    if v.Header? {
      assert Quote(v.threadId) + "" == Quote(v.threadId) && Quote(u.threadId) + "" == Quote(u.threadId);
      QuoteSplits(v.threadId, u.threadId, "", "");
    } else {
      var n, m := v.event.seqNo, u.event.seqNo;
      match v.event.body
      case Window(a) =>
        var b := u.event.body.window;
        var x, y := Digits(a.value.generation) + ".", Digits(b.value.generation) + ".";
        DigitsSplit(n, m, Maybe(a.value.windowId) + x, Maybe(b.value.windowId) + y);
        MaybeSplits(a.value.windowId, b.value.windowId, x, y);
        DigitsSplit(a.value.generation, b.value.generation, ".", ".");
      case Turn(a, d) =>
        var b, e := u.event.body.turnId, u.event.body.details;
        DigitsSplit(n, m, Quote(a.value) + (Quote(d) + "."), Quote(b.value) + (Quote(e) + "."));
        QuoteSplits(a.value, b.value, Quote(d) + ".", Quote(e) + ".");
        QuoteSplits(d, e, ".", ".");
      case Content(k, p) =>
        ContentDiffers(n, m, k, u.event.body.kind, p, u.event.body.payload);
      case Context(a) =>
        var b := u.event.body.refs;
        DigitsSplit(n, m, Numbers(a.value) + ".", Numbers(b.value) + ".");
        NumbersSplit(a.value, b.value, ".", ".");
      case TurnEnd(a, d) =>
        var b, e := u.event.body.status, u.event.body.details;
        DigitsSplit(n, m, [StatusMark(a)] + (Quote(d) + "."), [StatusMark(b)] + (Quote(e) + "."));
        MarkSplits(StatusMark(a), StatusMark(b), Quote(d) + ".", Quote(e) + ".");
        MarksDiffer(Usage, Usage, None, None, a, b);
        QuoteSplits(d, e, ".", ".");
    }
  }

  lemma ContentDiffers(n: nat, m: nat, k: Kind, l: Kind, p: Payload, q: Payload)
    requires Digits(n) + ([KindMark(k)] + ([PhaseMark(p.phase)] + (Maybe(p.toolCallId) + (Quote(p.json) + "."))))
          == Digits(m) + ([KindMark(l)] + ([PhaseMark(q.phase)] + (Maybe(q.toolCallId) + (Quote(q.json) + "."))))
    ensures n == m && k == l && p == q
  {
    hide Quote, Digits, Maybe, KindMark, PhaseMark;
    var x2, y2 := Quote(p.json) + ".", Quote(q.json) + ".";
    var x1, y1 := Maybe(p.toolCallId) + x2, Maybe(q.toolCallId) + y2;
    var x0, y0 := [PhaseMark(p.phase)] + x1, [PhaseMark(q.phase)] + y1;
    DigitsSplit(n, m, [KindMark(k)] + x0, [KindMark(l)] + y0);
    MarkSplits(KindMark(k), KindMark(l), x0, y0);
    MarkSplits(PhaseMark(p.phase), PhaseMark(q.phase), x1, y1);
    MarksDiffer(k, l, p.phase, q.phase, Writing, Writing);
    MaybeSplits(p.toolCallId, q.toolCallId, x2, y2);
    QuoteSplits(p.json, q.json, ".", ".");
  }

  // ----- The format is plain and lossless -----

  predicate Clean(s: string) {
    '\n' !in s && '\r' !in s
  }

  lemma {:induction false} QuoteIsClean(s: string)
    ensures Clean(Quote(s))
  {
    if s == "" {
    } else {
      QuoteIsClean(s[1..]);
    }
  }

  lemma {:induction false} DigitsAreClean(n: nat)
    ensures Clean(Digits(n))
  {
    if n == 0 {
    } else {
      DigitsAreClean(n - 1);
    }
  }

  lemma {:induction false} NumbersAreClean(s: seq<nat>)
    ensures Clean(Numbers(s))
  {
    if s == [] {
    } else {
      DigitsAreClean(s[0]);
      NumbersAreClean(s[1..]);
    }
  }

  lemma MaybeIsClean(s: Option<string>)
    ensures Clean(Maybe(s))
  {
    if s.Some? { QuoteIsClean(s.value); }
  }

  lemma LineIsPlain(v: LineValue)
    requires IsWritten(v)
    ensures PlainLine(Line(v))
  {
    hide Quote, Digits, Numbers, Maybe;
    if v.Header? {
      QuoteIsClean(v.threadId);
    } else {
      DigitsAreClean(v.event.seqNo);
      match v.event.body
      case Window(window) =>
        MaybeIsClean(window.value.windowId);
        DigitsAreClean(window.value.generation);
      case Turn(turnId, details) =>
        QuoteIsClean(turnId.value);
        QuoteIsClean(details);
      case Content(kind, payload) =>
        MaybeIsClean(payload.toolCallId);
        QuoteIsClean(payload.json);
      case Context(refs) => NumbersAreClean(refs.value);
      case TurnEnd(status, details) => QuoteIsClean(details);
    }
    assert Clean(Line(v));
  }

  ghost function Print(v: LineValue): string {
    if IsWritten(v) then Line(v) else ""
  }

  ghost predicate Prints(v: LineValue, line: string) {
    IsWritten(v) && Line(v) == line
  }

  ghost function Read(line: string): LineValue {
    if exists v :: Prints(v, line) then (var v :| Prints(v, line); v) else Garbage
  }

  lemma ReadPrinted(v: LineValue)
    requires IsWritten(v)
    ensures Read(Print(v)) == v
  {
    assert Prints(v, Line(v));
    LinesDiffer(v, Read(Line(v)));
  }

  /** With any redaction there is a lossless line format. */
  lemma LosslessExists(redactText: string -> string, redactJson: string -> string) returns (wire: Wire)
    ensures wire.Lossless() && wire.redactText == redactText && wire.redactJson == redactJson
  {
    wire := Wire(v => Print(v), line => Read(line), redactText, redactJson);
    forall v: LineValue | IsWritten(v) ensures PlainLine(wire.render(v)) && wire.parse(wire.render(v)) == v {
      LineIsPlain(v);
      ReadPrinted(v);
    }
  }
}

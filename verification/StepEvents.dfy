/** The step events a batch script prints into its own output, and the scanner that takes them
    out again. */
module StepEvents {
  import opened Types

  datatype Step = Step(index: int, exitCode: int, duration: int)

  /** What the JSON decoder and the field conversions make of an event text. */
  datatype Parsed =
    | Malformed
    | NotObject
    | Other
    | BadEnd
    | End(step: Step)

  datatype Scan = Crashed | Scanned(clean: string, steps: seq<Step>)

  predicate Occurs(p: string, s: string, i: nat) {
    i + |p| <= |s| && s[i..i + |p|] == p
  }

  predicate Contains(p: string, s: string) {
    exists i: nat | i <= |s| :: Occurs(p, s, i)
  }

  /** The first place where `p` occurs. */
  function Find(p: string, s: string): (r: Option<nat>)
    ensures r.Some? ==> Occurs(p, s, r.value) && forall i: nat :: i < r.value ==> !Occurs(p, s, i)
    ensures r.None? ==> forall i: nat :: !Occurs(p, s, i)
  {
    if p <= s then Some(0)
    else if s == "" then None
    else
      var rest := Find(p, s[1..]);
      assert forall i: nat :: i > 0 && Occurs(p, s, i) ==> Occurs(p, s[1..], i - 1);
      if rest.None? then None else Some(rest.value + 1)
  }

  function StripReturns(s: string): (r: string)
    ensures r <= s
  {
    if s != "" && s[|s| - 1] == '\r' then StripReturns(s[..|s| - 1]) else s
  }

  /** The text of the event whose prefix ends at `start`, and where its line ends. */
  function EventLine(s: string, start: nat): (r: (string, nat))
    requires start <= |s|
    ensures start <= r.1 <= |s|
  {
    match Find("\n", s[start..])
    case None => (s[start..], |s|)
    case Some(k) => (StripReturns(s[start..][..k]), start + k + 1)
  }

  function Before(text: string, steps: seq<Step>, rest: Scan): Scan {
    if rest.Crashed? then Crashed else Scanned(text + rest.clean, steps + rest.steps)
  }

  /** The scan of what is left of the output. */
  function ScanFrom(parse: string -> Parsed, prefix: string, s: string): Scan
    requires prefix != ""
    decreases |s|
  {
    match Find(prefix, s)
    case None => Scanned(s, [])
    case Some(at) =>
      var (text, next) := EventLine(s, at + |prefix|);
      match parse(text)
      case Malformed => Before(s[..next], [], ScanFrom(parse, prefix, s[next..]))
      case NotObject => Crashed
      case BadEnd => Crashed
      case Other => Before(s[..at], [], ScanFrom(parse, prefix, s[next..]))
      case End(step) => Before(s[..at], [step], ScanFrom(parse, prefix, s[next..]))
  }

  lemma ScanStep(parse: string -> Parsed, prefix: string, s: string, at: nat, text: string, next: nat)
    requires prefix != "" && Find(prefix, s) == Some(at) && at + |prefix| <= |s| && EventLine(s, at + |prefix|) == (text, next)
    ensures at < next <= |s|
    ensures ScanFrom(parse, prefix, s) ==
      match parse(text)
      case Malformed => Before(s[..next], [], ScanFrom(parse, prefix, s[next..]))
      case NotObject => Crashed
      case BadEnd => Crashed
      case Other => Before(s[..at], [], ScanFrom(parse, prefix, s[next..]))
      case End(step) => Before(s[..at], [step], ScanFrom(parse, prefix, s[next..]))
  {
    hide Find, EventLine, Before, Occurs, StripReturns;
  }

  method ExtractAgentStepEvents(parse: string -> Parsed, prefix: string, stdout: string) returns (r: Scan)
    requires prefix != ""
    ensures r == ScanFrom(parse, prefix, stdout)
  {
    hide ScanFrom, Find, EventLine, Before, Occurs, StripReturns;
    var cleanParts: string := "";
    var steps: seq<Step> := [];
    var pos := 0;
    assert stdout[0..] == stdout;
    NothingBefore(ScanFrom(parse, prefix, stdout));
    while true
      invariant pos <= |stdout|
      invariant ScanFrom(parse, prefix, stdout) == Before(cleanParts, steps, ScanFrom(parse, prefix, stdout[pos..]))
      decreases |stdout| - pos
    {
      var rest := stdout[pos..];
      var marker := Find(prefix, rest);
      if marker.None? {
        ScanEnd(parse, prefix, rest);
        BeforeText(cleanParts, steps, rest, Scanned("", []));
        return Scanned(cleanParts + rest, steps);
      }
      var at := marker.value;
      MarkerFits(prefix, rest, at);
      var (text, next) := EventLine(rest, at + |prefix|);
      ScanStep(parse, prefix, rest, at, text, next);
      assert stdout[pos + next..] == rest[next..];
      ghost var later := ScanFrom(parse, prefix, rest[next..]);
      match parse(text) {
        case Malformed =>
          assert rest[..at] + rest[at..next] == rest[..next];
          BeforeText(cleanParts, steps, rest[..next], later);
          cleanParts := cleanParts + (rest[..at] + rest[at..next]);
        case NotObject =>
          NothingAfter(cleanParts, steps);
          return Crashed;
        case BadEnd =>
          NothingAfter(cleanParts, steps);
          return Crashed;
        case Other =>
          BeforeText(cleanParts, steps, rest[..at], later);
          cleanParts := cleanParts + rest[..at];
        case End(step) =>
          BeforeBefore(cleanParts, steps, rest[..at], [step], later);
          cleanParts := cleanParts + rest[..at];
          steps := steps + [step];
      }
      pos := pos + next;
    }
  }

  lemma ScanEnd(parse: string -> Parsed, prefix: string, s: string)
    requires prefix != "" && Find(prefix, s).None?
    ensures ScanFrom(parse, prefix, s) == Before(s, [], Scanned("", []))
  {
  }

  lemma MarkerFits(prefix: string, s: string, at: nat)
    requires Find(prefix, s) == Some(at)
    ensures at + |prefix| <= |s|
  {
  }

  lemma BeforeText(a: string, xs: seq<Step>, b: string, rest: Scan)
    ensures Before(a, xs, Before(b, [], rest)) == Before(a + b, xs, rest)
    ensures rest == Scanned("", []) ==> Before(a + b, xs, rest) == Scanned(a + b, xs)
  {
    BeforeBefore(a, xs, b, [], rest);
    assert xs + [] == xs;
  }

  lemma NothingBefore(rest: Scan)
    ensures Before("", [], rest) == rest
  {
  }

  lemma NothingAfter(clean: string, steps: seq<Step>)
    ensures Before(clean, steps, Crashed) == Crashed
  {
  }

  lemma BeforeBefore(a: string, xs: seq<Step>, b: string, ys: seq<Step>, rest: Scan)
    ensures Before(a, xs, Before(b, ys, rest)) == Before(a + b, xs + ys, rest)
  {
    if rest.Scanned? {
      assert a + (b + rest.clean) == (a + b) + rest.clean;
      assert xs + (ys + rest.steps) == (xs + ys) + rest.steps;
    }
  }

  /** Nothing but `p` itself, put behind `text`, is an occurrence of `p`. */
  predicate Clear(p: string, text: string) {
    Find(p, text + p) == Some(|text|)
  }

  predicate OneLine(body: string) {
    '\n' !in body && (body != "" ==> body[|body| - 1] != '\r')
  }

  lemma ClearStays(p: string, text: string, rest: string)
    requires Clear(p, text)
    ensures Find(p, text + p + rest) == Some(|text|)
  {
    var s := text + p + rest;
    assert s[|text|..|text| + |p|] == p;
    assert Occurs(p, s, |text|);
    forall i: nat | i < |text| ensures !Occurs(p, s, i) {
      assert !Occurs(p, text + p, i);
      assert i + |p| <= |text + p| && s[i..i + |p|] == (text + p)[i..i + |p|];
    }
  }

  lemma ClearHasNone(p: string, text: string)
    requires Clear(p, text) && p != ""
    ensures Find(p, text).None?
  {
    if Find(p, text).Some? {
      var i := Find(p, text).value;
      assert (text + p)[i..i + |p|] == text[i..i + |p|];
      assert Occurs(p, text + p, i);
    }
  }

  lemma LineEnds(body: string, rest: string)
    requires '\n' !in body
    ensures Find("\n", body + "\n" + rest) == Some(|body|)
  {
    var s := body + "\n" + rest;
    assert s[|body|..|body| + 1] == "\n";
    assert Occurs("\n", s, |body|);
    forall i: nat | i < |body| ensures !Occurs("\n", s, i) {
      assert s[i..i + 1][0] == body[i];
    }
  }

  /** The scanner at one whole event line behind a text. */
  lemma AtEvent(p: string, text: string, body: string, rest: string)
    requires Clear(p, text) && OneLine(body)
    ensures var s := text + (p + body + "\n" + rest);
      && Find(p, s) == Some(|text|)
      && |text| + |p| <= |s|
      && EventLine(s, |text| + |p|) == (body, |text| + |p| + |body| + 1)
      && s[..|text|] == text && s[|text| + |p| + |body| + 1..] == rest
      && s[..|text| + |p| + |body| + 1] == text + (p + body + "\n")
  {
    hide Find, EventLine, OneLine, Clear;
    var s := text + (p + body + "\n" + rest);
    Slices(text, p, body + "\n", rest);
    assert p + body + "\n" + rest == p + (body + "\n") + rest;
    assert p + (body + "\n") == p + body + "\n";
    ClearStays(p, text, body + "\n" + rest);
    LineBehind(s, |text| + |p|, body, rest);
  }

  lemma Slices(a: string, p: string, b: string, c: string)
    ensures var s := a + (p + b + c);
      && s == a + p + (b + c)
      && s[..|a|] == a && s[|a| + |p|..] == b + c && s[|a| + |p| + |b|..] == c && s[..|a| + |p| + |b|] == a + (p + b)
  {
  }

  lemma LineBehind(s: string, start: nat, body: string, rest: string)
    requires start <= |s| && s[start..] == body + "\n" + rest && OneLine(body)
    ensures EventLine(s, start) == (body, start + |body| + 1)
  {
    LineEnds(body, rest);
    assert s[start..][..|body|] == body;
  }

  lemma ScanAtEvent(parse: string -> Parsed, p: string, text: string, body: string, rest: string)
    requires p != "" && Clear(p, text) && OneLine(body)
    ensures ScanFrom(parse, p, text + (p + body + "\n" + rest)) ==
      match parse(body)
      case Malformed => Before(text + (p + body + "\n"), [], ScanFrom(parse, p, rest))
      case NotObject => Crashed
      case BadEnd => Crashed
      case Other => Before(text, [], ScanFrom(parse, p, rest))
      case End(step) => Before(text, [step], ScanFrom(parse, p, rest))
  {
    hide ScanFrom, Find, EventLine, Before, Clear, OneLine;
    AtEvent(p, text, body, rest);
    ScanStep(parse, p, text + (p + body + "\n" + rest), |text|, body, |text| + |p| + |body| + 1);
  }

  function Returns(n: nat): string {
    seq(n, _ => '\r')
  }

  lemma {:induction false} StripsReturns(body: string, n: nat)
    requires OneLine(body)
    ensures StripReturns(body + Returns(n)) == body
  {
    if n == 0 {
      assert body + Returns(0) == body;
    } else {
      StripsReturns(body, n - 1);
      assert (body + Returns(n))[..|body| + n - 1] == body + Returns(n - 1);
      assert (body + Returns(n))[|body| + n - 1] == '\r';
    }
  }

  /** Carriage returns before the newline do not matter: the event is the same, and only a line
      that does not decode keeps them. */
  lemma ScanAtReturned(parse: string -> Parsed, p: string, text: string, body: string, n: nat, rest: string)
    requires p != "" && Clear(p, text) && OneLine(body)
    ensures ScanFrom(parse, p, text + (p + (body + Returns(n)) + "\n" + rest)) ==
      match parse(body)
      case Malformed => Before(text + (p + (body + Returns(n)) + "\n"), [], ScanFrom(parse, p, rest))
      case NotObject => Crashed
      case BadEnd => Crashed
      case Other => Before(text, [], ScanFrom(parse, p, rest))
      case End(step) => Before(text, [step], ScanFrom(parse, p, rest))
  {
    var line := body + Returns(n);
    hide ScanFrom, Find, EventLine, Before, Clear, StripReturns;
    StripsReturns(body, n);
    assert '\n' !in line;
    hide Returns, OneLine;
    AtLine(p, text, line, rest);
    ScanStep(parse, p, text + (p + line + "\n" + rest), |text|, body, |text| + |p| + |line| + 1);
  }

  lemma AtLine(p: string, text: string, line: string, rest: string)
    requires Clear(p, text) && '\n' !in line
    ensures var s := text + (p + line + "\n" + rest);
      && Find(p, s) == Some(|text|)
      && |text| + |p| <= |s|
      && EventLine(s, |text| + |p|) == (StripReturns(line), |text| + |p| + |line| + 1)
      && s[..|text|] == text && s[|text| + |p| + |line| + 1..] == rest
      && s[..|text| + |p| + |line| + 1] == text + (p + line + "\n")
  {
    hide Find, EventLine, Clear, StripReturns;
    var s := text + (p + line + "\n" + rest);
    Slices(text, p, line + "\n", rest);
    assert p + line + "\n" + rest == p + (line + "\n") + rest;
    assert p + (line + "\n") == p + line + "\n";
    ClearStays(p, text, line + "\n" + rest);
    LineGiven(s, |text| + |p|, line, rest);
  }

  lemma LineGiven(s: string, start: nat, line: string, rest: string)
    requires start <= |s| && s[start..] == line + "\n" + rest && '\n' !in line
    ensures EventLine(s, start) == (StripReturns(line), start + |line| + 1)
  {
    hide Find, StripReturns;
    LineEnds(line, rest);
    assert s[start..][..|line|] == line;
  }

  /** What a command does when the batch runs it. */
  datatype Ran = Ran(exitCode: nat, duration: int, output: string)

  function Digits(n: nat): (r: string)
    ensures r != "" && forall i :: 0 <= i < |r| ==> '0' <= r[i] <= '9'
  {
    var last := ['0' + (n % 10) as char];
    if n < 10 then last else Digits(n / 10) + last
  }

  function Decimal(n: int): (r: string)
    ensures forall i :: 0 <= i < |r| ==> '0' <= r[i] <= '9' || r[i] == '-'
  {
    if n < 0 then "-" + Digits(-n) else Digits(n)
  }

  function BeginText(index: int): (r: string)
    ensures OneLine(r)
  {
    "{\"index\":" + Decimal(index) + ",\"event\":\"begin\"}"
  }

  function EndText(step: Step): (r: string)
    ensures OneLine(r)
  {
    "{\"index\":" + Decimal(step.index) + ",\"event\":\"end\",\"exit_code\":" + Decimal(step.exitCode)
      + ",\"duration_sec\":" + Decimal(step.duration) + "}"
  }

  /** The decoder reads back the two objects the script prints. */
  ghost predicate Decodes(parse: string -> Parsed) {
    && (forall i :: parse(BeginText(i)) == Other)
    && (forall step :: parse(EndText(step)) == End(step))
  }

  lemma {:induction false} DigitsInjective(n: nat, m: nat)
    requires Digits(n) == Digits(m)
    ensures n == m
  {
    assert Digits(n)[|Digits(n)| - 1] == '0' + (n % 10) as char;
    assert Digits(m)[|Digits(m)| - 1] == '0' + (m % 10) as char;
    if n >= 10 && m >= 10 {
      assert Digits(n)[..|Digits(n)| - 1] == Digits(n / 10);
      assert Digits(m)[..|Digits(m)| - 1] == Digits(m / 10);
      DigitsInjective(n / 10, m / 10);
    }
  }

  lemma DecimalInjective(n: int, m: int)
    requires Decimal(n) == Decimal(m)
    ensures n == m
  {
    if n < 0 {
      assert Decimal(n)[0] == '-' && Decimal(n)[1..] == Digits(-n);
      assert m < 0;
      assert Decimal(m)[1..] == Digits(-m);
      DigitsInjective(-n, -m);
    } else {
      assert Decimal(n)[0] != '-';
      assert m >= 0;
      DigitsInjective(n, m);
    }
  }

  /** A number ends where something else begins. */
  lemma NumberEnds(n: int, m: int, x: string, y: string)
    requires x != "" && y != "" && x[0] in ",}" && y[0] in ",}"
    requires Decimal(n) + x == Decimal(m) + y
    ensures n == m && x == y
  {
    var a, b := Decimal(n), Decimal(m);
    assert (a + x)[|a|] == x[0] && (b + y)[|b|] == y[0];
    assert forall k :: 0 <= k < |a| ==> (a + x)[k] == a[k];
    assert forall k :: 0 <= k < |b| ==> (b + y)[k] == b[k];
    hide Decimal;
    assert a == (a + x)[..|a|] && b == (b + y)[..|a|];
    DecimalInjective(n, m);
    assert x == (a + x)[|a|..] && y == (b + y)[|a|..];
  }

  lemma SameTail(a: string, x: string, y: string)
    requires a + x == a + y
    ensures x == y
  {
    assert x == (a + x)[|a|..] && y == (a + y)[|a|..];
  }

  /** How both texts are put together. */
  function Numbered(head: string, index: int, more: string): string {
    head + (Decimal(index) + more)
  }

  lemma NumbersAgree(head: string, n: int, m: int, x: string, y: string)
    requires x != "" && y != "" && x[0] in ",}" && y[0] in ",}"
    requires Numbered(head, n, x) == Numbered(head, m, y)
    ensures n == m && x == y
  {
    SameTail(head, Decimal(n) + x, Decimal(m) + y);
    NumberEnds(n, m, x, y);
  }

  function Timed(step: Step): (r: string)
    ensures r != "" && r[0] == ','
  {
    Numbered(",\"duration_sec\":", step.duration, "}")
  }

  function Ended(step: Step): (r: string)
    ensures |r| > 10 && r[0] == ',' && r[10] == 'e'
  {
    Numbered(",\"event\":\"end\",\"exit_code\":", step.exitCode, Timed(step))
  }

  lemma EndTextParts(step: Step)
    ensures EndText(step) == Numbered("{\"index\":", step.index, Ended(step))
  {
    hide Decimal;
  }

  lemma EndTextInjective(a: Step, b: Step)
    requires EndText(a) == EndText(b)
    ensures a == b
  {
    EndTextParts(a);
    EndTextParts(b);
    hide EndText, Numbered, Decimal;
    NumbersAgree("{\"index\":", a.index, b.index, Ended(a), Ended(b));
    NumbersAgree(",\"event\":\"end\",\"exit_code\":", a.exitCode, b.exitCode, Timed(a), Timed(b));
    NumbersAgree(",\"duration_sec\":", a.duration, b.duration, "}", "}");
  }

  lemma BeginIsNotEnd(index: int, step: Step)
    ensures BeginText(index) != EndText(step)
  {
    hide Decimal, EndText, Ended;
    var begun := ",\"event\":\"begin\"}";
    EndTextParts(step);
    assert BeginText(index) == Numbered("{\"index\":", index, begun);
    hide BeginText, Numbered;
    if BeginText(index) == EndText(step) {
      NumbersAgree("{\"index\":", index, step.index, begun, Ended(step));
    }
  }

  /** A decoder that knows just these texts. */
  ghost function Decoded(text: string): (r: Parsed)
    ensures r.End? ==> EndText(r.step) == text
    ensures (exists step :: EndText(step) == text) ==> r.End?
    ensures !r.End? && (exists index :: BeginText(index) == text) ==> r == Other
  {
    if exists step :: EndText(step) == text then
      var step :| EndText(step) == text;
      End(step)
    else if exists index :: BeginText(index) == text then Other
    else Malformed
  }

  /** There are such decoders: the printed objects can be told apart. */
  lemma SomeDecoder()
    ensures exists parse: string -> Parsed :: Decodes(parse)
  {
    hide EndText, BeginText;
    ghost var parse := (text: string) => Decoded(text);
    forall step ensures parse(EndText(step)) == End(step) {
      EndTextInjective(Decoded(EndText(step)).step, step);
    }
    forall index ensures parse(BeginText(index)) == Other {
      if Decoded(BeginText(index)).End? {
        BeginIsNotEnd(index, Decoded(BeginText(index)).step);
      }
    }
    assert Decodes(parse);
  }

  function StepOf(index: int, r: Ran): Step {
    Step(index, r.exitCode, r.duration)
  }

  /** What the script prints for one step. */
  function PrintedStep(p: string, index: int, r: Ran): string {
    p + BeginText(index) + "\n" + (p + EndText(StepOf(index, r)) + "\n" + r.output)
  }

  function Printed(p: string, index: int, rs: seq<Ran>): string
    decreases |rs|
  {
    if rs == [] then "" else PrintedStep(p, index, rs[0]) + Printed(p, index + 1, rs[1..])
  }

  function Outputs(rs: seq<Ran>): string {
    if rs == [] then "" else rs[0].output + Outputs(rs[1..])
  }

  function Steps(index: int, rs: seq<Ran>): (r: seq<Step>)
    ensures |r| == |rs| && forall i :: 0 <= i < |rs| ==> r[i] == StepOf(index + i, rs[i])
    decreases |rs|
  {
    if rs == [] then [] else [StepOf(index, rs[0])] + Steps(index + 1, rs[1..])
  }

  /** The steps that run: all, or with `stop` those up to the first that fails. */
  function Executed(rs: seq<Ran>, stop: bool): (r: seq<Ran>)
    ensures r <= rs
  {
    if rs == [] then []
    else if stop && rs[0].exitCode != 0 then [rs[0]]
    else
      var rest := Executed(rs[1..], stop);
      assert rs == [rs[0]] + rs[1..];
      [rs[0]] + rest
  }

  /** The exit code of the last step that failed, or 0. */
  function LastFailure(rs: seq<Ran>): nat {
    if rs == [] then 0
    else if rs[|rs| - 1].exitCode != 0 then rs[|rs| - 1].exitCode
    else LastFailure(rs[..|rs| - 1])
  }

  /** The batch script, for commands that would behave as `rs` says. */
  method RunBatch(p: string, rs: seq<Ran>, stop: bool) returns (stdout: string, exitCode: nat)
    ensures stdout == Printed(p, 1, Executed(rs, stop))
    ensures exitCode == LastFailure(Executed(rs, stop))
  {
    hide Printed, PrintedStep, Executed, LastFailure;
    stdout, exitCode := "", 0;
    BatchStart(p, rs, stop);
    for i := 0 to |rs|
      invariant stdout == Printed(p, 1, rs[..i]) && exitCode == LastFailure(rs[..i])
      invariant Executed(rs, stop) == rs[..i] + Executed(rs[i..], stop)
    {
      BatchStep(p, rs, stop, i);
      stdout := stdout + PrintedStep(p, i + 1, rs[i]);
      if rs[i].exitCode != 0 {
        exitCode := rs[i].exitCode;
        if stop {
          return;
        }
      }
    }
    BatchEnd(rs, stop);
  }

  lemma BatchStart(p: string, rs: seq<Ran>, stop: bool)
    ensures Printed(p, 1, rs[..0]) == "" && LastFailure(rs[..0]) == 0
    ensures Executed(rs, stop) == rs[..0] + Executed(rs[0..], stop)
  {
    assert rs[0..] == rs;
  }

  lemma BatchStep(p: string, rs: seq<Ran>, stop: bool, i: nat)
    requires i < |rs|
    ensures Printed(p, 1, rs[..i + 1]) == Printed(p, 1, rs[..i]) + PrintedStep(p, i + 1, rs[i])
    ensures LastFailure(rs[..i + 1]) == if rs[i].exitCode != 0 then rs[i].exitCode else LastFailure(rs[..i])
    ensures rs[..i] + Executed(rs[i..], stop) ==
      if stop && rs[i].exitCode != 0 then rs[..i + 1] else rs[..i + 1] + Executed(rs[i + 1..], stop)
  {
    hide Printed, PrintedStep;
    assert rs[..i + 1] == rs[..i] + [rs[i]] && rs[..i + 1][..i] == rs[..i];
    PrintedPut(p, 1, rs[..i], rs[i]);
    ExecutedStep(rs, stop, i);
  }

  lemma ExecutedStep(rs: seq<Ran>, stop: bool, i: nat)
    requires i < |rs|
    ensures rs[..i] + Executed(rs[i..], stop) ==
      if stop && rs[i].exitCode != 0 then rs[..i + 1] else rs[..i + 1] + Executed(rs[i + 1..], stop)
  {
    assert rs[i..][0] == rs[i] && rs[i..][1..] == rs[i + 1..];
    var later := Executed(rs[i + 1..], stop);
    assert Executed(rs[i..], stop) == if stop && rs[i].exitCode != 0 then [rs[i]] else [rs[i]] + later;
    hide Executed;
    Shift(rs, i, later);
  }

  lemma Shift(rs: seq<Ran>, i: nat, later: seq<Ran>)
    requires i < |rs|
    ensures rs[..i] + [rs[i]] == rs[..i + 1] && rs[..i] + ([rs[i]] + later) == rs[..i + 1] + later
  {
  }

  lemma BatchEnd(rs: seq<Ran>, stop: bool)
    ensures rs[..|rs|] == rs && rs + Executed(rs[|rs|..], stop) == rs
  {
  }

  lemma {:induction false} PrintedPut(p: string, index: int, rs: seq<Ran>, r: Ran)
    ensures Printed(p, index, rs + [r]) == Printed(p, index, rs) + PrintedStep(p, index + |rs|, r)
    decreases |rs|
  {
    hide PrintedStep;
    if rs == [] {
      assert rs + [r] == [r] && [r][1..] == [];
    } else {
      PrintedPut(p, index + 1, rs[1..], r);
      assert (rs + [r])[1..] == rs[1..] + [r];
    }
  }

  // ----- outputs that pass the scanner

  /** Behind each event prefix in `text` there is a whole line that does not decode, and `text`
      does not end in the middle of a prefix. */
  predicate Passes(parse: string -> Parsed, p: string, text: string)
    requires p != ""
    decreases |text|
  {
    match Find(p, text)
    case None => Clear(p, text)
    case Some(at) =>
      && Find("\n", text[at + |p|..]).Some?
      && parse(EventLine(text, at + |p|).0).Malformed?
      && Passes(parse, p, text[EventLine(text, at + |p|).1..])
  }

  /** Read alone, `text` comes back as it is. */
  predicate Survives(parse: string -> Parsed, p: string, text: string)
    requires p != ""
  {
    ScanFrom(parse, p, text) == Scanned(text, [])
  }

  lemma ClearPasses(parse: string -> Parsed, p: string, text: string)
    requires p != "" && Clear(p, text)
    ensures Passes(parse, p, text) && Survives(parse, p, text)
  {
    ClearHasNone(p, text);
  }

  lemma OccursWithin(p: string, text: string, q: string, i: nat)
    requires i + |p| <= |text|
    ensures Occurs(p, text, i) <==> Occurs(p, text + q, i)
  {
    assert text[i..i + |p|] == (text + q)[i..i + |p|];
  }

  /** A first occurrence inside `text` does not depend on what follows. */
  lemma SameMarker(p: string, text: string, q: string, at: nat)
    requires at + |p| <= |text|
    ensures Find(p, text) == Some(at) <==> Find(p, text + q) == Some(at)
  {
    hide Find;
    forall i: nat | i <= at ensures Occurs(p, text, i) <==> Occurs(p, text + q, i) {
      OccursWithin(p, text, q, i);
    }
    hide Occurs;
    FirstIs(p, text, at);
    FirstIs(p, text + q, at);
  }

  lemma FirstIs(p: string, s: string, at: nat)
    ensures Find(p, s) == Some(at) <==> Occurs(p, s, at) && forall i: nat :: i < at ==> !Occurs(p, s, i)
  {
    hide Occurs;
    var found := Find(p, s);
    hide Find;
  }

  lemma SameLine(text: string, q: string, start: nat)
    requires start <= |text| && Find("\n", text[start..]).Some?
    ensures EventLine(text + q, start) == EventLine(text, start) && start < EventLine(text, start).1 <= |text|
  {
    var k := Find("\n", text[start..]).value;
    assert (text + q)[start..] == text[start..] + q;
    SameMarker("\n", text[start..], q, k);
    assert (text[start..] + q)[..k] == text[start..][..k];
  }

  lemma SplitBehind(text: string, q: string, next: nat)
    requires next <= |text|
    ensures (text + q)[..next] == text[..next] && (text + q)[next..] == text[next..] + q && text == text[..next] + text[next..]
  {
  }

  /** Such an output stays in the text whatever event line follows, which is read as if it stood alone. */
  lemma {:induction false} PassesOn(parse: string -> Parsed, p: string, text: string, body: string, rest: string)
    requires p != "" && Passes(parse, p, text) && OneLine(body)
    ensures ScanFrom(parse, p, text + (p + body + "\n" + rest)) == Before(text, [], ScanFrom(parse, p, p + body + "\n" + rest))
    decreases |text|
  {
    hide ScanFrom, Find, EventLine, OneLine, Before, Clear;
    var q, none: seq<Step> := p + body + "\n" + rest, [];
    if Find(p, text).None? {
      ScanAtEvent(parse, p, text, body, rest);
      NothingIsClear(p);
      ScanAtEvent(parse, p, "", body, rest);
      assert "" + q == q && "" + (p + body + "\n") == p + body + "\n";
      BeforeBefore(text, [], p + body + "\n", [], ScanFrom(parse, p, rest));
      BeforeBefore(text, [], "", [], ScanFrom(parse, p, rest));
      if parse(body).End? {
        BeforeBefore(text, [], "", [parse(body).step], ScanFrom(parse, p, rest));
      }
      NothingAfter(text, []);
      assert text + "" == text && none + none == none;
      assert parse(body).End? ==> [] + [parse(body).step] == [parse(body).step];
    } else {
      var at := Find(p, text).value;
      MarkerFits(p, text, at);
      var (line, next) := EventLine(text, at + |p|);
      SameMarker(p, text, q, at);
      SameLine(text, q, at + |p|);
      SplitBehind(text, q, next);
      ScanStep(parse, p, text + q, at, line, next);
      PassesOn(parse, p, text[next..], body, rest);
      BeforeBefore(text[..next], [], text[next..], [], ScanFrom(parse, p, q));
      assert none + none == none;
    }
  }

  lemma EventLineEnds(s: string, start: nat)
    requires start <= |s|
    ensures var next := EventLine(s, start).1; next == |s| || (start < next && s[next - 1] == '\n')
  {
    var k := Find("\n", s[start..]);
    if k.Some? {
      assert s[start..][k.value..k.value + 1][0] == '\n';
    }
  }

  /** A text and the one event line behind it. */
  predicate BeforeOneLine(p: string, text: string, q: string) {
    && p != "" && p <= q && q[|q| - 1] == '\n' && forall i :: 0 <= i < |q| - 1 ==> q[i] != '\n'
  }

  lemma MarkerBefore(p: string, text: string, q: string) returns (at: nat)
    requires BeforeOneLine(p, text, q)
    ensures Find(p, text + q) == Some(at) && at <= |text| && at + |p| <= |text + q|
  {
    assert (text + q)[|text|..|text| + |p|] == p;
    assert Occurs(p, text + q, |text|);
    at := Find(p, text + q).value;
  }

  lemma LineToTheEnd(p: string, text: string, q: string, start: nat)
    requires BeforeOneLine(p, text, q) && start <= |text + q| && EventLine(text + q, start).1 > |text|
    ensures EventLine(text + q, start).1 == |text + q|
  {
    var s, next := text + q, EventLine(text + q, start).1;
    EventLineEnds(s, start);
    assert s[next - 1] == q[next - 1 - |text|];
  }

  lemma ScanNothing(parse: string -> Parsed, p: string)
    requires p != ""
    ensures ScanFrom(parse, p, "") == Scanned("", [])
  {
  }

  /** The scan of an event line at the very end of `s`. */
  lemma LastLine(parse: string -> Parsed, p: string, s: string, at: nat)
    requires p != "" && Find(p, s) == Some(at) && at + |p| <= |s| && EventLine(s, at + |p|).1 == |s|
    ensures var parsed := parse(EventLine(s, at + |p|).0);
      ScanFrom(parse, p, s) ==
      match parsed
      case Malformed => Scanned(s, [])
      case NotObject => Crashed
      case BadEnd => Crashed
      case Other => Scanned(s[..at], [])
      case End(step) => Scanned(s[..at], [step])
  {
    hide Find, EventLine;
    ScanStep(parse, p, s, at, EventLine(s, at + |p|).0, |s|);
    ScanNothing(parse, p);
    assert s[|s|..] == "" && s[..|s|] == s && s + "" == s && s[..at] + "" == s[..at];
  }

  /** The event line is kept as a whole or goes as a whole. */
  lemma {:induction false} KeptOrDropped(parse: string -> Parsed, p: string, text: string, q: string)
    requires BeforeOneLine(p, text, q)
    ensures var scan := ScanFrom(parse, p, text + q); scan.Scanned? ==> |scan.clean| <= |text| || |scan.clean| >= |q|
    decreases |text|
  {
    hide ScanFrom, Find, EventLine;
    var at := MarkerBefore(p, text, q);
    var s := text + q;
    var (line, next) := EventLine(s, at + |p|);
    if next <= |text| {
      ScanStep(parse, p, s, at, line, next);
      SplitBehind(text, q, next);
      KeptOrDropped(parse, p, text[next..], q);
    } else {
      LineToTheEnd(p, text, q, at + |p|);
      LastLine(parse, p, s, at);
    }
  }

  /** An output that does not pass is not given back in front of a long enough event line. */
  lemma {:induction false} DoesNotPass(parse: string -> Parsed, p: string, text: string, q: string)
    requires BeforeOneLine(p, text, q) && !Passes(parse, p, text) && |q| > |text|
    ensures ScanFrom(parse, p, text + q) != Scanned(text, [])
    decreases |text|
  {
    hide ScanFrom, Find, EventLine, Clear;
    var at := MarkerBefore(p, text, q);
    var s := text + q;
    var (line, next) := EventLine(s, at + |p|);
    NotAtTheEnd(parse, p, text, q, at);
    if next <= |text| {
      ScanStep(parse, p, s, at, line, next);
      SplitBehind(text, q, next);
      KeptOrDropped(parse, p, text[next..], q);
      if parse(line).Malformed? {
        LineBehindMarker(s, at + |p|);
        NotPassesBehind(parse, p, text, q, at);
        DoesNotPass(parse, p, text[next..], q);
      }
    } else {
      LineToTheEnd(p, text, q, at + |p|);
      LastLine(parse, p, s, at);
    }
  }

  /** Where `text` does not pass, a prefix begins in it. */
  lemma NotAtTheEnd(parse: string -> Parsed, p: string, text: string, q: string, at: nat)
    requires BeforeOneLine(p, text, q) && !Passes(parse, p, text) && Find(p, text + q) == Some(at)
    ensures at < |text|
  {
    hide EventLine, Find;
    if Find(p, text).Some? {
      MarkerFits(p, text, Find(p, text).value);
      SameMarker(p, text, q, Find(p, text).value);
    } else {
      var was := Find(p, text + p);
      EndOccurs(p, text);
      SameMarker(p, text + p, q[|p|..], was.value);
      assert text + p + q[|p|..] == text + q;
    }
  }

  lemma EndOccurs(p: string, text: string)
    ensures Find(p, text + p).Some? && Find(p, text + p).value <= |text|
  {
    assert (text + p)[|text|..|text| + |p|] == p;
    assert Occurs(p, text + p, |text|);
  }

  lemma PassesStep(parse: string -> Parsed, p: string, text: string, at: nat)
    requires p != "" && Find(p, text) == Some(at) && at + |p| <= |text|
    ensures Passes(parse, p, text) <==>
      && Find("\n", text[at + |p|..]).Some? && parse(EventLine(text, at + |p|).0).Malformed?
      && Passes(parse, p, text[EventLine(text, at + |p|).1..])
  {
    hide Find, EventLine, Clear, Occurs;
  }

  lemma LineBehindMarker(s: string, start: nat)
    requires start <= |s|
    ensures start <= EventLine(s, start).1
  {
  }

  lemma NotPassesBehind(parse: string -> Parsed, p: string, text: string, q: string, at: nat)
    requires p != "" && !Passes(parse, p, text) && Find(p, text + q) == Some(at) && at + |p| <= |text|
    requires EventLine(text + q, at + |p|).1 <= |text| && q != "" && parse(EventLine(text + q, at + |p|).0).Malformed?
    ensures !Passes(parse, p, text[EventLine(text + q, at + |p|).1..])
  {
    hide Find, EventLine, Passes, Occurs, Clear;
    SameMarker(p, text, q, at);
    LineAbove(text, q, at + |p|);
    SameLine(text, q, at + |p|);
    PassesStep(parse, p, text, at);
  }

  lemma LineAbove(text: string, q: string, start: nat)
    requires start <= |text| && q != "" && EventLine(text + q, start).1 <= |text|
    ensures Find("\n", text[start..]).Some?
  {
    assert (text + q)[start..] == text[start..] + q;
    var k := Find("\n", (text + q)[start..]);
    hide Find;
    assert k.Some?;
    assert k.value + 1 <= |text[start..]|;
    SameMarker("\n", text[start..], q, k.value);
  }

  /** The begin event of the next step, and what comes behind it. */
  function NextEvent(p: string, index: int, rest: string): string {
    p + BeginText(index) + "\n" + rest
  }

  lemma {:induction false} LongBegin(n: nat) returns (index: nat)
    ensures |Digits(index)| > n && index > 0
  {
    if n == 0 {
      index := 1;
    } else {
      var shorter := LongBegin(n - 1);
      index := 10 * shorter;
      assert index / 10 == shorter && index >= 10;
    }
  }

  lemma BeginIsLong(index: nat)
    ensures |BeginText(index)| >= |Digits(index)|
  {
  }

  /** The exact outputs that leave the rest of a batch alone and are left alone by it, whatever
      step comes next. */
  lemma PassesIff(parse: string -> Parsed, p: string, text: string)
    requires p != "" && '\n' !in p && Decodes(parse)
    ensures Passes(parse, p, text) <==>
      forall index, rest ::
        ScanFrom(parse, p, text + NextEvent(p, index, rest)) == Before(text, [], ScanFrom(parse, p, NextEvent(p, index, rest)))
  {
    hide Passes, ScanFrom, BeginText, OneLine;
    if Passes(parse, p, text) {
      forall index, rest
        ensures ScanFrom(parse, p, text + NextEvent(p, index, rest)) == Before(text, [], ScanFrom(parse, p, NextEvent(p, index, rest)))
      {
        PassesOn(parse, p, text, BeginText(index), rest);
      }
    } else {
      var index := LongBegin(|text|);
      BeginIsLong(index);
      var q := NextEvent(p, index, "");
      NothingIsClear(p);
      ScanAtEvent(parse, p, "", BeginText(index), "");
      ScanNothing(parse, p);
      assert "" + q == q;
      assert Before(text, [], ScanFrom(parse, p, q)) == Scanned(text, []) by {
        assert text + "" == text;
      }
      EventIsOneLine(p, text, index);
      DoesNotPass(parse, p, text, q);
    }
  }

  lemma EventIsOneLine(p: string, text: string, index: int)
    requires p != "" && '\n' !in p
    ensures BeforeOneLine(p, text, NextEvent(p, index, ""))
  {
    var q := NextEvent(p, index, "");
    assert OneLine(BeginText(index));
    hide BeginText;
    assert q == p + BeginText(index) + "\n";
    assert q[..|p|] == p;
  }

  /** Scanning what the script printed gives back the outputs and the steps, if all outputs but
      the last pass and the last survives alone. */
  lemma {:induction false} RoundTrip(parse: string -> Parsed, p: string, index: int, text: string, rs: seq<Ran>)
    requires p != "" && Decodes(parse)
    requires if rs == [] then Survives(parse, p, text) else Passes(parse, p, text) && AllPass(parse, p, rs)
    ensures ScanFrom(parse, p, text + Printed(p, index, rs)) == Scanned(text + Outputs(rs), Steps(index, rs))
    decreases |rs|
  {
    hide ScanFrom, Find, BeginText, EndText, Clear, OneLine, Passes;
    if rs == [] {
      assert text + "" == text;
    } else {
      var r, rest := rs[0], Printed(p, index + 1, rs[1..]);
      var ended := p + EndText(StepOf(index, r)) + "\n" + (r.output + rest);
      RoundTrip(parse, p, index + 1, r.output, rs[1..]);
      assert text + Printed(p, index, rs) == text + (p + BeginText(index) + "\n" + ended);
      PassesOn(parse, p, text, BeginText(index), ended);
      StepScans(parse, p, index, r, rest);
      hide Printed;
      assert text + (r.output + Outputs(rs[1..])) == text + Outputs(rs);
      assert [] + ([StepOf(index, r)] + Steps(index + 1, rs[1..])) == Steps(index, rs);
    }
  }

  /** The two events of a step in front of its output. */
  lemma StepScans(parse: string -> Parsed, p: string, index: int, r: Ran, rest: string)
    requires p != "" && Decodes(parse)
    ensures ScanFrom(parse, p, p + BeginText(index) + "\n" + (p + EndText(StepOf(index, r)) + "\n" + (r.output + rest)))
         == Before("", [StepOf(index, r)], ScanFrom(parse, p, r.output + rest))
  {
    hide ScanFrom, Find, BeginText, EndText, Clear, OneLine, Before;
    var step, behind := StepOf(index, r), r.output + rest;
    var ended := p + EndText(step) + "\n" + behind;
    NothingIsClear(p);
    ScanAtEvent(parse, p, "", BeginText(index), ended);
    ScanAtEvent(parse, p, "", EndText(step), behind);
    assert "" + (p + BeginText(index) + "\n" + ended) == p + BeginText(index) + "\n" + ended && "" + ended == ended;
    BeforeBefore("", [], "", [step], ScanFrom(parse, p, behind));
    assert "" + "" == "" && [] + [step] == [step];
  }

  /** All outputs but the last pass, and the last survives alone. */
  predicate AllPass(parse: string -> Parsed, p: string, rs: seq<Ran>)
    requires p != ""
  {
    forall i :: 0 <= i < |rs| ==> if i < |rs| - 1 then Passes(parse, p, rs[i].output) else Survives(parse, p, rs[i].output)
  }

  lemma NothingIsClear(p: string)
    ensures Clear(p, "")
  {
    assert "" + p == p;
  }

  /** For a whole batch: the outputs come back concatenated, with one entry a step that ran. */
  lemma BatchRoundTrip(parse: string -> Parsed, p: string, rs: seq<Ran>, stop: bool)
    requires p != "" && Decodes(parse) && AllPass(parse, p, Executed(rs, stop))
    ensures ScanFrom(parse, p, Printed(p, 1, Executed(rs, stop)))
         == Scanned(Outputs(Executed(rs, stop)), Steps(1, Executed(rs, stop)))
  {
    hide *;
    NothingIsClear(p);
    ClearPasses(parse, p, "");
    var ran := Executed(rs, stop);
    RoundTrip(parse, p, 1, "", ran);
    assert "" + Printed(p, 1, ran) == Printed(p, 1, ran) && "" + Outputs(ran) == Outputs(ran);
  }

  /** The step that printed just the prefix, and one that printed its own begin event. */
  function Swapped(p: string): seq<Ran> {
    [Ran(0, 0, p), Ran(0, 0, p + BeginText(2) + "\n")]
  }

  /** No such condition is exact for a batch as a whole: here the begin event behind the first
      output stays in the text, the same line of the second output goes, and all comes out right. */
  lemma LossesCanCancel(parse: string -> Parsed, p: string)
    requires p != "" && '\n' !in p && Decodes(parse) && parse(p + BeginText(2)).Malformed?
    ensures !Passes(parse, p, Swapped(p)[0].output)
    ensures ScanFrom(parse, p, Printed(p, 1, Swapped(p))) == Scanned(Outputs(Swapped(p)), Steps(1, Swapped(p)))
  {
    hide ScanFrom, Clear, OneLine, Passes, EndText;
    PrefixDoesNotPass(parse, p);
    var one, two := StepOf(1, Swapped(p)[0]), StepOf(2, Swapped(p)[1]);
    var out2 := p + BeginText(2) + "\n";
    var last := p + EndText(two) + "\n" + out2;
    var mixed := p + (p + BeginText(2)) + "\n" + last;
    assert OneLine(p + BeginText(2)) by {
      BehindPrefix(p);
    }
    hide BeginText;
    NothingIsClear(p);
    ScanNothing(parse, p);
    ScanAtEvent(parse, p, "", BeginText(2), "");
    ScanAtEvent(parse, p, "", EndText(two), out2);
    ScanAtEvent(parse, p, "", p + BeginText(2), last);
    ScanAtEvent(parse, p, "", EndText(one), mixed);
    ScanAtEvent(parse, p, "", BeginText(1), p + EndText(one) + "\n" + mixed);
    SwappedPrint(p, one, two, out2, last, mixed);
    hide Swapped;
    assert "" + (out2 + "") == out2 && "" + last == last && "" + mixed == mixed;
    assert "" + (p + EndText(one) + "\n" + mixed) == p + EndText(one) + "\n" + mixed;
    assert "" + (p + BeginText(1) + "\n" + (p + EndText(one) + "\n" + mixed)) == p + BeginText(1) + "\n" + (p + EndText(one) + "\n" + mixed);
    assert ScanFrom(parse, p, out2) == Scanned("", []);
    assert ScanFrom(parse, p, last) == Scanned("", [two]);
    assert ScanFrom(parse, p, mixed) == Scanned(p + out2, [two]) by {
      assert "" + (p + (p + BeginText(2)) + "\n") + "" == p + out2;
    }
    assert ScanFrom(parse, p, p + EndText(one) + "\n" + mixed) == Scanned(p + out2, [one, two]) by {
      assert "" + (p + out2) == p + out2;
    }
    assert "" + (p + out2) == p + out2;
  }

  lemma PrefixDoesNotPass(parse: string -> Parsed, p: string)
    requires p != ""
    ensures !Passes(parse, p, p)
  {
    assert p[|p|..] == "";
    assert Find("\n", "").None?;
  }

  lemma BehindPrefix(p: string)
    requires '\n' !in p
    ensures OneLine(p + BeginText(2))
  {
    assert OneLine(BeginText(2)) && BeginText(2) != "";
    hide BeginText;
  }

  lemma SwappedPrint(p: string, one: Step, two: Step, out2: string, last: string, mixed: string)
    requires one == StepOf(1, Swapped(p)[0]) && two == StepOf(2, Swapped(p)[1])
    requires out2 == p + BeginText(2) + "\n" && last == p + EndText(two) + "\n" + out2
    requires mixed == p + (p + BeginText(2)) + "\n" + last
    ensures Printed(p, 1, Swapped(p)) == p + BeginText(1) + "\n" + (p + EndText(one) + "\n" + mixed)
    ensures Outputs(Swapped(p)) == p + out2 && Steps(1, Swapped(p)) == [one, two]
  {
    hide BeginText, EndText;
    var rs := Swapped(p);
    assert rs[1..] == [rs[1]] && rs[1..][1..] == [];
    assert Printed(p, 2, rs[1..]) == PrintedStep(p, 2, rs[1]) + "";
    assert Printed(p, 1, rs) == PrintedStep(p, 1, rs[0]) + Printed(p, 2, rs[1..]);
    assert Outputs(rs[1..]) == out2 + "";
    assert Steps(2, rs[1..]) == [two] + [];
    assert Steps(1, rs) == [one] + Steps(2, rs[1..]);
  }

  /** The script's exit code is 0 exactly if every step that ran succeeded, and otherwise that
      of the last failing one. */
  lemma {:induction false} ExitCodeIsLastFailure(rs: seq<Ran>)
    ensures LastFailure(rs) == 0 <==> forall i :: 0 <= i < |rs| ==> rs[i].exitCode == 0
    ensures LastFailure(rs) != 0 ==> exists i ::
      && 0 <= i < |rs| && rs[i].exitCode == LastFailure(rs)
      && forall k :: i < k < |rs| ==> rs[k].exitCode == 0
  {
    if rs != [] {
      ExitCodeIsLastFailure(rs[..|rs| - 1]);
    }
  }

  /** Without `stop` every step runs. With it, only the last step that runs can fail, and a step
      is left out only behind a failure. */
  lemma {:induction false} StopsAtFailure(rs: seq<Ran>, stop: bool)
    ensures !stop ==> Executed(rs, stop) == rs
    ensures stop ==> forall i :: 0 <= i < |Executed(rs, stop)| - 1 ==> rs[i].exitCode == 0
    ensures |Executed(rs, stop)| < |rs| ==>
      stop && Executed(rs, stop) != [] && Executed(rs, stop)[|Executed(rs, stop)| - 1].exitCode != 0
    decreases |rs|
  {
    if rs != [] {
      StopsAtFailure(rs[1..], stop);
    }
  }

  const TAG := "__AIOPS_STEP_JSON__"

  /** Sixteen hexadecimal digits, drawn anew for every process. */
  predicate IsToken(token: string) {
    |token| == 16 && forall i :: 0 <= i < |token| ==> '0' <= token[i] <= '9' || 'a' <= token[i] <= 'f'
  }

  function Stem(token: string): (r: string)
    ensures |r| == |token| + 19
  {
    TAG + token
  }

  function StepPrefix(token: string): (r: string)
    ensures |r| == |token| + 21
  {
    Stem(token) + "__"
  }

  predicate EndsWith(s: string, tail: string) {
    |tail| <= |s| && s[|s| - |tail|..] == tail
  }

  /** The prefix overlaps itself only by its one or two last underscores. */
  lemma NoLongBorder(token: string, k: nat)
    requires IsToken(token) && 0 < k < 35
    ensures |StepPrefix(token)| == 37 && StepPrefix(token)[k..] != StepPrefix(token)[..37 - k]
  {
    var p := StepPrefix(token);
    var b := 37 - k;
    assert |TAG| == 19 && |p| == 37;
    assert forall i :: 0 <= i < 19 ==> p[i] == TAG[i];
    assert forall i :: 19 <= i < 35 ==> p[i] == token[i - 19];
    TagUnderscores();
    if b == 19 {
      assert p[k..][1] == token[0] && p[..b][1] == TAG[1];
    } else {
      assert p[k..][b - 1] == p[36] && p[k..][b - 2] == p[35];
      assert p[b - 1] != '_' || p[b - 2] != '_';
      assert p[..b][b - 1] == p[b - 1] && p[..b][b - 2] == p[b - 2];
    }
  }

  lemma TagUnderscores()
    ensures TAG[0] == TAG[1] == TAG[17] == TAG[18] == '_'
    ensures forall i :: 2 <= i < 18 ==> TAG[i] != '_' || TAG[i - 1] != '_'
  {
    assert TAG[2] == 'A' && TAG[3] == 'I' && TAG[4] == 'O' && TAG[5] == 'P' && TAG[6] == 'S';
    assert TAG[8] == 'S' && TAG[9] == 'T' && TAG[10] == 'E' && TAG[11] == 'P';
    assert TAG[13] == 'J' && TAG[14] == 'S' && TAG[15] == 'O' && TAG[16] == 'N';
  }

  /** Exactly which outputs leave the following event recognisable: those without the prefix
      that do not end in its stem or in its stem and one underscore. */
  lemma ClearIff(token: string, text: string)
    requires IsToken(token)
    ensures Clear(StepPrefix(token), text) <==>
      !Contains(StepPrefix(token), text) && !EndsWith(text, Stem(token)) && !EndsWith(text, Stem(token) + "_")
  {
    hide Find, StepPrefix, Stem, Clear, IsToken, EndsWith, Contains;
    var p := StepPrefix(token);
    var s := text + p;
    assert s[|text|..|text| + |p|] == p;
    FoundAt(p, text);
    if i: nat :| i < |text| && Occurs(p, s, i) {
      CrossingOccurrence(token, text, i);
    }
    if Contains(p, text) {
      StillContains(p, text);
    }
    StemOfPrefix(token);
    BehindStem(token);
    if EndsWith(text, Stem(token)) {
      Rejoin(text, p, Stem(token), p[..2]);
    }
    if EndsWith(text, Stem(token) + "_") {
      Rejoin(text, p, Stem(token) + "_", p[..1]);
    }
  }

  lemma StillContains(p: string, text: string)
    requires p != "" && Contains(p, text)
    ensures exists i: nat :: i < |text| && Occurs(p, text + p, i)
  {
    var i: nat :| i <= |text| && Occurs(p, text, i);
    assert (text + p)[i..i + |p|] == text[i..i + |p|];
    assert Occurs(p, text + p, i);
  }

  lemma FoundAt(p: string, text: string)
    requires Occurs(p, text + p, |text|)
    ensures Clear(p, text) <==> forall i: nat :: i < |text| ==> !Occurs(p, text + p, i)
  {
  }

  lemma CrossingOccurrence(token: string, text: string, i: nat)
    requires IsToken(token) && i < |text| && Occurs(StepPrefix(token), text + StepPrefix(token), i)
    ensures Contains(StepPrefix(token), text) || EndsWith(text, Stem(token)) || EndsWith(text, Stem(token) + "_")
  {
    var p := StepPrefix(token);
    var s := text + p;
    var k := |text| - i;
    hide StepPrefix, Stem, IsToken;
    if k >= |p| {
      assert s[i..i + |p|] == text[i..i + |p|];
      assert Occurs(p, text, i);
    } else {
      Straddle(text, p, i);
      if k < 35 {
        NoLongBorder(token, k);
      }
      StemOfPrefix(token);
    }
  }

  lemma Straddle(text: string, p: string, i: nat)
    requires i < |text| < i + |p| && Occurs(p, text + p, i)
    ensures text[i..] == p[..|text| - i] && p[|text| - i..] == p[..|p| - (|text| - i)]
  {
    var s, k := text + p, |text| - i;
    var mid := s[i..i + |p|];
    assert mid == text[i..] + p[..|p| - k];
    assert mid[..k] == text[i..] && mid[k..] == p[..|p| - k];
  }

  lemma StemOfPrefix(token: string)
    requires IsToken(token)
    ensures |Stem(token)| == 35 && |StepPrefix(token)| == 37
    ensures StepPrefix(token)[..35] == Stem(token) && StepPrefix(token)[..36] == Stem(token) + "_"
  {
  }

  lemma BehindStem(token: string)
    requires IsToken(token)
    ensures StepPrefix(token) == Stem(token) + StepPrefix(token)[..2]
    ensures StepPrefix(token) == (Stem(token) + "_") + StepPrefix(token)[..1]
  {
    TagUnderscores();
    assert StepPrefix(token)[..2] == "__" && StepPrefix(token)[..1] == "_";
    assert (Stem(token) + "_") + "_" == Stem(token) + "__";
  }

  /** A text that ends in the head of `p`, with `p` behind it, holds `p` early if what is
      missing of `p` is how `p` begins. */
  lemma Rejoin(text: string, p: string, head: string, rest: string)
    requires p == head + rest && rest <= p && EndsWith(text, head)
    ensures |head| <= |text| && Occurs(p, text + p, |text| - |head|)
  {
    var i := |text| - |head|;
    assert (text + p)[i..i + |p|] == text[i..] + p[..|rest|];
  }

  /** An output without the stem is always safe; without the prefix it need not be. */
  lemma StemFreeIsClear(token: string, text: string)
    requires IsToken(token) && !Contains(Stem(token), text)
    ensures Clear(StepPrefix(token), text)
  {
    if !Clear(StepPrefix(token), text) {
      UnclearHasStem(token, text);
    }
  }

  lemma UnclearHasStem(token: string, text: string)
    requires IsToken(token) && !Clear(StepPrefix(token), text)
    ensures Contains(Stem(token), text)
  {
    var p, stem := StepPrefix(token), Stem(token);
    StemOfPrefix(token);
    ClearIff(token, text);
    hide StepPrefix, Stem, IsToken, Clear;
    assert stem + "" == stem;
    hide Contains, EndsWith;
    if Contains(p, text) {
      PartIsContained(text, p, stem);
    } else if EndsWith(text, stem) {
      EndIsContained(text, stem, "");
    } else {
      EndIsContained(text, stem, "_");
    }
  }

  lemma PartIsContained(text: string, p: string, stem: string)
    requires Contains(p, text) && stem <= p
    ensures Contains(stem, text)
  {
    var i: nat :| i <= |text| && Occurs(p, text, i);
    assert text[i..i + |stem|] == text[i..i + |p|][..|stem|];
    assert Occurs(stem, text, i);
  }

  lemma EndIsContained(text: string, stem: string, more: string)
    requires EndsWith(text, stem + more)
    ensures Contains(stem, text)
  {
    var i := |text| - |stem + more|;
    assert text[i..i + |stem|] == text[i..][..|stem|] == (stem + more)[..|stem|];
    assert Occurs(stem, text, i);
  }

  /** A first step that prints just the stem is free of the prefix, yet swallows the begin event
      of the second step: the event line stays in the output. */
  lemma StemOutputKeepsEventLine(parse: string -> Parsed, token: string, next: Ran)
    requires IsToken(token) && Decodes(parse)
    requires Clear(StepPrefix(token), next.output)
    requires parse(StepPrefix(token)[2..] + BeginText(2)).Malformed?
    ensures !Contains(StepPrefix(token), Stem(token))
    ensures ScanFrom(parse, StepPrefix(token), Printed(StepPrefix(token), 1, [Ran(0, 0, Stem(token)), next])) ==
      Scanned(Stem(token) + (StepPrefix(token) + BeginText(2) + "\n") + next.output, [Step(1, 0, 0), StepOf(2, next)])
  {
    hide ScanFrom, Find, BeginText, EndText, Clear, OneLine, Stem, StepPrefix;
    var p, first := StepPrefix(token), Ran(0, 0, Stem(token));
    OneLineJunk(token);
    NothingIsClear(p);
    var junk := p[2..] + BeginText(2);
    var second := p + EndText(StepOf(2, next)) + "\n" + next.output;
    var tail := p + junk + "\n" + second;
    var mid := p + EndText(StepOf(1, first)) + "\n" + tail;
    StemStream(token, next, first);
    Unpad(p + BeginText(1) + "\n" + mid);
    Unpad(mid);
    Unpad(tail);
    Unpad(second);
    ScanAtEvent(parse, p, "", BeginText(1), mid);
    ScanAtEvent(parse, p, "", EndText(StepOf(1, first)), tail);
    ScanAtEvent(parse, p, "", junk, second);
    ScanAtEvent(parse, p, "", EndText(StepOf(2, next)), next.output);
    ClearHasNone(p, next.output);
    ScanEnd(parse, p, next.output);
    Unpad(p + junk + "\n");
  }

  lemma Unpad(s: string)
    ensures "" + s == s
  {
  }

  lemma StemStream(token: string, next: Ran, first: Ran)
    requires IsToken(token) && first == Ran(0, 0, Stem(token))
    ensures var p := StepPrefix(token);
      var junk := p[2..] + BeginText(2);
      && !Contains(p, Stem(token))
      && p + junk + "\n" == Stem(token) + (p + BeginText(2) + "\n")
      && Printed(p, 1, [first, next]) ==
           p + BeginText(1) + "\n" + (p + EndText(StepOf(1, first)) + "\n"
             + (p + junk + "\n" + (p + EndText(StepOf(2, next)) + "\n" + next.output)))
  {
    hide BeginText, EndText, Printed, PrintedStep;
    var p, stem := StepPrefix(token), Stem(token);
    assert |TAG| == 19 && |stem| == 35;
    assert |p| == 37;
    var junk := p[2..] + BeginText(2);
    var second := p + EndText(StepOf(2, next)) + "\n" + next.output;
    assert TAG[0] == '_' && TAG[1] == '_';
    assert p == "__" + p[2..] && p == stem + "__";
    assert p + junk == stem + (p + BeginText(2));
    PrintedTwo(p, first, next);
    PrintedParts(p, 1, first);
    PrintedParts(p, 2, next);
    Regroup(p + BeginText(1) + "\n", p + EndText(StepOf(1, first)) + "\n", stem, p + BeginText(2) + "\n", second);
  }

  lemma PrintedTwo(p: string, first: Ran, next: Ran)
    ensures Printed(p, 1, [first, next]) == PrintedStep(p, 1, first) + PrintedStep(p, 2, next)
  {
    hide PrintedStep;
    assert [next][1..] == [] && [first, next][1..] == [next];
    assert Printed(p, 2, [next]) == PrintedStep(p, 2, next);
  }

  lemma PrintedParts(p: string, index: int, r: Ran)
    ensures PrintedStep(p, index, r) == p + BeginText(index) + "\n" + (p + EndText(StepOf(index, r)) + "\n" + r.output)
  {
  }

  lemma Regroup(a: string, b: string, c: string, d: string, e: string)
    ensures (a + (b + c)) + (d + e) == a + (b + (c + d + e))
  {
  }

  lemma OneLineJunk(token: string)
    requires IsToken(token)
    ensures OneLine(StepPrefix(token)[2..] + BeginText(2))
  {
  }

  /** How an output falls apart: text between events, event lines that are dropped, and lines
      that begin like an event but do not decode, which are kept. `line` is what follows the
      prefix, up to the newline that `closed` says is there. */
  datatype Piece =
    | Text(text: string)
    | Event(line: string, closed: bool, step: Option<Step>)
    | Junk(line: string, closed: bool)

  function LineText(p: string, line: string, closed: bool): string {
    p + line + if closed then "\n" else ""
  }

  function Raw(p: string, piece: Piece): string {
    match piece
    case Text(text) => text
    case Event(line, closed, _) => LineText(p, line, closed)
    case Junk(line, closed) => LineText(p, line, closed)
  }

  function AllRaw(p: string, pieces: seq<Piece>): string {
    if pieces == [] then "" else Raw(p, pieces[0]) + AllRaw(p, pieces[1..])
  }

  function KeptRaw(p: string, pieces: seq<Piece>): string {
    if pieces == [] then ""
    else (if pieces[0].Event? then "" else Raw(p, pieces[0])) + KeptRaw(p, pieces[1..])
  }

  function EndedSteps(pieces: seq<Piece>): seq<Step> {
    if pieces == [] then []
    else (if pieces[0].Event? && pieces[0].step.Some? then [pieces[0].step.value] else []) + EndedSteps(pieces[1..])
  }

  /** What the decoder is given of a line. */
  function Given(line: string, closed: bool): string {
    if closed then StripReturns(line) else line
  }

  predicate Genuine(parse: string -> Parsed, p: string, piece: Piece) {
    match piece
    case Text(text) => !Contains(p, text)
    case Event(line, closed, step) =>
      '\n' !in line && parse(Given(line, closed)) == if step.Some? then End(step.value) else Other
    case Junk(line, closed) => '\n' !in line && parse(Given(line, closed)) == Malformed
  }

  /** The line behind a prefix that ends at `start`, and whether a newline ends it. */
  function LineAt(s: string, start: nat): (r: (string, bool))
    requires start <= |s|
    ensures start + |LineText("", r.0, r.1)| <= |s|
  {
    match Find("\n", s[start..])
    case None => (s[start..], false)
    case Some(k) => (s[start..][..k], true)
  }

  lemma LineAtIsEventLine(s: string, start: nat)
    requires start <= |s|
    ensures var (line, closed) := LineAt(s, start);
      var next := start + |LineText("", line, closed)|;
      && '\n' !in line
      && s[start..next] == LineText("", line, closed)
      && EventLine(s, start) == (Given(line, closed), next)
  {
    hide Find, Occurs, StripReturns;
    var rest := s[start..];
    var mark := Find("\n", rest);
    NoNewlineBefore(rest);
    if mark.Some? {
      assert s[start..start + mark.value + 1] == rest[..mark.value + 1] == rest[..mark.value] + "\n";
    } else {
      assert s[start..|s|] == rest;
    }
  }

  lemma NoNewlineBefore(rest: string)
    ensures match Find("\n", rest)
      case None => '\n' !in rest
      case Some(k) => k < |rest| && '\n' !in rest[..k] && rest[..k + 1] == rest[..k] + "\n"
  {
    NewlineFound(rest);
    hide Find, Occurs;
    if Find("\n", rest).Some? {
      Upto(rest, Find("\n", rest).value);
    }
  }

  lemma NewlineFound(rest: string)
    ensures match Find("\n", rest)
      case None => forall i :: 0 <= i < |rest| ==> rest[i] != '\n'
      case Some(k) => k < |rest| && rest[k] == '\n' && forall i :: 0 <= i < k ==> rest[i] != '\n'
  {
    var mark := Find("\n", rest);
    var n := if mark.Some? then mark.value else |rest|;
    hide Find, Occurs;
    if mark.Some? {
      NewlineAt(rest, n);
    }
    forall i | 0 <= i < n ensures i < |rest| ==> rest[i] != '\n' {
      NewlineAt(rest, i);
    }
  }

  lemma Upto(s: string, n: nat)
    requires n < |s| && s[n] == '\n' && forall i :: 0 <= i < n ==> s[i] != '\n'
    ensures '\n' !in s[..n] && s[..n + 1] == s[..n] + "\n"
  {
  }

  lemma NewlineAt(s: string, i: nat)
    ensures Occurs("\n", s, i) <==> i < |s| && s[i] == '\n'
  {
    if i < |s| {
      assert s[i..i + 1] == [s[i]];
    }
  }

  /** The pieces of the output before a decoding that ends the scan, if there is one. */
  function Pieces(parse: string -> Parsed, p: string, s: string): seq<Piece>
    requires p != ""
    decreases |s|
  {
    match Find(p, s)
    case None => [Text(s)]
    case Some(at) =>
      var (line, closed) := LineAt(s, at + |p|);
      var rest := s[at + |p| + |LineText("", line, closed)|..];
      match parse(Given(line, closed))
      case Malformed => [Text(s[..at]), Junk(line, closed)] + Pieces(parse, p, rest)
      case NotObject => []
      case BadEnd => []
      case Other => [Text(s[..at]), Event(line, closed, None)] + Pieces(parse, p, rest)
      case End(step) => [Text(s[..at]), Event(line, closed, Some(step))] + Pieces(parse, p, rest)
  }

  lemma TextBeforeMarker(p: string, s: string, at: nat)
    requires p != "" && Find(p, s) == Some(at) && at <= |s|
    ensures !Contains(p, s[..at])
  {
    forall i: nat | i <= at ensures !Occurs(p, s[..at], i) {
      if Occurs(p, s[..at], i) {
        assert s[..at][i..i + |p|] == s[i..i + |p|];
        assert Occurs(p, s, i);
      }
    }
  }

  lemma CutAt(p: string, s: string, at: nat, line: string, closed: bool)
    requires at + |p| + |LineText("", line, closed)| <= |s| && s[at..at + |p|] == p
    requires s[at + |p|..at + |p| + |LineText("", line, closed)|] == LineText("", line, closed)
    ensures var next := at + |p| + |LineText("", line, closed)|;
      && s[..next] == s[..at] + LineText(p, line, closed)
      && s == s[..next] + s[next..]
  {
    hide LineText;
    Splice(s, at, p, LineText("", line, closed));
    Padded(p, line, closed);
  }

  lemma MarkerIs(p: string, s: string, at: nat)
    requires Find(p, s) == Some(at) && at + |p| <= |s|
    ensures s[at..at + |p|] == p
  {
  }

  lemma Splice(s: string, at: nat, p: string, x: string)
    requires at + |p| + |x| <= |s| && s[at..at + |p|] == p && s[at + |p|..at + |p| + |x|] == x
    ensures s[..at + |p| + |x|] == s[..at] + (p + x)
    ensures s == s[..at + |p| + |x|] + s[at + |p| + |x|..]
  {
    var b, c := at + |p|, at + |p| + |x|;
    assert s[..c] == s[..at] + (s[at..b] + s[b..c]);
  }

  lemma Padded(p: string, line: string, closed: bool)
    ensures LineText(p, line, closed) == p + LineText("", line, closed)
  {
  }

  /** One more piece in front. */
  lemma PutPiece(parse: string -> Parsed, p: string, a: Piece, rest: seq<Piece>)
    ensures AllRaw(p, [a] + rest) == Raw(p, a) + AllRaw(p, rest)
    ensures KeptRaw(p, [a] + rest) == (if a.Event? then "" else Raw(p, a)) + KeptRaw(p, rest)
    ensures EndedSteps([a] + rest) == (if a.Event? && a.step.Some? then [a.step.value] else []) + EndedSteps(rest)
    ensures AllGenuine(parse, p, rest) && Genuine(parse, p, a) ==> AllGenuine(parse, p, [a] + rest)
  {
    assert ([a] + rest)[1..] == rest;
  }

  ghost predicate AllGenuine(parse: string -> Parsed, p: string, pieces: seq<Piece>) {
    forall i :: 0 <= i < |pieces| ==> Genuine(parse, p, pieces[i])
  }

  /** The pieces `pieces` are those of `s`, and the scan kept and reported what they say. */
  ghost predicate Explains(parse: string -> Parsed, p: string, pieces: seq<Piece>, s: string, scan: Scan) {
    && AllRaw(p, pieces) == s
    && AllGenuine(parse, p, pieces)
    && scan == Scanned(KeptRaw(p, pieces), EndedSteps(pieces))
  }

  lemma ExplainsMore(parse: string -> Parsed, p: string, text: string, b: Piece, pieces: seq<Piece>, s: string, scan: Scan)
    requires !b.Text? && Genuine(parse, p, Text(text)) && Genuine(parse, p, b) && Explains(parse, p, pieces, s, scan)
    ensures Explains(parse, p, [Text(text), b] + pieces, text + Raw(p, b) + s,
              Before(if b.Event? then text else text + Raw(p, b), if b.Event? && b.step.Some? then [b.step.value] else [], scan))
  {
    hide Genuine, AllGenuine, AllRaw, KeptRaw, EndedSteps;
    PutPiece(parse, p, b, pieces);
    PutPiece(parse, p, Text(text), [b] + pieces);
    assert [Text(text), b] + pieces == [Text(text)] + ([b] + pieces);
    assert text + (Raw(p, b) + s) == text + Raw(p, b) + s;
  }

  lemma ExplainsEnd(parse: string -> Parsed, p: string, s: string)
    requires p != "" && Find(p, s).None?
    ensures Explains(parse, p, [Text(s)], s, Scanned(s, []))
  {
    assert [Text(s)] == [Text(s)] + [];
    PutPiece(parse, p, Text(s), []);
    assert s + "" == s;
  }

  /** On any output the scan removes nothing but whole event lines that decode, keeps all the
      rest in order, and reports the end events it removed. */
  lemma {:induction false} DropsOnlyEvents(parse: string -> Parsed, p: string, s: string)
    requires p != "" && ScanFrom(parse, p, s).Scanned?
    ensures Explains(parse, p, Pieces(parse, p, s), s, ScanFrom(parse, p, s))
    decreases |s|
  {
    hide Find, EventLine, LineAt, Explains, Contains, Raw, Occurs;
    var marker := Find(p, s);
    if marker.None? {
      ExplainsEnd(parse, p, s);
    } else {
      var at := marker.value;
      MarkerFits(p, s, at);
      var (line, closed) := LineAt(s, at + |p|);
      LineAtIsEventLine(s, at + |p|);
      TextBeforeMarker(p, s, at);
      MarkerIs(p, s, at);
      CutAt(p, s, at, line, closed);
      var next := at + |p| + |LineText("", line, closed)|;
      hide LineText;
      ScanStep(parse, p, s, at, Given(line, closed), next);
      DropsOnlyEvents(parse, p, s[next..]);
      DropsFirst(parse, p, s, at, line, closed, next);
    }
  }

  lemma DropsFirst(parse: string -> Parsed, p: string, s: string, at: nat, line: string, closed: bool, next: nat)
    requires p != "" && at < next <= |s|
    requires Find(p, s) == Some(at) && at + |p| <= |s| && LineAt(s, at + |p|) == (line, closed)
    requires next == at + |p| + |LineText("", line, closed)|
    requires '\n' !in line && !Contains(p, s[..at])
    requires s[..next] == s[..at] + LineText(p, line, closed) && s == s[..next] + s[next..]
    requires ScanFrom(parse, p, s).Scanned?
    requires ScanFrom(parse, p, s) ==
      match parse(Given(line, closed))
      case Malformed => Before(s[..next], [], ScanFrom(parse, p, s[next..]))
      case NotObject => Crashed
      case BadEnd => Crashed
      case Other => Before(s[..at], [], ScanFrom(parse, p, s[next..]))
      case End(step) => Before(s[..at], [step], ScanFrom(parse, p, s[next..]))
    requires Explains(parse, p, Pieces(parse, p, s[next..]), s[next..], ScanFrom(parse, p, s[next..]))
    ensures Explains(parse, p, Pieces(parse, p, s), s, ScanFrom(parse, p, s))
  {
    hide Find, LineAt, Explains, Contains, LineText, ScanFrom, Before, Given, Pieces;
    var rest, scan := Pieces(parse, p, s[next..]), ScanFrom(parse, p, s[next..]);
    PiecesStep(parse, p, s, at, line, closed, next);
    match parse(Given(line, closed)) {
      case Malformed =>
        ExplainsMore(parse, p, s[..at], Junk(line, closed), rest, s[next..], scan);
      case Other =>
        ExplainsMore(parse, p, s[..at], Event(line, closed, None), rest, s[next..], scan);
      case End(step) =>
        ExplainsMore(parse, p, s[..at], Event(line, closed, Some(step)), rest, s[next..], scan);
    }
  }

  lemma PiecesStep(parse: string -> Parsed, p: string, s: string, at: nat, line: string, closed: bool, next: nat)
    requires p != "" && at < next <= |s|
    requires Find(p, s) == Some(at) && at + |p| <= |s| && LineAt(s, at + |p|) == (line, closed)
    requires next == at + |p| + |LineText("", line, closed)|
    ensures Pieces(parse, p, s) ==
      match parse(Given(line, closed))
      case Malformed => [Text(s[..at]), Junk(line, closed)] + Pieces(parse, p, s[next..])
      case NotObject => []
      case BadEnd => []
      case Other => [Text(s[..at]), Event(line, closed, None)] + Pieces(parse, p, s[next..])
      case End(step) => [Text(s[..at]), Event(line, closed, Some(step))] + Pieces(parse, p, s[next..])
  {
    hide Find, LineAt, Given;
  }
}

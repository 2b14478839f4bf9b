/** The event texts of the batch script as JSON objects, and what the scanner takes from them. */
module EventObjects {
  import opened Types
  import opened StepEvents

  datatype Value = Number(n: int) | Str(s: string)

  datatype Field = Field(name: string, value: Value)

  function Label(name: string): string {
    "\"" + name + "\":"
  }

  function JsonValue(v: Value): string {
    match v
    case Number(n) => Decimal(n)
    case Str(s) => "\"" + s + "\""
  }

  function JsonField(f: Field): string {
    Label(f.name) + JsonValue(f.value)
  }

  function JsonFields(fields: seq<Field>): string {
    if fields == [] then ""
    else if |fields| == 1 then JsonField(fields[0])
    else JsonFields(fields[..|fields| - 1]) + "," + JsonField(fields[|fields| - 1])
  }

  /** A flat JSON object without blanks. */
  function JsonObject(fields: seq<Field>): string {
    "{" + JsonFields(fields) + "}"
  }

  /** The value of a field, the last one of that name. */
  function Get(fields: seq<Field>, name: string): Option<Value> {
    if fields == [] then None
    else if fields[|fields| - 1].name == name then Some(fields[|fields| - 1].value)
    else Get(fields[..|fields| - 1], name)
  }

  /** A numeric field, or its default if there is none. */
  function NumberOr(fields: seq<Field>, name: string, default: int): Option<int> {
    match Get(fields, name)
    case None => Some(default)
    case Some(Number(n)) => Some(n)
    case Some(Str(_)) => None
  }

  /** What the scanner makes of a decoded object. */
  function ReadEvent(fields: seq<Field>): Parsed {
    if Get(fields, "event") != Some(Str("end")) then Other
    else
      var index, code, took := NumberOr(fields, "index", 0), NumberOr(fields, "exit_code", 1), NumberOr(fields, "duration_sec", 0);
      if index.None? || code.None? || took.None? then BadEnd else End(Step(index.value, code.value, took.value))
  }

  lemma FieldsPut(fields: seq<Field>, f: Field)
    ensures JsonFields(fields + [f]) == if fields == [] then JsonField(f) else JsonFields(fields) + "," + JsonField(f)
    ensures forall name :: Get(fields + [f], name) == if f.name == name then Some(f.value) else Get(fields, name)
  {
    assert (fields + [f])[..|fields|] == fields;
  }

  lemma NamesDiffer()
    ensures "index" != "event" && "exit_code" != "duration_sec" && "index" != "exit_code" && "index" != "duration_sec"
    ensures "event" != "exit_code" && "event" != "duration_sec" && "begin" != "end"
  {
    assert "index"[0] == 'i' && "duration_sec"[0] == 'd' && "event"[1] == 'v' && "exit_code"[1] == 'x' && "exit_code"[0] == 'e';
    assert "begin"[0] == 'b' && "end"[0] == 'e';
  }

  lemma FirstLabels()
    ensures "{" + Label("index") == "{\"index\":"
    ensures "," + Label("duration_sec") == ",\"duration_sec\":"
  {
  }

  lemma BeginLabel()
    ensures "," + (Label("event") + JsonValue(Str("begin"))) + "}" == ",\"event\":\"begin\"}"
  {
  }

  lemma EndLabels()
    ensures "," + (Label("event") + JsonValue(Str("end"))) + "," + Label("exit_code") == ",\"event\":\"end\",\"exit_code\":"
  {
  }

  lemma TwoParts(open: string, l: string, d: string, e: string, close: string)
    ensures open + ((l + d) + "," + e) + close == (open + l) + d + ("," + e + close)
  {
  }

  lemma FourParts(open: string, l: string, d: string, e: string, m: string, c: string, n: string, t: string, close: string)
    ensures open + ((l + d) + "," + e + "," + (m + c) + "," + (n + t)) + close
         == (open + l) + d + ("," + e + "," + m) + c + ("," + n) + t + close
  {
    assert open + ((l + d) + "," + e + "," + (m + c) + "," + (n + t)) == (open + l) + d + ("," + e + "," + m) + c + ("," + n) + t;
  }

  /** The begin event is an object with its index, and no end event to the scanner. */
  lemma BeginIsObject(index: int)
    ensures var fields := [Field("index", Number(index)), Field("event", Str("begin"))];
      BeginText(index) == JsonObject(fields) && ReadEvent(fields) == Other
  {
    var a, b := Field("index", Number(index)), Field("event", Str("begin"));
    BeginFields(a, b);
    NamesDiffer();
    FirstLabels();
    BeginLabel();
    TwoParts("{", Label("index"), Decimal(index), Label("event") + JsonValue(Str("begin")), "}");
    hide Get, JsonFields, Decimal, Label;
    assert JsonValue(a.value) == Decimal(index);
    hide JsonValue;
  }

  lemma BeginFields(a: Field, b: Field)
    ensures JsonFields([a, b]) == JsonField(a) + "," + JsonField(b)
    ensures forall name :: Get([a, b], name) == if b.name == name then Some(b.value) else if a.name == name then Some(a.value) else None
  {
    FieldsPut([], a);
    FieldsPut([a], b);
    assert [] + [a] == [a] && [a] + [b] == [a, b];
  }

  /** The end event is an object from which the scanner takes just that step. */
  lemma EndIsObject(step: Step)
    ensures var fields := [Field("index", Number(step.index)), Field("event", Str("end")),
                           Field("exit_code", Number(step.exitCode)), Field("duration_sec", Number(step.duration))];
      EndText(step) == JsonObject(fields) && ReadEvent(fields) == End(step)
  {
    var a, b := Field("index", Number(step.index)), Field("event", Str("end"));
    var c, d := Field("exit_code", Number(step.exitCode)), Field("duration_sec", Number(step.duration));
    EndFields(a, b, c, d);
    NamesDiffer();
    FirstLabels();
    EndLabels();
    FourParts("{", Label("index"), Decimal(step.index), Label("event") + JsonValue(Str("end")),
              Label("exit_code"), Decimal(step.exitCode), Label("duration_sec"), Decimal(step.duration), "}");
    hide Get, JsonFields, Decimal, Label;
    assert JsonValue(a.value) == Decimal(step.index) && JsonValue(c.value) == Decimal(step.exitCode) && JsonValue(d.value) == Decimal(step.duration);
    hide JsonValue;
  }

  lemma EndFields(a: Field, b: Field, c: Field, d: Field)
    ensures JsonFields([a, b, c, d]) == JsonField(a) + "," + JsonField(b) + "," + JsonField(c) + "," + JsonField(d)
    ensures forall name :: Get([a, b, c, d], name) == if d.name == name then Some(d.value) else if c.name == name then Some(c.value) else Get([a, b], name)
    ensures forall name :: Get([a, b], name) == if b.name == name then Some(b.value) else if a.name == name then Some(a.value) else None
  {
    BeginFields(a, b);
    FieldsPut([a, b], c);
    FieldsPut([a, b, c], d);
    assert [a, b] + [c] == [a, b, c] && [a, b, c] + [d] == [a, b, c, d];
  }

  lemma {:induction false} PrintedSplit(p: string, index: int, a: seq<Ran>, b: seq<Ran>)
    ensures Printed(p, index, a + b) == Printed(p, index, a) + Printed(p, index + |a|, b)
    decreases |a|
  {
    hide PrintedStep;
    if a == [] {
      assert a + b == b && "" + Printed(p, index, b) == Printed(p, index, b);
    } else {
      PrintedSplit(p, index + 1, a[1..], b);
      assert (a + b)[0] == a[0] && (a + b)[1..] == a[1..] + b;
    }
  }

  /** Somewhere in the print of a batch stands, for each step that ran, its begin event, its end
      event and then its output. */
  lemma StepIsPrinted(p: string, ran: seq<Ran>, i: nat) returns (front: string, back: string)
    requires i < |ran|
    ensures var index := Field("index", Number(i + 1));
      var begun := JsonObject([index, Field("event", Str("begin"))]);
      var ended := JsonObject([index, Field("event", Str("end")),
                               Field("exit_code", Number(ran[i].exitCode)), Field("duration_sec", Number(ran[i].duration))]);
      Printed(p, 1, ran) == front + (p + begun + "\n" + (p + ended + "\n" + ran[i].output)) + back
  {
    hide JsonObject, BeginText, EndText;
    BeginIsObject(i + 1);
    EndIsObject(Step(i + 1, ran[i].exitCode, ran[i].duration));
    front, back := Printed(p, 1, ran[..i]), Printed(p, i + 2, ran[i + 1..]);
    PrintedSplit(p, 1, ran[..i], ran[i..]);
    assert ran == ran[..i] + ran[i..] && ran[i..][0] == ran[i] && ran[i..][1..] == ran[i + 1..];
    assert Printed(p, i + 1, ran[i..]) == PrintedStep(p, i + 1, ran[i]) + back;
  }
}

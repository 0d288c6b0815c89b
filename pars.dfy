/**
 * `parse_response_to_db` (pars.py:69-98): the language model's reply is read line
 * by line; a line starting with `Start:`, `End:`, `Task:`, `Condition:` or `From:`
 * becomes one INSERT, any other line is passed over, and the whole reply is one
 * transaction that is committed at the end or rolled back at the first exception.
 */
module Pars {
  import opened Wrappers
  import opened Text
  import opened BpmnDb

  /** Which branch of the `if`/`elif` chain a line takes. */
  datatype LineKind = StartLine | EndLine | TaskLine | ConditionLine | FromLine | OtherLine

  /** What can abort the block: `IndexError` from `split(...)[1]`, or an error raised by PostgreSQL. */
  datatype Failure = IndexError | DatabaseError(error: DbError)

  /** Result of `parse_response_to_db`: it returns (after the commit) or raises (after the rollback). */
  datatype Outcome = Committed | RolledBack(failure: Failure)

  /**
   * The `line.startswith(...)` tests, exact and case-sensitive on the untrimmed
   * line. No two prefixes can both match, so the order of the tests is immaterial.
   */
  function Classify(line: string): (k: LineKind)
    ensures k == StartLine <==> "Start:" <= line
    ensures k == EndLine <==> "End:" <= line
    ensures k == TaskLine <==> "Task:" <= line
    ensures k == ConditionLine <==> "Condition:" <= line
    ensures k == FromLine <==> "From:" <= line
  {
    assert "Start:" <= line ==> line[0] == 'S';
    assert "End:" <= line ==> line[0] == 'E';
    assert "Task:" <= line ==> line[0] == 'T';
    assert "Condition:" <= line ==> line[0] == 'C';
    assert "From:" <= line ==> line[0] == 'F';
    if "Start:" <= line then StartLine
    else if "End:" <= line then EndLine
    else if "Task:" <= line then TaskLine
    else if "Condition:" <= line then ConditionLine
    else if "From:" <= line then FromLine
    else OtherLine
  }

  /** The four tables the parser writes to. */
  datatype Table = EventsTable | TasksTable | GatewaysTable | FlowsTable

  /** The table the lines of kind `k` write to, if any. */
  function TableOf(k: LineKind): Option<Table> {
    match k
    case StartLine => Some(EventsTable)
    case EndLine => Some(EventsTable)
    case TaskLine => Some(TasksTable)
    case ConditionLine => Some(GatewaysTable)
    case FromLine => Some(FlowsTable)
    case OtherLine => None
  }

  /** The table `ins` writes to. */
  function TableOfInsert(ins: Insert): Table {
    match ins
    case InsertEvent(_) => EventsTable
    case InsertTask(_) => TasksTable
    case InsertGateway(_) => GatewaysTable
    case InsertFlow(_) => FlowsTable
  }

  /** The lines of kind `k` write to the table `ins` writes to. */
  predicate Targets(k: LineKind, ins: Insert) {
    TableOf(k) == Some(TableOfInsert(ins))
  }

  /**
   * `segment.split(":")[1].strip()`: the text between the first and the second
   * colon, stripped; None where Python raises IndexError (no colon at all).
   * FieldIsSplit ties it to the Python expression.
   */
  function Field(segment: string): (r: Option<string>)
    ensures r.Some? <==> ':' in segment
    ensures r.Some? ==> NoMargins(r.value) && ':' !in r.value
  {
    if ':' in segment then
      var f := UpTo(After(segment, ':'), ':');
      StripSpan(f);
      Some(Strip(f))
    else None
  }

  /** Field is `split(":")[1].strip()`, and None exactly when the list has no index 1. */
  lemma FieldIsSplit(segment: string)
    ensures var parts := Split(segment, ':');
      Field(segment) == if |parts| > 1 then Some(Strip(parts[1])) else None
  {
    SplitFirst(segment, ':');
    if ':' in segment {
      SplitFirst(After(segment, ':'), ':');
    }
  }

  /** `Start:`/`End:` lines (pars.py:74-77): one event named by the line's first field. */
  function EventInsert(line: string, kind: string): Result<Option<Insert>, Failure> {
    match Field(line)
    case None => Err(IndexError)
    case Some(name) => Ok(Some(InsertEvent(Event(name, kind))))
  }

  /** `Task:` lines (pars.py:78-82): name from the first `|` segment, performer from the second if any. */
  function TaskInsert(line: string): Result<Option<Insert>, Failure> {
    var parts := Split(line, '|');
    match Field(parts[0])
    case None => Err(IndexError)
    case Some(name) =>
      if |parts| > 1 then
        match Field(parts[1])
        case None => Err(IndexError)
        case Some(performer) => Ok(Some(InsertTask(Task(name, Some(performer)))))
      else Ok(Some(InsertTask(Task(name, None))))
  }

  /** `Condition:` lines (pars.py:83-84). */
  function GatewayInsert(line: string): Result<Option<Insert>, Failure> {
    match Field(line)
    case None => Err(IndexError)
    case Some(condition) => Ok(Some(InsertGateway(Gateway(condition))))
  }

  /** `From:` lines (pars.py:85-97): from, to and an optional condition, one per `|` segment. */
  function FlowInsert(line: string): Result<Option<Insert>, Failure> {
    FlowOf(Split(line, '|'))
  }

  /** The flow named by the `|` segments of a `From:` line. */
  function FlowOf(parts: seq<string>): Result<Option<Insert>, Failure>
    requires |parts| >= 1
  {
    match Field(parts[0])
    case None => Err(IndexError)
    case Some(fromName) =>
      if |parts| <= 1 then Err(IndexError)
      else
        match Field(parts[1])
        case None => Err(IndexError)
        case Some(toName) =>
          if |parts| > 2 then
            match Field(parts[2])
            case None => Err(IndexError)
            case Some(condition) => Ok(Some(InsertFlow(FlowRequest(fromName, toName, Some(condition)))))
          else Ok(Some(InsertFlow(FlowRequest(fromName, toName, None))))
  }

  /** One iteration of the loop body: the INSERT the line issues, none for an unprefixed line, or the IndexError it raises. */
  function ParseLine(line: string): (r: Result<Option<Insert>, Failure>)
    ensures r.Err? ==> r.error == IndexError
  {
    match Classify(line)
    case StartLine => EventInsert(line, "start")
    case EndLine => EventInsert(line, "end")
    case TaskLine => TaskInsert(line)
    case ConditionLine => GatewayInsert(line)
    case FromLine => FlowInsert(line)
    case OtherLine => Ok(None)
  }

  // ---------------------------------------------------------------------------
  // Which extraction each prefix selects

  lemma StartSelects(line: string)
    requires "Start:" <= line
    ensures ParseLine(line) == EventInsert(line, "start")
  {
    assert Classify(line) == StartLine;
  }

  lemma EndSelects(line: string)
    requires "End:" <= line
    ensures ParseLine(line) == EventInsert(line, "end")
  {
    assert Classify(line) == EndLine;
  }

  lemma TaskSelects(line: string)
    requires "Task:" <= line
    ensures ParseLine(line) == TaskInsert(line)
  {
    assert Classify(line) == TaskLine;
  }

  lemma ConditionSelects(line: string)
    requires "Condition:" <= line
    ensures ParseLine(line) == GatewayInsert(line)
  {
    assert Classify(line) == ConditionLine;
  }

  lemma FromSelects(line: string)
    requires "From:" <= line
    ensures ParseLine(line) == FlowInsert(line)
  {
    assert Classify(line) == FromLine;
  }

  // ---------------------------------------------------------------------------
  // Each prefix is its word and a colon

  lemma StartWord(line: string)
    requires "Start:" <= line
    ensures ':' !in "Start" && "Start" + ":" <= line
  {
    assert "Start" + ":" == "Start:";
  }

  lemma EndWord(line: string)
    requires "End:" <= line
    ensures ':' !in "End" && "End" + ":" <= line
  {
    assert "End" + ":" == "End:";
  }

  lemma TaskWord(line: string)
    requires "Task:" <= line
    ensures ':' !in "Task" && '|' !in "Task" && "Task" + ":" <= line
  {
    assert "Task" + ":" == "Task:";
  }

  lemma ConditionWord(line: string)
    requires "Condition:" <= line
    ensures ':' !in "Condition" && "Condition" + ":" <= line
  {
    assert "Condition" + ":" == "Condition:";
  }

  lemma FromWord(line: string)
    requires "From:" <= line
    ensures ':' !in "From" && '|' !in "From" && "From" + ":" <= line
  {
    assert "From" + ":" == "From:";
  }

  // ---------------------------------------------------------------------------
  // What each kind of line inserts, stated by character positions

  lemma UpToPastPrefix(p: string, rest: string, c: char)
    requires c !in p
    ensures UpTo(p + rest, c) == p + UpTo(rest, c)
  {
    IndexOfPastPrefix(p, rest, c);
    assert (p + rest)[..|p| + IndexOf(rest, c)] == p + rest[..IndexOf(rest, c)];
  }

  /** A segment that starts with a word and a colon yields the text after that colon, up to the next one. */
  lemma PrefixedField(segment: string, word: string)
    requires ':' !in word && word + ":" <= segment
    ensures Field(segment) == Some(Strip(UpTo(segment[|word| + 1..], ':')))
  {
    var rest := segment[|word|..];
    assert segment == word + rest;
    assert rest[0] == ':';
    IndexOfPastPrefix(word, rest, ':');
    assert IndexOf(segment, ':') == |word|;
    assert After(segment, ':') == segment[|word| + 1..];
  }

  /** EventInsert by positions in the line (see EventLineInserts). */
  lemma EventByPosition(line: string, word: string, kind: string)
    requires ':' !in word && word + ":" <= line
    ensures EventInsert(line, kind) == Ok(Some(InsertEvent(Event(Strip(UpTo(line[|word| + 1..], ':')), kind))))
  {
    PrefixedField(line, word);
  }

  /**
   * A `Start:` line always inserts one event of type 'start' whose name is the
   * stripped text between the prefix's colon and the next colon (anything after
   * a second colon is dropped; `|` is not special).
   */
  lemma StartLineInserts(line: string)
    requires "Start:" <= line
    ensures ParseLine(line) == Ok(Some(InsertEvent(Event(Strip(UpTo(line[6..], ':')), "start"))))
  {
    StartSelects(line);
    StartWord(line);
    EventByPosition(line, "Start", "start");
  }

  /** An `End:` line likewise inserts one event of type 'end'. */
  lemma EndLineInserts(line: string)
    requires "End:" <= line
    ensures ParseLine(line) == Ok(Some(InsertEvent(Event(Strip(UpTo(line[4..], ':')), "end"))))
  {
    EndSelects(line);
    EndWord(line);
    EventByPosition(line, "End", "end");
  }

  /** GatewayInsert by positions in the line (see ConditionLineInserts). */
  lemma GatewayByPosition(line: string)
    requires "Condition:" <= line
    ensures GatewayInsert(line) == Ok(Some(InsertGateway(Gateway(Strip(UpTo(line[10..], ':'))))))
  {
    ConditionWord(line);
    PrefixedField(line, "Condition");
  }

  /**
   * A `Condition:` line always inserts one gateway whose condition is the stripped
   * text between the prefix's colon and the next colon; it may be empty.
   */
  lemma ConditionLineInserts(line: string)
    requires "Condition:" <= line
    ensures ParseLine(line) == Ok(Some(InsertGateway(Gateway(Strip(UpTo(line[10..], ':'))))))
  {
    ConditionSelects(line);
    GatewayByPosition(line);
  }

  /** Before the first `|`, a line starting with `word:` is that prefix and the text after it up to `|`. */
  lemma PrefixedUpTo(line: string, word: string)
    requires '|' !in word && word + ":" <= line
    ensures UpTo(line, '|') == word + ":" + UpTo(line[|word| + 1..], '|')
  {
    var n := |word| + 1;
    assert line == line[..n] + line[n..];
    assert line[..n] == word + ":";
    UpToPastPrefix(line[..n], line[n..], '|');
  }

  /** The first `|` segment of a line starting with `word:` yields the text after it up to `|` or `:`. */
  lemma PrefixedFirstSegment(line: string, word: string)
    requires ':' !in word && '|' !in word && word + ":" <= line
    ensures Field(Split(line, '|')[0]) == Some(Strip(UpTo(UpTo(line[|word| + 1..], '|'), ':')))
  {
    SplitFirst(line, '|');
    PrefixedUpTo(line, word);
    var head := UpTo(line, '|');
    PrefixedField(head, word);
    assert head[|word| + 1..] == UpTo(line[|word| + 1..], '|');
  }

  /** The second and third `|` segments, located by position. */
  lemma LaterSegments(line: string)
    requires '|' in line
    ensures var parts, rest := Split(line, '|'), After(line, '|');
      |parts| > 1 && parts[1] == UpTo(rest, '|')
      && (|parts| > 2 <==> '|' in rest)
      && ('|' in rest ==> parts[2] == UpTo(After(rest, '|'), '|'))
  {
    var rest := After(line, '|');
    SplitFirst(line, '|');
    SplitFirst(rest, '|');
    if '|' in rest {
      SplitFirst(After(rest, '|'), '|');
    }
  }

  /** TaskInsert by positions in the line (see TaskLineInserts). */
  lemma TaskBySegments(line: string)
    requires "Task:" <= line
    ensures var name := Strip(UpTo(UpTo(line[5..], '|'), ':'));
      TaskInsert(line) ==
        if '|' !in line then Ok(Some(InsertTask(Task(name, None))))
        else
          match Field(UpTo(After(line, '|'), '|'))
          case None => Err(IndexError)
          case Some(performer) => Ok(Some(InsertTask(Task(name, Some(performer)))))
  {
    TaskWord(line);
    PrefixedFirstSegment(line, "Task");
    SplitFirst(line, '|');
    if '|' in line {
      LaterSegments(line);
    }
  }

  /**
   * A `Task:` line inserts one task. Its name is the stripped text after `Task:`
   * up to the first `|` or `:`. Without a `|` the performer is NULL; otherwise the
   * second segment must hold a colon (else IndexError) and the performer is that
   * segment's value. Further segments are ignored.
   */
  lemma TaskLineInserts(line: string)
    requires "Task:" <= line
    ensures var name := Strip(UpTo(UpTo(line[5..], '|'), ':'));
      ParseLine(line) ==
        if '|' !in line then Ok(Some(InsertTask(Task(name, None))))
        else
          match Field(UpTo(After(line, '|'), '|'))
          case None => Err(IndexError)
          case Some(performer) => Ok(Some(InsertTask(Task(name, Some(performer)))))
  {
    TaskSelects(line);
    TaskBySegments(line);
  }

  /** FlowInsert by positions in the line (see FromLineRaises and FromLineInserts). */
  lemma FlowBySegments(line: string)
    requires "From:" <= line
    ensures '|' !in line ==> FlowInsert(line) == Err(IndexError)
    ensures '|' in line ==>
      var rest := After(line, '|');
      FlowInsert(line) ==
        match Field(UpTo(rest, '|'))
        case None => Err(IndexError)
        case Some(toName) =>
          var fromName := Strip(UpTo(UpTo(line[5..], '|'), ':'));
          if '|' !in rest then Ok(Some(InsertFlow(FlowRequest(fromName, toName, None))))
          else
            match Field(UpTo(After(rest, '|'), '|'))
            case None => Err(IndexError)
            case Some(condition) => Ok(Some(InsertFlow(FlowRequest(fromName, toName, Some(condition)))))
  {
    FromWord(line);
    PrefixedFirstSegment(line, "From");
    SplitFirst(line, '|');
    if '|' in line {
      LaterSegments(line);
      FlowOfFields(Split(line, '|'), Strip(UpTo(UpTo(line[5..], '|'), ':')));
    }
  }

  /** FlowOf once the first segment's field is known: the second and third segments decide. */
  lemma FlowOfFields(parts: seq<string>, fromName: string)
    requires |parts| > 1 && Field(parts[0]) == Some(fromName)
    ensures FlowOf(parts) ==
      match Field(parts[1])
      case None => Err(IndexError)
      case Some(toName) =>
        if |parts| == 2 then Ok(Some(InsertFlow(FlowRequest(fromName, toName, None))))
        else
          match Field(parts[2])
          case None => Err(IndexError)
          case Some(condition) => Ok(Some(InsertFlow(FlowRequest(fromName, toName, Some(condition)))))
  {
  }

  /**
   * A `From:` line raises IndexError when it has no second `|` segment, when its
   * second segment holds no colon, or when it has a third segment without a colon.
   */
  lemma FromLineRaises(line: string)
    requires "From:" <= line
    ensures '|' !in line ==> ParseLine(line) == Err(IndexError)
    ensures '|' in line && ':' !in UpTo(After(line, '|'), '|') ==> ParseLine(line) == Err(IndexError)
    ensures '|' in line && '|' in After(line, '|') && ':' !in UpTo(After(After(line, '|'), '|'), '|') ==>
      ParseLine(line) == Err(IndexError)
  {
    FromSelects(line);
    FlowBySegments(line);
  }

  /**
   * Otherwise a `From:` line inserts one flow: from the name after `From:` (up to
   * `|` or `:`), to the value of the second `|` segment, with the third segment's
   * value as condition, or NULL when there is no third segment. Further segments
   * are ignored.
   */
  lemma FromLineInserts(line: string)
    requires "From:" <= line && '|' in line
    requires ':' in UpTo(After(line, '|'), '|')
    requires '|' in After(line, '|') ==> ':' in UpTo(After(After(line, '|'), '|'), '|')
    ensures ParseLine(line) == Ok(Some(InsertFlow(FlowRequest(
      Strip(UpTo(UpTo(line[5..], '|'), ':')),
      Field(UpTo(After(line, '|'), '|')).value,
      if '|' in After(line, '|') then Field(UpTo(After(After(line, '|'), '|'), '|')) else None))))
  {
    FromSelects(line);
    FlowBySegments(line);
  }

  /**
   * Only `Task:` and `From:` lines can raise, and only IndexError; every other
   * prefixed line issues one INSERT, into the table of its own kind, and an
   * unprefixed line issues none.
   */
  lemma ParseLineKinds(line: string)
    ensures var r := ParseLine(line);
      && (r.Err? ==> r.error == IndexError && Classify(line) in {TaskLine, FromLine})
      && (r.Ok? ==> (r.value.None? <==> Classify(line) == OtherLine))
      && (r.Ok? && r.value.Some? ==> Targets(Classify(line), r.value.value))
  {
    ParseLineTargets(line);
    match Classify(line)
    case StartLine => StartLineInserts(line);
    case EndLine => EndLineInserts(line);
    case TaskLine => TaskLineInserts(line);
    case ConditionLine => ConditionLineInserts(line);
    case FromLine => FromLineRaises(line); FlowBySegments(line);
    case OtherLine =>
  }

  /** A line's INSERT goes to the table of the line's kind. */
  lemma ParseLineTargets(line: string)
    ensures var r := ParseLine(line);
      r.Ok? && r.value.Some? ==> Targets(Classify(line), r.value.value)
  {
    match Classify(line)
    case StartLine => EventInsertTable(line, "start");
    case EndLine => EventInsertTable(line, "end");
    case TaskLine => TaskInsertTable(line);
    case ConditionLine => GatewayInsertTable(line);
    case FromLine => FlowOfTable(Split(line, '|'));
    case OtherLine =>
  }

  lemma EventInsertTable(line: string, kind: string)
    ensures var r := EventInsert(line, kind);
      r.Ok? ==> r.value.Some? && TableOfInsert(r.value.value) == EventsTable
  {
    match Field(line)
    case None =>
    case Some(name) => assert EventInsert(line, kind) == Ok(Some(InsertEvent(Event(name, kind))));
  }

  lemma TaskInsertTable(line: string)
    ensures var r := TaskInsert(line);
      r.Ok? ==> r.value.Some? && TableOfInsert(r.value.value) == TasksTable
  {
  }

  lemma GatewayInsertTable(line: string)
    ensures var r := GatewayInsert(line);
      r.Ok? ==> r.value.Some? && TableOfInsert(r.value.value) == GatewaysTable
  {
    match Field(line)
    case None =>
    case Some(condition) => assert GatewayInsert(line) == Ok(Some(InsertGateway(Gateway(condition))));
  }

  lemma FlowOfTable(parts: seq<string>)
    requires |parts| >= 1
    ensures var r := FlowOf(parts);
      r.Ok? ==> r.value.Some? && TableOfInsert(r.value.value) == FlowsTable
  {
    if Field(parts[0]).Some? && |parts| > 1 {
      FlowOfFields(parts, Field(parts[0]).value);
    }
  }

  /** Only the five exact, case-sensitive prefixes on the untrimmed line lead to an INSERT or an error. */
  lemma OnlyPrefixedLinesAct(line: string)
    ensures ParseLine(line) == Ok(None) <==>
      !("Start:" <= line || "End:" <= line || "Task:" <= line || "Condition:" <= line || "From:" <= line)
  {
  }

  /** Section headers, blank lines, indented or lower-case prefixes are passed over. */
  lemma NoiseLines()
    ensures Classify("[EVENT]") == OtherLine
    ensures Classify("") == OtherLine
    ensures Classify("  Start: Order received") == OtherLine
    ensures Classify("start: Order received") == OtherLine
    ensures Classify("Start Order received") == OtherLine
    ensures Classify("Start:Order received") == StartLine
  {
    assert "[EVENT]"[0] == '[';
    assert "  Start: Order received"[0] == ' ';
    assert "start: Order received"[0] == 's';
    assert "Start Order received"[5] == ' ';
  }

  // ---------------------------------------------------------------------------
  // The whole reply, one transaction
  //
  // The block is specified over the lines' parse results (`ParseAll`), so that
  // what holds of the loop is stated once for any sequence of per-line results.

  /** What the field extraction of one line gives: its INSERT, none, or IndexError. */
  type Parsed = Result<Option<Insert>, Failure>

  /** `f` applied to every element of `xs`, in order. */
  function Map<A, B>(f: A -> B, xs: seq<A>): (ys: seq<B>)
    ensures |ys| == |xs|
    ensures forall k :: 0 <= k < |xs| ==> ys[k] == f(xs[k])
  {
    seq(|xs|, k requires 0 <= k < |xs| => f(xs[k]))
  }

  lemma MapAppend<A, B>(f: A -> B, a: seq<A>, b: seq<A>)
    ensures Map(f, a + b) == Map(f, a) + Map(f, b)
  {
    var ys, zs := Map(f, a), Map(f, b);
    forall k | 0 <= k < |a + b|
      ensures Map(f, a + b)[k] == (ys + zs)[k]
    {
      if k < |a| {
        assert (a + b)[k] == a[k];
      } else {
        assert (a + b)[k] == b[k - |a|];
      }
    }
  }

  lemma MapPrefix<A, B>(f: A -> B, xs: seq<A>, n: nat)
    requires n <= |xs|
    ensures Map(f, xs)[..n] == Map(f, xs[..n])
  {
    forall k | 0 <= k < n
      ensures Map(f, xs)[..n][k] == Map(f, xs[..n])[k]
    {
      assert xs[..n][k] == xs[k];
    }
  }

  /** The parse result of every line, in order. */
  function ParseAll(lines: seq<string>): (ps: seq<Parsed>)
    ensures |ps| == |lines|
    ensures forall k :: 0 <= k < |lines| ==> ps[k] == ParseLine(lines[k])
  {
    Map(ParseLine, lines)
  }

  /** The INSERT a parsed line issues, as a list of at most one. */
  function IssuedBy(p: Parsed): seq<Insert> {
    if p.Ok? && p.value.Some? then [p.value.value] else []
  }

  /** The name of the task a parsed line inserts, if any. */
  function DeclaredBy(p: Parsed): set<string> {
    if p.Ok? && p.value.Some? && p.value.value.InsertTask? then {p.value.value.task.name} else {}
  }

  /** The INSERTs the lines issue, in line order, whatever the database says. */
  function Issued(ps: seq<Parsed>): seq<Insert>
    decreases |ps|
  {
    if ps == [] then [] else Issued(ps[..|ps| - 1]) + IssuedBy(ps[|ps| - 1])
  }

  /** The task names the lines insert. */
  function Declared(ps: seq<Parsed>): set<string>
    decreases |ps|
  {
    if ps == [] then {} else Declared(ps[..|ps| - 1]) + DeclaredBy(ps[|ps| - 1])
  }

  /**
   * The exception one iteration of the loop raises when the `tasks` table holds
   * the names `known`: IndexError from a field extraction, or the database's
   * refusal of the INSERT; None when the iteration completes.
   */
  function Raised(known: set<string>, p: Parsed): Option<Failure> {
    match p
    case Err(f) => Some(f)
    case Ok(None) => None
    case Ok(Some(ins)) =>
      match Rejection(known, ins)
      case Some(e) => Some(DatabaseError(e))
      case None => None
  }

  /**
   * Running the loop over lines parsed as `ps` when the `tasks` table held the
   * names `names` before the block: the INSERTs executed, or the first exception,
   * which ends the loop. A line's INSERT sees the tasks of the earlier lines.
   */
  function Inserts(names: set<string>, ps: seq<Parsed>): (r: Result<seq<Insert>, Failure>)
    ensures r.Ok? ==> |r.value| <= |ps|
    ensures r.Err? ==> ps != []
    decreases |ps|
  {
    if ps == [] then Ok([])
    else
      var init := ps[..|ps| - 1];
      match Inserts(names, init)
      case Err(f) => Err(f)
      case Ok(done) =>
        match Raised(names + Declared(init), ps[|ps| - 1])
        case Some(f) => Err(f)
        case None => Ok(done + IssuedBy(ps[|ps| - 1]))
  }

  /** The kind of every line, in order. */
  function Kinds(lines: seq<string>): (ks: seq<LineKind>)
    ensures |ks| == |lines|
    ensures forall k :: 0 <= k < |lines| ==> ks[k] == Classify(lines[k])
  {
    Map(Classify, lines)
  }

  /** How many of the kinds `ks` write to table `t`. */
  function Count(ks: seq<LineKind>, t: Table): nat
    decreases |ks|
  {
    if ks == [] then 0
    else Count(ks[..|ks| - 1], t) + (if TableOf(ks[|ks| - 1]) == Some(t) then 1 else 0)
  }

  /** The first `i + 1` results are the first `i` and result `i`. */
  lemma PrefixStep(names: set<string>, ps: seq<Parsed>, i: nat)
    requires i < |ps|
    ensures Declared(ps[..i + 1]) == Declared(ps[..i]) + DeclaredBy(ps[i])
    ensures Inserts(names, ps[..i + 1]) ==
      match Inserts(names, ps[..i])
      case Err(f) => Err(f)
      case Ok(done) =>
        match Raised(names + Declared(ps[..i]), ps[i])
        case Some(f) => Err(f)
        case None => Ok(done + IssuedBy(ps[i]))
  {
    assert ps[..i + 1][..i] == ps[..i];
  }

  /** Once a line has raised, the later lines are never run: the block fails with that exception. */
  lemma {:induction false} ErrPersists(names: set<string>, ps: seq<Parsed>, i: nat)
    requires i <= |ps| && Inserts(names, ps[..i]).Err?
    ensures Inserts(names, ps) == Inserts(names, ps[..i])
    decreases |ps|
  {
    if i < |ps| {
      var init := ps[..|ps| - 1];
      assert init[..i] == ps[..i];
      ErrPersists(names, init, i);
    } else {
      assert ps[..i] == ps;
    }
  }

  /** When no line fails, the block executes exactly the INSERTs its lines issue, in order. */
  lemma {:induction false} InsertsIssued(names: set<string>, ps: seq<Parsed>)
    requires Inserts(names, ps).Ok?
    ensures Inserts(names, ps).value == Issued(ps)
    decreases |ps|
  {
    if ps != [] {
      InsertsIssued(names, ps[..|ps| - 1]);
    }
  }

  /**
   * The block succeeds if and only if no line raises, given the tasks that existed
   * before the block and those inserted by the lines before it.
   */
  lemma {:induction false} InsertsOkIff(names: set<string>, ps: seq<Parsed>)
    ensures Inserts(names, ps).Ok? <==>
      forall i :: 0 <= i < |ps| ==> Raised(names + Declared(ps[..i]), ps[i]).None?
  {
    if Inserts(names, ps).Ok? {
      OkNothingRaised(names, ps);
    } else if forall i :: 0 <= i < |ps| ==> Raised(names + Declared(ps[..i]), ps[i]).None? {
      NothingRaisedOk(names, ps);
    }
  }

  /** The first `i` of the first `n` lines are the first `i` lines. */
  lemma PrefixOfPrefix(ps: seq<Parsed>, n: nat, i: nat)
    requires i < n <= |ps|
    ensures ps[..n][..i] == ps[..i] && ps[..n][i] == ps[i]
  {
  }

  /** A block that runs to the end ran its first lines to the end, and its last line raised nothing. */
  lemma OkStep(names: set<string>, ps: seq<Parsed>)
    requires ps != [] && Inserts(names, ps).Ok?
    ensures Inserts(names, ps[..|ps| - 1]).Ok? && Raised(names + Declared(ps[..|ps| - 1]), ps[|ps| - 1]).None?
  {
  }

  lemma {:induction false} OkNothingRaised(names: set<string>, ps: seq<Parsed>)
    requires Inserts(names, ps).Ok?
    ensures forall i :: 0 <= i < |ps| ==> Raised(names + Declared(ps[..i]), ps[i]).None?
    decreases |ps|
  {
    if ps != [] {
      var n := |ps| - 1;
      OkStep(names, ps);
      OkNothingRaised(names, ps[..n]);
      forall i | 0 <= i < |ps|
        ensures Raised(names + Declared(ps[..i]), ps[i]).None?
      {
        if i < n {
          PrefixOfPrefix(ps, n, i);
        }
      }
    }
  }

  lemma {:induction false} NothingRaisedOk(names: set<string>, ps: seq<Parsed>)
    requires forall i :: 0 <= i < |ps| ==> Raised(names + Declared(ps[..i]), ps[i]).None?
    ensures Inserts(names, ps).Ok?
    decreases |ps|
  {
    if ps != [] {
      var n := |ps| - 1;
      forall i | 0 <= i < n
        ensures Raised(names + Declared(ps[..n][..i]), ps[..n][i]).None?
      {
        PrefixOfPrefix(ps, n, i);
      }
      NothingRaisedOk(names, ps[..n]);
    }
  }

  /**
   * In a block that succeeds, both endpoints of every flow are task names that
   * existed before the block or were inserted by an earlier line of it.
   */
  lemma FlowEndpointsDeclaredEarlier(names: set<string>, ps: seq<Parsed>, i: nat, f: FlowRequest)
    requires Inserts(names, ps).Ok?
    requires i < |ps| && ps[i] == Ok(Some(InsertFlow(f)))
    ensures f.fromName in names + Declared(ps[..i]) && f.toName in names + Declared(ps[..i])
  {
    InsertsOkIff(names, ps);
    assert Raised(names + Declared(ps[..i]), ps[i]).None?;
  }

  /** Applying nothing or one INSERT after a run of them. */
  lemma AppliedThen(before: Tables, done: seq<Insert>, mid: Tables, step: seq<Insert>, after: Tables)
    requires |step| <= 1
    requires Applied(before, done, mid) && Applied(mid, step, after)
    ensures Applied(before, done + step, after)
  {
    if step == [] {
      assert done + step == done;
    } else {
      assert step[..0] == [];
      AppliedSnoc(before, done, mid, step[0], after);
      assert done + step == done + [step[0]];
    }
  }

  /** A line that completes extends the run of the loop by its INSERT and its task name. */
  lemma Advance(names: set<string>, ps: seq<Parsed>, i: nat, done: seq<Insert>,
                start: Tables, mid: Tables, after: Tables, known: set<string>, known': set<string>)
    requires i < |ps| && Inserts(names, ps[..i]) == Ok(done)
    requires known == names + Declared(ps[..i]) && Raised(known, ps[i]).None?
    requires Applied(start, done, mid) && Applied(mid, IssuedBy(ps[i]), after)
    requires known' == known + DeclaredBy(ps[i])
    ensures Inserts(names, ps[..i + 1]) == Ok(done + IssuedBy(ps[i]))
    ensures known' == names + Declared(ps[..i + 1])
    ensures Applied(start, done + IssuedBy(ps[i]), after)
  {
    PrefixStep(names, ps, i);
    AppliedThen(start, done, mid, IssuedBy(ps[i]), after);
  }

  /** A line that raises makes the whole block fail with its exception. */
  lemma Abort(names: set<string>, ps: seq<Parsed>, i: nat, done: seq<Insert>, known: set<string>)
    requires i < |ps| && Inserts(names, ps[..i]) == Ok(done)
    requires known == names + Declared(ps[..i]) && Raised(known, ps[i]).Some?
    ensures Inserts(names, ps) == Err(Raised(known, ps[i]).value)
  {
    PrefixStep(names, ps, i);
    ErrPersists(names, ps, i + 1);
  }

  /**
   * The second half of one iteration of the loop of pars.py:73-97: execute the
   * INSERT the line's fields make up, or raise what their extraction raised.
   * It raises exactly what Raised says; when it does not, the line's INSERT, if
   * any, has been applied and nothing else has changed.
   */
  method ExecuteLine(db: Db, parsed: Parsed) returns (failure: Option<Failure>)
    requires db.Valid()
    modifies db
    ensures db.Valid() && db.savepoint == old(db.savepoint)
    ensures failure == Raised(TaskNames(old(db.tasks)), parsed)
    ensures failure.None? ==> Applied(old(db.Snapshot()), IssuedBy(parsed), db.Snapshot())
    ensures failure.None? ==> TaskNames(db.tasks) == TaskNames(old(db.tasks)) + DeclaredBy(parsed)
    ensures failure.Some? ==> db.Snapshot() == old(db.Snapshot())
  {
    ghost var before := db.Snapshot();
    match parsed
    case Err(f) =>
      failure := Some(f);
    case Ok(None) =>
      failure := None;
    case Ok(Some(ins)) =>
      var err := db.Execute(ins);
      failure := if err.Some? then Some(DatabaseError(err.value)) else None;
      if err.None? {
        AppliedOne(before, ins, db.Snapshot());
      }
  }

  /**
   * The cursor block of pars.py:72-97 inside an open transaction: run the lines
   * in order and stop at the first exception, which is returned. When none is
   * raised, the INSERTs `Inserts` specifies have been applied; otherwise the
   * tables may hold the effects of the earlier lines, which only the rollback
   * of the enclosing transaction removes.
   */
  method RunLines(db: Db, lines: seq<string>) returns (failure: Option<Failure>)
    requires db.Valid() && db.savepoint.Some?
    modifies db
    ensures db.Valid() && db.savepoint == old(db.savepoint)
    ensures var expected := Inserts(TaskNames(old(db.tasks)), ParseAll(lines));
      && (failure.None? <==> expected.Ok?)
      && (failure.Some? ==> expected == Err(failure.value))
      && (failure.None? ==> Applied(old(db.Snapshot()), expected.value, db.Snapshot()))
  {
    ghost var ps := ParseAll(lines);
    ghost var names := TaskNames(db.tasks);
    ghost var start := db.Snapshot();
    ghost var done: seq<Insert> := [];
    var i := 0;
    while i < |lines|
      invariant 0 <= i <= |lines|
      invariant db.Valid() && db.savepoint == old(db.savepoint)
      invariant Inserts(names, ps[..i]) == Ok(done)
      invariant TaskNames(db.tasks) == names + Declared(ps[..i])
      invariant Applied(start, done, db.Snapshot())
    {
      ghost var mid := db.Snapshot();
      ghost var known := TaskNames(db.tasks);
      var parsed := ParseLine(lines[i]);
      assert parsed == ps[i];
      failure := ExecuteLine(db, parsed);
      if failure.Some? {
        Abort(names, ps, i, done, known);
        assert Inserts(names, ps) == Err(failure.value);
        return;
      }
      Advance(names, ps, i, done, start, mid, db.Snapshot(), known, TaskNames(db.tasks));
      done := done + IssuedBy(ps[i]);
      i := i + 1;
    }
    assert ps[..i] == ps;
    assert Inserts(names, ps) == Ok(done);
    failure := None;
  }

  /**
   * `parse_response_to_db` (pars.py:69-98): run every line of the reply inside one
   * transaction. If a line raises, be it IndexError from a field extraction or a
   * refused INSERT, the transaction is rolled back, the tables are as before and
   * the exception is the block's outcome; otherwise everything is committed.
   */
  method ParseResponseToDb(db: Db, responseText: string) returns (outcome: Outcome)
    requires db.Valid() && db.savepoint.None?
    modifies db
    ensures db.Valid() && db.savepoint.None?
    ensures var expected := Inserts(TaskNames(old(db.tasks)), ParseAll(SplitLines(responseText)));
      && (outcome == Committed <==> expected.Ok?)
      && (outcome.RolledBack? ==> expected == Err(outcome.failure) && db.Snapshot() == old(db.Snapshot()))
      && (outcome == Committed ==> Applied(old(db.Snapshot()), expected.value, db.Snapshot()))
  {
    db.Begin();
    var failure := RunLines(db, SplitLines(responseText));
    if failure.Some? {
      db.Rollback();
      return RolledBack(failure.value);
    }
    db.Commit();
    outcome := Committed;
  }

  // ---------------------------------------------------------------------------
  // What a block does, line by line

  /** Parsing a concatenation of lines gives the results of each part, in order. */
  lemma ParseAllAppend(a: seq<string>, b: seq<string>)
    ensures ParseAll(a + b) == ParseAll(a) + ParseAll(b)
  {
    MapAppend(ParseLine, a, b);
  }

  /** Where the lines of `ps + [silent] + qs` and of `ps + qs` end up. */
  lemma SkipParts(ps: seq<Parsed>, silent: Parsed, qs: seq<Parsed>)
    ensures qs == [] ==> ps + [silent] + qs == ps + [silent] && (ps + [silent])[..|ps|] == ps
                         && (ps + [silent])[|ps|] == silent && ps + qs == ps
    ensures qs != [] ==>
      var a, b, n := ps + [silent] + qs, ps + qs, |qs| - 1;
      && a[..|a| - 1] == ps + [silent] + qs[..n]
      && b[..|b| - 1] == ps + qs[..n]
      && a[|a| - 1] == qs[n] == b[|b| - 1]
  {
  }

  /** A line that inserts nothing declares no task name. */
  lemma {:induction false} SilentDeclares(ps: seq<Parsed>, qs: seq<Parsed>)
    ensures Declared(ps + [Ok(None)] + qs) == Declared(ps + qs)
    decreases |qs|
  {
    SkipParts(ps, Ok(None), qs);
    if qs != [] {
      SilentDeclares(ps, qs[..|qs| - 1]);
    }
  }

  /** A last line that inserts nothing changes nothing. */
  lemma SilentLast(names: set<string>, ps: seq<Parsed>)
    ensures Inserts(names, ps + [Ok(None)]) == Inserts(names, ps)
  {
    var silent: Parsed := Ok(None);
    SkipParts(ps, silent, []);
    if Inserts(names, ps).Ok? {
      assert Inserts(names, ps).value + IssuedBy(silent) == Inserts(names, ps).value;
    }
  }

  /** A line that neither raises nor inserts changes nothing, wherever it stands in the block. */
  lemma {:induction false} SkipSilent(names: set<string>, ps: seq<Parsed>, qs: seq<Parsed>)
    ensures Inserts(names, ps + [Ok(None)] + qs) == Inserts(names, ps + qs)
    decreases |qs|
  {
    var silent: Parsed := Ok(None);
    SkipParts(ps, silent, qs);
    if qs == [] {
      SilentLast(names, ps);
    } else {
      var n := |qs| - 1;
      SkipSilent(names, ps, qs[..n]);
      SilentDeclares(ps, qs[..n]);
      InsertsSameStep(names, ps + [silent] + qs, ps + qs);
    }
  }

  /** Two blocks whose earlier lines had the same effect and whose last lines are equal have the same effect. */
  lemma InsertsSameStep(names: set<string>, a: seq<Parsed>, b: seq<Parsed>)
    requires a != [] && b != []
    requires Inserts(names, a[..|a| - 1]) == Inserts(names, b[..|b| - 1])
    requires Declared(a[..|a| - 1]) == Declared(b[..|b| - 1])
    requires a[|a| - 1] == b[|b| - 1]
    ensures Inserts(names, a) == Inserts(names, b)
  {
  }

  /**
   * A line without one of the five prefixes (a section header, a blank or indented
   * line) is invisible: the block does exactly what it does without that line.
   */
  lemma NoiseIsInvisible(names: set<string>, pre: seq<string>, line: string, post: seq<string>)
    requires Classify(line) == OtherLine
    ensures Inserts(names, ParseAll(pre + [line] + post)) == Inserts(names, ParseAll(pre + post))
  {
    ParseAllAppend(pre + [line], post);
    ParseAllAppend(pre, [line]);
    ParseAllAppend(pre, post);
    assert ParseAll([line]) == [Ok(None)];
    SkipSilent(names, ParseAll(pre), ParseAll(post));
  }

  /** The rows one more INSERT of at most one adds to each table. */
  lemma InsertsInSnoc(a: seq<Insert>, step: seq<Insert>)
    requires |step| <= 1
    ensures EventsIn(a + step) == EventsIn(a) + EventsIn(step)
    ensures TasksIn(a + step) == TasksIn(a) + TasksIn(step)
    ensures GatewaysIn(a + step) == GatewaysIn(a) + GatewaysIn(step)
    ensures FlowsIn(a + step) == FlowsIn(a) + FlowsIn(step)
  {
    if step == [] {
      assert a + step == a;
    } else {
      var x := step[0];
      assert step == [x];
      EventsSnoc(a, x);
      TasksSnoc(a, x);
      GatewaysSnoc(a, x);
      FlowsSnoc(a, x);
    }
  }

  /** A line of kind `k` that parsed as `p` issues one INSERT into the table of its kind, or none. */
  predicate Fits(k: LineKind, p: Parsed) {
    var step := IssuedBy(p);
    && p.Ok?
    && |EventsIn(step)| == (if TableOf(k) == Some(EventsTable) then 1 else 0)
    && |TasksIn(step)| == (if TableOf(k) == Some(TasksTable) then 1 else 0)
    && |GatewaysIn(step)| == (if TableOf(k) == Some(GatewaysTable) then 1 else 0)
    && |FlowsIn(step)| == (if TableOf(k) == Some(FlowsTable) then 1 else 0)
  }

  /** A result that fits what ParseLineKinds says of a line of kind `k` fits `k`. */
  lemma KindFits(k: LineKind, p: Parsed)
    requires p.Ok? && (p.value.None? <==> k == OtherLine)
    requires p.value.Some? ==> Targets(k, p.value.value)
    ensures Fits(k, p)
  {
    if p.value.Some? {
      assert IssuedBy(p)[..0] == [];
    }
  }

  lemma CountLast(ks: seq<LineKind>, t: Table)
    requires ks != []
    ensures Count(ks, t) == Count(ks[..|ks| - 1], t) + (if TableOf(ks[|ks| - 1]) == Some(t) then 1 else 0)
  {
  }

  /** Each result fits the kind of its line. */
  predicate AllFit(ks: seq<LineKind>, ps: seq<Parsed>)
    decreases |ks|
  {
    |ks| == |ps|
    && (ks != [] ==> AllFit(ks[..|ks| - 1], ps[..|ps| - 1]) && Fits(ks[|ks| - 1], ps[|ps| - 1]))
  }

  /** Results that fit their lines' kinds issue one INSERT per prefixed line, into the table of its kind. */
  lemma {:induction false} IssuedCounts(ks: seq<LineKind>, ps: seq<Parsed>)
    requires AllFit(ks, ps)
    ensures var ins := Issued(ps);
      && |EventsIn(ins)| == Count(ks, EventsTable)
      && |TasksIn(ins)| == Count(ks, TasksTable)
      && |GatewaysIn(ins)| == Count(ks, GatewaysTable)
      && |FlowsIn(ins)| == Count(ks, FlowsTable)
    decreases |ks|
  {
    if ks != [] {
      var n := |ks| - 1;
      IssuedCounts(ks[..n], ps[..n]);
      var done, step := Issued(ps[..n]), IssuedBy(ps[n]);
      assert Issued(ps) == done + step;
      InsertsInSnoc(done, step);
      CountLast(ks, EventsTable);
    }
  }

  /** The lines of a block that succeeds all fit their kinds. */
  lemma {:induction false} LinesFit(lines: seq<string>)
    requires forall k :: 0 <= k < |lines| ==> ParseAll(lines)[k].Ok?
    ensures AllFit(Kinds(lines), ParseAll(lines))
    decreases |lines|
  {
    if lines != [] {
      var n := |lines| - 1;
      var ps := ParseAll(lines);
      MapPrefix(ParseLine, lines, n);
      MapPrefix(Classify, lines, n);
      forall k | 0 <= k < n
        ensures ParseAll(lines[..n])[k].Ok?
      {
        assert ParseAll(lines[..n])[k] == ps[k];
      }
      LinesFit(lines[..n]);
      ParseLineKinds(lines[n]);
      KindFits(Kinds(lines)[n], ps[n]);
    }
  }

  /**
   * When every line parses, there is one INSERT per prefixed line, into the
   * table of its kind: as many events as `Start:` and `End:` lines, as many
   * tasks as `Task:` lines, and so on.
   */
  lemma IssuedPerKind(lines: seq<string>)
    requires forall k :: 0 <= k < |lines| ==> ParseAll(lines)[k].Ok?
    ensures var ins, ks := Issued(ParseAll(lines)), Kinds(lines);
      && |EventsIn(ins)| == Count(ks, EventsTable)
      && |TasksIn(ins)| == Count(ks, TasksTable)
      && |GatewaysIn(ins)| == Count(ks, GatewaysTable)
      && |FlowsIn(ins)| == Count(ks, FlowsTable)
  {
    LinesFit(lines);
    IssuedCounts(Kinds(lines), ParseAll(lines));
  }

  /**
   * A committed block keeps every existing row and adds one row per prefixed
   * line, in the table of its kind: `events` grows by the `Start:` and `End:`
   * lines, `tasks` by the `Task:` lines, `gateways` by the `Condition:` lines
   * and `sequence_flows` by the `From:` lines.
   */
  lemma CommitGrowsTables(names: set<string>, lines: seq<string>, before: Tables, after: Tables)
    requires Inserts(names, ParseAll(lines)).Ok?
    requires Applied(before, Inserts(names, ParseAll(lines)).value, after)
    ensures var ks := Kinds(lines);
      && |after.events| == |before.events| + Count(ks, EventsTable)
      && |after.tasks| == |before.tasks| + Count(ks, TasksTable)
      && |after.gateways| == |before.gateways| + Count(ks, GatewaysTable)
      && |after.flows| == |before.flows| + Count(ks, FlowsTable)
      && after.events[..|before.events|] == before.events
      && after.tasks[..|before.tasks|] == before.tasks
      && after.gateways[..|before.gateways|] == before.gateways
      && after.flows[..|before.flows|] == before.flows
  {
    var ps := ParseAll(lines);
    InsertsIssued(names, ps);
    InsertsOkIff(names, ps);
    forall k | 0 <= k < |lines|
      ensures ps[k].Ok?
    {
      assert Raised(names + Declared(ps[..k]), ps[k]).None?;
    }
    IssuedPerKind(lines);
    var ins := Issued(ps);
    AppliedEvents(before, ins, after);
    AppliedTasks(before, ins, after);
    AppliedGateways(before, ins, after);
    AppliedFlows(before, ins, after);
  }
}

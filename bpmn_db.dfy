/**
 * The PostgreSQL database `bpmn_db` the parser writes to: the tables `events`,
 * `tasks`, `gateways` and `sequence_flows` as `create_tables_if_not_exists`
 * declares them (pars.py:113-147), the four INSERT statements the parser issues,
 * and one transaction at a time.
 *
 * SERIAL ids are modelled as per-table counters that only grow; like PostgreSQL
 * sequences they are not wound back when a transaction rolls back.
 */
module BpmnDb {
  import opened Wrappers

  /** Width of the VARCHAR(255) columns `events.name`, `tasks.name`, `tasks.performer`. */
  const NameWidth := 255
  /** Width of the VARCHAR(50) column `events.type`. */
  const TypeWidth := 50

  /** Column values of one row of each table (the id apart). */
  datatype Event = Event(name: string, kind: string)  // `kind` is the column `type`
  datatype Task = Task(name: string, performer: Option<string>)
  datatype Gateway = Gateway(condition: string)
  datatype Flow = Flow(fromId: int, toId: int, fromType: string, toType: string, condition: Option<string>)

  /** A stored row: its SERIAL id and its other columns. */
  datatype Row<T> = Row(id: int, data: T)

  datatype Tables = Tables(
    events: seq<Row<Event>>,
    tasks: seq<Row<Task>>,
    gateways: seq<Row<Gateway>>,
    flows: seq<Row<Flow>>)

  /** The next value of each table's SERIAL sequence. */
  datatype Serials = Serials(event: int, task: int, gateway: int, flow: int)

  /** Parameters of the `sequence_flows` INSERT: endpoints are task names, looked up by the statement. */
  datatype FlowRequest = FlowRequest(fromName: string, toName: string, condition: Option<string>)

  /** The four INSERT statements the parser executes, with their parameters. */
  datatype Insert =
    | InsertEvent(event: Event)
    | InsertTask(task: Task)
    | InsertGateway(gateway: Gateway)
    | InsertFlow(flow: FlowRequest)

  /** The errors PostgreSQL raises for these statements. */
  datatype DbError =
    | NotNullViolation(column: string)
    | StringDataRightTruncation(column: string)

  /** The names in a `tasks` table. */
  function TaskNames(tasks: seq<Row<Task>>): set<string> {
    set k | 0 <= k < |tasks| :: tasks[k].data.name
  }

  /** Some row of `tasks` named `name` has id `id`: what `SELECT id FROM tasks WHERE name=... LIMIT 1` may return. */
  ghost predicate Resolves(tasks: seq<Row<Task>>, name: string, id: int) {
    exists k :: 0 <= k < |tasks| && tasks[k].data.name == name && tasks[k].id == id
  }

  ghost predicate HasId<T>(rows: seq<Row<T>>, id: int) {
    exists k :: 0 <= k < |rows| && rows[k].id == id
  }

  /**
   * The error PostgreSQL raises for `ins` when the `tasks` table holds the names
   * `names`, or None when the row is stored. A longer value than its VARCHAR
   * column is refused; an endpoint name no task has makes the subquery NULL,
   * which `from_id`/`to_id INTEGER NOT NULL` refuse (pars.py:139-140).
   */
  function Rejection(names: set<string>, ins: Insert): (r: Option<DbError>)
    ensures ins.InsertGateway? ==> r.None?
    ensures r.Some? && r.value.NotNullViolation? <==>
      ins.InsertFlow? && (ins.flow.fromName !in names || ins.flow.toName !in names)
    ensures r.Some? && r.value.StringDataRightTruncation? <==>
      || (ins.InsertEvent? && (|ins.event.name| > NameWidth || |ins.event.kind| > TypeWidth))
      || (ins.InsertTask? && (|ins.task.name| > NameWidth
                              || (ins.task.performer.Some? && |ins.task.performer.value| > NameWidth)))
  {
    match ins
    case InsertEvent(e) =>
      if |e.name| > NameWidth then Some(StringDataRightTruncation("name"))
      else if |e.kind| > TypeWidth then Some(StringDataRightTruncation("type"))
      else None
    case InsertTask(t) =>
      if |t.name| > NameWidth then Some(StringDataRightTruncation("name"))
      else if t.performer.Some? && |t.performer.value| > NameWidth then Some(StringDataRightTruncation("performer"))
      else None
    case InsertGateway(_) => None
    case InsertFlow(f) =>
      if f.fromName !in names then Some(NotNullViolation("from_id"))
      else if f.toName !in names then Some(NotNullViolation("to_id"))
      else None
  }

  /**
   * Ids strictly increase down the table, from 1 up, and were all handed out
   * before `next`: each row's id is below the next row's, the last one below `next`.
   */
  ghost predicate Keyed<T>(rows: seq<Row<T>>, next: int)
    decreases |rows|
  {
    if rows == [] then 1 <= next
    else rows[|rows| - 1].id < next && Keyed(rows[..|rows| - 1], rows[|rows| - 1].id)
  }

  /** Keyed rows satisfy PRIMARY KEY: ids are distinct, in fact increasing, and all in [1, next). */
  lemma {:induction false} KeyedIds<T>(rows: seq<Row<T>>, next: int)
    requires Keyed(rows, next)
    ensures forall i, j :: 0 <= i < j < |rows| ==> rows[i].id < rows[j].id
    ensures forall i :: 0 <= i < |rows| ==> 1 <= rows[i].id < next
    decreases |rows|
  {
    if rows != [] {
      var n := |rows| - 1;
      KeyedIds(rows[..n], rows[n].id);
      assert forall i :: 0 <= i < n ==> rows[..n][i] == rows[i];
    }
  }

  /** Primary keys and the `REFERENCES tasks(id)` foreign keys hold. */
  ghost predicate Consistent(t: Tables, s: Serials) {
    Keyed(t.events, s.event) && Keyed(t.tasks, s.task) && Keyed(t.gateways, s.gateway) && Keyed(t.flows, s.flow)
    && Referenced(t.flows, t.tasks)
  }

  /** `from_id` and `to_id` of every flow row are ids of `tasks` rows (REFERENCES tasks(id)). */
  ghost predicate Referenced(flows: seq<Row<Flow>>, tasks: seq<Row<Task>>)
    decreases |flows|
  {
    flows != [] ==>
      var last := flows[|flows| - 1].data;
      HasId(tasks, last.fromId) && HasId(tasks, last.toId) && Referenced(flows[..|flows| - 1], tasks)
  }

  /** Rows added to `tasks` never break a reference. */
  lemma {:induction false} ReferencedInLonger(flows: seq<Row<Flow>>, tasks: seq<Row<Task>>, longer: seq<Row<Task>>)
    requires |tasks| <= |longer| && longer[..|tasks|] == tasks
    requires Referenced(flows, tasks)
    ensures Referenced(flows, longer)
    decreases |flows|
  {
    if flows != [] {
      var last := flows[|flows| - 1].data;
      HasIdInLonger(tasks, longer, last.fromId);
      HasIdInLonger(tasks, longer, last.toId);
      ReferencedInLonger(flows[..|flows| - 1], tasks, longer);
    }
  }

  /** Every flow row's endpoints are ids of `tasks` rows. */
  lemma {:induction false} ReferencedAll(flows: seq<Row<Flow>>, tasks: seq<Row<Task>>)
    requires Referenced(flows, tasks)
    ensures forall i :: 0 <= i < |flows| ==> HasId(tasks, flows[i].data.fromId) && HasId(tasks, flows[i].data.toId)
    decreases |flows|
  {
    if flows != [] {
      var n := |flows| - 1;
      ReferencedAll(flows[..n], tasks);
      assert forall i :: 0 <= i < n ==> flows[..n][i] == flows[i];
    }
  }

  /** `after` is `before` with one row holding `d` added at the end. */
  ghost predicate Appended<T>(before: seq<Row<T>>, after: seq<Row<T>>, d: T) {
    |after| == |before| + 1 && after[..|before|] == before && after[|before|].data == d
  }

  /** The row a successful `sequence_flows` INSERT stores for request `f`, endpoints resolved in `tasks`. */
  ghost predicate FlowFor(tasks: seq<Row<Task>>, f: FlowRequest, row: Flow) {
    row.fromType == "task" && row.toType == "task" && row.condition == f.condition
    && Resolves(tasks, f.fromName, row.fromId) && Resolves(tasks, f.toName, row.toId)
  }

  /** `after` is `before` once `ins` has stored its row; no other table changes. */
  ghost predicate Inserted(before: Tables, ins: Insert, after: Tables) {
    match ins
    case InsertEvent(e) => Appended(before.events, after.events, e) && after == before.(events := after.events)
    case InsertTask(t) => Appended(before.tasks, after.tasks, t) && after == before.(tasks := after.tasks)
    case InsertGateway(g) => Appended(before.gateways, after.gateways, g) && after == before.(gateways := after.gateways)
    case InsertFlow(f) =>
      |after.flows| == |before.flows| + 1 && after.flows[..|before.flows|] == before.flows
      && after == before.(flows := after.flows)
      && FlowFor(before.tasks, f, after.flows[|before.flows|].data)
  }

  function DropLast<T>(q: seq<T>): seq<T> {
    if q == [] then [] else q[..|q| - 1]
  }

  /** `t` without the row `ins` added last. */
  function Undo(t: Tables, ins: Insert): Tables {
    match ins
    case InsertEvent(_) => t.(events := DropLast(t.events))
    case InsertTask(_) => t.(tasks := DropLast(t.tasks))
    case InsertGateway(_) => t.(gateways := DropLast(t.gateways))
    case InsertFlow(_) => t.(flows := DropLast(t.flows))
  }

  /** Executing `ins` in order, each one succeeding, takes `before` to `after`. */
  ghost predicate Applied(before: Tables, ins: seq<Insert>, after: Tables)
    decreases |ins|
  {
    if ins == [] then after == before
    else
      var last := ins[|ins| - 1];
      var mid := Undo(after, last);
      Inserted(mid, last, after) && Applied(before, ins[..|ins| - 1], mid)
  }

  lemma UndoInserted(before: Tables, ins: Insert, after: Tables)
    requires Inserted(before, ins, after)
    ensures Undo(after, ins) == before
  {
  }

  lemma AppliedSnoc(before: Tables, done: seq<Insert>, mid: Tables, ins: Insert, after: Tables)
    requires Applied(before, done, mid)
    requires Inserted(mid, ins, after)
    ensures Applied(before, done + [ins], after)
  {
    UndoInserted(mid, ins, after);
    assert (done + [ins])[..|done|] == done;
  }

  /** One INSERT that succeeds is a run of one. */
  lemma AppliedOne(before: Tables, ins: Insert, after: Tables)
    requires Inserted(before, ins, after)
    ensures Applied(before, [ins], after)
  {
    AppliedSnoc(before, [], before, ins, after);
  }

  // ---------------------------------------------------------------------------
  // What a run of successful INSERTs adds to each table

  /** The column values of the rows, in table order. */
  function Data<T>(rows: seq<Row<T>>): (d: seq<T>)
    ensures |d| == |rows|
    decreases |rows|
  {
    if rows == [] then [] else Data(rows[..|rows| - 1]) + [rows[|rows| - 1].data]
  }

  function EventsIn(ins: seq<Insert>): seq<Event>
    decreases |ins|
  {
    if ins == [] then []
    else EventsIn(ins[..|ins| - 1]) + (if ins[|ins| - 1].InsertEvent? then [ins[|ins| - 1].event] else [])
  }

  function TasksIn(ins: seq<Insert>): seq<Task>
    decreases |ins|
  {
    if ins == [] then []
    else TasksIn(ins[..|ins| - 1]) + (if ins[|ins| - 1].InsertTask? then [ins[|ins| - 1].task] else [])
  }

  function GatewaysIn(ins: seq<Insert>): seq<Gateway>
    decreases |ins|
  {
    if ins == [] then []
    else GatewaysIn(ins[..|ins| - 1]) + (if ins[|ins| - 1].InsertGateway? then [ins[|ins| - 1].gateway] else [])
  }

  function FlowsIn(ins: seq<Insert>): seq<FlowRequest>
    decreases |ins|
  {
    if ins == [] then []
    else FlowsIn(ins[..|ins| - 1]) + (if ins[|ins| - 1].InsertFlow? then [ins[|ins| - 1].flow] else [])
  }

  lemma SnocParts(a: seq<Insert>, x: Insert)
    ensures (a + [x])[..|a|] == a && (a + [x])[|a|] == x && [x][..0] == []
  {
  }

  /** One more INSERT adds its event, if it inserts one. */
  lemma EventsSnoc(a: seq<Insert>, x: Insert)
    ensures EventsIn(a + [x]) == EventsIn(a) + EventsIn([x])
  {
    SnocParts(a, x);
  }

  /** One more INSERT adds its task, if it inserts one. */
  lemma TasksSnoc(a: seq<Insert>, x: Insert)
    ensures TasksIn(a + [x]) == TasksIn(a) + TasksIn([x])
  {
    SnocParts(a, x);
  }

  /** One more INSERT adds its gateway, if it inserts one. */
  lemma GatewaysSnoc(a: seq<Insert>, x: Insert)
    ensures GatewaysIn(a + [x]) == GatewaysIn(a) + GatewaysIn([x])
  {
    SnocParts(a, x);
  }

  /** One more INSERT adds its flow request, if it inserts one. */
  lemma FlowsSnoc(a: seq<Insert>, x: Insert)
    ensures FlowsIn(a + [x]) == FlowsIn(a) + FlowsIn([x])
  {
    SnocParts(a, x);
  }

  /** The data of two runs of rows, one after the other. */
  lemma {:induction false} DataConcat<T>(a: seq<Row<T>>, b: seq<Row<T>>)
    ensures Data(a + b) == Data(a) + Data(b)
    decreases |b|
  {
    if b != [] {
      var n := |b| - 1;
      assert (a + b)[..|a + b| - 1] == a + b[..n];
      DataConcat(a, b[..n]);
      calc {
        Data(a + b);
        Data(a + b[..n]) + [b[n].data];
        Data(a) + Data(b[..n]) + [b[n].data];
        Data(a) + Data(b);
      }
    } else {
      assert a + b == a;
    }
  }

  /** Rows added after `mid`, itself an extension of `before`, extend `before` by their data too. */
  lemma Grow<T>(before: seq<Row<T>>, mid: seq<Row<T>>, added: seq<Row<T>>)
    requires |before| <= |mid| && mid[..|before|] == before
    ensures |before| <= |mid + added| && (mid + added)[..|before|] == before
    ensures Data((mid + added)[|before|..]) == Data(mid[|before|..]) + Data(added)
  {
    assert (mid + added)[|before|..] == mid[|before|..] + added;
    DataConcat(mid[|before|..], added);
  }

  /** What one INSERT adds to `events`: a row for an event INSERT, nothing otherwise. */
  lemma EventsStep(mid: Tables, ins: Insert, after: Tables) returns (added: seq<Row<Event>>)
    requires Inserted(mid, ins, after)
    ensures after.events == mid.events + added
    ensures Data(added) == if ins.InsertEvent? then [ins.event] else []
  {
    if ins.InsertEvent? {
      added := [after.events[|mid.events|]];
    } else {
      added := [];
    }
  }

  /** What one INSERT adds to `tasks`: a row for a task INSERT, nothing otherwise. */
  lemma TasksStep(mid: Tables, ins: Insert, after: Tables) returns (added: seq<Row<Task>>)
    requires Inserted(mid, ins, after)
    ensures after.tasks == mid.tasks + added
    ensures Data(added) == if ins.InsertTask? then [ins.task] else []
  {
    if ins.InsertTask? {
      added := [after.tasks[|mid.tasks|]];
    } else {
      added := [];
    }
  }

  /** What one INSERT adds to `gateways`: a row for a gateway INSERT, nothing otherwise. */
  lemma GatewaysStep(mid: Tables, ins: Insert, after: Tables) returns (added: seq<Row<Gateway>>)
    requires Inserted(mid, ins, after)
    ensures after.gateways == mid.gateways + added
    ensures Data(added) == if ins.InsertGateway? then [ins.gateway] else []
  {
    if ins.InsertGateway? {
      added := [after.gateways[|mid.gateways|]];
    } else {
      added := [];
    }
  }

  /** Successful INSERTs append `events` rows, in order, and leave existing ones alone. */
  lemma {:induction false} AppliedEvents(before: Tables, ins: seq<Insert>, after: Tables)
    requires Applied(before, ins, after)
    ensures |before.events| <= |after.events| && after.events[..|before.events|] == before.events
    ensures Data(after.events[|before.events|..]) == EventsIn(ins)
    decreases |ins|
  {
    if ins == [] {
      assert after.events[|before.events|..] == [];
    } else {
      var last := ins[|ins| - 1];
      var mid := Undo(after, last);
      AppliedEvents(before, ins[..|ins| - 1], mid);
      var added := EventsStep(mid, last, after);
      Grow(before.events, mid.events, added);
    }
  }

  /** Successful INSERTs append `tasks` rows, in order, and leave existing ones alone. */
  lemma {:induction false} AppliedTasks(before: Tables, ins: seq<Insert>, after: Tables)
    requires Applied(before, ins, after)
    ensures |before.tasks| <= |after.tasks| && after.tasks[..|before.tasks|] == before.tasks
    ensures Data(after.tasks[|before.tasks|..]) == TasksIn(ins)
    decreases |ins|
  {
    if ins == [] {
      assert after.tasks[|before.tasks|..] == [];
    } else {
      var last := ins[|ins| - 1];
      var mid := Undo(after, last);
      AppliedTasks(before, ins[..|ins| - 1], mid);
      var added := TasksStep(mid, last, after);
      Grow(before.tasks, mid.tasks, added);
    }
  }

  /** Successful INSERTs append `gateways` rows, in order, and leave existing ones alone. */
  lemma {:induction false} AppliedGateways(before: Tables, ins: seq<Insert>, after: Tables)
    requires Applied(before, ins, after)
    ensures |before.gateways| <= |after.gateways| && after.gateways[..|before.gateways|] == before.gateways
    ensures Data(after.gateways[|before.gateways|..]) == GatewaysIn(ins)
    decreases |ins|
  {
    if ins == [] {
      assert after.gateways[|before.gateways|..] == [];
    } else {
      var last := ins[|ins| - 1];
      var mid := Undo(after, last);
      AppliedGateways(before, ins[..|ins| - 1], mid);
      var added := GatewaysStep(mid, last, after);
      Grow(before.gateways, mid.gateways, added);
    }
  }

  lemma ResolvesInLonger(tasks: seq<Row<Task>>, longer: seq<Row<Task>>, name: string, id: int)
    requires |tasks| <= |longer| && longer[..|tasks|] == tasks
    requires Resolves(tasks, name, id)
    ensures Resolves(longer, name, id)
  {
    var k :| 0 <= k < |tasks| && tasks[k].data.name == name && tasks[k].id == id;
    assert longer[k] == tasks[k];
  }

  /** What one INSERT does to `sequence_flows`: a row for a flow INSERT, nothing otherwise; `tasks` only grows. */
  lemma FlowsStep(mid: Tables, ins: Insert, after: Tables)
    requires Inserted(mid, ins, after)
    ensures |mid.tasks| <= |after.tasks| && after.tasks[..|mid.tasks|] == mid.tasks
    ensures |mid.flows| <= |after.flows| && after.flows[..|mid.flows|] == mid.flows
    ensures |after.flows| == |mid.flows| + (if ins.InsertFlow? then 1 else 0)
    ensures ins.InsertFlow? ==> FlowFor(mid.tasks, ins.flow, after.flows[|mid.flows|].data)
  {
  }

  /** Flow rows keep matching their requests when rows are added to `tasks` and `sequence_flows`. */
  lemma FlowsStillFor(mid: Tables, after: Tables, reqs: seq<FlowRequest>, b: nat)
    requires |mid.tasks| <= |after.tasks| && after.tasks[..|mid.tasks|] == mid.tasks
    requires |mid.flows| <= |after.flows| && after.flows[..|mid.flows|] == mid.flows
    requires b + |reqs| <= |mid.flows|
    requires forall k :: 0 <= k < |reqs| ==> FlowFor(mid.tasks, reqs[k], mid.flows[b + k].data)
    ensures forall k :: 0 <= k < |reqs| ==> FlowFor(after.tasks, reqs[k], after.flows[b + k].data)
  {
    forall k | 0 <= k < |reqs|
      ensures FlowFor(after.tasks, reqs[k], after.flows[b + k].data)
    {
      var row := mid.flows[b + k].data;
      assert after.flows[b + k] == mid.flows[b + k];
      ResolvesInLonger(mid.tasks, after.tasks, reqs[k].fromName, row.fromId);
      ResolvesInLonger(mid.tasks, after.tasks, reqs[k].toName, row.toId);
    }
  }

  /**
   * Successful INSERTs append one `sequence_flows` row per flow request, in order,
   * typed 'task' to 'task', carrying the request's condition, with endpoints that
   * are ids of `tasks` rows bearing the requested names.
   */
  lemma {:induction false} AppliedFlows(before: Tables, ins: seq<Insert>, after: Tables)
    requires Applied(before, ins, after)
    ensures |before.flows| <= |after.flows| && after.flows[..|before.flows|] == before.flows
    ensures |after.flows| == |before.flows| + |FlowsIn(ins)|
    ensures forall k :: 0 <= k < |FlowsIn(ins)| ==>
              FlowFor(after.tasks, FlowsIn(ins)[k], after.flows[|before.flows| + k].data)
    decreases |ins|
  {
    if ins != [] {
      var last := ins[|ins| - 1];
      var mid := Undo(after, last);
      var init := ins[..|ins| - 1];
      var b := |before.flows|;
      AppliedFlows(before, init, mid);
      FlowsStep(mid, last, after);
      FlowsStillFor(mid, after, FlowsIn(init), b);
      assert after.flows[..b] == after.flows[..|mid.flows|][..b];
      if last.InsertFlow? {
        var row := after.flows[|mid.flows|].data;
        ResolvesInLonger(mid.tasks, after.tasks, last.flow.fromName, row.fromId);
        ResolvesInLonger(mid.tasks, after.tasks, last.flow.toName, row.toId);
        assert FlowsIn(ins) == FlowsIn(init) + [last.flow];
      }
    }
  }

  // ---------------------------------------------------------------------------
  // The database

  class Db {
    var events: seq<Row<Event>>
    var tasks: seq<Row<Task>>
    var gateways: seq<Row<Gateway>>
    var flows: seq<Row<Flow>>
    var serials: Serials
    /** The tables as they were when the open transaction began; None outside a transaction. */
    var savepoint: Option<Tables>

    function Snapshot(): Tables
      reads this
    {
      Tables(events, tasks, gateways, flows)
    }

    ghost predicate Valid()
      reads this
    {
      Consistent(Snapshot(), serials) && (savepoint.Some? ==> Consistent(savepoint.value, serials))
    }

    /** A freshly created schema: four empty tables, every SERIAL starting at 1. */
    constructor ()
      ensures Valid() && savepoint.None?
      ensures Snapshot() == Tables([], [], [], [])
    {
      events, tasks, gateways, flows := [], [], [], [];
      serials := Serials(1, 1, 1, 1);
      savepoint := None;
    }

    /** The transaction psycopg2 opens before the first statement on a connection. */
    method Begin()
      requires Valid() && savepoint.None?
      modifies this
      ensures Valid() && savepoint == Some(Snapshot())
      ensures Snapshot() == old(Snapshot()) && serials == old(serials)
    {
      savepoint := Some(Snapshot());
    }

    /** `conn.commit()`: the rows written in the transaction stay. */
    method Commit()
      requires Valid()
      modifies this
      ensures Valid() && savepoint.None?
      ensures Snapshot() == old(Snapshot()) && serials == old(serials)
    {
      savepoint := None;
    }

    /** Leaving `with psycopg2.connect(...)` on an exception: every row of the transaction is discarded. */
    method Rollback()
      requires Valid() && savepoint.Some?
      modifies this
      ensures Valid() && savepoint.None?
      ensures Snapshot() == old(savepoint.value) && serials == old(serials)
    {
      var t := savepoint.value;
      events, tasks, gateways, flows := t.events, t.tasks, t.gateways, t.flows;
      savepoint := None;
    }

    /**
     * `(SELECT id FROM tasks WHERE name=%s LIMIT 1)`: the id of some task row with
     * that name, or NULL when there is none. Without ORDER BY, which of several
     * rows with the name is returned is not determined.
     */
    method LookupTask(name: string) returns (id: Option<int>)
      ensures id.Some? <==> name in TaskNames(tasks)
      ensures id.Some? ==> Resolves(tasks, name, id.value)
    {
      if exists k :: 0 <= k < |tasks| && tasks[k].data.name == name {
        var k :| 0 <= k < |tasks| && tasks[k].data.name == name;
        id := Some(tasks[k].id);
      } else {
        id := None;
      }
    }

    /** `cur.execute(INSERT ...)`: store the row `ins` describes, or raise and change nothing. */
    method Execute(ins: Insert) returns (err: Option<DbError>)
      requires Valid()
      modifies this
      ensures Valid() && savepoint == old(savepoint)
      ensures err == Rejection(TaskNames(old(tasks)), ins)
      ensures err.None? ==> Inserted(old(Snapshot()), ins, Snapshot())
      ensures err.None? ==> TaskNames(tasks) == TaskNames(old(tasks)) + (if ins.InsertTask? then {ins.task.name} else {})
      ensures err.Some? ==> Snapshot() == old(Snapshot())
    {
      match ins
      case InsertEvent(e) => err := InsertEventRow(e);
      case InsertTask(t) => err := InsertTaskRow(t);
      case InsertGateway(g) => err := InsertGatewayRow(g);
      case InsertFlow(f) => err := InsertFlowRow(f);
    }

    /** `INSERT INTO events (name, type) VALUES (%s, %s)`. */
    method InsertEventRow(e: Event) returns (err: Option<DbError>)
      requires Valid()
      modifies this
      ensures Valid() && savepoint == old(savepoint) && tasks == old(tasks)
      ensures err == Rejection(TaskNames(old(tasks)), InsertEvent(e))
      ensures err.None? ==> Inserted(old(Snapshot()), InsertEvent(e), Snapshot())
      ensures err.Some? ==> Snapshot() == old(Snapshot())
    {
      if |e.name| > NameWidth {
        err := Some(StringDataRightTruncation("name"));
      } else if |e.kind| > TypeWidth {
        err := Some(StringDataRightTruncation("type"));
      } else {
        var next := serials.(event := serials.event + 1);
        ghost var t := Snapshot().(events := events + [Row(serials.event, e)]);
        EventAdded(Snapshot(), serials, e);
        SavepointKept(savepoint, serials, next);
        events := events + [Row(serials.event, e)];
        serials := next;
        assert Snapshot() == t;
        err := None;
      }
    }

    /** `INSERT INTO tasks (name, performer) VALUES (%s, %s)`. */
    method InsertTaskRow(t: Task) returns (err: Option<DbError>)
      requires Valid()
      modifies this
      ensures Valid() && savepoint == old(savepoint)
      ensures err == Rejection(TaskNames(old(tasks)), InsertTask(t))
      ensures err.None? ==> Inserted(old(Snapshot()), InsertTask(t), Snapshot())
      ensures err.None? ==> TaskNames(tasks) == TaskNames(old(tasks)) + {t.name}
      ensures err.Some? ==> Snapshot() == old(Snapshot())
    {
      if |t.name| > NameWidth {
        err := Some(StringDataRightTruncation("name"));
      } else if t.performer.Some? && |t.performer.value| > NameWidth {
        err := Some(StringDataRightTruncation("performer"));
      } else {
        var row := Row(serials.task, t);
        var next := serials.(task := serials.task + 1);
        ghost var after := Snapshot().(tasks := tasks + [row]);
        TaskAdded(Snapshot(), serials, t);
        SavepointKept(savepoint, serials, next);
        TaskNamesAppend(tasks, row);
        tasks := tasks + [row];
        serials := next;
        assert Snapshot() == after;
        err := None;
      }
    }

    /** `INSERT INTO gateways (condition) VALUES (%s)`: TEXT NOT NULL takes any string. */
    method InsertGatewayRow(g: Gateway) returns (err: Option<DbError>)
      requires Valid()
      modifies this
      ensures Valid() && savepoint == old(savepoint) && tasks == old(tasks)
      ensures err == Rejection(TaskNames(old(tasks)), InsertGateway(g))
      ensures err.None? ==> Inserted(old(Snapshot()), InsertGateway(g), Snapshot())
      ensures err.Some? ==> Snapshot() == old(Snapshot())
    {
      var next := serials.(gateway := serials.gateway + 1);
      ghost var t := Snapshot().(gateways := gateways + [Row(serials.gateway, g)]);
      GatewayAdded(Snapshot(), serials, g);
      SavepointKept(savepoint, serials, next);
      gateways := gateways + [Row(serials.gateway, g)];
      serials := next;
      assert Snapshot() == t;
      err := None;
    }

    /**
     * `INSERT INTO sequence_flows (from_id, to_id, from_type, to_type, condition)`
     * with both ids taken from a task-name subquery and both types 'task'.
     */
    method InsertFlowRow(f: FlowRequest) returns (err: Option<DbError>)
      requires Valid()
      modifies this
      ensures Valid() && savepoint == old(savepoint) && tasks == old(tasks)
      ensures err == Rejection(TaskNames(old(tasks)), InsertFlow(f))
      ensures err.None? ==> Inserted(old(Snapshot()), InsertFlow(f), Snapshot())
      ensures err.Some? ==> Snapshot() == old(Snapshot())
    {
      var fromId := LookupTask(f.fromName);
      var toId := LookupTask(f.toName);
      if fromId.None? {
        err := Some(NotNullViolation("from_id"));
      } else if toId.None? {
        err := Some(NotNullViolation("to_id"));
      } else {
        var row := Row(serials.flow, Flow(fromId.value, toId.value, "task", "task", f.condition));
        var next := serials.(flow := serials.flow + 1);
        ghost var t := Snapshot().(flows := flows + [row]);
        FlowAdded(Snapshot(), serials, row.data);
        SavepointKept(savepoint, serials, next);
        flows := flows + [row];
        serials := next;
        assert Snapshot() == t;
        err := None;
      }
    }
  }

  lemma KeyedAppend<T>(rows: seq<Row<T>>, next: int, d: T)
    requires Keyed(rows, next)
    ensures Keyed(rows + [Row(next, d)], next + 1)
  {
    assert (rows + [Row(next, d)])[..|rows|] == rows;
  }

  /** Ids handed out before `next` were handed out before any later value. */
  lemma KeyedLater<T>(rows: seq<Row<T>>, next: int, later: int)
    requires Keyed(rows, next) && next <= later
    ensures Keyed(rows, later)
  {
  }

  /** Advancing the SERIAL counters keeps a snapshot consistent. */
  lemma ConsistentLater(t: Tables, s: Serials, later: Serials)
    requires Consistent(t, s)
    requires s.event <= later.event && s.task <= later.task && s.gateway <= later.gateway && s.flow <= later.flow
    ensures Consistent(t, later)
  {
    KeyedLater(t.events, s.event, later.event);
    KeyedLater(t.tasks, s.task, later.task);
    KeyedLater(t.gateways, s.gateway, later.gateway);
    KeyedLater(t.flows, s.flow, later.flow);
  }

  /** The state saved at BEGIN stays consistent while a statement takes the next id. */
  lemma SavepointKept(savepoint: Option<Tables>, s: Serials, later: Serials)
    requires savepoint.Some? ==> Consistent(savepoint.value, s)
    requires s.event <= later.event && s.task <= later.task && s.gateway <= later.gateway && s.flow <= later.flow
    ensures savepoint.Some? ==> Consistent(savepoint.value, later)
  {
    if savepoint.Some? {
      ConsistentLater(savepoint.value, s, later);
    }
  }

  lemma EventAdded(t: Tables, s: Serials, e: Event)
    requires Consistent(t, s)
    ensures Consistent(t.(events := t.events + [Row(s.event, e)]), s.(event := s.event + 1))
  {
    KeyedAppend(t.events, s.event, e);
  }

  lemma TaskAdded(t: Tables, s: Serials, d: Task)
    requires Consistent(t, s)
    ensures Consistent(t.(tasks := t.tasks + [Row(s.task, d)]), s.(task := s.task + 1))
  {
    var longer := t.tasks + [Row(s.task, d)];
    KeyedAppend(t.tasks, s.task, d);
    assert longer[..|t.tasks|] == t.tasks;
    ReferencedInLonger(t.flows, t.tasks, longer);
  }

  lemma GatewayAdded(t: Tables, s: Serials, g: Gateway)
    requires Consistent(t, s)
    ensures Consistent(t.(gateways := t.gateways + [Row(s.gateway, g)]), s.(gateway := s.gateway + 1))
  {
    KeyedAppend(t.gateways, s.gateway, g);
  }

  /** A flow row whose endpoints are ids of task rows keeps the foreign keys. */
  lemma FlowAdded(t: Tables, s: Serials, d: Flow)
    requires Consistent(t, s) && HasId(t.tasks, d.fromId) && HasId(t.tasks, d.toId)
    ensures Consistent(t.(flows := t.flows + [Row(s.flow, d)]), s.(flow := s.flow + 1))
  {
    var longer := t.flows + [Row(s.flow, d)];
    KeyedAppend(t.flows, s.flow, d);
    assert longer[..|longer| - 1] == t.flows && longer[|longer| - 1].data == d;
    assert Referenced(longer, t.tasks);
  }

  lemma TaskNamesAppend(tasks: seq<Row<Task>>, row: Row<Task>)
    ensures TaskNames(tasks + [row]) == TaskNames(tasks) + {row.data.name}
  {
    var longer := tasks + [row];
    assert longer[|tasks|] == row;
    forall n | n in TaskNames(longer) ensures n in TaskNames(tasks) + {row.data.name} {
      var k :| 0 <= k < |longer| && longer[k].data.name == n;
      if k < |tasks| {
        assert longer[k] == tasks[k];
      }
    }
    forall n | n in TaskNames(tasks) ensures n in TaskNames(longer) {
      var k :| 0 <= k < |tasks| && tasks[k].data.name == n;
      assert longer[k] == tasks[k];
    }
  }

  lemma HasIdInLonger<T>(rows: seq<Row<T>>, longer: seq<Row<T>>, id: int)
    requires |rows| <= |longer| && longer[..|rows|] == rows
    requires HasId(rows, id)
    ensures HasId(longer, id)
  {
    var k :| 0 <= k < |rows| && rows[k].id == id;
    assert longer[k] == rows[k];
  }
}

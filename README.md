# BPMN reply parser: `parse_response_to_db`

The pipeline turns a spoken process description into BPMN elements. A
language model answers with one element per line. `parse_response_to_db`
then stores those lines in a PostgreSQL database `bpmn_db`. The function
exists twice, statement for statement: once in `pars.py` (lines 69-98) and once
in `model-ollama.py` (lines 56-84). The second copy has no log line.

What the function does:

- It opens one connection, and with it one transaction.
- It walks the lines of the reply (`str.splitlines()`).
- For a line that starts with `Start:`, `End:`, `Task:`, `Condition:` or `From:`,
  it cuts the fields out with `split("|")`, `split(":")[1]` and `strip()`, then
  executes one INSERT into `events`, `tasks`, `gateways` or `sequence_flows`.
- A flow's endpoints are task ids. The INSERT finds them with
  `(SELECT id FROM tasks WHERE name=%s LIMIT 1)`.
- Every other line is passed over.
- The first exception ends the block, the transaction is rolled back, and the
  exception propagates to the caller. It is `IndexError` from `split(":")[1]` or
  from `parts[1]` of a `From:` line with no `|`, or an error raised by PostgreSQL.
  A NULL endpoint, for instance, violates `from_id`/`to_id INTEGER NOT NULL`.
- Otherwise the transaction is committed.

The project has five files:

- `wrappers.dfy`: `Option` (None / SQL NULL) and `Result` (value or exception).
- `text.dfy`: the Python string builtins the parser uses.
  - `splitlines()` with Python's full set of line boundaries, including "\r\n" as one break.
    The text is proved to be its lines and breaks put back together, and to determine its lines.
  - `split(sep)` for a one-character separator.
  - `strip()` with the full set of characters `str.isspace()` accepts.
  - `startswith` is Dafny's prefix test `<=`.
- `bpmn_db.dfy`: the four tables as `create_tables_if_not_exists` declares them
  (pars.py:113-147).
  - They are fields of a class `Db`, with SERIAL counters and the state saved
    when the transaction began.
  - Each INSERT statement is a method that either stores its row or raises and
    changes nothing.
  - `Rejection` says which error PostgreSQL raises:
    - a value longer than its VARCHAR column raises StringDataRightTruncation;
    - an endpoint name with no task row raises a NOT NULL violation.
  - `Applied` relates the tables before and after a run of successful INSERTs.
- `pars.dfy`: the parser.
  - `Classify` is the `if`/`elif` chain, and `Field` is `split(":")[1].strip()`.
  - `ParseLine` gives the INSERT one iteration issues, or its IndexError.
  - `Inserts` is the specification of the whole loop: the INSERTs run, or the
    first exception. It sees the task names the earlier lines inserted.
  - `RunLines` is the loop itself (the cursor block), over a `Db`, proved against `Inserts`.
  - `ParseResponseToDb` wraps it in the transaction: BEGIN, then COMMIT, or ROLLBACK at the first exception.
- `model_ollama.dfy`: the copy in `model-ollama.py`. It runs the same block and
  has the same contract.

`LIMIT 1` without `ORDER BY` may return any matching row. The model therefore
picks some task row with the name (`:|`), and its contracts only say that the
stored id belongs to a row bearing that name.

## Model

| member | source | states |
|---|---|---|
| Text.Split | pars.py:79 | `s.split(sep)` has at least one piece, no piece contains `sep`, and joining the pieces with `sep` gives `s` back |
| Text.SplitJoin | pars.py:79 | splitting the join of separator-free pieces gives the same pieces back, so Split and Join are inverse |
| Text.SplitFirst | pars.py:80 | piece 0 is the text before the first separator; there is a piece 1 iff the separator occurs; the later pieces split the text after it |
| Text.IndexOf | pars.py:75 | the position of the first occurrence of a character, or the length when it does not occur; no occurrence before it |
| Text.Strip | pars.py:75 | `strip()` leaves no whitespace at either end and never lengthens the text |
| Text.StripSpan | pars.py:75 | what `strip()` keeps is the span of the text after its leading whitespace, with only whitespace before and after it |
| Text.StripUnique | pars.py:75 | stripping whitespace, then a core without margins, then whitespace gives exactly that core |
| Text.StripIdempotent | pars.py:75 | stripping twice is stripping once |
| Text.SplitLines | pars.py:73 | `splitlines()` yields lines that contain no line break |
| Text.SplitLinesRejoin | pars.py:73 | every text is its `splitlines()` lines, each followed by the break it dropped: "\r\n" or one line-boundary character, only the last break may be missing (and then that line is not empty), and a lone "\r" is never followed by '\n'; no character is lost |
| Text.SplitLinesOfLayout | pars.py:73 | conversely, any break-free lines joined by such breaks split back into exactly those lines, so the lines of a text are determined by it |
| Text.SplitLinesTerminated | pars.py:73 | break-free lines, each followed by "\n", split back into the same lines |
| Pars.Classify | pars.py:74-85 | each of the five branches is taken iff the untrimmed line starts with its exact, case-sensitive prefix |
| Pars.Field | pars.py:80 | `split(":")[1].strip()` has a value iff the segment holds a colon (otherwise IndexError); the value has no whitespace at either end and holds no colon |
| Pars.FieldIsSplit | pars.py:80 | `Field` equals `split(":")[1].strip()`, and is None exactly when that list has no index 1 (IndexError) |
| Pars.StartLineInserts | pars.py:74-75 | a `Start:` line issues one `events` INSERT of type 'start'; the name is the stripped text from the prefix's colon up to the next colon |
| Pars.EndLineInserts | pars.py:76-77 | an `End:` line issues one `events` INSERT of type 'end', named the same way |
| Pars.TaskLineInserts | pars.py:78-82 | a `Task:` line issues one `tasks` INSERT: the name comes from the first `\|` segment; the performer is NULL without a `\|`, otherwise the second segment's field; IndexError when that segment has no colon; later segments are ignored |
| Pars.ConditionLineInserts | pars.py:83-84 | a `Condition:` line always issues one `gateways` INSERT whose condition is the stripped first field, possibly empty |
| Pars.FromLineRaises | pars.py:85-89 | a `From:` line raises IndexError without a second `\|` segment, when that segment has no colon, or when a third segment has no colon |
| Pars.FromLineInserts | pars.py:85-97 | otherwise it issues one `sequence_flows` INSERT from the first field's name to the second segment's field, with the third segment's field as condition or NULL |
| Pars.ParseLine | pars.py:74-97 | extracting one line's fields can raise only IndexError; any other exception of an iteration comes from executing its INSERT |
| Pars.ParseLineKinds | pars.py:73-97 | only `Task:` and `From:` lines can raise, and only IndexError; a prefixed line that completes issues exactly one INSERT into its own table; an unprefixed line issues none |
| Pars.OnlyPrefixedLinesAct | pars.py:73-85 | a line issues nothing and raises nothing iff it starts with none of the five prefixes |
| Pars.NoiseLines | pars.py:73-85 | `[EVENT]` headers, blank lines, indented or lower-case prefixes and a prefix without its colon are passed over; `Start:` needs no space after the colon |
| Pars.Inserts | pars.py:71-98 | the block executes at most one INSERT per line, and only a non-empty reply can fail |
| Pars.InsertsIssued | pars.py:73-97 | when no line raises, the block executes exactly the INSERTs its lines issue, in line order |
| Pars.ErrPersists | pars.py:71-73 | once a line has raised, the later lines are never run, and the block's outcome is that exception |
| Pars.InsertsOkIff | pars.py:71-98 | the block succeeds iff no line raises, given the tasks present before the block and those inserted by earlier lines; both directions |
| Pars.FlowEndpointsDeclaredEarlier | pars.py:93-94 | in a block that succeeds, both endpoint names of every flow belong to tasks that existed before the block or were inserted by an earlier line |
| Pars.ExecuteLine | pars.py:74-97 | the exception one iteration raises is the extraction's IndexError or the database's refusal; without one, the line's INSERT and nothing else has been applied, and the task names grow by the name it inserts |
| Pars.RunLines | pars.py:72-97 | the cursor block inside an open transaction stops at the first exception and returns it exactly when `Inserts` fails with it; when none is raised, the INSERTs `Inserts` gives have been applied to the tables in order |
| Pars.ParseResponseToDb | pars.py:69-98 | commits iff `Inserts` succeeds, and then the tables are the old ones with those INSERTs applied in order; otherwise it rolls back, the tables are exactly as before and the outcome is the first exception |
| ModelOllama.ParseResponseToDb | model-ollama.py:56-84 | the same all-or-nothing contract for the copy in `model-ollama.py`, whose branches (model-ollama.py:60-83) are the ones the `Pars` lemmas above describe |
| Pars.SkipSilent | pars.py:73 | a line that neither raises nor inserts can be removed from anywhere in the block without changing its outcome |
| Pars.NoiseIsInvisible | pars.py:73-85 | a line without one of the five prefixes is invisible: the block does exactly what it does without that line |
| Pars.IssuedPerKind | pars.py:73-97 | when every line parses, the block issues as many `events` INSERTs as `Start:` and `End:` lines, as many `tasks` INSERTs as `Task:` lines, and likewise for `gateways` and `sequence_flows` |
| Pars.CommitGrowsTables | pars.py:71-98 | a committed block keeps every existing row, and each table grows by exactly the number of lines of its kind |
| BpmnDb.Rejection | pars.py:116-140 | a `gateways` INSERT is never refused; a NOT NULL violation is raised exactly for a flow with an endpoint name no task has; a truncation error exactly for an event or task value longer than its VARCHAR column |
| BpmnDb.KeyedIds | pars.py:118 | the ids of a table strictly increase down the table and lie between 1 and the next SERIAL value, so they are a primary key |
| BpmnDb.ReferencedAll | pars.py:139-140 | in a consistent database, every `sequence_flows` row's `from_id` and `to_id` are ids of `tasks` rows |
| BpmnDb.AppliedEvents | pars.py:75-77 | successful INSERTs append the `events` rows they describe, in order, and leave the existing rows alone |
| BpmnDb.AppliedTasks | pars.py:82 | successful INSERTs append the `tasks` rows they describe, in order, and leave the existing rows alone |
| BpmnDb.AppliedGateways | pars.py:84 | successful INSERTs append the `gateways` rows they describe, in order, and leave the existing rows alone |
| BpmnDb.AppliedFlows | pars.py:90-97 | successful INSERTs append one `sequence_flows` row per flow request, in order, typed 'task' to 'task', carrying the request's condition, with endpoints that are ids of `tasks` rows bearing the requested names |
| BpmnDb.Db.constructor | pars.py:113-147 | the schema starts as four empty, consistent tables |
| BpmnDb.Db.Begin | pars.py:71 | opening the transaction saves the current tables and changes nothing |
| BpmnDb.Db.Commit | pars.py:98 | `conn.commit()` keeps the tables as they are and closes the transaction |
| BpmnDb.Db.Rollback | pars.py:71 | leaving the `with` block on an exception restores the tables saved at the start of the transaction |
| BpmnDb.Db.LookupTask | pars.py:93-94 | the subquery returns an id iff some task has the name, and then it is the id of a task row with that name |
| BpmnDb.Db.Execute | pars.py:74-97 | one INSERT raises exactly what `Rejection` says and then changes nothing; otherwise it appends its row and the database stays consistent |
| BpmnDb.Db.InsertEventRow | pars.py:75 | the `events` INSERT is refused iff the name exceeds VARCHAR(255) or the type exceeds VARCHAR(50); otherwise it appends one row |
| BpmnDb.Db.InsertTaskRow | pars.py:82 | the `tasks` INSERT is refused iff the name or the performer exceeds VARCHAR(255); otherwise it appends one row and adds its name to the task names |
| BpmnDb.Db.InsertGatewayRow | pars.py:84 | the `gateways` INSERT into a TEXT column always appends one row |
| BpmnDb.Db.InsertFlowRow | pars.py:90-97 | the `sequence_flows` INSERT raises a NOT NULL violation iff an endpoint name has no task row; otherwise it appends one row typed 'task' to 'task' whose ids belong to tasks with those names |

## Behaviour the code does not have

- One bad line aborts and rolls back the whole block; no line is skipped and none is recorded.
- Duplicate task names resolve to whichever row `LIMIT 1` returns; no rule picks the latest one.
- Flow endpoints are looked up among `tasks` rows only; an event or gateway name never resolves.
- `from_type` and `to_type` are always 'task'.
- A name declared on a later line of the block cannot be resolved by an earlier flow.
- No list of skipped lines or unresolved flows is kept; the first exception rolls the block back and propagates, uncaught, to the caller (`update_output` at pars.py:184-188, `main` at model-ollama.py:99).

## Left out

- Audio capture and speech recognition (pars.py:31-54): hardware and a machine-learning model.
- `ask_mistral` (pars.py:57-66, model-ollama.py:47-53) and `PROMPT_TEMPLATE` (model-ollama.py:17-37): network I/O and string formatting. The reply text is the parameter of the block.
- `create_db_if_not_exists` and running the DDL (pars.py:101-147): connection plumbing. Only the table definitions are modelled, as the constraints the INSERTs meet.
- The Dash UI (pars.py:150-196), `fetch_last_input` and `main` (model-ollama.py:40-103): user interface and reading the stored description.
- database.py: it is not valid Python (database.py:22-59 writes the SQL of its CREATE TABLE statements unquoted inside a call), so it sets up nothing; it also targets SQLite, not `bpmn_db`. It is not part of this model.
- The log line at pars.py:70: output only.
- Connection failures, and psycopg2 refusing a string that holds a NUL character: they lie outside the parser's logic.
- SERIAL exhaustion: the model's counters are unbounded integers.
- BpmnDb.Db.Execute: a refused INSERT does not advance the SERIAL counter, whereas PostgreSQL may already have drawn an id (it has for a NOT NULL violation), so its ids can have gaps the model's counters do not show. The contract only promises ids that strictly increase, not ids without gaps.
- BpmnDb.Db.InsertEventRow: PostgreSQL silently cuts an over-long VARCHAR value when every excess character is a space. Every value the parser stores either has been stripped or is a constant, so such a value never ends in a space and the refusal is exact.
- BpmnDb.Db.InsertTaskRow: the same silent cut of trailing spaces applies to the VARCHAR(255) columns `name` and `performer`. The parser stores only stripped values there (pars.py:79-82), so the refusal is exact for every value it passes.
- Concurrent sessions: the model has one database session. `app.run(debug=True)` (pars.py:196) may serve callbacks on several threads, and under READ COMMITTED the subquery at pars.py:93-94 can then see tasks another session commits while the block runs. The model lets only the block's own INSERTs add task names.

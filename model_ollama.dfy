/**
 * model-ollama.py, the command-line variant of the pipeline: it reads the last
 * stored description, asks the language model for its BPMN elements and stores
 * them with its own `parse_response_to_db` (model-ollama.py:56-84). That function
 * is the same loop as the one in pars.py, statement for statement, less the log
 * line; it is modelled here by running the same block.
 */
module ModelOllama {
  import opened Wrappers
  import opened Text
  import opened BpmnDb
  import Pars

  /**
   * `parse_response_to_db` of model-ollama.py: one transaction over the lines of
   * the reply, all of them stored or, on the first exception, none of them.
   */
  method ParseResponseToDb(db: Db, responseText: string) returns (outcome: Pars.Outcome)
    requires db.Valid() && db.savepoint.None?
    modifies db
    ensures db.Valid() && db.savepoint.None?
    ensures var expected := Pars.Inserts(TaskNames(old(db.tasks)), Pars.ParseAll(SplitLines(responseText)));
      && (outcome == Pars.Committed <==> expected.Ok?)
      && (outcome.RolledBack? ==> expected == Err(outcome.failure) && db.Snapshot() == old(db.Snapshot()))
      && (outcome == Pars.Committed ==> Applied(old(db.Snapshot()), expected.value, db.Snapshot()))
  {
    outcome := Pars.ParseResponseToDb(db, responseText);
  }
}

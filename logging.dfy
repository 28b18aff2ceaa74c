/** Log entries as the operator and the preparation job write them. */
module Logging {
  import opened MetadataStore
  import Operations

  datatype Level = INFO | ERROR

  datatype Body =
      /** "Mapping-operation '<type>' on '<field>' changed the value from '<pre>' to '<post>'." */
    | FieldChanged(typ: Operations.OperationType, targetField: string, pre: Value, post: Value)
      /** "Mapping-operation '<type>' on '<field>' did not change the value of '<pre>'." */
    | FieldUnchanged(typ: Operations.OperationType, targetField: string, pre: Value)
      /** A plain message. */
    | Message(text: string)

  datatype LogEntry = LogEntry(level: Level, body: Body)

  /** `LoggingContext.ERROR in log`. */
  predicate HasError(log: seq<LogEntry>)
  {
    exists i :: 0 <= i < |log| && log[i].level == ERROR
  }

  lemma HasErrorAppend(a: seq<LogEntry>, b: seq<LogEntry>)
    ensures HasError(a + b) <==> HasError(a) || HasError(b)
  {
    if HasError(a + b) {
      var i :| 0 <= i < |a + b| && (a + b)[i].level == ERROR;
      if i >= |a| {
        assert b[i - |a|].level == ERROR;
      }
    }
    if HasError(a) {
      var i :| 0 <= i < |a| && a[i].level == ERROR;
      assert (a + b)[i].level == ERROR;
    }
    if HasError(b) {
      var i :| 0 <= i < |b| && b[i].level == ERROR;
      assert (a + b)[|a| + i].level == ERROR;
    }
  }
}

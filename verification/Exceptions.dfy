/** The exception log, the worker's counters and the ways a connector can answer. */
module Exceptions {
  import opened Common

  datatype Category =
    | PoSubmissionUncertain
    | PoConnectorRateLimited
    | PoConnectorError
    | ExternalMutationUncertain
    | ConnectorRateLimited
    | Connector5xx
    | RefundReconciliationMismatch
    | StaleWorkflowExecution
    | OtherCategory(name: string)

  datatype RecordStatus = Open | Acknowledged | Resolved

  datatype Severity = Info | Warning | Error | Critical

  /** An exception record. The log of a merchant only grows; a record's position is its id. */
  datatype Record = Record(category: Category, objectId: Option<string>, status: RecordStatus, severity: Severity,
                           remediation: seq<string>)

  function Fresh(category: Category, id: string): Record {
    Record(category, Some(id), Open, Warning, ["review"])
  }

  /** What happens to one mutation request. */
  datatype Fate = Accept | TimeoutBefore | TimeoutAfter | RateLimit | ServerError

  /**
   How a connector behaves towards one object during a pass: whether reads of external truth
   get through, what happens to a request, and whether the read-back after a failed request
   gets through.
   */
  datatype Answers = Answers(truth: bool, fate: Fate, readBack: bool)

  datatype Counters = Counters(scanned: nat, reconciled: nat, retried: nat, leftOpen: nat, escalated: nat, flagged: nat) {
    function Plus(that: Counters): Counters {
      Counters(scanned + that.scanned, reconciled + that.reconciled, retried + that.retried,
               leftOpen + that.leftOpen, escalated + that.escalated, flagged + that.flagged)
    }
  }

  const ZERO := Counters(0, 0, 0, 0, 0, 0)
}

/** The lifecycle events recorded in audit_log for a message. */
module Audit {
  datatype AuditEvent =
    | Received
    | Duplicate
    | RateLimited
    | GptClassified
    | JobCreated(jobId: int)
    | WorkGoalCreated(workGoalId: int)
}

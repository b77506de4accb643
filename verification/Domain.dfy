/** Values shared by every part of the model: the enumerations of app/models/enums.py,
    JSON values, and the usual option type. */
module Domain {
  datatype Option<+T> = None | Some(value: T)

  datatype ApprovalStatus =
    Proposed | PendingReview | Approved | Rejected | Edited | Executed | Cancelled | Failed

  datatype ToolCallStatus =
    Proposed | Running | Completed | Failed | Denied | WaitingForApproval

  datatype Sensitivity = Safe | ApprovalRequired | Blocked

  datatype ActorType = Human | Agent | System

  datatype Json =
    | Null
    | Bool(b: bool)
    | Num(r: real)
    | Str(s: string)
    | Arr(items: seq<Json>)
    | Obj(fields: map<string, Json>)

  /** A tool payload: a JSON object. */
  type Payload = map<string, Json>
}

/** The audit-log helpers: the table of audit actions, the log format and
    `generateAuditLog`. Detail values are opaque strings; the clock reading
    is a parameter. */
module AuditLog {
  import opened Wrappers
  import opened Strings

  /** `AUDIT_ACTIONS`: each key maps to itself. */
  const AuditActions: map<string, string> := map[
    "CREATE" := "CREATE",
    "UPDATE" := "UPDATE",
    "DELETE" := "DELETE",
    "READ" := "READ",
    "LOGIN" := "LOGIN",
    "LOGOUT" := "LOGOUT",
    "REGISTER" := "REGISTER",
    "FORGOT_PASSWORD" := "FORGOT_PASSWORD",
    "RESET_PASSWORD" := "RESET_PASSWORD",
    "VERIFY_EMAIL" := "VERIFY_EMAIL",
    "RESEND_EMAIL_VERIFICATION" := "RESEND_EMAIL_VERIFICATION",
    "CHANGE_PASSWORD" := "CHANGE_PASSWORD",
    "CHANGE_EMAIL" := "CHANGE_EMAIL",
    "CHANGE_USERNAME" := "CHANGE_USERNAME",
    "CHANGE_ROLE" := "CHANGE_ROLE",
    "CHANGE_PERMISSION" := "CHANGE_PERMISSION",
    "CHANGE_AVATAR" := "CHANGE_AVATAR",
    "CHANGE_PROFILE" := "CHANGE_PROFILE",
    "CHANGE_SETTINGS" := "CHANGE_SETTINGS"
  ]

  /** `keyof typeof AUDIT_ACTIONS`. */
  type ActionKey = a: string | a in AuditActions witness "CREATE"

  /** Every action's value is its own name; LOGIN is an action, while the
      ACCESS_SERVICE the success route records is not. */
  lemma ActionsAreSelfNamed()
    ensures forall k :: k in AuditActions ==> AuditActions[k] == k
    ensures "LOGIN" in AuditActions && "ACCESS_SERVICE" !in AuditActions
  {
  }

  type Details = map<string, string>

  /** The object `AUDIT_LOG_FORMAT` builds. */
  datatype FormattedLog = FormattedLog(action: string, entity: string, details: Details, timestamp: string)

  /** The object `generateAuditLog` returns; `userId` is `None` when the key
      is absent. */
  datatype AuditEntry = AuditEntry(userId: Option<string>, action: string, entity: string, details: Details, timestamp: string)

  /** `AUDIT_LOG_FORMAT(action, entity, details)` at clock reading `now`; an
      omitted `details` (`None`) becomes the empty object. */
  function AuditLogFormat(action: string, entity: string, details: Option<Details>, now: string): (r: FormattedLog)
    ensures r.action == action && r.entity == entity && r.timestamp == now
    ensures details.Some? ==> r.details == details.value
    ensures details.None? ==> r.details == map[]
  {
    FormattedLog(action, entity, details.GetOr(map[]), now)
  }

  /** `generateAuditLog`: the formatted log, with `userId` in front only when
      it is truthy. */
  function GenerateAuditLog(userId: Option<string>, action: ActionKey, entity: string, details: Option<Details>, now: string): (r: AuditEntry)
    ensures r.userId.Some? <==> Truthy(userId)
    ensures r.userId.Some? ==> r.userId == userId
    ensures var log := AuditLogFormat(action, entity, details, now);
      r.action == log.action && r.entity == log.entity && r.details == log.details && r.timestamp == log.timestamp
  {
    var log := AuditLogFormat(action, entity, details, now);
    AuditEntry(if Truthy(userId) then userId else None, log.action, log.entity, log.details, log.timestamp)
  }

  /** A null and an empty user id give the same entry, and a real id only
      adds the `userId` field. */
  lemma UserIdOnlyAddsField(id: string, action: ActionKey, entity: string, details: Option<Details>, now: string)
    ensures GenerateAuditLog(None, action, entity, details, now) == GenerateAuditLog(Some(""), action, entity, details, now)
    ensures id != "" ==>
      GenerateAuditLog(Some(id), action, entity, details, now) ==
        GenerateAuditLog(None, action, entity, details, now).(userId := Some(id))
  {
  }

  /** Leaving `details` out is the same as passing the empty object. */
  lemma DetailsDefaultToEmpty(userId: Option<string>, action: ActionKey, entity: string, now: string)
    ensures GenerateAuditLog(userId, action, entity, None, now) == GenerateAuditLog(userId, action, entity, Some(map[]), now)
  {
  }
}

/** Policy bindings: which Keycloak group or role gives access to which Matrix room or space. */
module Policy {
  import opened Wrappers

  datatype PolicySubject = Group(value: string) | Role(value: string)

  datatype PolicyTarget = Room(roomId: string) | Space(roomId: string)

  datatype PolicyBinding = PolicyBinding(
    id: string,
    subject: PolicySubject,
    target: PolicyTarget,
    powerLevel: Option<int>,
    allowRemove: bool,
    createdAt: string,
    updatedAt: string)

  /** The user a workflow acts for: both identities, and what Keycloak says about the user. */
  datatype Member = Member(keycloakId: string, matrixId: string, groups: seq<string>, roles: seq<string>)

  predicate UserMatchesBinding(b: PolicyBinding, m: Member) {
    match b.subject
    case Group(g) => g in m.groups
    case Role(r) => r in m.roles
  }

  /** What a binding asks for: a match adds the user, a removing non-match removes the user. */
  datatype Verdict = Add | Remove | Keep

  function VerdictOf(b: PolicyBinding, m: Member): Verdict {
    if UserMatchesBinding(b, m) then Add else if b.allowRemove then Remove else Keep
  }

  /** `Display` of a subject, as it appears in audit metadata. */
  function SubjectText(s: PolicySubject): string {
    match s
    case Group(v) => "group:" + v
    case Role(v) => "role:" + v
  }
}

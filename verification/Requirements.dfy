/** Who belongs in which room, said once and independently of any workflow. */
module Requirements {
  import opened Policy
  import opened Upstream

  /** The user is in the group, or has the role, that the subject names. */
  predicate Has(groups: seq<string>, roles: seq<string>, subject: PolicySubject) {
    (subject.Group? && subject.value in groups) || (subject.Role? && subject.value in roles)
  }

  /** The room is the place itself or, if the place is a space, one of its children. */
  predicate Reaches(spaces: Spaces, place: string, room: string) {
    room == place || (place in spaces && room in spaces[place])
  }

  /**
   The last binding in the list that reaches the room and has something to say decides: a subject that
   the user has lets the user in, and any other throws the user out if the binding removes. If none has
   anything to say, the user stays where `inside` says.
   */
  predicate Belongs(spaces: Spaces, groups: seq<string>, roles: seq<string>, bs: seq<PolicyBinding>, room: string,
                    inside: bool)
  {
    if bs == [] then inside
    else
      var b, before := bs[|bs| - 1], bs[..|bs| - 1];
      if Reaches(spaces, b.target.roomId, room) && Has(groups, roles, b.subject) then true
      else if Reaches(spaces, b.target.roomId, room) && b.allowRemove then false
      else Belongs(spaces, groups, roles, before, room, inside)
  }

  /** How a subject is written in audit entries and previews. */
  function Written(subject: PolicySubject): string {
    (if subject.Group? then "group:" else "role:") + subject.value
  }
}

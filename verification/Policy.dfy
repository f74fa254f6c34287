/** The permissions, of those the modelled operations ask for, that each membership role grants. */
module Policy {
  import opened Prelude

  datatype Role = Member | ApManager | OrgAdmin

  datatype Permission =
    | CommentFinding
    | TransitionAssignedFinding
    | TransitionAnyFinding
    | ManageFinding
    | ManageOrgMembers
    | ManageOrgInvitations

  const MEMBER_PERMISSIONS := {CommentFinding, TransitionAssignedFinding}
  const AP_MANAGER_PERMISSIONS := MEMBER_PERMISSIONS + {TransitionAnyFinding, ManageFinding}
  const ORG_ADMIN_PERMISSIONS := AP_MANAGER_PERMISSIONS + {ManageOrgMembers, ManageOrgInvitations}

  function RolePermissions(role: Role): set<Permission> {
    match role
    case Member => MEMBER_PERMISSIONS
    case ApManager => AP_MANAGER_PERMISSIONS
    case OrgAdmin => ORG_ADMIN_PERMISSIONS
  }

  /** The role re-read under the lock; None when the active membership is gone. */
  predicate Grants(role: Option<Role>, permission: Permission) {
    role.Some? && permission in RolePermissions(role.value)
  }
}

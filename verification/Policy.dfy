/** Roles, access states and who may hold equipment. */
module Policy {

  datatype Role = Engineer | SeniorEngineer | Manager | Admin | Owner

  datatype Access = Pending | Approved | Rejected | Blocked

  datatype Standing = Standing(role: Role, access: Access)

  predicate Eligible(u: Standing) {
    u.access == Approved && (u.role == Engineer || u.role == SeniorEngineer)
  }
}

/** Whom an entry of the memory service belongs to. */
module MemoryScopes {
  type UserId = string

  datatype Scope = UserScope | FamilyScope | SystemScope
}

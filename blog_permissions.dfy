/** `IsUserOrReadOnly.has_object_permission` (blog/permissions.py): anyone may read an
    object, only its owner may change it. */
module BlogPermissions {
  import opened UserModels

  /** `permissions.SAFE_METHODS`. */
  const SafeMethods: set<string> := {"GET", "HEAD", "OPTIONS"}

  /** The decision for a request with HTTP method `verb` by `requester` on an object owned
      by `owner`. The view and anything else about the request play no part. */
  predicate HasObjectPermission(verb: string, owner: UserId, requester: UserId) {
    verb in SafeMethods || owner == requester
  }

  /** Reads are always permitted; any other method exactly when the requester owns the object. */
  lemma PermissionCases(verb: string, owner: UserId, requester: UserId)
    ensures verb in SafeMethods ==> HasObjectPermission(verb, owner, requester)
    ensures verb !in SafeMethods ==> (HasObjectPermission(verb, owner, requester) <==> owner == requester)
  {
  }

  /** A PUT, PATCH or DELETE by someone other than the owner is always refused. */
  lemma NonOwnerCannotWrite(owner: UserId, requester: UserId)
    requires owner != requester
    ensures !HasObjectPermission("PUT", owner, requester)
    ensures !HasObjectPermission("PATCH", owner, requester)
    ensures !HasObjectPermission("DELETE", owner, requester)
  {
  }
}

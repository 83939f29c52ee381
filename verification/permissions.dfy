/** Object-level permission checks applied before an action touches its
    object: each is a boolean over the request (method and user) and fields
    of the object. */
module Permissions {
  import opened Common
  import opened Models

  datatype HttpMethod = Get | Head | Options | Post | Put | Patch | Delete

  /** GET, HEAD and OPTIONS never change anything. */
  predicate IsSafe(m: HttpMethod) {
    m == Get || m == Head || m == Options
  }

  /** IsOwnerOrReadOnly: reads for everyone, writes for the object's owner.
      An object without an owner (an imported event) matches no user. */
  predicate IsOwnerOrReadOnly(m: HttpMethod, user: UserId, owner: Option<UserId>) {
    IsSafe(m) || owner == Some(user)
  }

  /** IsUser: the object's user is the requesting user. */
  predicate IsUser(user: UserId, objUser: UserId) {
    user == objUser
  }

  /** IsEventOwner: the requesting user owns the event of the member row. */
  predicate IsEventOwner(user: UserId, eventOwner: Option<UserId>) {
    eventOwner == Some(user)
  }

  /** IsEventMember: the requesting user has a member row, of any status, for
      the event. */
  predicate IsEventMember(user: UserId, e: EventId, members: map<MemberKey, EventMember>) {
    (e, user) in members
  }

  /** UserPermissions: anyone may POST (sign up); otherwise only the user
      themself. */
  predicate UserPermissions(m: HttpMethod, user: UserId, obj: UserId) {
    m == Post || obj == user
  }

  /** A write through IsOwnerOrReadOnly is allowed exactly to the owner, so it
      agrees with IsEventOwner on every unsafe method, and no one may write an
      object without an owner. */
  lemma OwnerOrReadOnlyWrites(m: HttpMethod, user: UserId, owner: Option<UserId>)
    ensures IsSafe(m) ==> IsOwnerOrReadOnly(m, user, owner)
    ensures !IsSafe(m) ==> (IsOwnerOrReadOnly(m, user, owner) <==> IsEventOwner(user, owner))
    ensures owner.None? && !IsSafe(m) ==> !IsOwnerOrReadOnly(m, user, owner)
  {
  }

  /** Apart from sign-up, UserPermissions is IsUser on the user object. */
  lemma UserPermissionsIsUser(m: HttpMethod, user: UserId, obj: UserId)
    ensures m == Post ==> UserPermissions(m, user, obj)
    ensures m != Post ==> (UserPermissions(m, user, obj) <==> IsUser(user, obj))
  {
  }
}

/**
 * The permission checks of the staff commands. Each check in the bot is a
 * Python `any(...)` over the role objects the caller holds; here the caller's
 * roles are the list of their ids, in the order the platform reports them.
 */
module Authorization {
  import opened Config

  /**
   * `any(r.id in wanted for r in roles)`: walks the list and stops at the
   * first role that is wanted.
   */
  function AnyRole(roles: seq<int>, wanted: set<int>): (r: bool)
    ensures r <==> exists i :: 0 <= i < |roles| && roles[i] in wanted
  {
    if roles == [] then false
    else if roles[0] in wanted then true
    else AnyRole(roles[1..], wanted)
  }

  /** The owner check of the direct-message commands (Bot.js:132). */
  predicate IsOwner(authorId: int) {
    authorId == OwnerId
  }

  /** `/embed`: the caller must hold the moderator or the ownership role. */
  function CanEmbed(roles: seq<int>): (r: bool)
    ensures r <==> ModRoleId in roles || OwnershipRoleId in roles
  {
    AnyRole(roles, {ModRoleId, OwnershipRoleId})
  }

  /** `$kick` and `$ban`: the caller must hold the moderator role. */
  function CanModerate(roles: seq<int>): (r: bool)
    ensures r <==> ModRoleId in roles
  {
    AnyRole(roles, {ModRoleId})
  }

  /** `$purge`: the caller must hold the ownership role. */
  function CanPurge(roles: seq<int>): (r: bool)
    ensures r <==> OwnershipRoleId in roles
  {
    AnyRole(roles, {OwnershipRoleId})
  }

  /**
   * The two shapes of check the code makes: the owner commands compare the
   * caller's id with one account (Bot.js:132), the staff commands look for at
   * least one role out of a set (Bot.js:252-255, 370, 381, 392).
   */
  datatype Requirement = ExactUser(userId: int) | AnyOfRoles(roleIds: set<int>)

  function IsAuthorized(callerId: int, roles: seq<int>, req: Requirement): bool {
    match req
    case ExactUser(id) => callerId == id
    case AnyOfRoles(ids) => AnyRole(roles, ids)
  }

  /** An exact-user requirement looks at the caller's id and never at the roles. */
  lemma ExactUserIgnoresRoles(callerId: int, roles: seq<int>, other: seq<int>, id: int)
    ensures IsAuthorized(callerId, roles, ExactUser(id)) == IsAuthorized(callerId, other, ExactUser(id))
    ensures IsAuthorized(callerId, roles, ExactUser(id)) <==> callerId == id
  {
  }

  /** A role requirement passes iff the caller's roles meet the required set. */
  lemma AnyOfRolesIsIntersection(callerId: int, roles: seq<int>, ids: set<int>)
    ensures IsAuthorized(callerId, roles, AnyOfRoles(ids)) <==> (set r | r in roles) * ids != {}
  {
    if IsAuthorized(callerId, roles, AnyOfRoles(ids)) {
      var i :| 0 <= i < |roles| && roles[i] in ids;
      assert roles[i] in (set r | r in roles) * ids;
    }
  }

  /** The order of the caller's roles does not matter to any check. */
  lemma ChecksIgnoreOrder(roles: seq<int>, other: seq<int>, wanted: set<int>)
    requires multiset(roles) == multiset(other)
    ensures AnyRole(roles, wanted) == AnyRole(other, wanted)
  {
    if AnyRole(roles, wanted) {
      var i :| 0 <= i < |roles| && roles[i] in wanted;
      assert roles[i] in multiset(other);
    }
    if AnyRole(other, wanted) {
      var i :| 0 <= i < |other| && other[i] in wanted;
      assert other[i] in multiset(roles);
    }
  }
}

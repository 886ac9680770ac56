/**
 * The staff commands `/embed`, `$kick`, `$ban` and `$purge` (Bot.js:236-286,
 * 367-400), reduced to what each decides: whether the caller may act, and
 * what request it then makes of the platform.
 */
module Moderation {
  import opened Config
  import opened Authorization
  import Colour
  import opened Wrappers

  /** What `/embed` does: an ephemeral refusal, or an embed posted to the channel. */
  datatype EmbedOutcome =
    | NoPermission
    | Posted(title: string, description: string, colour: int)

  /** `embed_cmd(interaction, title, description, color)`. */
  function Embed(roles: seq<int>, title: string, description: string, color: string): (r: EmbedOutcome)
    ensures r.NoPermission? <==> !CanEmbed(roles)
    ensures r.Posted? ==> r.title == title && r.description == description
    ensures r.Posted? ==> r.colour == Colour.ParseColour(color)
  {
    if !CanEmbed(roles) then NoPermission
    else Posted(title, description, Colour.ParseColour(color))
  }

  /** What `$kick`/`$ban` do: nothing at all, or one request against the member. */
  datatype MemberAction =
    | Ignored
    | KickMember(memberId: int, reason: string)
    | BanMember(memberId: int, reason: string)

  /** `kick(ctx, member, reason)`; an unauthorised caller gets no reply. */
  function Kick(roles: seq<int>, memberId: int, reason: string): (r: MemberAction)
    ensures r != Ignored <==> ModRoleId in roles
    ensures r != Ignored ==> r == KickMember(memberId, reason)
  {
    if !CanModerate(roles) then Ignored else KickMember(memberId, reason)
  }

  /** `ban(ctx, member, reason)`; an unauthorised caller gets no reply. */
  function Ban(roles: seq<int>, memberId: int, reason: string): (r: MemberAction)
    ensures r != Ignored <==> ModRoleId in roles
    ensures r != Ignored ==> r == BanMember(memberId, reason)
  {
    if !CanModerate(roles) then Ignored else BanMember(memberId, reason)
  }

  /** The reason a kick or ban records when the caller gives none. */
  const NoReason: string := "No reason"

  /** `purge(ctx, amount)`: the history limit asked for, if the caller may purge. */
  function Purge(roles: seq<int>, amount: int): (limit: Option<int>)
    ensures limit.Some? <==> OwnershipRoleId in roles
    ensures limit.Some? ==> limit.value == amount + 1
  {
    if !CanPurge(roles) then None else Some(amount + 1)
  }

  /** A moderator without the ownership role may kick but not purge, and the reverse. */
  lemma RolesAreSeparate()
    ensures Kick([ModRoleId], 1, NoReason).KickMember?
    ensures Purge([ModRoleId], 10).None?
    ensures Kick([OwnershipRoleId], 1, NoReason).Ignored?
    ensures Purge([OwnershipRoleId], 10) == Some(11)
    ensures Embed([ModRoleId], "t", "d", Colour.DefaultArgument).Posted?
    ensures Embed([OwnershipRoleId], "t", "d", Colour.DefaultArgument).Posted?
    ensures Embed([], "t", "d", Colour.DefaultArgument).NoPermission?
  {
  }
}

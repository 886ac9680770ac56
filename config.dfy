/** The fixed identifiers the bot is configured with (Bot.js:18-20). */
module Config {

  /** The one account allowed to use the direct-message owner commands. */
  const OwnerId: int := 1158155824548556873

  /** The role that may purge channels and post staff embeds. */
  const OwnershipRoleId: int := 1442689932316381267

  /** The role that may kick, ban and post staff embeds. */
  const ModRoleId: int := 1442689963240984599
}

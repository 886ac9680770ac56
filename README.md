# TXRPbot core, modelled in Dafny

TXRPbot is a chat bot for one Discord community. Almost all of it is glue
around the discord.py library. This project models the few parts that hold
logic of their own:

- **XP ledger** (`ledger.dfy`, module `Ledger`). A table keyed by
  `(guild_id, user_id)` that holds `(xp, level)`. Every message a person
  sends in a guild creates the row as `(0, 1)` if it is missing, then adds 5
  to `xp`. `$rank` reads the row back. The class `XpTable` holds the table as
  a map. Its methods are proved against the pure functions `Recorded`,
  `AfterMessage` and `Replay`; `OnMessages` handles a series of messages
  and ends with the table `Replay` gives. The lemmas about those functions state what
  the ledger guarantees.
- **Presence** (`presence.dfy`, module `Presence`). The bot's three fields
  `current_activity_name`, `stream_url` and `current_status`, and the
  owner-only direct-message commands `$setstatus`, `$seturl`, `$setpresence`
  and `$shutdown`. The class `MyBot` holds the fields. Its methods are proved
  against the pure transition `Step`. The lemmas about `Step` and `Run` (a
  series of commands) state the gating and the effect of each command.
- **Authorization** (`authorization.dfy`, module `Authorization`). The
  owner check and the role checks of `/embed`, `$kick`, `$ban` and `$purge`,
  each a Python `any(...)` over the caller's role ids.
- **Embed colour** (`colour.dfy`, module `Colour`). Every `#` is removed from
  the argument, the rest is read with Python's `int(text, 16)`, and any
  failure falls back to `0x7d2ae8`.
- **Staff commands** (`moderation.dfy`, module `Moderation`). What `/embed`,
  `$kick`, `$ban` and `$purge` decide before they call the platform.

`config.dfy` holds the owner and role ids. `wrappers.dfy` holds `Option`.

Each handler is one atomic step. Calls into the platform (sending replies,
changing the presence, kicking, banning, purging) are not performed. The
model returns a value saying which request the handler would make.

Python's `str.lower()` is modelled as ASCII lower-casing. This gives exactly
the same accepted modes as Python. The only non-ASCII character whose
`lower()` is ASCII is the Kelvin sign, which becomes `k`, and no accepted
mode contains a `k`.

The code walks the list of role objects in order. The model walks a list of
their ids, and `Authorization.ChecksIgnoreOrder` shows that only the ids
matter, not their order. Rows this bot writes always have a non-negative
multiple of 5 as xp and level 1 (`Ledger.ReplayWellFormed`). The table is
opened with `CREATE TABLE IF NOT EXISTS`, so `XpTable`'s constructor accepts
whatever rows were already stored.

A `$rank` command is itself a message. `on_message` records its XP before it
passes the message on to command processing (Bot.js:413-428), so the lookup
sees the table with the command's own 5 XP already added.
`Ledger.HandleRankMessage` models that order.

## Model

| member | source | states |
|---|---|---|
| Authorization.AnyRole | Bot.js:252-255 | the `any(...)` over the caller's roles is true iff some role id in the list is in the wanted set |
| Authorization.CanEmbed | Bot.js:252-255 | `/embed` is allowed iff the caller holds the moderator role or the ownership role |
| Authorization.CanModerate | Bot.js:370-381 | `$kick` and `$ban` are allowed iff the caller holds the moderator role |
| Authorization.CanPurge | Bot.js:392 | `$purge` is allowed iff the caller holds the ownership role |
| Authorization.ExactUserIgnoresRoles | Bot.js:132 | the owner-style check passes iff the caller's id is that account, whatever roles the caller holds |
| Authorization.AnyOfRolesIsIntersection | Bot.js:252-255 | the role-style check passes iff the set of the caller's role ids meets the wanted set |
| Authorization.ChecksIgnoreOrder | Bot.js:252-255 | two role lists with the same elements give the same answer to every check |
| Colour.StripHash | Bot.js:263 | `replace("#", "")` drops every `#` and keeps every other character the same number of times; text without `#` is unchanged |
| Colour.StripHashAppend | Bot.js:263 | stripping a concatenation is the concatenation of the stripped parts, so the kept characters stay in their order |
| Colour.StripHashChar | Bot.js:263 | a single character is dropped iff it is `#`; with `StripHashAppend` this fixes the result for every string |
| Colour.TrimLeft | Bot.js:263 | `int()` drops only leading space, tab, line feed, vertical tab, form feed and carriage return, and stops at the first other character |
| Colour.TrimRight | Bot.js:263 | `int()` drops only trailing space, tab, line feed, vertical tab, form feed and carriage return, and stops at the last other character |
| Colour.HexValue | Bot.js:263 | the base-16 value of n digits is below 16 to the power n |
| Colour.StripSign | Bot.js:263 | no contract: drops one leading `+` or `-`; its meaning is given by `SignedRead`, `NegativeRead` and `KeptBySign` |
| Colour.StripPrefix | Bot.js:263 | no contract: drops a leading `0x`/`0X` and one `_` after it; its meaning is given by `PlainMagnitude` and `KeptByPrefix` |
| Colour.ReadMagnitude | Bot.js:263 | no contract: the unsigned part, an optional prefix then digit groups; its meaning is given by `PlainMagnitude` and `StrayCharacterFallsBack` |
| Colour.ReadSigned | Bot.js:263 | no contract: an optional sign, then the magnitude, negated after `-`; its meaning is given by `SignedRead` and `NegativeRead` |
| Colour.ParseInt16 | Bot.js:263 | no contract: `int(t, 16)`, with `None` for `ValueError`; its meaning is given by `TrimUnpadded`, `PlainHexParses`, `NegativeHexParses` and `HexRoundTrip` |
| Colour.ParseColour | Bot.js:262-265 | no contract: the colour of the argument; its meaning is given by `HexColourParses`, `DefaultArgumentParses`, `StrayCharacterFallsBack`, `EveryColourReachable` and `NegativeColourAccepted` |
| Colour.PlainHexParses | Bot.js:263 | `int(t, 16)` of non-empty plain hex digits is their base-16 value |
| Colour.HexColourParses | Bot.js:262-263 | an argument that is hex digits once its `#`s are gone yields the value of those digits |
| Colour.DefaultArgumentParses | Bot.js:249-265 | the default argument `#7d2ae8` yields `0x7d2ae8` |
| Colour.StrayCharacterFallsBack | Bot.js:262-265 | any character that is not a hex digit, whitespace, sign, `x`, `X`, `_` or `#` makes the parse fail, and the fallback `0x7d2ae8` is used |
| Colour.NotAColourFallsBack | Bot.js:262-265 | the argument `not-a-color` yields the fallback colour |
| Colour.SeparatorFallsBack | Bot.js:262-265 | a colour that starts with the ASCII separator U+001C, which `int()` does not skip, yields the fallback colour |
| Colour.HexRoundTrip | Bot.js:263 | reading back the hex spelling of a non-negative number gives the number |
| Colour.EveryColourReachable | Bot.js:262-263 | every non-negative value, 24-bit or wider, is the colour of `#` followed by its hex spelling |
| Colour.SixDigitsFitRgb | Bot.js:262-263 | six hex digits always give a colour below `0x1000000` |
| Colour.NegativeRead | Bot.js:263 | after the trimming, a minus sign followed by plain hex digits is read as the negated value of the digits |
| Colour.NegativeHexParses | Bot.js:263 | `int("-" + t, 16)` of plain hex digits `t` is minus their value |
| Colour.NegativeColourAccepted | Bot.js:262-263 | a minus sign is not rejected: `-` and the hex spelling of n yields the colour -n |
| Moderation.Embed | Bot.js:252-286 | `/embed` refuses iff the embed check fails, and otherwise posts the given title and description with the parsed colour |
| Moderation.Kick | Bot.js:367-375 | `$kick` acts iff the caller holds the moderator role, and then kicks exactly the given member with the given reason |
| Moderation.Ban | Bot.js:378-386 | `$ban` acts iff the caller holds the moderator role, and then bans exactly the given member with the given reason |
| Moderation.Purge | Bot.js:389-400 | `$purge` acts iff the caller holds the ownership role, and then asks for `amount + 1` messages |
| Moderation.RolesAreSeparate | Bot.js:252-392 | the moderator role alone allows kick and embed but not purge; the ownership role alone allows purge and embed but not kick; no role allows no embed |
| Presence.OwnerGate | Bot.js:132-137 | a command is let through iff its author is the owner and it was sent outside a guild; a non-owner is stopped by the first check |
| Presence.OwnerGateIsExactUser | Bot.js:132 | the gate stops a caller at its first test iff the exact-user check for the owner's account refuses that caller, whatever roles they hold |
| Presence.LowerChar | Bot.js:194 | ASCII capitals become lower case and every other character is kept |
| Presence.Lower | Bot.js:194 | `lower()` keeps the length and lowers every character in place |
| Presence.ParseMode | Bot.js:188-198 | a mode is accepted iff it lower-cases to `online`, `idle` or `dnd`, and then it is the mode of that name |
| Presence.ParseModeName | Bot.js:188-194 | each of the three modes is accepted under its own name |
| Presence.ParseModeIgnoresCase | Bot.js:194 | a mode is read the same as its lower-cased spelling |
| Presence.ParseModeExamples | Bot.js:188-198 | `DND` and `Idle` are accepted; `offline` and the empty string are not |
| Presence.GateComesFirst | Bot.js:132-137 | a command not from the owner in a direct message changes no field; a non-owner gets silence, the owner in a guild gets the direct-message hint |
| Presence.SetPresenceEffect | Bot.js:180-201 | `$setpresence` sets the status iff it is let through and its mode is known, answers with the usage line iff the mode is unknown, and never changes the activity or the URL |
| Presence.SetTextEffect | Bot.js:140-164 | `$setstatus` changes only the activity, `$seturl` only the URL |
| Presence.PushedIsNewState | Bot.js:140-148 | the presence sent to the platform is the new value of all three fields, and `$shutdown` changes none of them |
| Presence.Step | Bot.js:129-229 | no contract: one owner command applied to the three fields; its meaning is given by `GateComesFirst`, `SetPresenceEffect`, `SetTextEffect` and `PushedIsNewState` |
| Presence.Run | Bot.js:129-229 | no contract: the fields after a series of commands; its meaning is given by `OnlyOwnerDirectChanges`, `ActivityIsLastAccepted`, `UrlIsLastAccepted` and `StatusIsLastAccepted` |
| Presence.OnlyOwnerDirectChanges | Bot.js:132-185 | a series of commands none of which is from the owner in a direct message leaves all three fields as they were |
| Presence.ActivityIsLastAccepted | Bot.js:129-150 | after any series of commands the activity is the text of the last `$setstatus` let through, or the starting one |
| Presence.UrlIsLastAccepted | Bot.js:153-174 | after any series of commands the stream URL is the text of the last `$seturl` let through, or the starting one |
| Presence.StatusIsLastAccepted | Bot.js:177-211 | after any series of commands the status is the mode of the last accepted `$setpresence`, or the starting one |
| Presence.MyBot.constructor | Bot.js:70-72 | a new process starts with the fixed activity line, stream URL and do-not-disturb |
| Presence.MyBot.SetStatus | Bot.js:129-150 | `$setstatus` changes the fields and answers exactly as `Step` says |
| Presence.MyBot.SetUrl | Bot.js:153-174 | `$seturl` changes the fields and answers exactly as `Step` says |
| Presence.MyBot.SetPresence | Bot.js:177-211 | `$setpresence` changes the fields and answers exactly as `Step` says |
| Presence.MyBot.Shutdown | Bot.js:214-229 | `$shutdown` shuts down iff the owner sent it outside a guild, and changes no presence field |
| Ledger.Recorded | Bot.js:415-423 | a missing row is created and ends at xp 5, level 1; an existing row gains exactly 5 xp and keeps its level; every other row is unchanged; no row is removed |
| Ledger.Lookup | Bot.js:301-306 | no contract: the SELECT by `(guild_id, user_id)` followed by `fetchone()`; its meaning is given by `FirstMessage`, `ReplayLookup` and `XpTable.GetEntry` |
| Ledger.AfterMessage | Bot.js:407-425 | no contract: the table after one message; its meaning is given by `XpTable.OnMessage`, `MessageWellFormed` and `SelfRankHasEntry` |
| Ledger.Replay | Bot.js:407-425 | no contract: the table after a series of messages, oldest first; its meaning is given by `XpTable.OnMessages`, `ReplayLookup`, `IgnoredMessagesKeepTable` and `ReplayMonotone` |
| Ledger.FirstMessage | Bot.js:301-310 | a pair never seen has no entry; after one qualifying message its entry is xp 5, level 1 |
| Ledger.ReplayLookup | Bot.js:407-425 | after any series of messages a member's xp is the starting xp plus 5 per message that member earned, whatever other messages are interleaved, and the level is unchanged |
| Ledger.FreshMemberAfterMessages | Bot.js:415-423 | N earning messages from a pair never seen leave xp 5N and level 1 |
| Ledger.IgnoredMessagesKeepTable | Bot.js:410-413 | messages from bots or outside a guild leave the table unchanged |
| Ledger.ReplayMonotone | Bot.js:420-423 | rows are never removed, xp never decreases and the level never changes |
| Ledger.ReplayWellFormed | Bot.js:415-423 | a table whose rows have a non-negative multiple of 5 as xp and level 1 keeps that shape |
| Ledger.MessageWellFormed | Bot.js:415-423 | one message keeps the shape "xp a non-negative multiple of 5, level 1" of every row |
| Ledger.XpTable.constructor | Bot.js:41-52 | opening the table keeps the rows already stored |
| Ledger.XpTable.RecordActivity | Bot.js:415-423 | the insert-or-ignore and the keyed update together make the table `Recorded` of the old one, and leave other keys alone |
| Ledger.XpTable.OnMessage | Bot.js:407-428 | the table becomes `AfterMessage` of the old one, and the message goes on to command processing iff its author is not a bot |
| Ledger.XpTable.OnMessages | Bot.js:407-428 | handling a series of messages one after another leaves the table as `Replay` of the old one |
| Ledger.XpTable.GetEntry | Bot.js:301-306 | the lookup is present iff the pair has a row, and then it is that row |
| Ledger.XpTable.Rank | Bot.js:293-314 | outside a guild nothing; otherwise the row of the named member, or the author, or the no-data answer when there is none |
| Ledger.SelfRankHasEntry | Bot.js:413-428 | the `$rank` message of a person in a guild earns its own XP first, so their own lookup always finds a row and never answers "No XP data" |
| Ledger.SelfRankAfterMessages | Bot.js:413-428 | after k earning messages from a pair never seen, the pair's own `$rank` message finds xp 5(k+1) and level 1 |
| Ledger.HandleRankMessage | Bot.js:407-428 | a `$rank` message first updates the table as `AfterMessage` says; a bot's is then dropped, any other is answered from the updated table, and a self-rank in a guild is always a report |
| Ledger.TwoMessagesThenRankScenario | Bot.js:293-314 | two messages and then `$rank` from a member of a fresh table report level 1 with 15 XP |

## Left out

- Calls into discord.py are left out because they are foreign calls. These are `change_presence`, `send`, `kick`, `ban`, `channel.purge`, `tree.sync`, `process_commands` and building the embed. The model returns the request a handler would make.
- SQLite itself is left out because it is I/O. This covers connecting, `CREATE TABLE`, `commit` and storage errors. The table is an abstract map, but the insert-or-ignore followed by the keyed update is kept.
- `update_web_status`, `setup_hook` and `on_ready` are left out because they are an HTTP POST, command registration and a presence push of the initial state.
- Interleaving of the async handlers is left out. Each handler is one atomic step.
- `$pong`, `$link` and `$help` are left out because they are a floating-point latency reply and fixed texts. So are embed timestamps and footers.
- Ledger.XpTable.Rank: the reply carries the member's id instead of `member.name`, because names are platform data.
- Colour.StrayCharacterFallsBack: Python's `int(text, 16)` also accepts non-ASCII decimal digits and non-ASCII whitespace. The model treats those as failures and so claims results only for ASCII text.
- Presence.Lower: only ASCII letters are lowered, which is enough for the mode check as explained above.
- Integer widths are left out. Ids, xp and colours are unbounded integers. SQLite's 64-bit `INTEGER` would need about 1.8e18 messages to overflow.
- `$kick`, `$ban`, `$purge` and `/embed` used outside a guild are left out. There the caller has no role list and discord.py raises an error. The model always takes a role list.
- The process exit of `$shutdown` is left out. `$shutdown` is modelled as the same owner and direct-message checks, with no change of state.

/**
 * The XP table `users(guild_id, user_id, xp, level)` with primary key
 * `(guild_id, user_id)` (Bot.js:44-52), the message handler that feeds it
 * (Bot.js:407-428) and the `$rank` command that reads it (Bot.js:293-314).
 */
module Ledger {
  import opened Wrappers

  /** The primary key: (guild_id, user_id). */
  type Key = (int, int)

  /** One row's (xp, level). */
  datatype Entry = Entry(xp: int, level: int)

  type Table = map<Key, Entry>

  /** The row `INSERT OR IGNORE INTO users VALUES (?, ?, 0, 1)` creates. */
  const NewEntry: Entry := Entry(0, 1)

  /** What `UPDATE users SET xp = xp + 5` adds per message. */
  const XpPerMessage: int := 5

  /** `SELECT xp, level FROM users WHERE guild_id=? AND user_id=?`, then `fetchone()`. */
  function Lookup(rows: Table, guild: int, user: int): Option<Entry> {
    if (guild, user) in rows then Some(rows[(guild, user)]) else None
  }

  /**
   * The table after the insert-or-ignore and the keyed update of
   * `on_message` (Bot.js:415-423): the row for the key is created as (0, 1)
   * if it is missing, and then its xp grows by 5.
   */
  function Recorded(rows: Table, guild: int, user: int): (r: Table)
    ensures r.Keys == rows.Keys + {(guild, user)}
    ensures (guild, user) !in rows ==> r[(guild, user)] == Entry(XpPerMessage, 1)
    ensures (guild, user) in rows ==>
      r[(guild, user)] == Entry(rows[(guild, user)].xp + XpPerMessage, rows[(guild, user)].level)
    ensures forall k :: k in rows && k != (guild, user) ==> r[k] == rows[k]
  {
    var k := (guild, user);
    var inserted := if k in rows then rows else rows[k := NewEntry];
    inserted[k := Entry(inserted[k].xp + XpPerMessage, inserted[k].level)]
  }

  /** The parts of an incoming message the handler looks at. */
  datatype Message = Message(authorId: int, authorIsBot: bool, guild: Option<int>)

  /** Only messages from people, sent in a guild, earn XP. */
  predicate Qualifies(msg: Message) {
    !msg.authorIsBot && msg.guild.Some?
  }

  /** The table after `on_message(msg)`. */
  function AfterMessage(rows: Table, msg: Message): Table {
    if Qualifies(msg) then Recorded(rows, msg.guild.value, msg.authorId) else rows
  }

  /** The table after a series of messages, oldest first. */
  function Replay(rows: Table, msgs: seq<Message>): Table {
    if msgs == [] then rows else AfterMessage(Replay(rows, msgs[..|msgs| - 1]), msgs[|msgs| - 1])
  }

  /** How many of the messages earn XP for the member `user` of guild `guild`. */
  function Earned(msgs: seq<Message>, guild: int, user: int): (n: nat)
    ensures n <= |msgs|
  {
    if msgs == [] then 0
    else
      var m := msgs[|msgs| - 1];
      Earned(msgs[..|msgs| - 1], guild, user) + if Qualifies(m) && m.guild.value == guild && m.authorId == user then 1 else 0
  }

  /** An entry that has earned `n` more messages' worth of XP. */
  function Advance(e: Option<Entry>, n: nat): Option<Entry> {
    match e
    case None => if n == 0 then None else Some(Entry(XpPerMessage * n, 1))
    case Some(x) => Some(Entry(x.xp + XpPerMessage * n, x.level))
  }

  /** A pair never seen has no entry; after one qualifying message it has xp 5 and level 1. */
  lemma FirstMessage(rows: Table, guild: int, user: int)
    requires (guild, user) !in rows
    ensures Lookup(rows, guild, user) == None
    ensures Lookup(Recorded(rows, guild, user), guild, user) == Some(Entry(5, 1))
  {
  }

  /**
   * The row of one member after any series of messages depends only on how
   * many of them that member earned: interleaved messages of other members,
   * of bots, or from direct messages make no difference. The xp grows by
   * 5 per earned message and the level never changes.
   */
  lemma {:induction false} ReplayLookup(rows: Table, msgs: seq<Message>, guild: int, user: int)
    ensures Lookup(Replay(rows, msgs), guild, user) == Advance(Lookup(rows, guild, user), Earned(msgs, guild, user))
  {
    if msgs != [] {
      var init := msgs[..|msgs| - 1];
      ReplayLookup(rows, init, guild, user);
    }
  }

  /** N messages from a member never seen before leave xp = 5 * N and level 1. */
  lemma FreshMemberAfterMessages(rows: Table, msgs: seq<Message>, guild: int, user: int)
    requires (guild, user) !in rows
    requires Earned(msgs, guild, user) > 0
    ensures Lookup(Replay(rows, msgs), guild, user) == Some(Entry(5 * Earned(msgs, guild, user), 1))
  {
    ReplayLookup(rows, msgs, guild, user);
  }

  /** Messages that do not qualify never change the table. */
  lemma {:induction false} IgnoredMessagesKeepTable(rows: Table, msgs: seq<Message>)
    requires forall i :: 0 <= i < |msgs| ==> !Qualifies(msgs[i])
    ensures Replay(rows, msgs) == rows
  {
    if msgs != [] {
      IgnoredMessagesKeepTable(rows, msgs[..|msgs| - 1]);
    }
  }

  /** Rows are never removed, xp never decreases and the level never changes. */
  lemma ReplayMonotone(rows: Table, msgs: seq<Message>, guild: int, user: int)
    requires (guild, user) in rows
    ensures (guild, user) in Replay(rows, msgs)
    ensures Replay(rows, msgs)[(guild, user)].xp >= rows[(guild, user)].xp
    ensures Replay(rows, msgs)[(guild, user)].level == rows[(guild, user)].level
  {
    ReplayLookup(rows, msgs, guild, user);
  }

  /** The shape of every row this system writes: xp a non-negative multiple of 5, level 1. */
  ghost predicate WellFormed(rows: Table) {
    forall k :: k in rows ==> rows[k].xp >= 0 && rows[k].xp % XpPerMessage == 0 && rows[k].level == 1
  }

  /** Messages keep a well-formed table well-formed. */
  lemma {:induction false} ReplayWellFormed(rows: Table, msgs: seq<Message>)
    requires WellFormed(rows)
    ensures WellFormed(Replay(rows, msgs))
  {
    if msgs != [] {
      ReplayWellFormed(rows, msgs[..|msgs| - 1]);
      MessageWellFormed(Replay(rows, msgs[..|msgs| - 1]), msgs[|msgs| - 1]);
    }
  }

  /** One message keeps a well-formed table well-formed. */
  lemma MessageWellFormed(rows: Table, msg: Message)
    requires WellFormed(rows)
    ensures WellFormed(AfterMessage(rows, msg))
  {
    if Qualifies(msg) {
      var r := Recorded(rows, msg.guild.value, msg.authorId);
      forall k | k in r
        ensures r[k].xp >= 0 && r[k].xp % XpPerMessage == 0 && r[k].level == 1
      {
        if k in rows && k != (msg.guild.value, msg.authorId) {
          assert r[k] == rows[k];
        }
      }
    }
  }

  /** What `$rank` answers. */
  datatype RankReply =
    | NotInGuild                                      // outside a guild the command does nothing
    | NoXpData                                        // no row for the member
    | Report(userId: int, level: int, xp: int)        // "Level <level> | XP <xp>"

  /** The table as the bot holds it: one row per (guild_id, user_id). */
  class XpTable {
    var rows: Table

    /** Opening the file: `CREATE TABLE IF NOT EXISTS` keeps the rows already stored. */
    constructor (stored: Table)
      ensures rows == stored
    {
      rows := stored;
    }

    /** The insert-or-ignore and the keyed update of `on_message` (Bot.js:415-423). */
    method RecordActivity(guild: int, user: int)
      modifies this
      ensures rows == Recorded(old(rows), guild, user)
      ensures forall k :: k in old(rows) && k != (guild, user) ==> k in rows && rows[k] == old(rows)[k]
    {
      var key := (guild, user);
      // INSERT OR IGNORE INTO users VALUES (guild, user, 0, 1)
      if key !in rows {
        rows := rows[key := NewEntry];
      }
      // UPDATE users SET xp = xp + 5 WHERE guild_id = guild AND user_id = user
      rows := map k | k in rows :: if k == key then Entry(rows[k].xp + XpPerMessage, rows[k].level) else rows[k];
      assert rows == Recorded(old(rows), guild, user);
    }

    /** `on_message`: returns whether the message is then passed on to command processing. */
    method OnMessage(msg: Message) returns (dispatched: bool)
      modifies this
      ensures rows == AfterMessage(old(rows), msg)
      ensures dispatched <==> !msg.authorIsBot
    {
      if msg.authorIsBot {
        return false;
      }
      if msg.guild.Some? {
        RecordActivity(msg.guild.value, msg.authorId);
      }
      dispatched := true;
    }

    /** The SELECT of `$rank` (Bot.js:301-306): a read-only lookup. */
    method GetEntry(guild: int, user: int) returns (entry: Option<Entry>)
      ensures entry.Some? <==> (guild, user) in rows
      ensures entry.Some? ==> entry.value == rows[(guild, user)]
    {
      var key := (guild, user);
      if key in rows {
        entry := Some(rows[key]);
      } else {
        entry := None;
      }
    }

    /**
     * `on_message` for each of a series of messages in turn, oldest first:
     * the table ends as `Replay` says.
     */
    method OnMessages(msgs: seq<Message>)
      modifies this
      ensures rows == Replay(old(rows), msgs)
    {
      var i := 0;
      while i < |msgs|
        invariant 0 <= i <= |msgs|
        invariant rows == Replay(old(rows), msgs[..i])
      {
        var _ := OnMessage(msgs[i]);
        assert msgs[..i + 1][..i] == msgs[..i];
        i := i + 1;
      }
      assert msgs[..i] == msgs;
    }

    /** `$rank [member]`: the member defaults to the author. */
    method Rank(guild: Option<int>, authorId: int, member: Option<int>) returns (reply: RankReply)
      ensures guild.None? ==> reply == NotInGuild
      ensures guild.Some? ==>
        var who := if member.Some? then member.value else authorId;
        reply == if (guild.value, who) in rows
                 then Report(who, rows[(guild.value, who)].level, rows[(guild.value, who)].xp)
                 else NoXpData
    {
      if guild.None? {
        return NotInGuild;
      }
      var who := if member.Some? then member.value else authorId;
      var row := GetEntry(guild.value, who);
      match row
      case None => reply := NoXpData;
      case Some(e) => reply := Report(who, e.level, e.xp);
    }
  }

  /**
   * A `$rank` message is itself a message: in a guild it earns its 5 XP
   * before the lookup runs, so a member asking for their own rank always
   * has a row.
   */
  lemma SelfRankHasEntry(rows: Table, rankMsg: Message)
    requires Qualifies(rankMsg)
    ensures Lookup(AfterMessage(rows, rankMsg), rankMsg.guild.value, rankMsg.authorId).Some?
  {
  }

  /**
   * After k earning messages from a pair never seen, the pair's own `$rank`
   * message finds xp 5 * (k + 1) and level 1.
   */
  lemma SelfRankAfterMessages(rows: Table, msgs: seq<Message>, rankMsg: Message)
    requires Qualifies(rankMsg)
    requires (rankMsg.guild.value, rankMsg.authorId) !in rows
    ensures Lookup(Replay(rows, msgs + [rankMsg]), rankMsg.guild.value, rankMsg.authorId)
      == Some(Entry(5 * (Earned(msgs, rankMsg.guild.value, rankMsg.authorId) + 1), 1))
  {
    var all := msgs + [rankMsg];
    assert all[..|all| - 1] == msgs;
    ReplayLookup(rows, all, rankMsg.guild.value, rankMsg.authorId);
  }

  /**
   * A message that is the command `$rank [member]`: `on_message` records it
   * first, and only then is it passed on to the command, which reads the
   * updated table. A bot's message is never passed on.
   */
  method HandleRankMessage(table: XpTable, msg: Message, member: Option<int>) returns (reply: Option<RankReply>)
    modifies table
    ensures table.rows == AfterMessage(old(table.rows), msg)
    ensures msg.authorIsBot <==> reply.None?
    ensures !msg.authorIsBot && msg.guild.None? ==> reply == Some(NotInGuild)
    ensures !msg.authorIsBot && msg.guild.Some? ==>
      var who := if member.Some? then member.value else msg.authorId;
      reply == Some(if (msg.guild.value, who) in table.rows
                    then Report(who, table.rows[(msg.guild.value, who)].level, table.rows[(msg.guild.value, who)].xp)
                    else NoXpData)
    ensures Qualifies(msg) && member.None? ==> reply.Some? && reply.value.Report?
  {
    var dispatched := table.OnMessage(msg);
    if !dispatched {
      return None;
    }
    var r := table.Rank(msg.guild, msg.authorId, member);
    reply := Some(r);
  }

  /**
   * A member who sends two messages in a guild and then `$rank` is reported
   * at level 1 with 15 XP: the command message earns the third 5.
   */
  method TwoMessagesThenRankScenario(guild: int, user: int) returns (reply: Option<RankReply>)
    ensures reply == Some(Report(user, 1, 15))
  {
    var table := new XpTable(map[]);
    var msg := Message(user, false, Some(guild));
    var _ := table.OnMessage(msg);
    var _ := table.OnMessage(msg);
    reply := HandleRankMessage(table, msg, None);
  }
}

/**
 * The bot's presence: the three fields `current_activity_name`, `stream_url`
 * and `current_status` (Bot.js:70-72), and the owner-only direct-message
 * commands `$setstatus`, `$seturl`, `$setpresence` and `$shutdown`
 * (Bot.js:129-229) that read and change them.
 */
module Presence {
  import opened Wrappers
  import opened Config
  import opened Authorization

  /** The three modes `$setpresence` offers (`online`, `idle`, `dnd`). */
  datatype Status = Online | Idle | Dnd

  /** The values of the three presence fields at one moment. */
  datatype Snapshot = Snapshot(activityName: string, streamUrl: string, status: Status)

  const DefaultStreamUrl: string := "https://txrp-utilities.lovable.app/"
  const DefaultActivityName: string := "TXRP Code:XFjOS | $help for commands"

  /** The presence a freshly started process has. */
  const Initial: Snapshot := Snapshot(DefaultActivityName, DefaultStreamUrl, Dnd)

  /** Who sent a command, and from which guild (`None` in a direct message). */
  datatype Context = Context(authorId: int, guild: Option<int>)

  /** The two early returns every owner command starts with, in their order. */
  datatype Gate = NotOwner | InGuild | Open

  function OwnerGate(ctx: Context): (g: Gate)
    ensures g.Open? <==> ctx.authorId == OwnerId && ctx.guild.None?
    ensures g.NotOwner? <==> ctx.authorId != OwnerId
  {
    if !IsOwner(ctx.authorId) then NotOwner
    else if ctx.guild.Some? then InGuild
    else Open
  }

  /**
   * The gate's first test is the exact-user requirement for the owner's
   * account: it refuses exactly the callers that requirement refuses,
   * whatever roles they hold.
   */
  lemma OwnerGateIsExactUser(ctx: Context, roles: seq<int>)
    ensures OwnerGate(ctx).NotOwner? <==> !IsAuthorized(ctx.authorId, roles, ExactUser(OwnerId))
  {
    ExactUserIgnoresRoles(ctx.authorId, roles, [], OwnerId);
  }

  /** ASCII upper case to lower case; every other character is kept. */
  function LowerChar(c: char): (d: char)
    ensures 'A' <= c <= 'Z' ==> d as int == c as int + 32
    ensures !('A' <= c <= 'Z') ==> d == c
  {
    if 'A' <= c <= 'Z' then (c as int + 32) as char else c
  }

  /** `s.lower()`, character by character. */
  function Lower(s: string): (r: string)
    ensures |r| == |s|
    ensures forall i :: 0 <= i < |s| ==> r[i] == LowerChar(s[i])
  {
    if s == [] then [] else [LowerChar(s[0])] + Lower(s[1..])
  }

  /** The key under which each mode is offered. */
  function Name(m: Status): string {
    match m
    case Online => "online"
    case Idle => "idle"
    case Dnd => "dnd"
  }

  /** `modes.get(mode.lower())`. */
  function ParseMode(mode: string): (r: Option<Status>)
    ensures r.Some? <==> Lower(mode) in {"online", "idle", "dnd"}
    ensures r.Some? ==> Name(r.value) == Lower(mode)
  {
    var key := Lower(mode);
    if key == "online" then Some(Online)
    else if key == "idle" then Some(Idle)
    else if key == "dnd" then Some(Dnd)
    else None
  }

  /** Each mode is accepted under its own name. */
  lemma ParseModeName(m: Status)
    ensures ParseMode(Name(m)) == Some(m)
  {
    match m
    case Online => assert Lower("online") == "online";
    case Idle => assert Lower("idle") == "idle";
    case Dnd => assert Lower("dnd") == "dnd";
  }

  /** Lowering twice is lowering once. */
  lemma LowerIdempotent(s: string)
    ensures Lower(Lower(s)) == Lower(s)
  {
  }

  /** The mode is read without regard to case. */
  lemma ParseModeIgnoresCase(mode: string)
    ensures ParseMode(Lower(mode)) == ParseMode(mode)
  {
    LowerIdempotent(mode);
  }

  /** Upper-case spellings are accepted, other statuses are not. */
  lemma ParseModeExamples()
    ensures ParseMode("DND") == Some(Dnd)
    ensures ParseMode("Idle") == Some(Idle)
    ensures ParseMode("offline") == None
    ensures ParseMode("") == None
  {
    assert Lower("DND") == "dnd";
    assert Lower("Idle") == "idle";
    assert Lower("offline") != "online";
  }

  /** The owner commands. */
  datatype Command = SetStatus(text: string) | SetUrl(url: string) | SetPresence(mode: string) | Shutdown

  /** What a command answers. */
  datatype Reply =
    | Silent                     // not the owner: returns without a word
    | UseInDms                   // the owner, in a guild: told to use a direct message
    | Updated(pushed: Snapshot)  // the presence sent to the platform, then a confirmation
    | BadMode                    // `$setpresence` with an unknown mode: the usage line
    | ShuttingDown               // `$shutdown`: offline reported and the connection closed

  datatype Outcome = Outcome(state: Snapshot, reply: Reply)

  /** One owner command applied to the presence fields. */
  function Step(st: Snapshot, ctx: Context, cmd: Command): Outcome {
    match OwnerGate(ctx)
    case NotOwner => Outcome(st, Silent)
    case InGuild => Outcome(st, UseInDms)
    case Open =>
      match cmd
      case SetStatus(text) => Outcome(st.(activityName := text), Updated(st.(activityName := text)))
      case SetUrl(url) => Outcome(st.(streamUrl := url), Updated(st.(streamUrl := url)))
      case SetPresence(mode) =>
        (match ParseMode(mode)
         case None => Outcome(st, BadMode)
         case Some(m) => Outcome(st.(status := m), Updated(st.(status := m))))
      case Shutdown => Outcome(st, ShuttingDown)
  }

  /**
   * No command changes anything unless it comes from the owner in a direct
   * message; the owner check is made first, so a stranger in a guild gets
   * silence, not the direct-message hint.
   */
  lemma GateComesFirst(st: Snapshot, ctx: Context, cmd: Command)
    requires ctx.authorId != OwnerId || ctx.guild.Some?
    ensures Step(st, ctx, cmd).state == st
    ensures Step(st, ctx, cmd).reply == if ctx.authorId != OwnerId then Silent else UseInDms
  {
  }

  /** `$setpresence` sets the status iff the mode is known, and touches nothing else. */
  lemma SetPresenceEffect(st: Snapshot, ctx: Context, mode: string)
    ensures Step(st, ctx, SetPresence(mode)).state.activityName == st.activityName
    ensures Step(st, ctx, SetPresence(mode)).state.streamUrl == st.streamUrl
    ensures Step(st, ctx, SetPresence(mode)).state.status ==
      if OwnerGate(ctx).Open? && ParseMode(mode).Some? then ParseMode(mode).value else st.status
    ensures OwnerGate(ctx).Open? ==> (Step(st, ctx, SetPresence(mode)).reply.BadMode? <==> ParseMode(mode).None?)
  {
  }

  /** `$setstatus` and `$seturl`, when let through, change only their own field. */
  lemma SetTextEffect(st: Snapshot, ctx: Context, text: string)
    requires OwnerGate(ctx).Open?
    ensures Step(st, ctx, SetStatus(text)).state == Snapshot(text, st.streamUrl, st.status)
    ensures Step(st, ctx, SetUrl(text)).state == Snapshot(st.activityName, text, st.status)
  {
  }

  /** Whatever is pushed to the platform is the new value of all three fields. */
  lemma PushedIsNewState(st: Snapshot, ctx: Context, cmd: Command)
    ensures Step(st, ctx, cmd).reply.Updated? ==> Step(st, ctx, cmd).reply.pushed == Step(st, ctx, cmd).state
    ensures Step(st, ctx, Shutdown).state == st
  {
  }

  /** The presence after a series of commands, oldest first. */
  function Run(st: Snapshot, cmds: seq<(Context, Command)>): Snapshot {
    if cmds == [] then st
    else Step(Run(st, cmds[..|cmds| - 1]), cmds[|cmds| - 1].0, cmds[|cmds| - 1].1).state
  }

  /** Commands none of which come from the owner in a direct message change nothing. */
  lemma {:induction false} OnlyOwnerDirectChanges(st: Snapshot, cmds: seq<(Context, Command)>)
    requires forall i :: 0 <= i < |cmds| ==> !OwnerGate(cmds[i].0).Open?
    ensures Run(st, cmds) == st
  {
    if cmds != [] {
      OnlyOwnerDirectChanges(st, cmds[..|cmds| - 1]);
    }
  }

  /** The text of the last `$setstatus` the gate let through, if any. */
  function LastAcceptedText(cmds: seq<(Context, Command)>): Option<string> {
    if cmds == [] then None
    else if OwnerGate(cmds[|cmds| - 1].0).Open? && cmds[|cmds| - 1].1.SetStatus? then Some(cmds[|cmds| - 1].1.text)
    else LastAcceptedText(cmds[..|cmds| - 1])
  }

  /** The URL of the last `$seturl` the gate let through, if any. */
  function LastAcceptedUrl(cmds: seq<(Context, Command)>): Option<string> {
    if cmds == [] then None
    else if OwnerGate(cmds[|cmds| - 1].0).Open? && cmds[|cmds| - 1].1.SetUrl? then Some(cmds[|cmds| - 1].1.url)
    else LastAcceptedUrl(cmds[..|cmds| - 1])
  }

  /** The mode of the last `$setpresence` that was let through and known, if any. */
  function LastAcceptedMode(cmds: seq<(Context, Command)>): Option<Status> {
    if cmds == [] then None
    else
      var (ctx, cmd) := cmds[|cmds| - 1];
      if OwnerGate(ctx).Open? && cmd.SetPresence? && ParseMode(cmd.mode).Some? then ParseMode(cmd.mode)
      else LastAcceptedMode(cmds[..|cmds| - 1])
  }

  /**
   * The activity line shown after any series of commands is the text of the
   * last accepted `$setstatus`, or the starting one if there was none.
   */
  lemma {:induction false} ActivityIsLastAccepted(st: Snapshot, cmds: seq<(Context, Command)>)
    ensures Run(st, cmds).activityName == match LastAcceptedText(cmds) case Some(t) => t case None => st.activityName
  {
    if cmds != [] {
      ActivityIsLastAccepted(st, cmds[..|cmds| - 1]);
    }
  }

  /** Likewise the stream URL is the last accepted `$seturl`, or the starting one. */
  lemma {:induction false} UrlIsLastAccepted(st: Snapshot, cmds: seq<(Context, Command)>)
    ensures Run(st, cmds).streamUrl == match LastAcceptedUrl(cmds) case Some(u) => u case None => st.streamUrl
  {
    if cmds != [] {
      UrlIsLastAccepted(st, cmds[..|cmds| - 1]);
    }
  }

  /**
   * Likewise the status is the mode of the last accepted `$setpresence`;
   * rejected modes leave no trace.
   */
  lemma {:induction false} StatusIsLastAccepted(st: Snapshot, cmds: seq<(Context, Command)>)
    ensures Run(st, cmds).status == match LastAcceptedMode(cmds) case Some(m) => m case None => st.status
  {
    if cmds != [] {
      StatusIsLastAccepted(st, cmds[..|cmds| - 1]);
    }
  }

  /** The bot object, as far as its presence fields go. */
  class MyBot {
    var currentActivityName: string
    var streamUrl: string
    var currentStatus: Status

    function Presence(): Snapshot
      reads this
    {
      Snapshot(currentActivityName, streamUrl, currentStatus)
    }

    constructor ()
      ensures Presence() == Initial
    {
      streamUrl := DefaultStreamUrl;
      currentActivityName := DefaultActivityName;
      currentStatus := Dnd;
    }

    /** `$setstatus <text>`. */
    method SetStatus(ctx: Context, text: string) returns (reply: Reply)
      modifies this
      ensures Presence() == Step(old(Presence()), ctx, Command.SetStatus(text)).state
      ensures reply == Step(old(Presence()), ctx, Command.SetStatus(text)).reply
    {
      if ctx.authorId != OwnerId {
        return Silent;
      }
      if ctx.guild.Some? {
        return UseInDms;
      }
      currentActivityName := text;
      reply := Updated(Snapshot(text, streamUrl, currentStatus));
    }

    /** `$seturl <url>`. */
    method SetUrl(ctx: Context, url: string) returns (reply: Reply)
      modifies this
      ensures Presence() == Step(old(Presence()), ctx, Command.SetUrl(url)).state
      ensures reply == Step(old(Presence()), ctx, Command.SetUrl(url)).reply
    {
      if ctx.authorId != OwnerId {
        return Silent;
      }
      if ctx.guild.Some? {
        return UseInDms;
      }
      streamUrl := url;
      reply := Updated(Snapshot(currentActivityName, url, currentStatus));
    }

    /** `$setpresence <mode>`. */
    method SetPresence(ctx: Context, mode: string) returns (reply: Reply)
      modifies this
      ensures Presence() == Step(old(Presence()), ctx, Command.SetPresence(mode)).state
      ensures reply == Step(old(Presence()), ctx, Command.SetPresence(mode)).reply
    {
      if ctx.authorId != OwnerId {
        return Silent;
      }
      if ctx.guild.Some? {
        return UseInDms;
      }
      var next := ParseMode(mode);
      if next.None? {
        return BadMode;
      }
      currentStatus := next.value;
      reply := Updated(Snapshot(currentActivityName, streamUrl, next.value));
    }

    /** `$shutdown`: the same two checks; the presence is left as it is. */
    method Shutdown(ctx: Context) returns (reply: Reply)
      ensures reply == Step(Presence(), ctx, Command.Shutdown).reply
      ensures reply == ShuttingDown <==> ctx.authorId == OwnerId && ctx.guild.None?
    {
      if ctx.authorId != OwnerId {
        return Silent;
      }
      if ctx.guild.Some? {
        return UseInDms;
      }
      reply := ShuttingDown;
    }
  }
}

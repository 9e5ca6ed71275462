/**
 * The group-membership commands of index.js: `kick`, `add` and
 * `promote`/`demote`. Each chooses its targets from the quoted context, the
 * mentions or the typed numbers, answers with a usage reply when there are
 * none, and otherwise issues one `groupParticipantsUpdate` call per target.
 * No admin or owner check guards these commands.
 */
module Membership {
  import opened Wrappers
  import opened Text
  import opened Messages

  /** `BOT_NAME` of index.js, the first line of these replies. */
  const BotName: string := "Adam_D'H7"

  /** The action passed to `groupParticipantsUpdate`. */
  datatype Action = Remove | Add | Promote | Demote {
    /** The action's name as the socket expects it. */
    function Name(): string {
      match this
      case Remove => "remove"
      case Add => "add"
      case Promote => "promote"
      case Demote => "demote"
    }
  }

  /** What a membership command does: reply with a text, or update these targets. */
  datatype Plan = Reply(text: string) | Updates(targets: seq<string>, action: Action)

  /** One `groupParticipantsUpdate(group, participants, action)` call. */
  datatype UpdateCall = UpdateCall(group: string, participants: seq<string>, action: Action)

  /** `args.map(a => normalise(a))`. */
  function Normalized(args: seq<string>): (r: seq<string>)
    ensures |r| == |args|
    ensures forall i :: 0 <= i < |r| ==> r[i] == NormalizeTarget(args[i]) && EndsWith(r[i], UserSuffix)
  {
    seq(|args|, i requires 0 <= i < |args| => NormalizeTarget(args[i]))
  }

  /** The mention list, [] when the context has none. */
  function Mentions(ctx: ContextInfo): seq<string> {
    match ctx.mentionedJid
    case Some(m) => m
    case None => []
  }

  /** `kick`: the mentions if there are any, else the quoted participant, else the
      typed numbers; a usage reply when none of them is given or outside groups. */
  function KickPlan(isGroup: bool, ctx: ContextInfo, args: seq<string>): (p: Plan)
    ensures !isGroup ==> p == Reply(BotName + "\nKick réservé aux groupes.")
    ensures p.Updates? ==> isGroup && p.action == Remove && p.targets != []
    ensures isGroup && Mentions(ctx) != [] ==> p == Updates(Mentions(ctx), Remove)
    ensures isGroup && Mentions(ctx) == [] && ctx.participant != "" ==> p == Updates([ctx.participant], Remove)
    ensures isGroup && Mentions(ctx) == [] && ctx.participant == "" ==>
              p == if args == [] then Reply(BotName + "\nRépondez ou tag l'utilisateur : kick @user")
                   else Updates(Normalized(args), Remove)
  {
    if !isGroup then Reply(BotName + "\nKick réservé aux groupes.")
    else
      var targets :=
        if Mentions(ctx) != [] then Mentions(ctx)
        else if ctx.participant != "" then [ctx.participant]
        else Normalized(args);
      if targets == [] then Reply(BotName + "\nRépondez ou tag l'utilisateur : kick @user")
      else Updates(targets, Remove)
  }

  /** `add`: the typed numbers first, then the mentions; a usage reply when both
      are empty or outside groups. The quoted participant is not used. */
  function AddPlan(isGroup: bool, ctx: ContextInfo, args: seq<string>): (p: Plan)
    ensures !isGroup ==> p == Reply(BotName + "\nAdd réservé aux groupes.")
    ensures isGroup && args == [] && Mentions(ctx) == [] ==> p == Reply(BotName + "\nFormat: add 509XXXXXXXX")
    ensures p.Updates? ==> isGroup && p.action == Add
    ensures p.Updates? ==> |p.targets| == |args| + |Mentions(ctx)|
    ensures p.Updates? ==> p.targets[..|args|] == Normalized(args) && p.targets[|args|..] == Mentions(ctx)
    ensures isGroup && (args != [] || Mentions(ctx) != []) ==> p.Updates?
  {
    if !isGroup then Reply(BotName + "\nAdd réservé aux groupes.")
    else
      var ids := Normalized(args) + Mentions(ctx);
      if ids == [] then Reply(BotName + "\nFormat: add 509XXXXXXXX")
      else Updates(ids, Add)
  }

  /** `promote` and `demote`: a present mention list, even an empty one, wins over
      the quoted participant (`ctx.mentionedJid || …`); the typed numbers are used
      only when that leaves no target. */
  function RankPlan(isGroup: bool, promote: bool, ctx: ContextInfo, args: seq<string>): (p: Plan)
    ensures !isGroup ==> p == Reply(BotName + "\nCommande réservée aux groupes.")
    ensures p.Updates? ==> isGroup && p.targets != [] && p.action == (if promote then Promote else Demote)
    ensures isGroup && ctx.mentionedJid.Some? && ctx.mentionedJid.value != [] ==> p.Updates? && p.targets == ctx.mentionedJid.value
    ensures isGroup && ctx.mentionedJid.None? && ctx.participant != "" ==> p.Updates? && p.targets == [ctx.participant]
    ensures isGroup && (if ctx.mentionedJid.Some? then ctx.mentionedJid.value == [] else ctx.participant == "") ==>
              p == if args == [] then Reply(BotName + "\nRépondre ou tag : " + (if promote then "promote" else "demote") + " @user")
                   else Updates(Normalized(args), if promote then Promote else Demote)
  {
    var action := if promote then Promote else Demote;
    if !isGroup then Reply(BotName + "\nCommande réservée aux groupes.")
    else
      var first :=
        match ctx.mentionedJid
        case Some(m) => m
        case None => if ctx.participant != "" then [ctx.participant] else [];
      var targets := if first == [] && args != [] then Normalized(args) else first;
      if targets == [] then Reply(BotName + "\nRépondre ou tag : " + action.Name() + " @user")
      else Updates(targets, action)
  }

  /** Replying with `kick` to a message whose context carries an empty mention
      list still removes the quoted participant, while `promote` in the same
      situation answers with its usage text. */
  lemma EmptyMentionListDiffers(participant: string)
    requires participant != ""
    ensures KickPlan(true, ContextInfo(Some([]), participant), []) == Updates([participant], Remove)
    ensures RankPlan(true, true, ContextInfo(Some([]), participant), []).Reply?
  {
  }

  /** The per-target loop: one update call per target, each naming that single
      target, in order (the pauses between calls are not modelled). */
  method IssueUpdates(group: string, targets: seq<string>, action: Action) returns (calls: seq<UpdateCall>)
    ensures |calls| == |targets|
    ensures forall i :: 0 <= i < |calls| ==> calls[i] == UpdateCall(group, [targets[i]], action)
  {
    calls := [];
    var k := 0;
    while k < |targets|
      invariant 0 <= k <= |targets|
      invariant |calls| == k
      invariant forall i :: 0 <= i < k ==> calls[i] == UpdateCall(group, [targets[i]], action)
    {
      calls := calls + [UpdateCall(group, [targets[k]], action)];
      k := k + 1;
    }
  }

  /** Every participant named by the issued calls is a target and every target is named. */
  lemma IssuedCallsCoverTargets(group: string, targets: seq<string>, action: Action, calls: seq<UpdateCall>)
    requires |calls| == |targets|
    requires forall i :: 0 <= i < |calls| ==> calls[i] == UpdateCall(group, [targets[i]], action)
    ensures forall t :: t in targets <==> exists i :: 0 <= i < |calls| && calls[i].participants == [t]
  {
    forall t | t in targets
      ensures exists i :: 0 <= i < |calls| && calls[i].participants == [t]
    {
      var i :| 0 <= i < |targets| && targets[i] == t;
      assert calls[i].participants == [t];
    }
  }
}

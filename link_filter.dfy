/**
 * The link filter of index.js and the first steps of its `messages.upsert`
 * handler: which message is looked at, when a link-bearing group message is
 * deleted, and when the parsed command is dispatched.
 *
 * `LINK_REGEX` is not interpreted: link detection is the parameter `hasLink`.
 * `JSON.stringify(m)` is the parameter `serialized`, and the answer of the
 * group-admin query for the sender is the parameter `admin`.
 */
module LinkFilter {
  import opened Wrappers
  import opened Text
  import opened Messages
  import opened Commands

  /** A value of `noLienMode[jid]`. */
  datatype LinkMode = Off | ExceptAdmins | All {
    /** The mode as the stored string (`'off'`, `'exceptAdmins'`, `'all'`). */
    function Name(): string {
      match this
      case Off => "off"
      case ExceptAdmins => "exceptAdmins"
      case All => "all"
    }
  }

  /** `noLienMode[jid] || 'off'`: an unset mode counts as off. */
  function ModeOf(modes: map<string, LinkMode>, jid: string): (m: LinkMode)
    ensures jid !in modes ==> m == Off
    ensures jid in modes ==> m == modes[jid]
  {
    if jid in modes then modes[jid] else Off
  }

  /** The non-empty strings of `xs`, in order. */
  function NonEmpty(xs: seq<string>): (r: seq<string>)
    ensures forall i :: 0 <= i < |r| ==> r[i] != ""
    ensures forall x :: x in r <==> x in xs && x != ""
    ensures |xs| == 1 ==> r == (if xs[0] != "" then xs else [])
  {
    if xs == [] then []
    else (if xs[0] != "" then [xs[0]] else []) + NonEmpty(xs[1..])
  }

  /** Filtering keeps the order and the repetitions: the survivors of `xs + ys`
      are those of `xs` followed by those of `ys`. */
  lemma {:induction false} NonEmptyOfJoin(xs: seq<string>, ys: seq<string>)
    ensures NonEmpty(xs + ys) == NonEmpty(xs) + NonEmpty(ys)
  {
    if xs == [] {
      assert xs + ys == ys;
    } else {
      assert (xs + ys)[1..] == xs[1..] + ys;
      NonEmptyOfJoin(xs[1..], ys);
    }
  }

  /** The text the filter scans: the non-empty ones of conversation, extended
      text and image caption, joined with single spaces. */
  function Aggregated(c: Content): string {
    Join(NonEmpty([c.conversation, ExtText(c), Caption(c.image)]), " ")
  }

  /** `containsLink`: a link in the aggregated text or anywhere in the serialised message. */
  predicate ContainsLink(c: Content, serialized: string, hasLink: string -> bool) {
    hasLink(Aggregated(c)) || hasLink(serialized)
  }

  /** `isImageWithCaptionLink`: an image whose non-empty caption holds a link. */
  predicate CaptionLink(c: Content, hasLink: string -> bool) {
    c.image.Some? && c.image.value.caption != "" && hasLink(c.image.value.caption)
  }

  /** The deletion decision: only in groups, only for link-bearing messages not
      sent by the bot itself and whose image caption carries no link; then `all`
      deletes, `exceptAdmins` deletes unless the sender is admin or owner, and
      `off` never deletes. */
  function ShouldDelete(isGroup: bool, containsLink: bool, fromMe: bool, captionLink: bool,
                        mode: LinkMode, admin: bool, owner: bool): (d: bool)
    ensures d ==> isGroup && containsLink && !fromMe && !captionLink && mode != Off
    ensures mode == All ==> (d <==> isGroup && containsLink && !fromMe && !captionLink)
    ensures mode == ExceptAdmins ==> (d <==> isGroup && containsLink && !fromMe && !captionLink && !admin && !owner)
  {
    if isGroup && containsLink then
      if !fromMe then
        if !captionLink then
          match mode
          case ExceptAdmins => !admin && !owner
          case All => true
          case Off => false
        else false
      else false
    else false
  }

  /** What the `messages.upsert` handler does with a batch. */
  datatype Outcome =
    | Ignored                                   // empty batch, no content, or a status broadcast
    | Deleted                                   // the link filter deleted the message
    | NoCommand                                 // kept, but the text is not a command
    | Dispatch(cmd: string, args: seq<string>)  // the command handed to the `switch`

  /** The link decision for one message in a session whose link modes are `modes`. */
  function Verdict(msg: Message, c: Content, modes: map<string, LinkMode>, sessionOwner: string,
                   admin: bool, hasLink: string -> bool, serialized: string): bool {
    var jid := msg.key.remoteJid;
    ShouldDelete(IsGroupJid(jid), ContainsLink(c, serialized, hasLink), msg.key.fromMe,
                 CaptionLink(c, hasLink), ModeOf(modes, jid), admin, SenderIsOwner(msg.key, sessionOwner))
  }

  /** index.js `messages.upsert`: only the first message is handled; one without
      content or from `status@broadcast` is ignored; the text is parsed, the link
      filter runs, and a surviving command is dispatched. */
  function HandleInbound(messages: seq<Message>, modes: map<string, LinkMode>, sessionOwner: string,
                         admin: bool, hasLink: string -> bool, serialized: string): (o: Outcome)
    ensures messages == [] ==> o == Ignored
    ensures messages != [] && (messages[0].content.None? || messages[0].key.remoteJid == StatusBroadcast) ==> o == Ignored
    ensures o == Deleted <==> messages != [] && messages[0].content.Some? && messages[0].key.remoteJid != StatusBroadcast
                              && Verdict(messages[0], messages[0].content.value, modes, sessionOwner, admin, hasLink, serialized)
    ensures o.Dispatch? ==> !Verdict(messages[0], messages[0].content.value, modes, sessionOwner, admin, hasLink, serialized)
                            && ParseCommandFromText(IndexText(messages[0].content.value)) == ParsedCommand(Some(o.cmd), o.args)
    ensures o == NoCommand ==> ParseCommandFromText(IndexText(messages[0].content.value)).cmd.None?
    ensures messages != [] && messages[0].content.Some? && messages[0].key.remoteJid != StatusBroadcast
            && !Verdict(messages[0], messages[0].content.value, modes, sessionOwner, admin, hasLink, serialized)
            ==> var parsed := ParseCommandFromText(IndexText(messages[0].content.value));
                o == (if parsed.cmd.Some? then Dispatch(parsed.cmd.value, parsed.args) else NoCommand)
  {
    if messages == [] then Ignored
    else
      var msg := messages[0];
      match msg.content
      case None => Ignored
      case Some(c) =>
        if msg.key.remoteJid == StatusBroadcast then Ignored
        else
          var parsed := ParseCommandFromText(IndexText(c));
          if Verdict(msg, c, modes, sessionOwner, admin, hasLink, serialized) then Deleted
          else
            match parsed.cmd
            case None => NoCommand
            case Some(cmd) => Dispatch(cmd, parsed.args)
  }

  /** Messages after the first one in a batch never influence the outcome. */
  lemma OnlyFirstMessageCounts(m: Message, rest: seq<Message>, modes: map<string, LinkMode>, sessionOwner: string,
                               admin: bool, hasLink: string -> bool, serialized: string)
    ensures HandleInbound([m] + rest, modes, sessionOwner, admin, hasLink, serialized)
         == HandleInbound([m], modes, sessionOwner, admin, hasLink, serialized)
  {
    var a, b := [m] + rest, [m];
    assert a[0] == m && b[0] == m;
    SameFirstSameOutcome(a, b, modes, sessionOwner, admin, hasLink, serialized);
  }

  /** Two batches with the same first message have the same outcome. */
  lemma SameFirstSameOutcome(a: seq<Message>, b: seq<Message>, modes: map<string, LinkMode>, sessionOwner: string,
                             admin: bool, hasLink: string -> bool, serialized: string)
    requires a != [] && b != [] && a[0] == b[0]
    ensures HandleInbound(a, modes, sessionOwner, admin, hasLink, serialized)
         == HandleInbound(b, modes, sessionOwner, admin, hasLink, serialized)
  {
  }

  /** With the mode unset or `off`, nothing is ever deleted. */
  lemma OffNeverDeletes(messages: seq<Message>, modes: map<string, LinkMode>, sessionOwner: string,
                        admin: bool, hasLink: string -> bool, serialized: string)
    requires messages != [] ==> ModeOf(modes, messages[0].key.remoteJid) == Off
    ensures HandleInbound(messages, modes, sessionOwner, admin, hasLink, serialized) != Deleted
  {
  }

  /** A command sent by an owner is never deleted by `exceptAdmins`, whatever it contains. */
  lemma OwnerSurvivesExceptAdmins(messages: seq<Message>, modes: map<string, LinkMode>, sessionOwner: string,
                                  admin: bool, hasLink: string -> bool, serialized: string)
    requires messages != [] && ModeOf(modes, messages[0].key.remoteJid) == ExceptAdmins
    requires SenderIsOwner(messages[0].key, sessionOwner)
    ensures HandleInbound(messages, modes, sessionOwner, admin, hasLink, serialized) != Deleted
  {
  }
}

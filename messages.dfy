/**
 * The parts of an incoming WhatsApp message the gateway reads, and the small
 * helpers over them: text extraction (index.js and server.js differ), the
 * sender's id and number, the owner check, the display name and the
 * normalisation of a typed phone number into a user JID.
 *
 * A text field the source tests for truthiness is a `string`, with "" for a
 * missing or empty value; a sub-record the source tests for presence is an `Option`.
 */
module Messages {
  import opened Wrappers
  import opened Text

  /** `extendedTextMessage.contextInfo`: the mentioned JIDs and the quoted participant. */
  datatype ContextInfo = ContextInfo(mentionedJid: Option<seq<string>>, participant: string)

  /** `extendedTextMessage`: a text with an optional context. */
  datatype ExtendedText = ExtendedText(text: string, contextInfo: Option<ContextInfo>)

  /** An image, video or document message; only its caption matters here. */
  datatype Media = Media(caption: string)

  /** `msg.message`: the content fields the handlers look at. */
  datatype Content = Content(
    conversation: string,
    extendedText: Option<ExtendedText>,
    image: Option<Media>,
    video: Option<Media>,
    document: Option<Media>)

  /** `msg.key`. */
  datatype MessageKey = MessageKey(remoteJid: string, participant: string, fromMe: bool)

  /** One entry of `up.messages`. */
  datatype Message = Message(key: MessageKey, content: Option<Content>, pushName: string)

  const OwnerNumber: string := "50935492574"
  const StatusBroadcast: string := "status@broadcast"
  const GroupSuffix: string := "@g.us"
  const UserSuffix: string := "@s.whatsapp.net"

  /** A chat is a group when its JID ends with `@g.us`. */
  predicate IsGroupJid(jid: string) {
    EndsWith(jid, GroupSuffix)
  }

  /** `m.extendedTextMessage?.text`, "" when absent. */
  function ExtText(c: Content): string {
    match c.extendedText
    case Some(e) => e.text
    case None => ""
  }

  /** The caption of an optional media message, "" when absent. */
  function Caption(m: Option<Media>): string {
    match m
    case Some(x) => x.caption
    case None => ""
  }

  /** The first non-empty string of `xs`, or "" when they are all empty. */
  function FirstNonEmpty(xs: seq<string>): (r: string)
    ensures r == "" <==> forall i :: 0 <= i < |xs| ==> xs[i] == ""
    ensures r != "" ==> exists i :: 0 <= i < |xs| && xs[i] == r && forall j :: 0 <= j < i ==> xs[j] == ""
  {
    if xs == [] then ""
    else if xs[0] != "" then xs[0]
    else
      var r := FirstNonEmpty(xs[1..]);
      assert forall i :: 1 <= i < |xs| ==> xs[i] == xs[1..][i - 1];
      r
  }

  /** The candidate texts in the order index.js tries them. */
  function IndexCandidates(c: Content): seq<string> {
    [c.conversation, ExtText(c), Caption(c.image), Caption(c.video), Caption(c.document)]
  }

  /** index.js text extraction before trimming: the first non-empty of conversation,
      extended text, image, video and document caption. */
  function IndexRawText(c: Content): (r: string)
    ensures c.conversation != "" ==> r == c.conversation
    ensures c.conversation == "" && ExtText(c) != "" ==> r == ExtText(c)
    ensures c.conversation == "" && ExtText(c) == "" && Caption(c.image) != "" ==> r == Caption(c.image)
    ensures c.conversation == "" && ExtText(c) == "" && Caption(c.image) == "" && Caption(c.video) != ""
            ==> r == Caption(c.video)
    ensures c.conversation == "" && ExtText(c) == "" && Caption(c.image) == "" && Caption(c.video) == ""
            ==> r == Caption(c.document)
  {
    if c.conversation != "" then c.conversation
    else if ExtText(c) != "" then ExtText(c)
    else if Caption(c.image) != "" then Caption(c.image)
    else if Caption(c.video) != "" then Caption(c.video)
    else Caption(c.document)
  }

  /** The text index.js hands to the command parser. */
  function IndexText(c: Content): (r: string)
    ensures r == [] || (!IsSpace(r[0]) && !IsSpace(r[|r| - 1]))
    ensures exists a :: TrimmedAt(IndexRawText(c), a, r)
  {
    Trim(IndexRawText(c))
  }

  /** The first non-empty string is the one at the first index holding a non-empty string. */
  lemma FirstNonEmptyAt(xs: seq<string>, i: nat)
    requires i < |xs| && xs[i] != ""
    requires forall j :: 0 <= j < i ==> xs[j] == ""
    ensures FirstNonEmpty(xs) == xs[i]
  {
  }

  /** The index.js choice is the first non-empty candidate, in priority order. */
  lemma IndexTextIsFirstNonEmpty(c: Content)
    ensures IndexRawText(c) == FirstNonEmpty(IndexCandidates(c))
  {
    var xs := IndexCandidates(c);
    if c.conversation != "" {
      FirstNonEmptyAt(xs, 0);
    } else if ExtText(c) != "" {
      FirstNonEmptyAt(xs, 1);
    } else if Caption(c.image) != "" {
      FirstNonEmptyAt(xs, 2);
    } else if Caption(c.video) != "" {
      FirstNonEmptyAt(xs, 3);
    } else if Caption(c.document) != "" {
      FirstNonEmptyAt(xs, 4);
    }
  }

  /** server.js text extraction: conversation; else a present extended text
      message decides (its text, or "" when it has none); else the image and
      then the video caption. Documents are not read and nothing is trimmed. */
  function ServerText(c: Content): (r: string)
    ensures c.conversation != "" ==> r == c.conversation
    ensures c.conversation == "" && c.extendedText.Some? ==> r == c.extendedText.value.text
    ensures c.conversation == "" && c.extendedText.None? ==> r == FirstNonEmpty([Caption(c.image), Caption(c.video)])
  {
    if c.conversation != "" then c.conversation
    else if c.extendedText.Some? then c.extendedText.value.text
    else if Caption(c.image) != "" then Caption(c.image)
    else if Caption(c.video) != "" then Caption(c.video)
    else ""
  }

  /** The two extractions pick the same text unless server.js stops at an
      extended text message without text behind an empty conversation, or only
      a document carries a caption. */
  lemma ExtractionsAgree(c: Content)
    requires c.conversation != "" || c.extendedText.None? || ExtText(c) != ""
    requires ServerText(c) == "" ==> Caption(c.document) == ""
    ensures IndexRawText(c) == ServerText(c)
  {
  }

  /** An extended text message without text hides any caption from server.js. */
  lemma ServerStopsAtEmptyExtendedText(c: Content)
    requires c.conversation == "" && c.extendedText.Some? && c.extendedText.value.text == ""
    ensures ServerText(c) == ""
  {
  }

  /** `getSenderId`: the participant when set, otherwise the chat JID. */
  function SenderId(k: MessageKey): (r: string)
    ensures k.participant != "" ==> r == k.participant
    ensures k.participant == "" ==> r == k.remoteJid
  {
    if k.participant != "" then k.participant else k.remoteJid
  }

  /** server.js `getNumberFromJid`: "" for an empty JID, otherwise the part before the first `@`. */
  function NumberFromJid(jid: string): (r: string)
    ensures jid == "" ==> r == ""
    ensures '@' !in r && |r| <= |jid| && r == jid[..|r|]
    ensures |r| < |jid| ==> jid[|r|] == '@'
  {
    if jid == "" then "" else Before(jid, '@')
  }

  /** index.js sender number: the part before `@` when the id contains one, else the id itself. */
  function SenderNumber(senderId: string): (r: string)
    ensures '@' !in senderId ==> r == senderId
    ensures '@' in senderId ==> '@' !in r && |r| < |senderId| && senderId[|r|] == '@' && r == senderId[..|r|]
  {
    if senderId != "" && '@' in senderId then Before(senderId, '@') else senderId
  }

  /** The index.js and server.js ways of taking the number from a JID agree. */
  lemma SenderNumberIsNumberFromJid(jid: string)
    ensures SenderNumber(jid) == NumberFromJid(jid)
  {
  }

  /** The number of a user JID `n@server` is `n`, when `n` has no `@`. */
  lemma NumberOfJid(n: string, server: string)
    requires '@' !in n
    ensures NumberFromJid(n + "@" + server) == n
  {
    BeforeOfJoin(n, '@', server);
  }

  /** index.js owner check: the sender number equals `OWNER_NUMBER`, or the session
      owner number, which stands for `OWNER_NUMBER` when unset. */
  function IsOwner(senderNumber: string, sessionOwner: string): (b: bool)
    ensures senderNumber == OwnerNumber ==> b
    ensures sessionOwner == "" ==> (b <==> senderNumber == OwnerNumber)
    ensures sessionOwner != "" ==> (b <==> senderNumber == OwnerNumber || senderNumber == sessionOwner)
  {
    var owner := if sessionOwner != "" then sessionOwner else OwnerNumber;
    senderNumber == OwnerNumber || senderNumber == owner
  }

  /** Whether the sender of key `k` is an owner of a session with owner number `sessionOwner`. */
  function SenderIsOwner(k: MessageKey, sessionOwner: string): bool {
    IsOwner(SenderNumber(SenderId(k)), sessionOwner)
  }

  /** The owner's own user JID is recognised, as the participant or as the chat. */
  lemma OwnerJidIsOwner(k: MessageKey, server: string, sessionOwner: string)
    requires SenderId(k) == OwnerNumber + "@" + server
    ensures SenderIsOwner(k, sessionOwner)
  {
    NumberOfJid(OwnerNumber, server);
    SenderNumberIsNumberFromJid(SenderId(k));
  }

  /** `m.extendedTextMessage?.contextInfo || {}`. */
  function ContextOf(c: Content): ContextInfo {
    match c.extendedText
    case Some(ExtendedText(_, Some(ctx))) => ctx
    case _ => ContextInfo(None, "")
  }

  /** server.js `getDisplayName`: push name, else the quoted participant, else `Utilisateur`. */
  function DisplayName(pushName: string, c: Option<Content>): (r: string)
    ensures r != ""
    ensures pushName != "" ==> r == pushName
    ensures pushName == "" && c.Some? && ContextOf(c.value).participant != ""
            ==> r == ContextOf(c.value).participant
    ensures pushName == "" && (c.None? || ContextOf(c.value).participant == "") ==> r == "Utilisateur"
  {
    if pushName != "" then pushName
    else
      var participant := match c case Some(x) => ContextOf(x).participant case None => "";
      if participant != "" then participant else "Utilisateur"
  }

  /** `${a.replace(/[^0-9]/g,'')}@s.whatsapp.net`: a typed number as a user JID. */
  function NormalizeTarget(a: string): (r: string)
    ensures EndsWith(r, UserSuffix)
    ensures AllDigits(r[..|r| - |UserSuffix|])
  {
    KeepDigits(a) + UserSuffix
  }

  /** The number of a normalised target is the digits that were typed. */
  lemma NormalizeTargetNumber(a: string)
    ensures NumberFromJid(NormalizeTarget(a)) == KeepDigits(a)
  {
    var d := KeepDigits(a);
    var server := "s.whatsapp.net";
    assert '@' !in d by {
      assert !IsDigit('@');
    }
    assert NormalizeTarget(a) == d + ['@'] + server;
    BeforeOfJoin(d, '@', server);
  }

  /** Normalising is idempotent on the digits: normalising a normalised target's number gives it back. */
  lemma NormalizeTargetStable(a: string)
    ensures NormalizeTarget(NumberFromJid(NormalizeTarget(a))) == NormalizeTarget(a)
  {
    NormalizeTargetNumber(a);
  }
}

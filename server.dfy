/**
 * The second gateway, server.js: sessions keyed by the id the web client
 * supplies, started at most once, restarted after a required restart with a
 * growing delay on the same id, and a small `messages.upsert` handler with an
 * auto-reply and three dot commands.
 *
 * A scheduled start is returned as a `ServerRestart` record instead of being
 * put on a timer. The contents of `meta.json` and the socket's own user id are
 * parameters.
 */
module Server {
  import opened Wrappers
  import opened Text
  import opened Messages
  import opened Lifecycle

  const ServerBotName: string := "Adam_DH7"

  // ---------------------------------------------------------------- backoff

  /** `Math.min(30000, 2000 + attempt * 2000)`: the delay before restart number `attempt + 1`. */
  function Backoff(attempt: nat): (b: nat)
    ensures b <= 30000 && b <= 2000 + attempt * 2000
    ensures b == 30000 || b == 2000 + attempt * 2000
  {
    if 2000 + attempt * 2000 < 30000 then 2000 + attempt * 2000 else 30000
  }

  /** The delay is at least 2 s and at most 30 s. */
  lemma BackoffBounds(attempt: nat)
    ensures 2000 <= Backoff(attempt) <= 30000
  {
  }

  /** A later attempt never waits less. */
  lemma BackoffMonotone(a: nat, b: nat)
    requires a <= b
    ensures Backoff(a) <= Backoff(b)
  {
  }

  /** The delay grows by 2 s per attempt up to the fourteenth and is capped from then on. */
  lemma BackoffSteps(attempt: nat)
    ensures attempt < 14 ==> Backoff(attempt + 1) == Backoff(attempt) + 2000
    ensures attempt >= 14 ==> Backoff(attempt) == 30000
  {
  }

  // -------------------------------------------------------------- sessions

  /** server.js `sessionObj`, reduced to what the handlers read or update. */
  class ServerSession {
    const sessionId: string
    const folderName: string
    /** `opts.attempt`: how many required restarts in a row led to this start. */
    const attempt: nat
    var restarting: bool
    /** `botId`, "" for `null`. */
    var botId: string
    /** `sessionOwnerNumber`, "" for `null`. */
    var sessionOwnerNumber: string

    constructor(sessionId: string, folderName: string, attempt: nat, sessionOwnerNumber: string)
      ensures this.sessionId == sessionId && this.folderName == folderName && this.attempt == attempt
      ensures this.sessionOwnerNumber == sessionOwnerNumber
      ensures !restarting && botId == ""
    {
      this.sessionId := sessionId;
      this.folderName := folderName;
      this.attempt := attempt;
      this.sessionOwnerNumber := sessionOwnerNumber;
      restarting := false;
      botId := "";
    }
  }

  /** The owner number read from `meta.json`: the digits of a non-empty `phone`
      (`metaPhone` is "" when the file, the field or its value is missing). */
  function MetaOwner(metaPhone: string): (r: string)
    ensures AllDigits(r) && |r| <= |metaPhone|
    ensures metaPhone == "" ==> r == ""
    ensures AllDigits(metaPhone) ==> r == metaPhone
  {
    if metaPhone != "" then KeepDigits(metaPhone) else ""
  }

  /** The owner number after `connection === 'open'`: a known owner is kept;
      otherwise the part before `@` of the socket's user id (or, failing that,
      its jid). */
  function OwnerOnOpen(owner: string, userId: string, userJid: string): (r: string)
    ensures owner != "" ==> r == owner
    ensures owner == "" && userId != "" ==> r == NumberFromJid(userId)
    ensures owner == "" && userId == "" ==> r == NumberFromJid(userJid)
    ensures '@' !in r || r == owner
  {
    if owner != "" then owner
    else
      var u := if userId != "" then userId else userJid;
      NumberFromJid(u)
  }

  /** A start scheduled by the close handler: after `delayMs`, start the same
      session id on the same folder with attempt count `attempt`. */
  datatype ServerRestart = ServerRestart(delayMs: nat, sessionId: string, folderName: string, attempt: nat)

  /** The `sessions` object of server.js. */
  class ServerRegistry {
    var sessions: map<string, ServerSession>

    constructor()
      ensures sessions == map[]
    {
      sessions := map[];
    }

    /** `startBaileysForSession(sessionId, folderName, socket, { attempt })`: a
        session already registered under the id is returned as it is; an
        authentication-state failure (`authOk == false`) throws; otherwise a new
        session is registered, with the owner number from `meta.json`. */
    method Start(sessionId: string, folderName: string, attempt: nat, metaPhone: string, authOk: bool)
      returns (s: Option<ServerSession>)
      modifies this
      ensures sessionId in old(sessions) ==> s == Some(old(sessions)[sessionId]) && sessions == old(sessions)
      ensures sessionId !in old(sessions) && !authOk ==> s.None? && sessions == old(sessions)
      ensures sessionId !in old(sessions) && authOk ==>
                s.Some? && fresh(s.value) && sessions == old(sessions)[sessionId := s.value]
                && s.value.sessionId == sessionId && s.value.folderName == folderName && s.value.attempt == attempt
                && s.value.sessionOwnerNumber == MetaOwner(metaPhone) && !s.value.restarting && s.value.botId == ""
    {
      if sessionId in sessions {
        return Some(sessions[sessionId]);
      }
      if !authOk {
        return None;
      }
      var obj := new ServerSession(sessionId, folderName, attempt, MetaOwner(metaPhone));
      sessions := sessions[sessionId := obj];
      s := Some(obj);
    }

    /** `connection === 'open'` for session `s`: record the bot id (the user id,
        else the user jid) and the owner number, then clear the `restarting`
        flag of the session registered under the id; when none is registered
        that last step throws and is skipped. */
    method OnOpen(s: ServerSession, userId: string, userJid: string)
      modifies s, if s.sessionId in sessions then {sessions[s.sessionId]} else {}
      ensures s.botId == (if userId != "" then userId else userJid)
      ensures s.sessionOwnerNumber == OwnerOnOpen(old(s.sessionOwnerNumber), userId, userJid)
      ensures sessions == old(sessions)
      ensures s.sessionId in sessions ==> !sessions[s.sessionId].restarting
      ensures s.restarting == (if s.sessionId in sessions && sessions[s.sessionId] == s then false else old(s.restarting))
      ensures s.sessionId in sessions && sessions[s.sessionId] != s ==>
                var t := sessions[s.sessionId];
                t.botId == old(t.botId) && t.sessionOwnerNumber == old(t.sessionOwnerNumber)
    {
      s.botId := if userId != "" then userId else userJid;
      s.sessionOwnerNumber := OwnerOnOpen(s.sessionOwnerNumber, userId, userJid);
      if s.sessionId in sessions {
        var t := sessions[s.sessionId];
        t.restarting := false;
      }
    }

    /** `connection === 'close'` with status `code` for session `s`: a logout
        deletes the entry; a required restart marks the registered session
        restarting, deletes it and schedules the same id after `Backoff(attempt)`
        with one more attempt (when nothing is registered under the id the
        handler throws before any of this); any other close deletes the entry
        and schedules the same id after 5 s with the attempt count reset. */
    method OnClose(s: ServerSession, code: Option<CloseCode>) returns (r: Option<ServerRestart>)
      modifies this, if s.sessionId in sessions then {sessions[s.sessionId]} else {}
      ensures Classify(code) != Restart ==> unchanged(old(sessions).Values)
      ensures Classify(code) == Restart && s.sessionId in old(sessions) ==>
                var t := old(sessions)[s.sessionId];
                t.botId == old(t.botId) && t.sessionOwnerNumber == old(t.sessionOwnerNumber)
      ensures Classify(code) == Terminal ==> r.None? && sessions == old(sessions) - {s.sessionId}
      ensures Classify(code) == Restart && s.sessionId !in old(sessions) ==> r.None? && sessions == old(sessions)
      ensures Classify(code) == Restart && s.sessionId in old(sessions) ==>
                old(sessions)[s.sessionId].restarting && sessions == old(sessions) - {s.sessionId}
                && r == Some(ServerRestart(Backoff(s.attempt), s.sessionId, s.folderName, s.attempt + 1))
      ensures Classify(code) == Reconnect ==>
                sessions == old(sessions) - {s.sessionId} && r == Some(ServerRestart(5000, s.sessionId, s.folderName, 0))
    {
      var kind := Classify(code);
      if kind == Terminal {
        sessions := sessions - {s.sessionId};
        return None;
      }
      if kind == Restart {
        if s.sessionId !in sessions {
          return None;
        }
        var t := sessions[s.sessionId];
        t.restarting := true;
        sessions := sessions - {s.sessionId};
        return Some(ServerRestart(Backoff(s.attempt), s.sessionId, s.folderName, s.attempt + 1));
      }
      sessions := sessions - {s.sessionId};
      r := Some(ServerRestart(5000, s.sessionId, s.folderName, 0));
    }

    /** The timer callback of a scheduled start. */
    method Resume(rec: ServerRestart, metaPhone: string, authOk: bool) returns (s: Option<ServerSession>)
      modifies this
      ensures rec.sessionId in old(sessions) ==> s == Some(old(sessions)[rec.sessionId]) && sessions == old(sessions)
      ensures rec.sessionId !in old(sessions) && authOk ==>
                s.Some? && fresh(s.value) && sessions == old(sessions)[rec.sessionId := s.value]
                && s.value.sessionId == rec.sessionId && s.value.folderName == rec.folderName
                && s.value.attempt == rec.attempt
                && s.value.sessionOwnerNumber == MetaOwner(metaPhone) && !s.value.restarting && s.value.botId == ""
      ensures rec.sessionId !in old(sessions) && !authOk ==> s.None? && sessions == old(sessions)
    {
      s := Start(rec.sessionId, rec.folderName, rec.attempt, metaPhone, authOk);
    }
  }

  // --------------------------------------------------------- inbound text

  /** The command of a dot-prefixed text: `text.slice(1).trim().split(' ')[0].toLowerCase()`. */
  function DotCommand(text: string): (r: Option<string>)
    ensures r.Some? <==> text != [] && text[0] == '.'
    ensures r.Some? ==> ' ' !in r.value && forall i :: 0 <= i < |r.value| ==> !IsUpper(r.value[i])
  {
    if text != [] && text[0] == '.' then
      var w := Before(Trim(text[1..]), ' ');
      assert forall i :: 0 <= i < |Lower(w)| && Lower(w)[i] == ' ' ==> w[i] == ' ';
      Some(Lower(w))
    else None
  }

  /** The `.menu` answer. */
  const ServerMenu: string := "*" + ServerBotName + " Menu*\n- .ping\n- .menu\n- .help"

  /** The `.help` answer. */
  const ServerHelp: string := "Help commands:\n" + ".ping - check bot\n.menu - show menu"

  /** The answer to a dot command. */
  function DotReply(command: string): (r: string)
    ensures r == "Pong!" <==> command == "ping"
    ensures command == "menu" ==> r == ServerMenu
    ensures command == "help" ==> r == ServerHelp
    ensures StartsWith(r, "Unknown command: ") <==> command != "ping" && command != "menu" && command != "help"
    ensures StartsWith(r, "Unknown command: ") ==> r[17..] == command
  {
    if command == "ping" then "Pong!"
    else if command == "menu" then
      assert ServerMenu[0] == '*';
      ServerMenu
    else if command == "help" then
      assert ServerHelp[0] == 'H';
      ServerHelp
    else "Unknown command: " + command
  }

  /** A command word typed after the dot and any white space, and followed by
      nothing or by a space and anything, is recognised whatever its case. */
  lemma DotCommandOfWord(sp: string, w: string, rest: string)
    requires forall i :: 0 <= i < |sp| ==> IsSpace(sp[i])
    requires w != [] && NoSpace(w)
    requires rest == [] || rest[0] == ' '
    ensures DotCommand("." + sp + w + rest) == Some(Lower(w))
  {
    var text := "." + sp + w + rest;
    var t := w + rest;
    assert text[0] == '.';
    assert text[1..] == sp + t;
    TrimStartOfSpaces(sp, t);
    assert Trim(text[1..]) == TrimEnd(t);
    FirstWordOfTrimmed(w, rest);
    assert Before(Trim(text[1..]), ' ') == w;
  }

  /** Trimming `w` followed by nothing or by a space and anything, then cutting at
      the first space, gives back `w`. */
  lemma FirstWordOfTrimmed(w: string, rest: string)
    requires w != [] && NoSpace(w)
    requires rest == [] || rest[0] == ' '
    ensures Before(TrimEnd(w + rest), ' ') == w
  {
    var t := w + rest;
    var r := TrimEnd(t);
    TrimEndKeepsWord(w, rest);
    assert ' ' !in w by {
      forall i | 0 <= i < |w| ensures w[i] != ' ' { }
    }
    if |r| == |w| {
      assert r == w;
    } else {
      assert r[|w|] == ' ';
      assert r == w + [' '] + r[|w| + 1..];
      BeforeOfJoin(w, ' ', r[|w| + 1..]);
    }
  }

  /** Trailing white space never reaches into a leading word. */
  lemma TrimEndKeepsWord(w: string, rest: string)
    requires w != [] && NoSpace(w)
    ensures |TrimEnd(w + rest)| >= |w| && TrimEnd(w + rest)[..|w|] == w
  {
    var t := w + rest;
    assert t[|w| - 1] == w[|w| - 1];
    assert t[..|w|] == w;
  }

  /** `.ping`, `. PING` and `.Ping now` all answer `Pong!`. */
  lemma PingAnswersPong(sp: string, w: string, rest: string)
    requires forall i :: 0 <= i < |sp| ==> IsSpace(sp[i])
    requires w != [] && NoSpace(w) && Lower(w) == "ping"
    requires rest == [] || rest[0] == ' '
    ensures DotReply(DotCommand("." + sp + w + rest).value) == "Pong!"
  {
    DotCommandOfWord(sp, w, rest);
  }

  /** A bare dot is a command with the empty name, answered as unknown. */
  lemma BareDotIsUnknown()
    ensures DotCommand(".") == Some("")
    ensures DotReply(DotCommand(".").value) == "Unknown command: "
  {
    assert "."[1..] == "";
    assert Trim("") == "";
    assert Before("", ' ') == "";
    assert Lower("") == "";
  }

  /** Only a space ends the command word: a tab after it stays in the command. */
  lemma TabStaysInCommand()
    ensures DotCommand(".ping\tx") == Some("ping\tx")
  {
    var body := "ping\tx";
    assert ".ping\tx"[1..] == body;
    TrimOfTrimmed(body);
    var w := Before(body, ' ');
    assert ' ' !in body;
    assert |w| == |body|;
    assert w == body;
    assert Lower(body) == body;
  }

  /** The auto-reply of public mode. */
  function AutoReply(senderName: string): string {
    "Hello " + senderName + ", your message has been received!\nMode: public"
  }

  /** server.js `messages.upsert` with global mode `mode`: the replies sent, in
      order. Only the first message counts; one without content or from
      `status@broadcast` gets none. In public mode a non-empty text not sent by
      the bot gets the auto-reply, and a text starting with `.` gets the answer
      to its command. */
  function ServerInbound(messages: seq<Message>, mode: string): (replies: seq<string>)
    ensures messages == [] || messages[0].content.None? || messages[0].key.remoteJid == StatusBroadcast ==> replies == []
    ensures messages != [] && messages[0].content.Some? && messages[0].key.remoteJid != StatusBroadcast ==>
              var m := messages[0];
              var text := ServerText(m.content.value);
              var auto := mode == "public" && text != "" && !m.key.fromMe;
              var dot := DotCommand(text);
              |replies| == (if auto then 1 else 0) + (if dot.Some? then 1 else 0)
              && (auto ==> replies[0] == AutoReply(DisplayName(m.pushName, m.content)))
              && (dot.Some? ==> replies[|replies| - 1] == DotReply(dot.value))
  {
    if messages == [] then []
    else
      var m := messages[0];
      match m.content
      case None => []
      case Some(c) =>
        if m.key.remoteJid == StatusBroadcast then []
        else
          var text := ServerText(c);
          var auto := mode == "public" && text != "" && !m.key.fromMe;
          var dot := DotCommand(text);
          if auto && dot.Some? then [AutoReply(DisplayName(m.pushName, m.content)), DotReply(dot.value)]
          else if auto then [AutoReply(DisplayName(m.pushName, m.content))]
          else if dot.Some? then [DotReply(dot.value)]
          else []
  }

  /** The bot's own messages get no auto-reply, but their dot commands are still answered. */
  lemma OwnDotCommandAnswered(m: Message, rest: seq<Message>, mode: string)
    requires m.content.Some? && m.key.remoteJid != StatusBroadcast && m.key.fromMe
    requires DotCommand(ServerText(m.content.value)).Some?
    ensures ServerInbound([m] + rest, mode) == [DotReply(DotCommand(ServerText(m.content.value)).value)]
  {
    var messages := [m] + rest;
    assert messages[0] == m;
    var replies := ServerInbound(messages, mode);
    assert |replies| == 1;
    assert replies == [replies[0]];
  }
}

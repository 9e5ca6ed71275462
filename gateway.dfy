/**
 * The mutable state of index.js: one `sessionObj` per WhatsApp session (its
 * link modes and its `dh7` image timers), the `sessions` registry with
 * `startBaileysForSession` and the `connection.update` handler, and the
 * Telegram bridge map `telegramSessionMap` behind `/connect`, `/stop` and
 * `/list`.
 *
 * Interval timers are handles drawn from a counter; a handle in `liveTimers`
 * is an interval that still fires. A scheduled restart is returned as a
 * `Recreation` record instead of being put on a timer.
 */
module Gateway {
  import opened Wrappers
  import opened Text
  import opened AuthFolder
  import opened LinkFilter
  import opened Lifecycle
  import Membership

  // ------------------------------------------------------------ link modes

  /** The mode `nolien` (`all == false`) or `nolien2` (`all == true`) stores:
      `off` when the first argument is `off` in any case, else its own mode. */
  function NoLienTarget(args: seq<string>, all: bool): (m: LinkMode)
    ensures m == Off <==> args != [] && Lower(args[0]) == "off"
    ensures m != Off ==> m == (if all then All else ExceptAdmins)
  {
    if args != [] && Lower(args[0]) == "off" then Off
    else if all then All
    else ExceptAdmins
  }

  /** The `noLienMode` table after `nolien`/`nolien2` in chat `jid`: only a group
      command from an admin or an owner changes it, and only at `jid`. */
  function NoLienUpdate(modes: map<string, LinkMode>, jid: string, isGroup: bool, authorised: bool,
                        args: seq<string>, all: bool): (r: map<string, LinkMode>)
    ensures isGroup && authorised ==> jid in r && r[jid] == NoLienTarget(args, all)
    ensures !(isGroup && authorised) ==> r == modes
    ensures forall j :: j != jid ==> (j in r <==> j in modes) && (j in r ==> r[j] == modes[j])
  {
    if isGroup && authorised then modes[jid := NoLienTarget(args, all)] else modes
  }

  /** The reply of `nolien`/`nolien2`. */
  function NoLienReply(isGroup: bool, authorised: bool, mode: LinkMode, all: bool): (r: string)
    ensures !isGroup ==> r == "Commande réservée aux groupes."
    ensures isGroup && !authorised ==> r == "Seuls l'admin ou le propriétaire peuvent activer."
    ensures isGroup && authorised ==> r == (if all then "Mode nolien2: " else "Mode nolien: ") + mode.Name()
    ensures isGroup && authorised ==> EndsWith(r, mode.Name())
  {
    if !isGroup then "Commande réservée aux groupes."
    else if !authorised then "Seuls l'admin ou le propriétaire peuvent activer."
    else (if all then "Mode nolien2: " else "Mode nolien: ") + mode.Name()
  }

  /** After `nolien off` (or `nolien2 off`) by an authorised sender the link
      filter never deletes in that chat. */
  lemma NoLienOffDisables(modes: map<string, LinkMode>, jid: string, args: seq<string>, all: bool)
    requires args != [] && Lower(args[0]) == "off"
    ensures ModeOf(NoLienUpdate(modes, jid, true, true, args, all), jid) == Off
  {
  }

  /** `nolien2` followed by `nolien` in the same chat leaves `exceptAdmins`:
      the later command wins. */
  lemma LaterNoLienWins(modes: map<string, LinkMode>, jid: string, args1: seq<string>, args2: seq<string>)
    requires args2 == [] || Lower(args2[0]) != "off"
    ensures ModeOf(NoLienUpdate(NoLienUpdate(modes, jid, true, true, args1, true), jid, true, true, args2, false), jid)
            == ExceptAdmins
  {
  }

  // ------------------------------------------------------- invisible mode

  /** `dh7` in a group: clear and forget the chat's interval if it has one,
      otherwise install the interval `handle`. */
  function Toggle(timers: map<string, nat>, jid: string, handle: nat): (r: map<string, nat>)
    ensures jid in r <==> jid !in timers
    ensures jid in r ==> r[jid] == handle
    ensures forall j :: j != jid ==> (j in r <==> j in timers) && (j in r ==> r[j] == timers[j])
  {
    if jid in timers then timers - {jid} else timers[jid := handle]
  }

  /** Two `dh7` commands in a row give the chat back its original state. */
  lemma ToggleTwice(timers: map<string, nat>, jid: string, h1: nat, h2: nat)
    requires jid !in timers
    ensures Toggle(Toggle(timers, jid, h1), jid, h2) == timers
  {
    var r := Toggle(Toggle(timers, jid, h1), jid, h2);
    assert r.Keys == timers.Keys;
  }

  /** The reply of `dh7`, given whether the chat's interval was running. */
  function InvisibleReply(isGroup: bool, wasOn: bool): (r: string)
    ensures !isGroup ==> r == Membership.BotName + "\nMode invisible réservé aux groupes."
    ensures isGroup && wasOn ==> r == Membership.BotName + "\nMode invisible désactivé."
    ensures isGroup && !wasOn ==> r == Membership.BotName + "\nMode invisible activé : envoi d'images en boucle."
  {
    Membership.BotName +
    (if !isGroup then "\nMode invisible réservé aux groupes."
     else if wasOn then "\nMode invisible désactivé."
     else "\nMode invisible activé : envoi d'images en boucle.")
  }

  // ------------------------------------------------------------- sessions

  /** `sessionObj`, reduced to the fields the handlers read or update.
      `sessionOwnerNumber` is left out: index.js never assigns it, so its owner
      check always compares against `OWNER_NUMBER` alone. */
  class Session {
    const sessionId: string
    const folderName: string
    const botName: string
    const sid: string
    const telegramChatId: Option<int>
    var restarting: bool
    var noLienMode: map<string, LinkMode>
    var invisibleMode: map<string, nat>
    /** The intervals still firing. */
    var liveTimers: set<nat>
    /** The next interval handle to hand out. */
    var nextTimer: nat

    /** Every live interval is the one stored for exactly one chat, and every
        stored interval is live: toggling never leaks or double-frees a timer. */
    ghost predicate Valid()
      reads this
    {
      liveTimers == invisibleMode.Values
      && (forall h :: h in liveTimers ==> h < nextTimer)
      && (forall a, b :: a in invisibleMode && b in invisibleMode && invisibleMode[a] == invisibleMode[b] ==> a == b)
    }

    /** The object `startBaileysForSession` builds: no modes, no timers, not restarting. */
    constructor(sessionId: string, folderName: string, botName: string, sid: string, telegramChatId: Option<int>)
      ensures this.sessionId == sessionId && this.folderName == folderName && this.botName == botName
      ensures this.sid == sid && this.telegramChatId == telegramChatId
      ensures !restarting && noLienMode == map[] && invisibleMode == map[] && liveTimers == {}
      ensures Valid()
    {
      this.sessionId := sessionId;
      this.folderName := folderName;
      this.botName := botName;
      this.sid := sid;
      this.telegramChatId := telegramChatId;
      restarting := false;
      noLienMode := map[];
      invisibleMode := map[];
      liveTimers := {};
      nextTimer := 0;
    }

    /** `nolien` (`all == false`) and `nolien2` (`all == true`) in chat `jid`;
        `admin` is the answer of the group-admin query for the sender. */
    method NoLien(jid: string, isGroup: bool, admin: bool, isOwner: bool, args: seq<string>, all: bool)
      returns (reply: string)
      modifies this
      ensures noLienMode == NoLienUpdate(old(noLienMode), jid, isGroup, admin || isOwner, args, all)
      ensures reply == NoLienReply(isGroup, admin || isOwner, NoLienTarget(args, all), all)
      ensures invisibleMode == old(invisibleMode) && liveTimers == old(liveTimers) && nextTimer == old(nextTimer)
      ensures restarting == old(restarting)
    {
      if !isGroup {
        reply := NoLienReply(false, admin || isOwner, Off, all);
        return;
      }
      if !admin && !isOwner {
        reply := NoLienReply(true, false, Off, all);
        return;
      }
      var mode := NoLienTarget(args, all);
      noLienMode := noLienMode[jid := mode];
      reply := NoLienReply(true, true, mode, all);
    }

    /** `dh7` in chat `jid`: in a group, stop the chat's image interval if one
        runs, otherwise start a new one. */
    method Invisible(jid: string, isGroup: bool) returns (reply: string)
      requires Valid()
      modifies this
      ensures Valid()
      ensures reply == InvisibleReply(isGroup, jid in old(invisibleMode))
      ensures invisibleMode == if isGroup then Toggle(old(invisibleMode), jid, old(nextTimer)) else old(invisibleMode)
      ensures liveTimers ==
                if !isGroup then old(liveTimers)
                else if jid in old(invisibleMode) then old(liveTimers) - {old(invisibleMode)[jid]}
                else old(liveTimers) + {old(nextTimer)}
      ensures nextTimer == if isGroup && jid !in old(invisibleMode) then old(nextTimer) + 1 else old(nextTimer)
      ensures noLienMode == old(noLienMode) && restarting == old(restarting)
    {
      if !isGroup {
        reply := InvisibleReply(false, jid in invisibleMode);
        return;
      }
      if jid in invisibleMode {
        var h := invisibleMode[jid];
        ghost var before := invisibleMode;
        liveTimers := liveTimers - {h};
        invisibleMode := invisibleMode - {jid};
        forall v ensures v in invisibleMode.Values <==> v in before.Values && v != h {
          if v in before.Values && v != h {
            var j :| j in before && before[j] == v;
            assert j in invisibleMode;
          }
        }
        reply := InvisibleReply(true, true);
      } else {
        ghost var before := invisibleMode;
        invisibleMode := invisibleMode[jid := nextTimer];
        forall v ensures v in invisibleMode.Values <==> v in before.Values || v == nextTimer {
          if v in invisibleMode.Values {
            var j :| j in invisibleMode && invisibleMode[j] == v;
            assert j != jid ==> v in before.Values;
          }
          if v in before.Values {
            var j :| j in before && before[j] == v;
            assert j in invisibleMode;
          }
          assert invisibleMode[jid] == nextTimer;
        }
        liveTimers := liveTimers + {nextTimer};
        nextTimer := nextTimer + 1;
        reply := InvisibleReply(true, false);
      }
    }
  }

  /** A start scheduled by the close handler: after `delayMs`, start a session
      with a new id on the same folder, chat, bot name and sid. */
  datatype Recreation = Recreation(delayMs: nat, id: IdChoice, folderName: string,
                                   telegramChatId: Option<int>, botName: string, sid: string)

  /** The `sessions` object of index.js. */
  class Registry {
    var sessions: map<string, Session>

    constructor()
      ensures sessions == map[]
    {
      sessions := map[];
    }

    /** `startBaileysForSession`: a missing id becomes `freshId` (the new uuid),
        a missing folder becomes `nextAuthFolder()` over the directory `listing`,
        an authentication-state failure (`authOk == false`) throws before the
        registry is touched, and otherwise the new session is stored under its
        id, replacing any session already there. */
    method Start(sessionId: string, folderName: string, botName: string, sid: string,
                 telegramChatId: Option<int>, listing: seq<string>, freshId: string, authOk: bool)
      returns (s: Option<Session>)
      modifies this
      ensures !authOk ==> s.None? && sessions == old(sessions)
      ensures authOk ==> s.Some? && fresh(s.value) && s.value.Valid()
      ensures s.Some? ==> s.value.sessionId == (if sessionId != "" then sessionId else freshId)
      ensures s.Some? ==> s.value.folderName == (if folderName != "" then folderName else NextAuthFolder(listing))
      ensures s.Some? ==> folderName == "" ==> s.value.folderName !in listing
      ensures s.Some? ==> s.value.botName == botName && s.value.sid == sid && s.value.telegramChatId == telegramChatId
      ensures s.Some? ==> !s.value.restarting && s.value.noLienMode == map[] && s.value.invisibleMode == map[]
      ensures s.Some? ==> sessions == old(sessions)[s.value.sessionId := s.value]
    {
      var id := if sessionId != "" then sessionId else freshId;
      var folder := if folderName != "" then folderName else NextAuthFolder(listing);
      if !authOk {
        return None;
      }
      var obj := new Session(id, folder, botName, sid, telegramChatId);
      sessions := sessions[id := obj];
      s := Some(obj);
    }

    /** `connection === 'open'`: the session is no longer restarting. With a
        Telegram chat attached, the handler first awaits the "connected"
        message; `notified` says whether that send succeeded. A rejected send
        jumps to the handler's `catch`, so `restarting` is left as it was. */
    method OnOpen(s: Session, notified: bool)
      modifies s
      ensures s.restarting == (if s.telegramChatId.Some? && !notified then old(s.restarting) else false)
      ensures s.noLienMode == old(s.noLienMode) && s.invisibleMode == old(s.invisibleMode)
      ensures s.liveTimers == old(s.liveTimers) && s.nextTimer == old(s.nextTimer)
    {
      if s.telegramChatId.Some? && !notified {
        return;
      }
      s.restarting := false;
    }

    /** `connection === 'close'` with status `code`. With a Telegram chat
        attached, the handler first awaits the "disconnected" message;
        `notified` says whether that send succeeded. A rejected send jumps to
        the handler's `catch`: the entry stays registered and nothing is
        scheduled. Otherwise the entry for the session's id is deleted; a
        logout ends there, a required restart marks the session restarting and
        schedules a new start after 2 s, and any other close schedules one
        after 5 s. Both starts use a fresh id and the same folder. The
        session's `dh7` intervals are not cleared. */
    method OnClose(s: Session, code: Option<CloseCode>, notified: bool) returns (r: Option<Recreation>)
      modifies this, s
      ensures var aborted := s.telegramChatId.Some? && !notified;
              sessions == (if aborted then old(sessions) else old(sessions) - {s.sessionId})
      ensures r.None? <==> (s.telegramChatId.Some? && !notified) || code == Some(LoggedOut)
      ensures r.Some? ==> r.value == Recreation(if Classify(code) == Restart then 2000 else 5000, FreshId,
                                                s.folderName, s.telegramChatId, s.botName, s.sid)
      ensures s.restarting == ((!(s.telegramChatId.Some? && !notified) && Classify(code) == Restart) || old(s.restarting))
      ensures s.noLienMode == old(s.noLienMode) && s.invisibleMode == old(s.invisibleMode)
      ensures s.liveTimers == old(s.liveTimers) && s.nextTimer == old(s.nextTimer)
    {
      if s.telegramChatId.Some? && !notified {
        return None;
      }
      var kind := Classify(code);
      if kind == Terminal {
        sessions := sessions - {s.sessionId};
        return None;
      }
      if kind == Restart {
        s.restarting := true;
        sessions := sessions - {s.sessionId};
        return Some(Recreation(2000, FreshId, s.folderName, s.telegramChatId, s.botName, s.sid));
      }
      sessions := sessions - {s.sessionId};
      r := Some(Recreation(5000, FreshId, s.folderName, s.telegramChatId, s.botName, s.sid));
    }

    /** The timer callback of a scheduled start: `startBaileysForSession` with the
        new uuid `freshId` and the recorded folder, chat, bot name and sid. */
    method Recreate(rec: Recreation, listing: seq<string>, freshId: string, authOk: bool)
      returns (s: Option<Session>)
      requires freshId != "" && rec.folderName != ""
      modifies this
      ensures !authOk ==> s.None? && sessions == old(sessions)
      ensures authOk ==> s.Some? && fresh(s.value) && s.value.Valid()
      ensures s.Some? ==> s.value.sessionId == freshId && s.value.folderName == rec.folderName
      ensures s.Some? ==> s.value.botName == rec.botName && s.value.sid == rec.sid
                          && s.value.telegramChatId == rec.telegramChatId
      ensures s.Some? ==> sessions == old(sessions)[freshId := s.value]
      ensures s.Some? ==> !s.value.restarting && s.value.noLienMode == map[] && s.value.invisibleMode == map[]
    {
      s := Start(freshId, rec.folderName, rec.botName, rec.sid, rec.telegramChatId, listing, freshId, authOk);
    }
  }

  // -------------------------------------------------------- Telegram bridge

  /** A value of `telegramSessionMap`. */
  datatype BridgeEntry = BridgeEntry(sessionId: string, folderName: string, sid: string, telegramChatId: int)

  /** The key `${chatId}_${sid}`. */
  function BridgeKey(chatId: int, sid: string): string {
    IntText(chatId) + "_" + sid
  }

  /** A short session id as `/connect` makes them (`S` and six base-36
      characters): non-empty and free of `_`. */
  predicate IsSid(sid: string) {
    sid != "" && '_' !in sid
  }

  predicate Distinct(keys: seq<string>) {
    forall i, j :: 0 <= i < j < |keys| ==> keys[i] != keys[j]
  }

  /** `keys` without `key`, in order. */
  function Without(keys: seq<string>, key: string): (r: seq<string>)
    ensures forall x :: x in r <==> x in keys && x != key
    ensures Distinct(keys) ==> Distinct(r)
    ensures |keys| == 1 ==> r == (if keys[0] == key then [] else keys)
  {
    if keys == [] then []
    else
      var rest := Without(keys[1..], key);
      assert Distinct(keys) ==> Distinct(keys[1..]) && keys[0] !in keys[1..];
      if keys[0] == key then rest else [keys[0]] + rest
  }

  /** Removal keeps the order of the other keys: it works piece by piece. */
  lemma {:induction false} WithoutOfJoin(xs: seq<string>, ys: seq<string>, key: string)
    ensures Without(xs + ys, key) == Without(xs, key) + Without(ys, key)
  {
    if xs == [] {
      assert xs + ys == ys;
    } else {
      assert (xs + ys)[1..] == xs[1..] + ys;
      WithoutOfJoin(xs[1..], ys, key);
    }
  }

  /** `k.split('_')[1]`: the text between the first and second `_`, "" when there
      is no `_` (where JavaScript would give `undefined`). */
  function SecondField(k: string): (r: string)
    ensures '_' !in r
    ensures '_' !in k ==> r == ""
  {
    var a := Before(k, '_');
    if |a| < |k| then Before(k[|a| + 1..], '_') else ""
  }

  /** The second field of `a_b` or `a_b_…` is `b`. */
  lemma SecondFieldOfJoin(a: string, b: string, rest: string)
    requires '_' !in a && '_' !in b
    requires rest == [] || rest[0] == '_'
    ensures SecondField(a + ['_'] + b + rest) == b
  {
    var k := a + ['_'] + b + rest;
    assert k == a + ['_'] + (b + rest);
    BeforeOfJoin(a, '_', b + rest);
    assert k[|a| + 1..] == b + rest;
    if rest == [] {
      assert b + rest == b;
      assert Before(b, '_') == b;
    } else {
      assert b + rest == b + ['_'] + rest[1..];
      BeforeOfJoin(b, '_', rest[1..]);
    }
  }

  /** The sids `/list` collects from the keys `keys`, in key order. */
  function ListedSids(keys: seq<string>, chatId: int): seq<string> {
    if keys == [] then []
    else
      var k := keys[|keys| - 1];
      ListedSids(keys[..|keys| - 1], chatId) + (if StartsWith(k, IntText(chatId) + "_") then [SecondField(k)] else [])
  }

  /** A bridge key starts with `${chatId}_` exactly when it was made for that
      chat, and its second field is its sid. */
  lemma KeyOfChat(chatId: int, c: int, sid: string)
    requires '_' !in sid
    ensures StartsWith(BridgeKey(c, sid), IntText(chatId) + "_") <==> c == chatId
    ensures SecondField(BridgeKey(c, sid)) == sid
  {
    NoUnderscoreInIntText(c);
    NoUnderscoreInIntText(chatId);
    assert BridgeKey(c, sid) == IntText(c) + ['_'] + sid + [];
    SecondFieldOfJoin(IntText(c), sid, []);
    ChatPrefixOfKey(chatId, c, sid);
  }

  lemma NoUnderscoreInIntText(c: int)
    ensures '_' !in IntText(c)
  {
    forall i | 0 <= i < |IntText(c)| ensures IntText(c)[i] != '_' { }
  }

  /** The chat prefix of a key is that of its own chat and of no other. */
  lemma ChatPrefixOfKey(chatId: int, c: int, sid: string)
    requires '_' !in IntText(c) && '_' !in IntText(chatId)
    ensures StartsWith(BridgeKey(c, sid), IntText(chatId) + "_") <==> c == chatId
  {
    var k := BridgeKey(c, sid);
    var p := IntText(chatId);
    assert k == IntText(c) + ['_'] + sid;
    if StartsWith(k, p + "_") {
      assert k == p + ['_'] + k[|p| + 1..];
      BeforeOfJoin(p, '_', k[|p| + 1..]);
      BeforeOfJoin(IntText(c), '_', sid);
      IntTextInjective(chatId, c);
    }
  }

  /** A sid is listed for a chat exactly when one of the keys was made for that
      chat with that sid. */
  lemma {:induction false} ListedSidsMembers(keys: seq<string>, entries: map<string, BridgeEntry>, chatId: int, s: string)
    requires forall k :: k in keys ==> k in entries
    requires forall k :: k in entries ==> '_' !in entries[k].sid && k == BridgeKey(entries[k].telegramChatId, entries[k].sid)
    ensures s in ListedSids(keys, chatId) <==>
            exists k :: k in keys && entries[k].telegramChatId == chatId && entries[k].sid == s
  {
    if keys != [] {
      var init := keys[..|keys| - 1];
      var k := keys[|keys| - 1];
      ListedSidsMembers(init, entries, chatId, s);
      KeyOfChat(chatId, entries[k].telegramChatId, entries[k].sid);
      assert forall x :: x in keys <==> x in init || x == k;
    }
  }

  /** What `/stop` does. */
  datatype StopOutcome =
    | StopUsage                                  // no sid given
    | NoSuchSession                              // no bridge entry for this chat and sid
    | Stopped(entry: BridgeEntry, logout: bool)  // entry removed; `logout` when its session was live

  /** The first argument of `/stop`: `text.split(/\s+/)[1]`, "" when absent. */
  function StopArg(text: string): (r: string)
    ensures NoSpace(r)
  {
    var parts := SplitWs(text);
    if |parts| >= 2 then parts[1] else ""
  }

  /** `/stop SABC12`, with any white space around or after the sid, names `SABC12`. */
  lemma StopArgOfCommand(cmd: string, sp: string, sid: string, tail: string)
    requires NoSpace(cmd) && sp != [] && forall i :: 0 <= i < |sp| ==> IsSpace(sp[i])
    requires IsWord(sid) && (tail == [] || IsSpace(tail[0]))
    ensures StopArg(cmd + sp + (sid + tail)) == sid
  {
    SplitWsOfJoin(cmd, sp, sid + tail);
    var parts := SplitWs(sid + tail);
    var s := sid + tail;
    assert forall i :: 0 <= i < |sid| ==> s[i] == sid[i];
    assert |sid| < |s| ==> IsSpace(s[|sid|]);
    assert |parts[0]| == |sid|;
    assert parts[0] == (sid + tail)[..|sid|] == sid;
  }

  /** The reply of `/stop <sid>`: usage, unknown session, or the stopped sid. */
  function StopReply(o: StopOutcome, sid: string): (r: string)
    ensures o.StopUsage? ==> r == "Usage: /stop <sid>  (ex: /stop SABC12)"
    ensures o.NoSuchSession? ==> r == "Pa gen sesyon konsa k ap kouri."
    ensures o.Stopped? ==> |r| == |sid| + 16 && r[7..7 + |sid|] == sid
                           && r[..7] == "Sesyon " && r[7 + |sid|..] == " sispann."
  {
    match o
    case StopUsage => "Usage: /stop <sid>  (ex: /stop SABC12)"
    case NoSuchSession => "Pa gen sesyon konsa k ap kouri."
    case Stopped(_, _) => "Sesyon " + sid + " sispann."
  }

  /** The reply of `/list`: a fixed text when the chat has no session,
      otherwise a header followed by the sids separated by `, `. */
  function ListReply(sids: seq<string>): (r: string)
    ensures sids == [] ==> r == "Ou pa gen okenn sesyon kouri."
    ensures sids != [] ==> StartsWith(r, ListHeader) && r[|ListHeader|..] == Join(sids, ", ")
  {
    if sids == [] then "Ou pa gen okenn sesyon kouri."
    else ListHeader + Join(sids, ", ")
  }

  const ListHeader := "Sesyon kouri pou ou: "

  /** Every listed sid appears in the `/list` reply. */
  lemma ListReplyNamesEverySid(sids: seq<string>, i: nat)
    requires i < |sids|
    ensures Occurs(sids[i], ListReply(sids))
  {
    JoinHasEach(sids, ", ", i);
    var j := Join(sids, ", ");
    var k :| OccursAt(sids[i], j, k);
    var r := ListReply(sids);
    assert r == ListHeader + j;
    assert r[|ListHeader| + k..|ListHeader| + k + |sids[i]|] == j[k..k + |sids[i]|];
    assert OccursAt(sids[i], r, |ListHeader| + k);
  }

  /** `telegramSessionMap`, with `order` the insertion order of its keys. */
  class TelegramBridge {
    var entries: map<string, BridgeEntry>
    var order: seq<string>

    /** `order` lists each key once, and each key is `${chatId}_${sid}` of its entry. */
    ghost predicate Valid()
      reads this
    {
      (forall k :: k in entries <==> k in order)
      && Distinct(order)
      && (forall k :: k in entries ==> '_' !in entries[k].sid && k == BridgeKey(entries[k].telegramChatId, entries[k].sid))
    }

    constructor()
      ensures entries == map[] && order == [] && Valid()
    {
      entries := map[];
      order := [];
    }

    /** `telegramSessionMap.set(key, entry)`: a new key goes last, an existing one keeps its place. */
    method Register(chatId: int, sid: string, sessionId: string, folderName: string)
      requires Valid() && '_' !in sid
      modifies this
      ensures Valid()
      ensures entries == old(entries)[BridgeKey(chatId, sid) := BridgeEntry(sessionId, folderName, sid, chatId)]
      ensures order == if BridgeKey(chatId, sid) in old(entries) then old(order) else old(order) + [BridgeKey(chatId, sid)]
    {
      var key := BridgeKey(chatId, sid);
      if key !in entries {
        order := order + [key];
      }
      entries := entries[key := BridgeEntry(sessionId, folderName, sid, chatId)];
    }

    /** `/connect [name]` from chat `chatId`: a new session on the next auth folder
        with the new uuid `freshId` and the generated `sid`, registered in the
        bridge only when it started. An empty `botName` stands for `BOT_NAME`. */
    method Connect(reg: Registry, chatId: int, sid: string, botName: string, listing: seq<string>,
                   freshId: string, authOk: bool) returns (s: Option<Session>)
      requires Valid() && IsSid(sid) && freshId != ""
      modifies this, reg
      ensures Valid()
      ensures s.Some? <==> authOk
      ensures s.Some? ==> fresh(s.value) && s.value.sessionId == freshId && s.value.folderName == NextAuthFolder(listing)
      ensures s.Some? ==> s.value.botName == (if botName != "" then botName else Membership.BotName)
                          && s.value.sid == sid && s.value.telegramChatId == Some(chatId)
      ensures s.Some? ==> reg.sessions == old(reg.sessions)[freshId := s.value]
      ensures s.Some? ==> entries == old(entries)[BridgeKey(chatId, sid) := BridgeEntry(freshId, NextAuthFolder(listing), sid, chatId)]
      ensures s.Some? ==> order == if BridgeKey(chatId, sid) in old(entries) then old(order)
                                   else old(order) + [BridgeKey(chatId, sid)]
      ensures s.None? ==> reg.sessions == old(reg.sessions) && entries == old(entries) && order == old(order)
    {
      var folder := NextAuthFolder(listing);
      var name := if botName != "" then botName else Membership.BotName;
      s := reg.Start(freshId, folder, name, sid, Some(chatId), listing, freshId, authOk);
      if s.Some? {
        Register(chatId, sid, freshId, folder);
      }
    }

    /** `/stop <sid>` from chat `chatId`: the entry `${chatId}_${sid}` is removed
        and nothing else; its session is logged out when it is still in `reg`. */
    method Stop(reg: Registry, chatId: int, text: string) returns (o: StopOutcome)
      requires Valid()
      modifies this
      ensures Valid()
      ensures o == StopUsage <==> StopArg(text) == ""
      ensures o == NoSuchSession <==> StopArg(text) != "" && BridgeKey(chatId, StopArg(text)) !in old(entries)
      ensures o.Stopped? ==> BridgeKey(chatId, StopArg(text)) in old(entries)
                             && o.entry == old(entries)[BridgeKey(chatId, StopArg(text))]
                             && o.logout == (o.entry.sessionId in reg.sessions)
                             && entries == old(entries) - {BridgeKey(chatId, StopArg(text))}
                             && order == Without(old(order), BridgeKey(chatId, StopArg(text)))
      ensures !o.Stopped? ==> entries == old(entries) && order == old(order)
    {
      var sid := StopArg(text);
      if sid == "" {
        return StopUsage;
      }
      var key := BridgeKey(chatId, sid);
      if key !in entries {
        return NoSuchSession;
      }
      var entry := entries[key];
      entries := entries - {key};
      order := Without(order, key);
      o := Stopped(entry, entry.sessionId in reg.sessions);
    }

    /** `/list` from chat `chatId`: the sids of this chat's entries, in
        insertion order, and exactly those. */
    method List(chatId: int) returns (sids: seq<string>)
      requires Valid()
      ensures sids == ListedSids(order, chatId)
      ensures forall s :: s in sids <==> exists k :: k in entries && entries[k].telegramChatId == chatId && entries[k].sid == s
    {
      sids := [];
      var prefix := IntText(chatId) + "_";
      var i := 0;
      while i < |order|
        invariant 0 <= i <= |order|
        invariant sids == ListedSids(order[..i], chatId)
      {
        var k := order[i];
        assert order[..i + 1][..i] == order[..i];
        if StartsWith(k, prefix) {
          sids := sids + [SecondField(k)];
        }
        i := i + 1;
      }
      assert order[..i] == order;
      forall s ensures s in sids <==> exists k :: k in entries && entries[k].telegramChatId == chatId && entries[k].sid == s
      {
        ListedSidsMembers(order, entries, chatId, s);
      }
    }
  }
}

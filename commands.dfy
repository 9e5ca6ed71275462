/**
 * Command recognition in index.js: the many-to-one alias table
 * `COMMAND_ALIASES`, `findCommandAlias` and `parseCommandFromText`.
 * The search and the parser are stated over any table; the facts that make
 * the concrete table behave (each key is listed by its own entry and by no
 * earlier one) are proved about `CommandAliases` separately.
 */
module Commands {
  import opened Wrappers
  import opened Text

  /** One entry of `COMMAND_ALIASES`: a canonical command and its surface spellings. */
  datatype AliasEntry = AliasEntry(key: string, aliases: seq<string>)

  /** `COMMAND_ALIASES`, in declaration order (the order `Object.entries` visits it). */
  const CommandAliases: seq<AliasEntry> := [
    AliasEntry("menu", ["d", "menu", "menou", "help", "aide"]),
    AliasEntry("signale", ["signale", "report", "signal", "denoncer"]),
    AliasEntry("owner", ["owner", "proprietaire", "proprio"]),
    AliasEntry("qr", ["qr", "qrcode"]),
    AliasEntry("img", ["img", "image", "photo"]),
    AliasEntry("voir", ["voir", "vv", "we", "wè", "view", "see"]),
    AliasEntry("lien", ["lien", "link", "invite"]),
    AliasEntry("nolien", ["nolien", "nolink", "no-link"]),
    AliasEntry("nolien2", ["nolien2", "nolien_2", "nolienall"]),
    AliasEntry("play", ["play", "jwe"]),
    AliasEntry("tg", ["tg", "tagall", "tag"]),
    AliasEntry("tm", ["tm", "hidetag", "hidetags"]),
    AliasEntry("dh7", ["dh7", "d'h7", "invisible", "ghost"]),
    AliasEntry("kick", ["kick", "remove", "expulser"]),
    AliasEntry("add", ["add", "ajoute", "invite"]),
    AliasEntry("promote", ["promote", "promouvoir"]),
    AliasEntry("demote", ["demote", "delmote", "retrograder"]),
    AliasEntry("kickall", ["kickall", "kick_all", "cleanall"]),
    AliasEntry("ban", ["ban", "interdire", "block"]),
    AliasEntry("public", ["public", "piblik"]),
    AliasEntry("prive", ["prive", "private"]),
    AliasEntry("bienvenue", ["bienvenue", "welcome"]),
    AliasEntry("mycode", ["mycode", "code"]),
    AliasEntry("parrain", ["parrain", "ref", "referral"]),
    AliasEntry("stats", ["stats", "mystats"])
  ]

  /** `t` is the key of some entry of `table`. */
  predicate IsKey(table: seq<AliasEntry>, t: string) {
    exists i :: 0 <= i < |table| && table[i].key == t
  }

  /** Some entry of `table` lists `t` as a spelling. */
  predicate IsListed(table: seq<AliasEntry>, t: string) {
    exists i :: 0 <= i < |table| && t in table[i].aliases
  }

  /** The index of the first entry of `table`, at or after `from`, that lists `t`. */
  function FirstListing(table: seq<AliasEntry>, t: string, from: nat): (r: Option<nat>)
    requires from <= |table|
    ensures r.Some? ==> from <= r.value < |table| && t in table[r.value].aliases
    ensures r.Some? ==> forall j :: from <= j < r.value ==> t !in table[j].aliases
    ensures r.None? ==> forall j :: from <= j < |table| ==> t !in table[j].aliases
    decreases |table| - from
  {
    if from == |table| then None
    else if t in table[from].aliases then Some(from)
    else FirstListing(table, t, from + 1)
  }

  /** `findCommandAlias(token)` over `table`: the key of the first entry listing the
      lower-cased token; None for the empty token and for a token no entry lists. */
  function FindAlias(table: seq<AliasEntry>, token: string): (r: Option<string>)
    ensures r.Some? <==> token != "" && IsListed(table, Lower(token))
    ensures r.Some? ==> exists i :: 0 <= i < |table| && table[i].key == r.value
                                  && Lower(token) in table[i].aliases
                                  && forall j :: 0 <= j < i ==> Lower(token) !in table[j].aliases
  {
    if token == "" then None
    else
      match FirstListing(table, Lower(token), 0)
      case Some(i) => Some(table[i].key)
      case None => None
  }

  /** A command name as the table spells its keys: lower-case letters and digits. */
  predicate IsCommandName(s: string) {
    s != [] && forall k :: 0 <= k < |s| ==> ('a' <= s[k] <= 'z' || IsDigit(s[k]))
  }

  /** A command name is a word, starts with no prefix character and is its own lower-case form. */
  lemma CommandNameFacts(s: string)
    requires IsCommandName(s)
    ensures IsWord(s) && !IsPrefixChar(s[0]) && Lower(s) == s
  {
  }

  /** A table in which each key is a command name listed by its own entry and by
      no earlier entry. */
  predicate WellKeyed(table: seq<AliasEntry>) {
    (forall i :: 0 <= i < |table| ==> IsCommandName(table[i].key) && table[i].key in table[i].aliases)
    && (forall i, j :: 0 <= j < i < |table| ==> table[i].key !in table[j].aliases)
  }

  /** In a well-keyed table every key resolves to itself. */
  lemma KeyResolvesToItself(table: seq<AliasEntry>, i: nat)
    requires WellKeyed(table) && i < |table|
    ensures FindAlias(table, table[i].key) == Some(table[i].key)
  {
    var k := table[i].key;
    CommandNameFacts(k);
    assert FirstListing(table, k, 0) == Some(i);
  }

  /** Resolution ignores ASCII case. */
  lemma FindAliasIgnoresCase(table: seq<AliasEntry>, token: string)
    ensures FindAlias(table, token) == FindAlias(table, Lower(token))
  {
    LowerIdempotent(token);
  }

  /** Resolving a token and then resolving the outcome again changes nothing. */
  lemma ResolveIdempotent(table: seq<AliasEntry>, token: string)
    requires WellKeyed(table)
    ensures var c := FindAlias(table, token).GetOr(token);
            c == token || FindAlias(table, c) == Some(c)
  {
    match FindAlias(table, token)
    case Some(k) =>
      var i :| 0 <= i < |table| && table[i].key == k;
      KeyResolvesToItself(table, i);
    case None =>
  }

  // ------------------------------------------------------- the concrete table

  /** `findCommandAlias` itself: resolution in `COMMAND_ALIASES`. */
  function FindCommandAlias(token: string): (r: Option<string>)
    ensures r.Some? <==> token != "" && IsListed(CommandAliases, Lower(token))
    ensures r.Some? ==> IsKey(CommandAliases, r.value)
  {
    FindAlias(CommandAliases, token)
  }

  /** Every key of `COMMAND_ALIASES` is a command name. */
  lemma KeysAreCommandNames()
    ensures forall i :: 0 <= i < |CommandAliases| ==> IsCommandName(CommandAliases[i].key)
  {
    EarlyKeysAreCommandNames();
    LateKeysAreCommandNames();
  }

  /** The keys from `menu` to `dh7` are command names. */
  lemma EarlyKeysAreCommandNames()
    ensures forall i :: 0 <= i < 13 ==> IsCommandName(CommandAliases[i].key)
  {
  }

  /** The keys from `kick` to `stats` are command names. */
  lemma LateKeysAreCommandNames()
    ensures forall i :: 13 <= i < |CommandAliases| ==> IsCommandName(CommandAliases[i].key)
  {
  }

  /** Every key of `COMMAND_ALIASES` is listed by its own entry. */
  lemma KeysListedByOwnEntry()
    ensures forall i :: 0 <= i < |CommandAliases| ==> CommandAliases[i].key in CommandAliases[i].aliases
  {
  }

  lemma SignaleNotListedEarlier()
    ensures forall j :: 0 <= j < 1 ==> CommandAliases[1].key !in CommandAliases[j].aliases
  {
  }

  lemma OwnerNotListedEarlier()
    ensures forall j :: 0 <= j < 2 ==> CommandAliases[2].key !in CommandAliases[j].aliases
  {
  }

  lemma QrNotListedEarlier()
    ensures forall j :: 0 <= j < 3 ==> CommandAliases[3].key !in CommandAliases[j].aliases
  {
  }

  lemma ImgNotListedEarlier()
    ensures forall j :: 0 <= j < 4 ==> CommandAliases[4].key !in CommandAliases[j].aliases
  {
  }

  lemma VoirNotListedEarlier()
    ensures forall j :: 0 <= j < 5 ==> CommandAliases[5].key !in CommandAliases[j].aliases
  {
  }

  lemma LienNotListedEarlier()
    ensures forall j :: 0 <= j < 6 ==> CommandAliases[6].key !in CommandAliases[j].aliases
  {
  }

  lemma NolienNotListedEarlier()
    ensures forall j :: 0 <= j < 7 ==> CommandAliases[7].key !in CommandAliases[j].aliases
  {
  }

  lemma Nolien2NotListedEarlier()
    ensures forall j :: 0 <= j < 8 ==> CommandAliases[8].key !in CommandAliases[j].aliases
  {
  }

  lemma PlayNotListedEarlier()
    ensures forall j :: 0 <= j < 9 ==> CommandAliases[9].key !in CommandAliases[j].aliases
  {
  }

  lemma TgNotListedEarlier()
    ensures forall j :: 0 <= j < 10 ==> CommandAliases[10].key !in CommandAliases[j].aliases
  {
  }

  lemma TmNotListedEarlier()
    ensures forall j :: 0 <= j < 11 ==> CommandAliases[11].key !in CommandAliases[j].aliases
  {
  }

  lemma Dh7NotListedEarlier()
    ensures forall j :: 0 <= j < 12 ==> CommandAliases[12].key !in CommandAliases[j].aliases
  {
  }

  lemma KickNotListedEarlier()
    ensures forall j :: 0 <= j < 13 ==> CommandAliases[13].key !in CommandAliases[j].aliases
  {
  }

  lemma AddNotListedEarlier()
    ensures forall j :: 0 <= j < 14 ==> CommandAliases[14].key !in CommandAliases[j].aliases
  {
  }

  lemma PromoteNotListedEarlier()
    ensures forall j :: 0 <= j < 15 ==> CommandAliases[15].key !in CommandAliases[j].aliases
  {
  }

  lemma DemoteNotListedEarlier()
    ensures forall j :: 0 <= j < 16 ==> CommandAliases[16].key !in CommandAliases[j].aliases
  {
  }

  lemma KickallNotListedEarlier()
    ensures forall j :: 0 <= j < 17 ==> CommandAliases[17].key !in CommandAliases[j].aliases
  {
  }

  lemma BanNotListedEarlier()
    ensures forall j :: 0 <= j < 18 ==> CommandAliases[18].key !in CommandAliases[j].aliases
  {
  }

  lemma PublicNotListedEarlier()
    ensures forall j :: 0 <= j < 19 ==> CommandAliases[19].key !in CommandAliases[j].aliases
  {
  }

  lemma PriveNotListedEarlier()
    ensures forall j :: 0 <= j < 20 ==> CommandAliases[20].key !in CommandAliases[j].aliases
  {
  }

  lemma BienvenueNotListedEarlier()
    ensures forall j :: 0 <= j < 21 ==> CommandAliases[21].key !in CommandAliases[j].aliases
  {
  }

  lemma MycodeNotListedEarlier()
    ensures forall j :: 0 <= j < 22 ==> CommandAliases[22].key !in CommandAliases[j].aliases
  {
  }

  lemma ParrainNotListedEarlier()
    ensures forall j :: 0 <= j < 23 ==> CommandAliases[23].key !in CommandAliases[j].aliases
  {
  }

  lemma StatsNotListedEarlier()
    ensures forall j :: 0 <= j < 24 ==> CommandAliases[24].key !in CommandAliases[j].aliases
  {
  }

  lemma KeyNotListedEarlier(i: nat)
    requires i < |CommandAliases|
    ensures forall j :: 0 <= j < i ==> CommandAliases[i].key !in CommandAliases[j].aliases
  {
    if i == 1 {
      SignaleNotListedEarlier();
    } else if i == 2 {
      OwnerNotListedEarlier();
    } else if i == 3 {
      QrNotListedEarlier();
    } else if i == 4 {
      ImgNotListedEarlier();
    } else if i == 5 {
      VoirNotListedEarlier();
    } else if i == 6 {
      LienNotListedEarlier();
    } else if i == 7 {
      NolienNotListedEarlier();
    } else if i == 8 {
      Nolien2NotListedEarlier();
    } else if i == 9 {
      PlayNotListedEarlier();
    } else if i == 10 {
      TgNotListedEarlier();
    } else if i == 11 {
      TmNotListedEarlier();
    } else if i == 12 {
      Dh7NotListedEarlier();
    } else if i == 13 {
      KickNotListedEarlier();
    } else if i == 14 {
      AddNotListedEarlier();
    } else if i == 15 {
      PromoteNotListedEarlier();
    } else if i == 16 {
      DemoteNotListedEarlier();
    } else if i == 17 {
      KickallNotListedEarlier();
    } else if i == 18 {
      BanNotListedEarlier();
    } else if i == 19 {
      PublicNotListedEarlier();
    } else if i == 20 {
      PriveNotListedEarlier();
    } else if i == 21 {
      BienvenueNotListedEarlier();
    } else if i == 22 {
      MycodeNotListedEarlier();
    } else if i == 23 {
      ParrainNotListedEarlier();
    } else if i == 24 {
      StatsNotListedEarlier();
    }
  }

  /** `COMMAND_ALIASES` is well keyed. */
  lemma CommandAliasesWellKeyed()
    ensures WellKeyed(CommandAliases)
  {
    KeysAreCommandNames();
    KeysListedByOwnEntry();
    forall i, j | 0 <= j < i < |CommandAliases|
      ensures CommandAliases[i].key !in CommandAliases[j].aliases
    {
      KeyNotListedEarlier(i);
    }
  }

  /** Every canonical command resolves to itself. */
  lemma CanonicalResolvesToItself(k: string)
    requires IsKey(CommandAliases, k)
    ensures FindCommandAlias(k) == Some(k)
  {
    CommandAliasesWellKeyed();
    var i :| 0 <= i < |CommandAliases| && CommandAliases[i].key == k;
    KeyResolvesToItself(CommandAliases, i);
  }

  /** `invite` is listed under both `lien` and `add`; the earlier entry wins. */
  lemma InviteResolvesToLien()
    ensures FindCommandAlias("invite") == Some("lien")
  {
    CommandNameFacts("invite");
    assert "invite" in CommandAliases[6].aliases;
    assert forall j :: 0 <= j < 6 ==> "invite" !in CommandAliases[j].aliases;
  }

  // ------------------------------------------------------------------ parsing

  /** A character of the command prefix set `[./!]`. */
  predicate IsPrefixChar(c: char) { c == '.' || c == '/' || c == '!' }

  /** `s.replace(/^([./!])+/, '')`: `s` without its leading run of prefix characters. */
  function StripCommandPrefix(s: string): (r: string)
    ensures |r| <= |s| && r == s[|s| - |r|..]
    ensures r == [] || !IsPrefixChar(r[0])
    ensures forall i :: 0 <= i < |s| - |r| ==> IsPrefixChar(s[i])
  {
    if s != [] && IsPrefixChar(s[0]) then StripCommandPrefix(s[1..]) else s
  }

  /** The result of `parseCommandFromText`: `cmd` is null or a command name. */
  datatype ParsedCommand = ParsedCommand(cmd: Option<string>, args: seq<string>)

  /** The text left once it is trimmed and its prefix run is removed. */
  function CommandBody(text: string): string {
    StripCommandPrefix(Trim(text))
  }

  /** The command and arguments read from the words of a command body: the
      lower-cased first word through the table (or standing for itself), then the rest. */
  function CommandOfWords(table: seq<AliasEntry>, parts: seq<string>): (r: ParsedCommand)
    requires forall i :: 0 <= i < |parts| ==> IsWord(parts[i])
    ensures r.cmd.None? <==> parts == []
    ensures r.cmd.None? ==> r.args == []
    ensures r.cmd.Some? ==> IsKey(table, r.cmd.value) || (IsWord(r.cmd.value) && !IsListed(table, r.cmd.value))
    ensures r.cmd.Some? ==> r.args == parts[1..]
    ensures parts != [] ==> r.cmd == Some(FindAlias(table, Lower(parts[0])).GetOr(Lower(parts[0])))
  {
    if parts == [] then ParsedCommand(None, [])
    else
      var token := Lower(parts[0]);
      LowerIdempotent(parts[0]);
      LowerOfWord(parts[0]);
      ParsedCommand(Some(FindAlias(table, token).GetOr(token)), parts[1..])
  }

  /** `parseCommandFromText(text)` with `table` as the alias table: trim, strip the
      prefix run, split into words; the lower-cased first word goes through the
      table (or stands for itself), the other words are the arguments. */
  function ParseWith(table: seq<AliasEntry>, text: string): (r: ParsedCommand)
    ensures r.cmd.None? ==> r.args == []
    ensures r.cmd.None? <==> forall i :: 0 <= i < |CommandBody(text)| ==> IsSpace(CommandBody(text)[i])
    ensures r.cmd.Some? ==> IsKey(table, r.cmd.value) || (IsWord(r.cmd.value) && !IsListed(table, r.cmd.value))
    ensures forall i :: 0 <= i < |r.args| ==> IsWord(r.args[i])
  {
    if text == "" then ParsedCommand(None, [])
    else CommandOfWords(table, Words(CommandBody(text)))
  }

  /** The command parsed from `text` is its first body word, lower-cased and
      resolved through the table (or standing for itself); the arguments are
      the other words. */
  lemma ParseWithFirstWord(table: seq<AliasEntry>, text: string)
    ensures var r := ParseWith(table, text);
            var ws := Words(CommandBody(text));
            r.cmd.Some? ==> ws != [] && r.cmd.value == FindAlias(table, Lower(ws[0])).GetOr(Lower(ws[0]))
                            && r.args == ws[1..]
  {
  }

  /** `parseCommandFromText` itself, over `COMMAND_ALIASES`. */
  function ParseCommandFromText(text: string): (r: ParsedCommand)
    ensures r.cmd.None? ==> r.args == []
    ensures r.cmd.Some? ==> IsKey(CommandAliases, r.cmd.value)
                            || (IsWord(r.cmd.value) && !IsListed(CommandAliases, r.cmd.value))
  {
    ParseWith(CommandAliases, text)
  }

  /** Empty or white-space-only text is not a command. */
  lemma BlankTextIsNoCommand(table: seq<AliasEntry>, text: string)
    requires forall i :: 0 <= i < |text| ==> IsSpace(text[i])
    ensures ParseWith(table, text) == ParsedCommand(None, [])
  {
    var t := TrimStart(text);
    assert t == [];
  }

  /** Text made only of prefix characters (after trimming) is not a command. */
  lemma PrefixOnlyTextIsNoCommand(table: seq<AliasEntry>, text: string)
    requires forall i :: 0 <= i < |Trim(text)| ==> IsPrefixChar(Trim(text)[i])
    ensures ParseWith(table, text) == ParsedCommand(None, [])
  {
    var s := CommandBody(text);
    assert s == [];
  }

  /** A command written as a prefix character, the key of a well-keyed table and
      space-separated arguments parses back to that key and those arguments. */
  lemma ParseOfFormatted(table: seq<AliasEntry>, i: nat, p: char, args: seq<string>)
    requires WellKeyed(table) && i < |table|
    requires IsPrefixChar(p)
    requires forall n :: 0 <= n < |args| ==> IsWord(args[n])
    ensures ParseWith(table, [p] + (table[i].key + Spaced(args))) == ParsedCommand(Some(table[i].key), args)
  {
    var k := table[i].key;
    CommandNameFacts(k);
    BodyOfFormatted(k, p, args);
    WordsOfSpaced(k, args);
    KeyResolvesToItself(table, i);
    assert ([k] + args)[1..] == args;
  }

  /** A command typed as any alias, in any case, after a prefix character parses
      to the key of the first entry listing that alias, with the arguments kept. */
  lemma ParseOfAlias(table: seq<AliasEntry>, i: nat, a: string, w: string, p: char, args: seq<string>)
    requires FirstListedAt(table, a, i) && Lower(w) == a
    requires IsWord(w) && !IsPrefixChar(w[0]) && IsPrefixChar(p)
    requires forall n :: 0 <= n < |args| ==> IsWord(args[n])
    ensures ParseWith(table, [p] + (w + Spaced(args))) == ParsedCommand(Some(table[i].key), args)
  {
    BodyOfFormatted(w, p, args);
    WordsOfSpaced(w, args);
    LowerIdempotent(w);
    var r := FindAlias(table, Lower(w));
    assert r.Some?;
    var i' :| 0 <= i' < |table| && table[i'].key == r.value && Lower(Lower(w)) in table[i'].aliases
              && forall j :: 0 <= j < i' ==> Lower(Lower(w)) !in table[j].aliases;
    assert i' == i;
    assert ([w] + args)[1..] == args;
  }

  /** `.REMOVE @x` is the `kick` command: `remove` is listed under `kick` and
      under no earlier entry, and case does not matter. */
  lemma RemoveParsesAsKick(p: char, args: seq<string>)
    requires IsPrefixChar(p)
    requires forall n :: 0 <= n < |args| ==> IsWord(args[n])
    ensures ParseCommandFromText([p] + ("REMOVE" + Spaced(args))) == ParsedCommand(Some("kick"), args)
  {
    LowerOfRemove();
    RemoveListedUnderKick();
    ParseOfAlias(CommandAliases, 13, "remove", "REMOVE", p, args);
  }

  lemma LowerOfRemove()
    ensures Lower("REMOVE") == "remove"
    ensures IsWord("REMOVE") && !IsPrefixChar("REMOVE"[0])
  {
    var r := Lower("REMOVE");
    assert |r| == 6;
    forall i | 0 <= i < 6
      ensures r[i] == "remove"[i]
    {
      assert IsUpper("REMOVE"[i]);
    }
  }

  lemma RemoveListedUnderKick()
    ensures FirstListedAt(CommandAliases, "remove", 13) && CommandAliases[13].key == "kick"
  {
  }

  /** Entry `i` is the first one of `table` that lists `a`. */
  predicate FirstListedAt(table: seq<AliasEntry>, a: string, i: nat) {
    i < |table| && a in table[i].aliases && forall j :: 0 <= j < i ==> a !in table[j].aliases
  }

  /** Trimming and prefix stripping recover what follows the prefix character. */
  lemma BodyOfFormatted(k: string, p: char, args: seq<string>)
    requires IsWord(k) && !IsPrefixChar(k[0])
    requires IsPrefixChar(p)
    requires forall n :: 0 <= n < |args| ==> IsWord(args[n])
    ensures CommandBody([p] + (k + Spaced(args))) == k + Spaced(args)
  {
    var body := k + Spaced(args);
    WordThenSpacedEndsInWord(k, args);
    assert body != [] && body[0] == k[0];
    BodyAfterPrefix(p, body);
  }

  /** A word followed by space-separated words does not end in white space. */
  lemma WordThenSpacedEndsInWord(k: string, args: seq<string>)
    requires IsWord(k)
    requires forall n :: 0 <= n < |args| ==> IsWord(args[n])
    ensures !IsSpace((k + Spaced(args))[|k + Spaced(args)| - 1])
  {
    if args != [] {
      SpacedEndsWithLastWord(args);
    }
  }

  /** One prefix character before a body that needs no trimming and has no prefix is stripped. */
  lemma BodyAfterPrefix(p: char, body: string)
    requires IsPrefixChar(p)
    requires body != [] && !IsPrefixChar(body[0]) && !IsSpace(body[|body| - 1])
    ensures CommandBody([p] + body) == body
  {
    TrimOfTrimmed([p] + body);
    assert ([p] + body)[1..] == body;
  }

  /** Every canonical command typed after a prefix, with its arguments, is recognised. */
  lemma CommandRoundTrip(k: string, p: char, args: seq<string>)
    requires IsKey(CommandAliases, k) && IsPrefixChar(p)
    requires forall n :: 0 <= n < |args| ==> IsWord(args[n])
    ensures ParseCommandFromText([p] + (k + Spaced(args))) == ParsedCommand(Some(k), args)
  {
    CommandAliasesWellKeyed();
    KeyRoundTrip(CommandAliases, k, p, args);
  }

  /** `ParseOfFormatted` for a key given by value. */
  lemma KeyRoundTrip(table: seq<AliasEntry>, k: string, p: char, args: seq<string>)
    requires WellKeyed(table) && IsKey(table, k) && IsPrefixChar(p)
    requires forall n :: 0 <= n < |args| ==> IsWord(args[n])
    ensures ParseWith(table, [p] + (k + Spaced(args))) == ParsedCommand(Some(k), args)
  {
    var i :| 0 <= i < |table| && table[i].key == k;
    ParseOfFormatted(table, i, p, args);
  }

  /** Space-separated words end with the last character of the last word. */
  lemma {:induction false} SpacedEndsWithLastWord(ws: seq<string>)
    requires ws != []
    requires forall i :: 0 <= i < |ws| ==> IsWord(ws[i])
    ensures Spaced(ws) != [] && !IsSpace(Spaced(ws)[|Spaced(ws)| - 1])
  {
    if |ws| > 1 {
      SpacedEndsWithLastWord(ws[1..]);
    }
  }
}

# Adam_D'H7 WhatsApp gateway — a verified Dafny model

The gateway runs many WhatsApp (Baileys) sessions side by side, in two
variants. `index.js` is driven from Telegram (`/connect`, `/stop`, `/list`)
and answers prefixed commands (`.kick`, `!nolien`, `/dh7`, …) in chats.
`server.js` is driven from a web client and answers a handful of dot commands.

This project models the decisions and in-memory tables under that I/O glue:

- **Credential-folder allocation.** `auth_info<N>` is chosen from a directory
  listing, in both variants (`auth_folder.dfy`).
- **Command recognition in index.js.** This covers the alias table
  `COMMAND_ALIASES`, `findCommandAlias` and `parseCommandFromText`
  (`commands.dfy`). The alias search and the parser are stated over any table.
  The facts that make the concrete table behave are proved separately: every
  key is a lower-case command name listed by its own entry and by no earlier
  entry.
- **Messages** (`messages.dfy`):
  - text extraction (index.js and server.js differ);
  - sender id and number;
  - the owner check;
  - the display name;
  - normalisation of a typed number into `<digits>@s.whatsapp.net`.
- **The link filter and the start of index.js's `messages.upsert` handler**
  (`link_filter.dfy`). Given a batch, the handler ignores it, deletes the
  message, or dispatches its command.
- **Membership commands** (`membership.dfy`). `kick`, `add` and
  `promote`/`demote` choose their targets, and a per-target loop issues one
  `groupParticipantsUpdate` call per target.
- **Close codes** (`lifecycle.dfy`). A close code is classified as logged out,
  restart required (or 515), or anything else.
- **The mutable state of index.js** (`gateway.dfy`):
  - `Session` is the session object, with its `noLienMode` table (`nolien`,
    `nolien2`) and its `invisibleMode` interval table (`dh7`).
  - `Registry` is the `sessions` object, with start, open and close handling.
    A restart is returned as a record instead of being put on a timer.
  - `TelegramBridge` is `telegramSessionMap` behind `/connect`, `/stop` and
    `/list`.
- **server.js** (`server.dfy`):
  - the guarded `sessions` registry;
  - open and close handling, with the capped linear backoff;
  - the owner number taken from `meta.json` and from the connected user;
  - the `messages.upsert` handler: the public-mode auto-reply and the `.ping`,
    `.menu` and `.help` commands.

Inputs from the outside world are parameters:

- the directory listing;
- the result of `useMultiFileAuthState` (succeeds or throws);
- new uuids;
- the group-admin answer;
- link detection (`LINK_REGEX`), taken as an uninterpreted predicate;
- `JSON.stringify(message)`;
- the socket's own user id;
- the phone number stored in `meta.json`.

Interval timers are natural-number handles. A handle in a set of live timers
is an interval that still fires.

JavaScript's `null`, `undefined` and `''` are all falsy in the `||` chains of
the source. Each is modelled as the empty string wherever the source only
tests for truthiness.

## Model

| member | source | states |
|---|---|---|
| AuthFolder.MaxNumber | index.js:65-69 | the maximum of the numbers of the counted names is at least each of them and is 0 or one of them (`nums.length ? Math.max(...nums) : 0`) |
| AuthFolder.AuthNameNumber | index.js:64-70 | a generated `auth_info<N>` is itself counted by index.js and its trailing digit run reads back as N |
| AuthFolder.NextAuthFolder | index.js:63-71 | the result is `auth_info` + N, where N is above every counted name's trailing number and is 1 or one more than some counted name's number; the result is never an existing name |
| AuthFolder.FirstAuthFolder | index.js:69-70 | with no `auth_info`/`auth_` names in the listing the result is `auth_info1` |
| AuthFolder.AuthInfoDigits | server.js:51 | `/auth_info(\d+)/` fails exactly when no `auth_info` followed by a digit occurs; otherwise it yields the whole digit run after the leftmost such occurrence |
| AuthFolder.ServerAuthNameNumber | server.js:50-53 | a generated name is counted by server.js and reads back as its own number |
| AuthFolder.ServerNextAuthFolder | server.js:49-54 | the same guarantees as index.js, for names starting with `auth_info` and the digits right after the leftmost `auth_info` |
| AuthFolder.FirstServerAuthFolder | server.js:52-53 | with no `auth_info` names the result is `auth_info1` |
| Text.Lower | index.js:114 | lower-casing keeps the length, maps each upper-case letter to its lower-case letter (code + 32) and changes nothing else |
| Text.LowerIdempotent | index.js:114 | lower-casing twice is lower-casing once |
| Text.Trim | index.js:122 | the trimmed text is a slice of the input with only white space before and after it, and neither starts nor ends with white space |
| Text.TrimBothEnds | index.js:122 | cutting leading then trailing white space leaves the slice between two white-space runs |
| Text.Before | server.js:135 | `s.split(sep)[0]` is a prefix of `s` without `sep`, followed in `s` by `sep` when shorter |
| Text.BeforeOfJoin | server.js:135 | splitting `p + sep + rest` at the first `sep` gives back `p` when `p` has no `sep` |
| Text.KeepDigits | index.js:450 | `replace(/[^0-9]/g,'')` leaves only digits, keeps a single digit and drops a single non-digit, and is the identity on digit strings |
| Text.KeepDigitsOfJoin | index.js:450 | the digits of `a + b` are those of `a` followed by those of `b`: digits keep their order and multiplicity |
| Text.DecRoundTrip | index.js:66-70 | `parseInt` of a rendered number gives the number |
| Text.DecInjective | index.js:70 | distinct numbers give distinct folder names |
| Text.IntTextInjective | index.js:651 | distinct chat ids give distinct key prefixes |
| Text.WordsOfSpaced | index.js:124 | splitting words joined by single spaces on `/\s+/` and dropping empties gives the words back |
| Text.SplitWs | index.js:662 | `split(/\s+/)` gives at least one field, none containing white space; the first field is the text up to its first white space; a text without white space is its own single field |
| Text.SplitWsOfJoin | index.js:662 | a field followed by a white-space run splits off, and the rest splits on its own |
| Text.TrimStartOfSpaces | server.js:204 | leading white space before a non-space is exactly what `trimStart` removes |
| Commands.FirstListing | index.js:115-117 | the search over `Object.entries` returns the first entry listing the token, or reports that none does |
| Commands.FindAlias | index.js:112-119 | the result is present exactly for a non-empty token whose lower-case form some entry lists; it is the key of the first such entry |
| Commands.KeyResolvesToItself | index.js:112-119 | in a table where each key is listed by its own entry and by no earlier one, each key resolves to itself |
| Commands.FindAliasIgnoresCase | index.js:114 | resolution does not depend on letter case |
| Commands.ResolveIdempotent | index.js:127 | resolving the resolved command again changes nothing |
| Commands.CommandNameFacts | index.js:85-111 | a lower-case key is a word without prefix character and is its own lower-case form |
| Commands.KeysAreCommandNames | index.js:85-111 | every key of `COMMAND_ALIASES` is lower-case letters and digits |
| Commands.KeysListedByOwnEntry | index.js:85-111 | every key of `COMMAND_ALIASES` is listed among its own aliases |
| Commands.KeyNotListedEarlier | index.js:85-111 | no key of `COMMAND_ALIASES` is an alias of an earlier entry |
| Commands.CommandAliasesWellKeyed | index.js:85-111 | `COMMAND_ALIASES` satisfies all three facts above |
| Commands.CanonicalResolvesToItself | index.js:85-119 | every canonical command of `COMMAND_ALIASES` resolves to itself |
| Commands.InviteResolvesToLien | index.js:92-117 | `invite`, listed under both `lien` and `add`, resolves to `lien` |
| Commands.FindCommandAlias | index.js:112-119 | over `COMMAND_ALIASES`: present exactly for a non-empty token whose lower-case form is listed, and then a key of the table |
| Commands.StripCommandPrefix | index.js:123 | the result is what follows the leading run of `.`, `/`, `!` and does not start with one |
| Commands.CommandOfWords | index.js:125-129 | no words give no command and no args; otherwise the command is the lower-cased first word resolved through the table, or that word itself when unlisted (so a key or an unlisted word), and the args are the remaining words |
| Commands.ParseWith | index.js:120-130 | no command (and no args) exactly when the trimmed, prefix-stripped text is blank; a command is a key or an unlisted word; every arg is a non-empty word |
| Commands.ParseWithFirstWord | index.js:120-130 | a parsed command is the first word of the trimmed, prefix-stripped text, lower-cased and resolved through the table or kept; the args are the other words |
| Commands.ParseCommandFromText | index.js:120-130 | over `COMMAND_ALIASES`: no command has no args; a command is a key or an unlisted word |
| Commands.BlankTextIsNoCommand | index.js:121-125 | empty or white-space text gives `{ cmd: null, args: [] }` |
| Commands.PrefixOnlyTextIsNoCommand | index.js:123-125 | text made only of prefix characters gives `{ cmd: null, args: [] }` |
| Commands.ParseOfFormatted | index.js:120-130 | a prefix character, a key and space-separated words parse back to that key and those words |
| Commands.BodyOfFormatted | index.js:122-123 | trimming and prefix stripping of such a text leave the key and the words |
| Commands.KeyRoundTrip | index.js:120-130 | the same, for a key given by value |
| Commands.CommandRoundTrip | index.js:85-130 | every canonical command of `COMMAND_ALIASES` typed after a prefix, with its arguments, is recognised with those arguments |
| Commands.ParseOfAlias | index.js:112-130 | any alias, in any letter case, typed after a prefix with space-separated arguments parses to the key of the first entry listing it, with those arguments |
| Commands.RemoveParsesAsKick | index.js:98-130 | `.REMOVE` followed by arguments parses as `kick` with those arguments |
| Messages.FirstNonEmpty | index.js:311-316 | the first non-empty candidate, "" exactly when all are empty |
| Messages.IndexRawText | index.js:310-316 | conversation, then extended text, then image, video and document caption, each taken only when non-empty |
| Messages.FirstNonEmptyAt | index.js:311-316 | the candidate at the first non-empty position is the one chosen |
| Messages.IndexTextIsFirstNonEmpty | index.js:310-316 | the index.js extraction is the first non-empty candidate in priority order |
| Messages.IndexText | index.js:318 | the text handed to the parser is the extracted text with its surrounding white space cut off, and neither starts nor ends with white space |
| Messages.ServerText | server.js:184-189 | conversation; else a present extended text message decides, even with no text; else image then video caption |
| Messages.ExtractionsAgree | server.js:184-189 | the two extractions agree except when server.js, with an empty conversation, stops at a text-less extended text message, or only a document has a caption |
| Messages.ServerStopsAtEmptyExtendedText | server.js:187 | an extended text message without text hides every caption from server.js |
| Messages.SenderId | server.js:134 | the participant when set, otherwise the chat JID (index.js:321 alike) |
| Messages.NumberFromJid | server.js:135 | "" for an empty JID, otherwise the prefix before the first `@`, which contains no `@` |
| Messages.SenderNumber | index.js:322 | the id itself when it has no `@`, otherwise its prefix before the first `@` |
| Messages.SenderNumberIsNumberFromJid | index.js:322 | the index.js and server.js ways of taking the number agree |
| Messages.NumberOfJid | server.js:135 | the number of `n@server` is `n` |
| Messages.IsOwner | index.js:324-325 | `OWNER_NUMBER` is always owner; with no session owner only it is; otherwise it and the session owner are |
| Messages.OwnerJidIsOwner | index.js:321-325 | a message whose sender JID is the owner's own is from an owner |
| Messages.DisplayName | server.js:136 | a non-empty push name; with none, the quoted participant when the content has a non-empty one; otherwise `Utilisateur`; never empty |
| Messages.NormalizeTarget | index.js:450 | a typed number becomes digits followed by `@s.whatsapp.net` |
| Messages.NormalizeTargetNumber | index.js:450 | the number of a normalised target is exactly the typed digits |
| Messages.NormalizeTargetStable | index.js:450 | normalising the number of a normalised target gives it back |
| LinkFilter.ModeOf | index.js:371 | an unset mode counts as `off` |
| LinkFilter.NonEmpty | index.js:361-364 | keeps exactly the non-empty strings; a single string is kept exactly when non-empty |
| LinkFilter.NonEmptyOfJoin | index.js:361-364 | the survivors of `xs + ys` are those of `xs` followed by those of `ys`: order and repetitions are kept |
| LinkFilter.ShouldDelete | index.js:370-387 | deletion only in groups, for link-bearing messages not from the bot without a caption link, never with `off`; `all` deletes all such; `exceptAdmins` exactly those from non-admin non-owners |
| LinkFilter.HandleInbound | index.js:300-390 | empty batches, content-less messages and status broadcasts are ignored; a message is deleted exactly when the filter says so; a kept message is dispatched with the command and args parsed from its extracted text, or has no command when the parse has none |
| LinkFilter.OnlyFirstMessageCounts | index.js:300-302 | messages after the first do not change the outcome |
| LinkFilter.OffNeverDeletes | index.js:371-384 | with the mode unset or `off` nothing is deleted |
| LinkFilter.OwnerSurvivesExceptAdmins | index.js:375-380 | an owner's message is never deleted under `exceptAdmins` |
| Membership.Normalized | index.js:450 | one normalised JID per typed argument, in order |
| Membership.KickPlan | index.js:443-451 | outside groups the group-only reply; mentions first, then the quoted participant, then the typed numbers; the usage reply when none |
| Membership.AddPlan | index.js:458-465 | the typed numbers then the mentions, both kept; the usage reply when both are empty; the quoted participant is ignored |
| Membership.RankPlan | index.js:472-481 | a present non-empty mention list is the target list; with no mention list the quoted participant; with an empty mention list, or neither, the typed numbers, else the usage reply; the action follows the command |
| Membership.EmptyMentionListDiffers | index.js:448-449 | with an empty mention list and a quoted participant `kick` removes the participant while `promote` answers with its usage |
| Membership.IssueUpdates | index.js:452-454 | one update call per target, in order, each naming only that target |
| Membership.IssuedCallsCoverTargets | index.js:466-468 | the calls name every target and nothing else |
| Lifecycle.Classify | index.js:258-293 | logged-out is terminal, restart-required or 515 restarts, anything else (including no code) reconnects (server.js:157-168 alike) |
| Gateway.NoLienTarget | index.js:494 | `off` exactly when the first argument lower-cases to `off`; else `exceptAdmins` for `nolien`, `all` for `nolien2` |
| Gateway.NoLienUpdate | index.js:488-508 | only an authorised group command changes the table, and only at its own chat |
| Gateway.NoLienReply | index.js:489-506 | outside groups the group-only reply; an unauthorised sender the refusal; otherwise `Mode nolien: ` (for `nolien`) or `Mode nolien2: ` (for `nolien2`) followed by the stored mode's name |
| Gateway.NoLienOffDisables | index.js:494-505 | after `nolien off` the filter treats the chat as `off` |
| Gateway.LaterNoLienWins | index.js:494-505 | `nolien2` then `nolien` leaves `exceptAdmins` |
| Gateway.Toggle | index.js:585-595 | toggling removes an existing interval and installs the new one otherwise; other chats are untouched |
| Gateway.ToggleTwice | index.js:583-597 | two toggles restore the table |
| Gateway.InvisibleReply | index.js:584-595 | the bot name followed by the group-only text outside groups, the disabled text when an interval was running, and the enabled text otherwise |
| Gateway.Session.constructor | index.js:184-199 | a new session has no link modes, no intervals and is not restarting |
| Gateway.Session.NoLien | index.js:488-508 | the table becomes `NoLienUpdate` of the old one, the reply names the mode, nothing else changes |
| Gateway.Session.Invisible | index.js:583-597 | the interval table is toggled in groups only; the cleared interval stops firing and a new one starts; every live interval belongs to exactly one chat |
| Gateway.Registry.Start | index.js:163-199 | missing id and folder get the new uuid and `nextAuthFolder()`; a failed auth state leaves the registry unchanged; otherwise the fresh session is stored under its id |
| Gateway.Registry.OnOpen | index.js:248-255 | the session is no longer restarting, unless the awaited Telegram "connected" message was rejected, which leaves `restarting` as it was |
| Gateway.Registry.OnClose | index.js:257-295 | a rejected Telegram "disconnected" message aborts the handler: the entry stays and nothing is scheduled; otherwise the entry is deleted; logout schedules nothing; restart marks the session restarting and schedules 2000 ms; other codes schedule 5000 ms; both with a fresh id and the same folder, chat, name and sid |
| Gateway.Registry.Recreate | index.js:275-276 | the scheduled start registers a new session under the fresh id on the recorded folder; it is not restarting and its `noLienMode` and `invisibleMode` are empty (the new `sessionObj` of index.js:184-199), so a chat's link mode is lost on every reconnect |
| Gateway.Without | index.js:674 | removes exactly the key, keeps the others distinct, and on one key keeps it unless it is the removed one |
| Gateway.WithoutOfJoin | index.js:674 | removal works piece by piece, so the other keys keep their order |
| Gateway.SecondField | index.js:687 | `k.split('_')[1]` contains no `_`, and is empty when `k` has none |
| Gateway.SecondFieldOfJoin | index.js:687 | the second field of `a_b` or `a_b_…` is `b` |
| Gateway.KeyOfChat | index.js:651-687 | a key `${chatId}_${sid}` starts with `${c}_` exactly when `c` is its chat, and its second field is its sid |
| Gateway.ListedSidsMembers | index.js:687 | a sid is collected exactly when some key was made for that chat with that sid |
| Gateway.TelegramBridge.Register | index.js:651 | the entry is stored under `${chatId}_${sid}`, a new key last in order |
| Gateway.TelegramBridge.Connect | index.js:637-656 | on a successful start the new session uses the next folder and the new uuid and is registered in the bridge, a new key last in order; on failure neither table changes |
| Gateway.StopArg | index.js:662-663 | the `/stop` argument contains no white space |
| Gateway.StopArgOfCommand | index.js:662-663 | `/stop` followed by white space and a sid names that sid, whatever follows after white space |
| Gateway.TelegramBridge.Stop | index.js:659-680 | usage without a sid; nothing changes for an unknown key; otherwise exactly that key is removed and the live session is logged out |
| Gateway.TelegramBridge.List | index.js:683-691 | the sids of this chat's entries, in insertion order, and exactly those |
| Gateway.StopReply | index.js:663-676 | the usage text without a sid, the unknown-session text for an unknown key, and `Sesyon <sid> sispann.` after a stop |
| Gateway.ListReply | index.js:688-689 | the no-session text for no sids; otherwise the header followed by the sids joined with `, ` |
| Gateway.ListReplyNamesEverySid | index.js:687-689 | every listed sid appears in the `/list` reply |
| Text.JoinHasEach | index.js:689 | each element of a list occurs in its `join` |
| Server.Backoff | server.js:164 | the delay is `min(30000, 2000 + attempt * 2000)`: at most both, and equal to one of them |
| Server.BackoffBounds | server.js:164 | the restart delay lies in [2000, 30000] |
| Server.BackoffMonotone | server.js:164 | the delay never decreases with the attempt count |
| Server.BackoffSteps | server.js:164 | it grows by 2000 ms per attempt and is capped from attempt 14 on |
| Server.ServerSession.constructor | server.js:88-101 | a new session is not restarting and has no bot id |
| Server.MetaOwner | server.js:73-80 | the owner number from `meta.json` is the digits of a non-empty phone |
| Server.OwnerOnOpen | server.js:149 | a known owner is kept; otherwise the user id's (else jid's) number before `@` |
| Server.ServerRegistry.Start | server.js:56-101 | a registered id returns the existing session unchanged; a failed auth state changes nothing; otherwise a new session is registered with the owner from `meta.json` |
| Server.ServerRegistry.OnOpen | server.js:147-154 | bot id and owner are recorded on the session; the session registered under its id stops restarting and is otherwise unchanged; nothing else changes |
| Server.ServerRegistry.OnClose | server.js:156-169 | logout deletes only; restart marks the registered session (and nothing else of it), deletes and reschedules the same id after `Backoff(attempt)` with attempt + 1; other codes delete and reschedule after 5000 ms with attempt 0 and change no session |
| Server.ServerRegistry.Resume | server.js:164-168 | the scheduled start reuses the id and folder with the recorded attempt; the new session (server.js:88-101) takes its owner from `meta.json`, is not restarting and has no bot id |
| Server.DotCommand | server.js:203-204 | only text starting with `.` is a command; the command is lower-case and has no space |
| Server.DotReply | server.js:206-219 | `Pong!` exactly for `ping`; the menu text for `menu` and the help text for `help`; `Unknown command: ` followed by the command exactly for anything else |
| Server.DotCommandOfWord | server.js:203-204 | the word after the dot and any white space, in any case, followed by nothing or by a space and anything, is the lower-cased command |
| Server.FirstWordOfTrimmed | server.js:204 | trimming a word followed by nothing or a space and anything, then cutting at the first space, gives the word |
| Server.PingAnswersPong | server.js:208-209 | `.ping`, in any case, bare or with white space after the dot or arguments after a space, answers `Pong!` |
| Server.BareDotIsUnknown | server.js:203-205 | a bare `.` is the command with the empty name and gets `Unknown command: ` |
| Server.TabStaysInCommand | server.js:204 | only a space ends the command word: `.ping` followed by a tab and more is not `ping` |
| Server.ServerInbound | server.js:175-219 | ignored batches get no reply; in public mode a non-empty text not from the bot gets the auto-reply first; a dot command gets its answer last |
| Server.OwnDotCommandAnswered | server.js:196-219 | the bot's own dot commands get their answer and no auto-reply |

## Left out

- Sockets and transport are left out: Baileys (`makeWASocket`,
  `sendMessage`, `groupMetadata`, `logout`, `end`), Telegraf, socket.io and
  express. Their effects appear only as replies, update calls, deletions and
  `logout` flags.
- Real time is left out: `setTimeout`, `setInterval`, `sleep`. A scheduled
  start is a returned record (delay, id choice, folder), and an interval is a
  handle.
- Randomness is left out: `uuidv4` and the `Math.random` sid are parameters.
  That a new uuid differs from every registered id is not modelled.
- File-system effects are left out: `ensureDir`, `meta.json` writes,
  `rmSync`. `meta.json` reads and directory listings are parameters.
- `LINK_REGEX` and the regex tests are not interpreted. Link detection is
  an uninterpreted predicate, and `JSON.stringify` is a string parameter.
- AuthFolder.NextAuthFolder and AuthFolder.ServerNextAuthFolder read and
  render folder numbers as unbounded naturals. The source uses doubles: from
  2^53 on `parseInt` loses precision, so two names can collide, and from
  10^21 on the template string renders the number in exponent form. Their
  guarantees hold only for folder numbers below 2^53.
- Server.ServerRegistry.Resume returns None when the scheduled start cannot
  build its auth state. In the source that start runs in a timer without a
  `catch`, so the rejection is unhandled and ends the Node process
  (server.js:70, 164, 168). Ending the process is not modelled.
- Text.Lower folds only ASCII letters, and Text.IsSpace covers ASCII white
  space plus U+000B, U+000C and U+00A0. JavaScript's Unicode `toLowerCase`
  and `trim` cover more characters, so the model is exact only on such text.
- index.js commands other than `nolien`, `nolien2`, `dh7`, `kick`, `add`,
  `promote` and `demote` are left out. They send media or text (menu, qr,
  img, lien, tagall, voir, owner vCard, signale report loop, welcome
  handler). Their parsing is modelled; their effects are I/O.
- Image fetching and caching are not modelled: index.js `fetchImageBuffer`
  and server.js `cachedImageBuffer`.
- index.js `sessionOwnerNumber` is never assigned, so its owner check is
  `IsOwner(number, "")`. The field is not modelled.
- `/connect` name parsing is left out. The quoted or word-joined bot name is
  a parameter; "" stands for the default `BOT_NAME`.
- The QR, connected and disconnected notifications to Telegram or
  socket.io are not modelled as messages. Only the outcome of the two
  awaited index.js sends counts: it is the `notified` parameter of
  Gateway.Registry.OnOpen and Gateway.Registry.OnClose.
- Gateway.Registry.Recreate does not model the Telegram messages sent after
  a scheduled start (index.js:277, 281, 291, 292). Those promises are not
  awaited and have no `catch`, so a rejected send is an unhandled rejection
  that ends the Node process. Ending the process is not modelled.
- The `args` string of server.js dot commands is not modelled, because no
  command reads it.
- server.js lines 230-236 are not modelled. They are garbled: the socket.io
  `connection` handler is inside a line comment.
- Gateway.Registry.OnClose does not cancel the session's `dh7` intervals,
  because the source does not. They stay live after a close.
- Server.ServerRegistry.OnOpen does not reset the attempt count on a
  successful open, because the source does not. Only a non-restart close
  resets it.
- Fetching the Baileys version (`fetchLatestBaileysVersion`) is not
  modelled. It only chooses a protocol version.

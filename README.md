# XMPPCraft core, modelled in Dafny

XMPPCraft is a bot that bridges a Minecraft server and an XMPP chat room.
It reads the server's console log, recognises chat messages, joins,
achievements and deaths, and mirrors them into the room. It mirrors room
messages back into the game through the server console. It also answers
commands typed on either side. This project models the logic behind that
bridge and proves what it promises:

- `Registry` (user_registry.dfy): the user registry. It is a list of `User`
  objects with a nickname, a game name, a JID, a UUID and a level. It has
  case-insensitive lookups, registration from either side, linking and
  merging, deletion, and level and JID updates. The list and the fields are
  updated in place, as in the source.
- `Commands` (bot_command.dfy): a command's fields, its full name, and its
  help and enabled flags. It covers prefix and regular-expression matching,
  the `lastMatcher` a regex command keeps, and the response and exception
  values a command produces.
- `Dispatch`, `ChatText` and `Bot` (dispatch.dfy, chat_text.dfy,
  chat_bot.dfy):
  - `parseCommand`: issuer resolution by source, the anonymous level, the
    "who am i" bypass, the impersonation guard, command selection and the
    level check, and failure handling with `lastException`;
  - the `help`, `toggle` and `geterror` bodies;
  - text shaping: escaping, line splitting and truncation;
  - the routing of answers and mirrors between the game and the room.

  Everything the bot sends is appended to an outbox of actions. The roster,
  presence and connection state come in as an environment value.
- `UserCommands` and `GameCommands` (user_commands.dfy, game_commands.dfy):
  - the registry commands `useradd`, `usermod`, `userdel`, `lookup` and
    "A is B";
  - the console commands `$`, `say`, `shutdown` and `list`.
- `LogParsing` (log_parser.dfy): the log pipeline. It is a FIFO of console
  lines and a dispatcher step that classifies one line by the exact
  precedence of the source's patterns. The step notifies a snapshot of the
  listeners and feeds the capture buffer. A listener that throws leaves
  the listener loop and ends the dispatcher thread, since the loop catches
  only InterruptedException. The regular expressions are
  written as hand matchers that search in the regex engine's backtracking
  order.
- `Nbt` (nbt_parser.dfy): the Named Binary Tag decoder. It is specified as
  functions over the input bytes and a cursor. An `NbtParser` class reads
  the same way, moving a cursor field, and its methods are proved equal to
  those functions.
- `NbtPath` (nbt_path.dfy): the path language over decoded tags. It covers
  printing, parsing (with a round trip proved), and evaluation with its
  error mapping.
- `Text` and `Wrappers` (text.dfy, wrappers.dfy): the `java.lang.String`
  operations used, and Option and Result.

A few behaviours are modelled as written, even where they look accidental:

- tag id 12 overruns the type table and becomes an error tag rather than
  ending the compound;
- "A is B" on two names of one user removes that user;
- `" ".split(" ")` is empty;
- the nickname prefix the registry strips is the two-character literal
  U+0E22 U+0E07 of UserRegistry.java, and `substring(1)` removes only its
  first character.

## Model

| member | source | states |
|---|---|---|
| Registry.Find | src/eu/neurovertex/xmppcraft/UserRegistry.java:81-84 | the index found is the first in list order whose field equals the key ignoring case (a null field never matches); None exactly when no user matches |
| Registry.SplitAllEmptyPieces | src/eu/neurovertex/xmppcraft/UserRegistry.java:97-98 | every piece of splitting a JID at '/' is empty exactly when the JID is made only of slashes |
| Registry.BareJidIsPrefixBeforeSlash | src/eu/neurovertex/xmppcraft/UserRegistry.java:96-98 | `jid.split("/")[0]` fails exactly for a non-empty JID made only of slashes; otherwise the key is the text before the first '/' (the whole JID when it has none) |
| Registry.ByNameFindsByEitherName | src/eu/neurovertex/xmppcraft/UserRegistry.java:105-112 | getUser finds a user only through the nickname lookup (name not starting with '#') or the gamename lookup (name not starting with the sigil), and prefers the nickname lookup when it succeeds |
| Registry.RegisterFromGameTwice | src/eu/neurovertex/xmppcraft/UserRegistry.java:23-34 | registering the same game name twice returns the same user, the second call does not grow the list, and that user holds the second UUID |
| Registry.RegisterFromGameHashNameGrows | src/eu/neurovertex/xmppcraft/UserRegistry.java:23-34 | a game name starting with '#' is looked up stripped but stored unstripped, so registering it twice adds two users |
| Registry.RegisterFromXmppTwice | src/eu/neurovertex/xmppcraft/UserRegistry.java:36-42 | registering the same nickname twice returns the same user and leaves the list as the first call left it |
| Registry.LinkCount | src/eu/neurovertex/xmppcraft/UserRegistry.java:58-76 | link adds one user when neither name is known, removes one when both are, and keeps the count otherwise |
| Registry.FindIsFirst | src/eu/neurovertex/xmppcraft/UserRegistry.java:81-84 | a matching index with no match before it is what the lookup returns |
| Registry.ByNickname | src/eu/neurovertex/xmppcraft/UserRegistry.java:78-85 | getByNickname drops the first character of a leading sigil, then gives a user whose nickname equals the rest ignoring case, or none when no user has it |
| Registry.ByGamename | src/eu/neurovertex/xmppcraft/UserRegistry.java:87-94 | getByGamename drops a leading '#', then gives a user whose game name equals the rest ignoring case, or none when no user has it |
| Registry.ByJid | src/eu/neurovertex/xmppcraft/UserRegistry.java:96-103 | getByJID throws exactly when the JID contains a slash and splitting it at '/' leaves no piece to index; otherwise it gives a user whose JID equals the bare JID ignoring case, or none when no user has it |
| Registry.ByName | src/eu/neurovertex/xmppcraft/UserRegistry.java:105-112 | getUser: the nickname lookup unless the name starts with '#', then the game-name lookup when that found nothing and the name does not start with the sigil; what it finds is stated by Registry.ByNameFindsByEitherName |
| Registry.UserString | src/eu/neurovertex/xmppcraft/UserRegistry.java:217-219 | User.toString: "<game:" and the game name, ",xmpp:" and the nickname, then ">", a missing name printed as null |
| Registry.LinkResolvesBothNames | src/eu/neurovertex/xmppcraft/UserRegistry.java:58-76 | when g does not start with "#", n does not start with the nickname sigil, at most one user's nickname matches n, and the two names do not already belong to one user, afterwards getByGamename(g) and getByNickname(n) return the same user, gameToXMPP(g) is n and XMPPToGame(n) is g (ignoring case) |
| Registry.LinkChatUser | src/eu/neurovertex/xmppcraft/UserRegistry.java:63-64 | the known chat user who takes the game name is then the first user carrying both names |
| Registry.LinkGameUser | src/eu/neurovertex/xmppcraft/UserRegistry.java:65-66 | the known game user who takes the nickname is then the first user carrying both names |
| Registry.LinkMerge | src/eu/neurovertex/xmppcraft/UserRegistry.java:67-73 | after a merge, the game user (at its shifted index) is the first user carrying both names |
| Registry.MergeClearBefore | src/eu/neurovertex/xmppcraft/UserRegistry.java:67-73 | after a merge, no user listed before the merged one carries either name |
| Registry.FoundAtBoth | src/eu/neurovertex/xmppcraft/UserRegistry.java:78-94 | the first user carrying both names is what both lookups and both name translations find |
| Registry.LinkSameUserRemovesIt | src/eu/neurovertex/xmppcraft/UserRegistry.java:67-72 | linking two names of one user removes that user: the list is the old list without it |
| Registry.LinkMergeKeepsGameUser | src/eu/neurovertex/xmppcraft/UserRegistry.java:67-73 | a merged game user keeps its level, UUID and game name, and takes the nickname and the chat user's JID |
| Registry.DataOf | src/eu/neurovertex/xmppcraft/UserRegistry.java:18 | the values of the listed users, position by position |
| Registry.DistinctRemoveAt | src/eu/neurovertex/xmppcraft/UserRegistry.java:212-214 | removing one position keeps the objects distinct and drops that object entirely |
| Registry.DataOfRemoveAt | src/eu/neurovertex/xmppcraft/UserRegistry.java:212-214 | removing a user object removes its value at the same position |
| Registry.User.FromNickname | src/eu/neurovertex/xmppcraft/UserRegistry.java:171-178 | the new user is appended to the registry's list with only the nickname set and level USER |
| Registry.User.FromGame | src/eu/neurovertex/xmppcraft/UserRegistry.java:171-184 | the new user is appended to the registry's list with the game name and UUID set and level USER |
| Registry.UserRegistry.constructor | src/eu/neurovertex/xmppcraft/UserRegistry.java:18 | the registry starts empty |
| Registry.UserRegistry.Snapshot | src/eu/neurovertex/xmppcraft/UserRegistry.java:18 | the values of the users, in list order |
| Registry.UserRegistry.GetByGamename | src/eu/neurovertex/xmppcraft/UserRegistry.java:87-94 | returns the first user whose game name equals the argument minus one leading '#', ignoring case, or null exactly when there is none |
| Registry.UserRegistry.GetByNickname | src/eu/neurovertex/xmppcraft/UserRegistry.java:78-85 | returns the first user whose nickname equals the argument minus its first character when it starts with the sigil, ignoring case, or null exactly when there is none |
| Registry.UserRegistry.GetByJid | src/eu/neurovertex/xmppcraft/UserRegistry.java:96-103 | compares only the text before the first '/', ignoring case; fails with the index exception exactly when that text cannot be taken; otherwise returns the first match or null |
| Registry.UserRegistry.GetUser | src/eu/neurovertex/xmppcraft/UserRegistry.java:105-112 | returns the user ByName selects, or null exactly when it selects none |
| Registry.UserRegistry.GameToXmpp | src/eu/neurovertex/xmppcraft/UserRegistry.java:118-121 | the nickname of the user found by game name, or null when none is found (or the nickname is null) |
| Registry.UserRegistry.XmppToGame | src/eu/neurovertex/xmppcraft/UserRegistry.java:130-133 | the game name of the user found by nickname, or null when none is found (or the game name is null) |
| Registry.UserRegistry.RegisterFromGame | src/eu/neurovertex/xmppcraft/UserRegistry.java:23-34 | a found user takes the UUID and nothing else changes; otherwise exactly one user with the game name, the UUID and level 0 is appended; the returned user is the one at the result index |
| Registry.UserRegistry.SetUuid | src/eu/neurovertex/xmppcraft/UserRegistry.java:27 | only the found user's UUID changes |
| Registry.UserRegistry.AddGameUser | src/eu/neurovertex/xmppcraft/UserRegistry.java:29-30 | exactly one user with the game name and UUID is appended |
| Registry.UserRegistry.RegisterFromXmpp | src/eu/neurovertex/xmppcraft/UserRegistry.java:36-42 | a found user is returned unchanged; otherwise exactly one user with the nickname and level 0 is appended and returned |
| Registry.UserRegistry.Unregister | src/eu/neurovertex/xmppcraft/UserRegistry.java:212-214 | the user leaves the list and the others keep their order; a user not listed leaves the list unchanged |
| Registry.UserRegistry.DeleteUser | src/eu/neurovertex/xmppcraft/UserRegistry.java:44-47 | only the given user leaves the list; every other user and the order are unchanged |
| Registry.UserRegistry.SetNickname | src/eu/neurovertex/xmppcraft/UserRegistry.java:190-193 | only that user's nickname changes |
| Registry.UserRegistry.SetGamename | src/eu/neurovertex/xmppcraft/UserRegistry.java:199-202 | only that user's game name changes |
| Registry.UserRegistry.SetJid | src/eu/neurovertex/xmppcraft/UserRegistry.java:53-56 | only that user's JID changes |
| Registry.UserRegistry.SetLevel | src/eu/neurovertex/xmppcraft/UserRegistry.java:123-126 | only that user's level changes |
| Registry.UserRegistry.Link | src/eu/neurovertex/xmppcraft/UserRegistry.java:58-76 | the list becomes AfterLink of the old list (its four branches); when both names were known, the chat user leaves the list, holding the game name and the game user's UUID (or both names, when it was the same user) |
| Registry.UserRegistry.AddLinkedUser | src/eu/neurovertex/xmppcraft/UserRegistry.java:60-62 | exactly one user holding both names and level 0 is appended |
| Registry.UserRegistry.MergeUsers | src/eu/neurovertex/xmppcraft/UserRegistry.java:67-73 | the chat user leaves the list and the game user takes the nickname and the chat user's JID (Merge) |
| Registry.UserRegistry.MergeFields | src/eu/neurovertex/xmppcraft/UserRegistry.java:69-72 | the removed chat user takes the game name and the game user's UUID; the game user takes the nickname and the JID; no other listed user changes |
| Commands.ToggleMatchesVerbs | src/eu/neurovertex/xmppcraft/ChatBot.java:399-403 | the toggle pattern accepts exactly "enable " or "disable " followed by one line, and its group 1 is the verb the input starts with |
| Commands.NicknameMatchSound | src/eu/neurovertex/xmppcraft/UserCommands.java:130 | an accepted "A is B" input is A + " is " + B with A and B non-empty and free of spaces, as groups 1 and 2 |
| Commands.NicknameMatchComplete | src/eu/neurovertex/xmppcraft/UserCommands.java:130 | every such A + " is " + B is accepted with groups A and B |
| Commands.PrefixAcceptsIff | src/eu/neurovertex/xmppcraft/AbstractBotCommand.java:124-132 | a prefix command matches iff the input starts with the prefix, ignoring case |
| Commands.ToLowerTake | src/eu/neurovertex/xmppcraft/AbstractBotCommand.java:131 | lower-casing commutes with taking a prefix |
| Commands.FullNameSplits | src/eu/neurovertex/xmppcraft/AbstractBotCommand.java:40-43 | the full name is category, ".", name: it splits back at its first dot when the category has none |
| Commands.FullNameInjective | src/eu/neurovertex/xmppcraft/AbstractBotCommand.java:40-43 | two commands with dot-free categories share a full name only if category and name both agree |
| Commands.BotCommand.WithPrefix | src/eu/neurovertex/xmppcraft/AbstractBotCommand.java:124-127 | the fields are as given, the prefix is stored lower-cased, the command is enabled and has no help |
| Commands.BotCommand.WithMatcher | src/eu/neurovertex/xmppcraft/AbstractBotCommand.java:90-93 | the fields are as given, the command is enabled, has no help and no last matcher |
| Commands.BotCommand.SetHelp | src/eu/neurovertex/xmppcraft/AbstractBotCommand.java:60-63 | help is set and the same command is returned |
| Commands.BotCommand.SetEnabled | src/eu/neurovertex/xmppcraft/AbstractBotCommand.java:65-72 | isEnabled then returns the value set |
| Commands.BotCommand.Matches | src/eu/neurovertex/xmppcraft/AbstractBotCommand.java:104-132 | the result is whether the matcher accepts the input; a regex command replaces its last matcher on every call, matching or not; other commands keep it |
| Commands.BotCommand.GetMatcher | src/eu/neurovertex/xmppcraft/AbstractBotCommand.java:100-102 | the matcher left by the last call of matches |
| Commands.EmptyResponse | src/eu/neurovertex/xmppcraft/ChatBot.java:792-794 | the empty response: no text, no private recipient, the original message not mirrored and nothing shown on either side |
| Commands.TextResponse | src/eu/neurovertex/xmppcraft/ChatBot.java:800-802 | a text response: shown on both sides, with the original message mirrored |
| Commands.PrivateResponse | src/eu/neurovertex/xmppcraft/ChatBot.java:809-811 | a private response to the given user: the original message not mirrored |
| UserCommands.UserAddUnknownKind | src/eu/neurovertex/xmppcraft/UserCommands.java:22-27 | useradd with a kind other than nickname, gamename or username changes nothing and still reports success |
| UserCommands.UserAddNicknameTwice | src/eu/neurovertex/xmppcraft/UserCommands.java:23-24 | adding the same nickname twice registers it once: the second call does not grow the list |
| UserCommands.SplitAllThreeWords | src/eu/neurovertex/xmppcraft/UserCommands.java:22 | splitting "a b c" at spaces, before trailing empty pieces are dropped, gives the three words |
| UserCommands.SplitThreeWords | src/eu/neurovertex/xmppcraft/UserCommands.java:22 | `split(" ")` of three non-empty space-free words joined by spaces gives back exactly those words |
| UserCommands.UserAdd | src/eu/neurovertex/xmppcraft/UserCommands.java:19-29 | the new registry and the reply are AfterUserAdd of the old registry: a missing word fails with the index exception, "nickname" registers from chat, "gamename"/"username" from the game with no UUID, anything else changes nothing; all succeed with the same text |
| UserCommands.LastMatchIn | src/eu/neurovertex/xmppcraft/UserCommands.java:50-55 | the result is the last index whose rank name equals the argument ignoring case, with no match after it, or -1 exactly when no rank name matches |
| UserCommands.ResolveLevel | src/eu/neurovertex/xmppcraft/UserCommands.java:42-58 | a one-character argument succeeds only as a digit, with its value; a longer one succeeds only as a rank name (ignoring case), with that rank's index, and fails exactly when no rank name matches |
| UserCommands.DifferIgnoringCase | src/eu/neurovertex/xmppcraft/UserCommands.java:52 | texts of different lengths, or with different first letters after lower-casing, are not equal ignoring case |
| UserCommands.RankNamesDistinct | src/eu/neurovertex/xmppcraft/UserRegistry.java:16 | no two rank names are equal ignoring case |
| UserCommands.RankNamesResolve | src/eu/neurovertex/xmppcraft/UserCommands.java:50-55 | every rank name resolves to its own level |
| UserCommands.LastMatchLoop | src/eu/neurovertex/xmppcraft/UserCommands.java:50-55 | the loop over the rank names, where each match overrides the previous one, computes LastMatchIn |
| UserCommands.ResolveLevelLoop | src/eu/neurovertex/xmppcraft/UserCommands.java:42-58 | the level parsing computes ResolveLevel, including its two syntax-error messages |
| UserCommands.UserModBounded | src/eu/neurovertex/xmppcraft/UserCommands.java:31-73 | usermod keeps the number of users, changes at most the named user, and never sets a level above the issuer's |
| UserCommands.ModifyFoundBounded | src/eu/neurovertex/xmppcraft/UserCommands.java:41-71 | once the user is found, only that user may change, and a changed level is at most the issuer's |
| UserCommands.UserMod | src/eu/neurovertex/xmppcraft/UserCommands.java:31-73 | the new registry and the reply are AfterUserMod: not four words is a syntax error, an unknown name is reported, otherwise ModifyFound applies; the list of user objects is unchanged |
| UserCommands.ModifyUser | src/eu/neurovertex/xmppcraft/UserCommands.java:41-71 | "level" sets the resolved level only when it is at most the issuer's (an anonymous issuer fails with a null dereference), "JID" sets the JID, any other parameter is a syntax error naming it |
| UserCommands.UserDelRemovesOne | src/eu/neurovertex/xmppcraft/UserCommands.java:75-87 | userdel shortens the list by one exactly when a second word names a known user, and otherwise leaves it unchanged |
| UserCommands.UserDel | src/eu/neurovertex/xmppcraft/UserCommands.java:75-87 | the new registry and the reply are AfterUserDel: a missing name fails with the index exception, an unknown one is reported, a known one is removed from the list and nothing else changes |
| UserCommands.TerminatedLinesAreJoin | src/eu/neurovertex/xmppcraft/UserCommands.java:109-118 | the user lines each followed by a newline are the lines joined by newlines, plus one final newline |
| UserCommands.LinesOf | src/eu/neurovertex/xmppcraft/UserCommands.java:109-118 | one line per user |
| UserCommands.LookupEveryoneLines | src/eu/neurovertex/xmppcraft/UserCommands.java:106-126 | "lookup everyone" answers the count line followed by one line per user in registry order, joined by newlines, with the level, JID and UUID columns the text asks for |
| UserCommands.EveryoneHeaderText | src/eu/neurovertex/xmppcraft/UserCommands.java:107-123 | the everyone output ends with a newline, and without it is the newline-join of the header and the user lines |
| UserCommands.EveryoneText | src/eu/neurovertex/xmppcraft/UserCommands.java:107-123 | for any non-empty header, header + newline + terminated lines ends with a newline and without it is their newline-join |
| UserCommands.NameLinesSnoc | src/eu/neurovertex/xmppcraft/UserCommands.java:97-105 | the lines of one more name are the previous lines plus that name's line |
| UserCommands.LookupNames | src/eu/neurovertex/xmppcraft/UserCommands.java:96-105 | the loop over the names builds NameLines: one "name > user" line per non-empty name, in order |
| UserCommands.LookupLine | src/eu/neurovertex/xmppcraft/UserCommands.java:98-105 | an empty name gives no line; otherwise the name, " > ", the user found by game name or nickname (or "null"), and a newline |
| UserCommands.UserLinesSnoc | src/eu/neurovertex/xmppcraft/UserCommands.java:109-118 | the lines of one more user are the previous lines plus that user's terminated line |
| UserCommands.LookupEveryone | src/eu/neurovertex/xmppcraft/UserCommands.java:106-118 | the loop builds the header "N user in registry :" and one line per user, in order |
| UserCommands.Lookup | src/eu/neurovertex/xmppcraft/UserCommands.java:89-128 | the reply is AfterLookup: an input shorter than seven characters fails, an unknown form is a syntax error, otherwise the built text loses its final newline (longer than one character and not ending in a newline is the "An error occured" failure) |
| UserCommands.LookupBody | src/eu/neurovertex/xmppcraft/UserCommands.java:92-120 | the text built is LookupText: by game name for player/username/gamename (and user from the game), by nickname for nickname (and user from chat), or the everyone listing |
| UserCommands.NicknamePlanRoles | src/eu/neurovertex/xmppcraft/UserCommands.java:133-140 | "A is B" fails as ambiguous exactly when the names are known both ways; otherwise the pair linked is (A, B) or (B, A), and never takes a known nickname as the game name nor a known game name as the nickname |
| UserCommands.NicknameCommand | src/eu/neurovertex/xmppcraft/UserCommands.java:130-147 | the new registry and the reply are AfterNickname of the match's two groups |
| UserCommands.LinkNames | src/eu/neurovertex/xmppcraft/UserCommands.java:133-145 | the registry becomes AfterLink of the planned pair, and the reply names both and goes to both sides; an ambiguous pair changes nothing |
| UserCommands.PlanNames | src/eu/neurovertex/xmppcraft/UserCommands.java:134-140 | the four lookups decide the pair as NicknamePlan does |
| UserCommands.Registered | src/eu/neurovertex/xmppcraft/UserCommands.java:134-135 | whether g is a known game name or n a known nickname |
| ChatText.SafeAppend | src/eu/neurovertex/xmppcraft/ChatBot.java:104-105 | a concatenation is escape-safe when its head is and its tail is safe after the head's last character |
| ChatText.Esc | src/eu/neurovertex/xmppcraft/ChatBot.java:37 | the replacement of every '@' and '§' not preceded by a backslash in the original text by a backslash and the character; ChatText.EscSafe states that its result is safe |
| ChatText.Escape | src/eu/neurovertex/xmppcraft/ChatBot.java:105-106 | gameMessage's escaping of a whole message; ChatText.EscapeSafe, ChatText.EscapeKeepsSafeText and ChatText.EscapeIdempotent state its properties |
| ChatText.EscSafe | src/eu/neurovertex/xmppcraft/ChatBot.java:104-105 | after the escaping replacement, every '@' and section sign is preceded by a backslash |
| ChatText.EscapeSafe | src/eu/neurovertex/xmppcraft/ChatBot.java:104-105 | every broadcast text, once escaped, has no unescaped special character |
| ChatText.EscIdentity | src/eu/neurovertex/xmppcraft/ChatBot.java:104-105 | text whose special characters are all already preceded by a backslash is left unchanged by the replacement |
| ChatText.EscapeKeepsSafeText | src/eu/neurovertex/xmppcraft/ChatBot.java:104-105 | escaping leaves already-safe text as it is |
| ChatText.EscapeIdempotent | src/eu/neurovertex/xmppcraft/ChatBot.java:104-105 | escaping twice gives the same text as escaping once |
| ChatText.SayLinesShape | src/eu/neurovertex/xmppcraft/ChatBot.java:106-108 | there are no more "say" lines than pieces, and each is "say " followed by one non-empty piece |
| ChatText.SayCommands | src/eu/neurovertex/xmppcraft/ChatBot.java:105-109 | the console commands gameMessage sends: "say " before each non-empty line of the escaped text, in order; ChatText.SayCommandsShape states their shape |
| ChatText.SayCommandsShape | src/eu/neurovertex/xmppcraft/ChatBot.java:103-109 | every console line gameMessage sends is "say " and one non-empty, newline-free line of the escaped text |
| ChatText.SayCommandsOneLine | src/eu/neurovertex/xmppcraft/ChatBot.java:103-109 | a non-empty single-line broadcast without special characters goes out as exactly one "say" of itself |
| ChatText.Truncate | src/eu/neurovertex/xmppcraft/ChatBot.java:493-494 | a negative maxLen throws StringIndexOutOfBoundsException, and only a negative one; text within maxLen is sent as it is; longer text keeps exactly its first maxLen characters followed by the too-long notice |
| ChatText.TruncateBound | src/eu/neurovertex/xmppcraft/ChatBot.java:493-494 | with a non-negative maxLen nothing throws, a sent room message is never longer than maxLen plus the notice, and it begins like the original |
| ChatText.CommandGroup | src/eu/neurovertex/xmppcraft/ChatBot.java:75 | the whole-message, case-insensitive match of the nick, an optional separator and a one-line rest, and its group; ChatText.CommandGroupSound and ChatText.CommandGroupAddressed state it |
| ChatText.CommandGroupSound | src/eu/neurovertex/xmppcraft/ChatBot.java:651-654 | what the addressed-command pattern captures is a non-empty single-line tail of a message that starts with the nick (ignoring case), with at most two separator characters between them |
| ChatText.CommandGroupAddressed | src/eu/neurovertex/xmppcraft/ChatBot.java:651-654 | "nick, command", "nick: command", "nick command" and their forms without the space all give back the command |
| ChatText.UuidMatchSound | src/eu/neurovertex/xmppcraft/ChatBot.java:597-599 | a matched UUID log line is "UUID of player " + name + " is " + uuid, the name non-empty without spaces and the UUID a non-empty single line |
| ChatText.UuidMatchComplete | src/eu/neurovertex/xmppcraft/ChatBot.java:597-599 | every such line matches, with exactly that name and UUID |
| ChatText.UuidMatch | src/eu/neurovertex/xmppcraft/ChatBot.java:597-599 | the whole-line match of "UUID of player <name> is <uuid>": the name runs to the first space and the UUID is a non-empty single line; ChatText.UuidMatchSound and ChatText.UuidMatchComplete state it both ways |
| ChatText.JoinLeftText | src/eu/neurovertex/xmppcraft/ChatBot.java:526-530 | the join or left notice begins with the game name, followed by the chat nickname in parentheses when the player is linked |
| GameCommands.TruncateOutput | src/eu/neurovertex/xmppcraft/GameCommands.java:25-28 | output within maxLines is kept; longer output keeps its first maxLines - 1 lines followed by the notice, so exactly maxLines lines; a maxLines below 1 makes subList fail |
| GameCommands.TruncateOutputBound | src/eu/neurovertex/xmppcraft/GameCommands.java:25-28 | a successful truncation never leaves more than maxLines lines, and each kept line is the original one |
| GameCommands.Exec | src/eu/neurovertex/xmppcraft/GameCommands.java:21-34 | "$" sends the input minus its first character to the console; the game is answered "Successfully executed", chat gets the captured lines joined by newlines; a failed truncation fails the command |
| GameCommands.SayText | src/eu/neurovertex/xmppcraft/GameCommands.java:39 | the text after the first space, or the whole command when it has none; GameCommands.SayTextAfterFirstSpace states it |
| GameCommands.Say | src/eu/neurovertex/xmppcraft/GameCommands.java:36-45 | say broadcasts SayText in game and answers "[server] " and the text to a chat source, nothing to a game source |
| GameCommands.Shutdown | src/eu/neurovertex/xmppcraft/GameCommands.java:47-66 | shutdown broadcasts "Stopping the server", then sends the console "stop", and answers nothing |
| GameCommands.List | src/eu/neurovertex/xmppcraft/GameCommands.java:78-83 | list runs the console "list" and answers with the captured lines joined by newlines |
| GameCommands.SayTextAfterFirstSpace | src/eu/neurovertex/xmppcraft/GameCommands.java:39-41 | say broadcasts the input after its first space, or the whole input when it has no space |
| GameCommands.ShutdownMatchesIff | src/eu/neurovertex/xmppcraft/GameCommands.java:69-75 | shutdown accepts exactly the inputs that start, case-sensitively, with "shut down", "shutdown", "poweroff" or "stop" |
| Text.ToLower | src/eu/neurovertex/xmppcraft/AbstractBotCommand.java:126-131 | toLowerCase keeps the length and lower-cases each ASCII capital in place |
| Text.ToLowerPrefix | src/eu/neurovertex/xmppcraft/AbstractBotCommand.java:131 | a prefix stays a prefix after both are lower-cased |
| Text.IndexOf | src/eu/neurovertex/xmppcraft/GameCommands.java:39-41 | the first position of the character, or -1 exactly when it does not occur |
| Text.SplitAll | src/eu/neurovertex/xmppcraft/UserCommands.java:22 | the pieces between delimiters, at least one, none holding the delimiter |
| Text.JoinSplitAll | src/eu/neurovertex/xmppcraft/UserCommands.java:22 | joining the pieces with the delimiter gives the text back |
| Text.Split | src/eu/neurovertex/xmppcraft/UserCommands.java:22 | String.split gives pieces free of the delimiter, and the whole text when it has none |
| Text.SplitDropsOnlyTrailingDelimiters | src/eu/neurovertex/xmppcraft/UserCommands.java:22 | String.split loses only the delimiters at the end of the text |
| Text.NatToString | src/eu/neurovertex/xmppcraft/nbtparser/NbtParser.java:62 | the decimal text of a number is made of digits, at least one |
| Text.DigitsValueOfNatToString | src/eu/neurovertex/xmppcraft/nbtparser/NbtParser.java:62 | the decimal text of a number reads back as that number |
| Dispatch.FirstMatch | src/eu/neurovertex/xmppcraft/ChatBot.java:461-462 | the command chosen is an enabled one that accepts the input, with none before it in iteration order; None exactly when no enabled command accepts it |
| Dispatch.Decide | src/eu/neurovertex/xmppcraft/ChatBot.java:447-482 | "who am i" (ignoring case) wins over everything; otherwise the impersonation guard; otherwise the first enabled accepting command runs when the level reaches its level and is refused when it does not; the answer is "unknown" exactly when no enabled command accepts the input |
| Dispatch.RunIffLevel | src/eu/neurovertex/xmppcraft/ChatBot.java:461-480 | for the first enabled accepting command, its body runs exactly when the issuer's level is at least the command's, and is refused exactly otherwise |
| Dispatch.FirstMatchIs | src/eu/neurovertex/xmppcraft/ChatBot.java:461-462 | an enabled accepting command with none before it is the one chosen |
| Dispatch.FirstMatchOrderIndependent | src/eu/neurovertex/xmppcraft/ChatBot.java:461-462 | when at most one distinct enabled command accepts the input, every iteration order of the same commands chooses that command, or none |
| Dispatch.WhoAmIText | src/eu/neurovertex/xmppcraft/ChatBot.java:447-448 | the "who am i" answer fails exactly when the level is past the last rank name; otherwise it names the issuer, the rank name ("Anon" below 0) and the level |
| Dispatch.SyntaxErrorEndsWithSyntax | src/eu/neurovertex/xmppcraft/ChatBot.java:466-468 | the answer to a syntax error ends with a newline and the command's syntax |
| Dispatch.AccessibleNames | src/eu/neurovertex/xmppcraft/ChatBot.java:330-332 | the listing has at most one name per command |
| Dispatch.AccessibleNamesExact | src/eu/neurovertex/xmppcraft/ChatBot.java:330-332 | the listing names every command the issuer may run (enabled, level reached), and nothing else |
| Dispatch.ListingBufferStep | src/eu/neurovertex/xmppcraft/ChatBot.java:330-332 | one more command of the loop appends its name and ", " exactly when the issuer may run it |
| Dispatch.ListingBufferIsJoin | src/eu/neurovertex/xmppcraft/ChatBot.java:329-332 | the buffer after the loop is empty when no command is accessible, and otherwise is the names joined by ", " plus a final ", " |
| Dispatch.AccessibleNamesSnoc | src/eu/neurovertex/xmppcraft/ChatBot.java:330-332 | the names of one more command are the previous names plus its name when it is accessible |
| Dispatch.ListingIsJoin | src/eu/neurovertex/xmppcraft/ChatBot.java:329-334 | the listing succeeds exactly when some command is accessible, and is then the accessible names joined by ", " |
| Dispatch.LastNamed | src/eu/neurovertex/xmppcraft/ChatBot.java:337-340 | the index found is within the commands |
| Dispatch.LastNamedIsLast | src/eu/neurovertex/xmppcraft/ChatBot.java:337-340 | the search finds an accessible command whose name equals the argument ignoring case, with none after it; it finds none exactly when there is none |
| Dispatch.LastNamedStep | src/eu/neurovertex/xmppcraft/ChatBot.java:338-340 | one more command of the loop replaces the result exactly when it qualifies |
| Dispatch.NamedStep | src/eu/neurovertex/xmppcraft/ChatBot.java:338-339 | a name is found among one more command iff it was found before or that command has it; found in a prefix means found in the whole |
| Dispatch.HelpListingOutcome | src/eu/neurovertex/xmppcraft/ChatBot.java:328-334 | help with no argument fails for an anonymous issuer or when nothing is accessible, and otherwise answers the accessible names joined by ", " |
| Dispatch.HelpOutcome | src/eu/neurovertex/xmppcraft/ChatBot.java:324-353 | one word gives the listing, a non-empty second word the named help, anything else the "Too many arguments" syntax error; every answer is a plain reply to both sides |
| Dispatch.ToggleOutcome | src/eu/neurovertex/xmppcraft/ChatBot.java:399-415 | toggle sets a direction exactly when it answers normally; the value set is whether the input starts with "enable" |
| Dispatch.SplitTwoWords | src/eu/neurovertex/xmppcraft/ChatBot.java:403 | `split(" ")` of two non-empty space-free words joined by a space gives the two words |
| Dispatch.ToggleWords | src/eu/neurovertex/xmppcraft/ChatBot.java:403-414 | "enable"/"disable" followed by xtm or xtg sets chat-to-game mirroring, by mtx or gtx game-to-chat mirroring (ignoring case), to true exactly for "enable"; any other word is a syntax error |
| Dispatch.ToggledAgrees | src/eu/neurovertex/xmppcraft/ChatBot.java:405-412 | after a toggle the stored setting reads back as the flag of that direction, the other flag is unchanged, and every other setting is kept |
| Bot.Consoles | src/eu/neurovertex/xmppcraft/ChatBot.java:84-86 | one console line per given line, in order |
| Bot.SayLinesStep | src/eu/neurovertex/xmppcraft/ChatBot.java:106-108 | one more piece of the broadcast loop adds its "say" line exactly when the piece is non-empty |
| Bot.EffectActionsStep | src/eu/neurovertex/xmppcraft/ChatBot.java:84-109 | the actions of one more effect follow those of the earlier effects |
| Bot.ConsolesOnlyGame | src/eu/neurovertex/xmppcraft/ChatBot.java:84-86 | console lines never reach the chat room, and reach the game exactly when there is at least one |
| Bot.SentConcat | src/eu/neurovertex/xmppcraft/ChatBot.java:541-563 | a sequence of sends reaches a side exactly when one of its parts does |
| Bot.BroadcastSides | src/eu/neurovertex/xmppcraft/ChatBot.java:103-109 | gameMessage never reaches the room, and reaches the game exactly when some non-empty line is left to say |
| Bot.MucSides | src/eu/neurovertex/xmppcraft/ChatBot.java:489-500 | mucMessage never reaches the game, and reaches the room exactly when the room is joined and the connection is up |
| Bot.GameRouteSides | src/eu/neurovertex/xmppcraft/ChatBot.java:546-558 | for a command from the game, the room hears something exactly when it is up and either the message is mirrored or a public answer is meant for both sides; the game hears something exactly when there is a private tell or a public answer with a non-empty line |
| Bot.RoomRouteSides | src/eu/neurovertex/xmppcraft/ChatBot.java:651-662 | for a command from the room, the room hears something exactly when it is up and there is an answer; the game hears something exactly when the mirrored message or a both-sides public answer has a non-empty line |
| Bot.Probe | src/eu/neurovertex/xmppcraft/ChatBot.java:461-462 | one step of the command loop: the result is matches and isEnabled of the command, nothing else of the command changes, and a regex command records the match of this input |
| Bot.UserStepKeepsBot | src/eu/neurovertex/xmppcraft/ChatBot.java:465 | a user command leaves the bot's settings, mirror flags, last error and outbox unchanged |
| Bot.OtherStepKeepsUsers | src/eu/neurovertex/xmppcraft/ChatBot.java:465 | a command other than a user command leaves the registered users unchanged |
| Bot.QuietStepKeepsBot | src/eu/neurovertex/xmppcraft/ChatBot.java:465 | help, ping and the commands answered by the environment leave the bot's state unchanged |
| Bot.GameStepAppends | src/eu/neurovertex/xmppcraft/ChatBot.java:465 | a game command changes nothing but the outbox, and only appends to it |
| Bot.ChatBot.Views | src/eu/neurovertex/xmppcraft/ChatBot.java:461 | one view per full name in the iteration order, each the registered command's |
| Bot.ChatBot.constructor | src/eu/neurovertex/xmppcraft/ChatBot.java:47-75 | the mirroring flags are true exactly when their settings read "true" ignoring case; maxLen and maxLines are parameters standing for the integer settings chatbot.maxlen and chatbot.maxlines; the bot's JID is the room JID, "/" and its nick; no error is recorded; the only thing sent is the greeting to the room; the commands are exactly the twenty user, game, core and utils registrations, each under its full name with its category, name, level and body (XMPPCommands.init at line 52 is not part of this model) |
| Bot.ChatBot.RegisterAll | src/eu/neurovertex/xmppcraft/ChatBot.java:50-53 | the commands become the old ones plus the twenty user, game, core and utils registrations in that order, each under its full name with its category, name, level and body; commands under other names are unchanged; every command is still under its own full name (XMPPCommands.init at line 52 is not part of this model) |
| Bot.CategoriesApart | src/eu/neurovertex/xmppcraft/AbstractBotCommand.java:40-43 | registrations in two different dot-free categories never share a full name |
| Bot.InitialBatchesApart | src/eu/neurovertex/xmppcraft/ChatBot.java:50-53 | no registration of one init batch replaces a command of an earlier batch: user, game, core and utils names are pairwise disjoint |
| Bot.RegistersAppend | src/eu/neurovertex/xmppcraft/ChatBot.java:118-120 | two batches of registerCommand calls under disjoint full names make the registration of their concatenation |
| Bot.NextNameFresh | src/eu/neurovertex/xmppcraft/ChatBot.java:118-120 | within a one-category batch with distinct names, the next command's full name is not yet used by the batch |
| Bot.RegistersSnoc | src/eu/neurovertex/xmppcraft/ChatBot.java:118-120 | one more registerCommand under an unused full name extends a batch's registration by that command |
| Bot.RegistersStep | src/eu/neurovertex/xmppcraft/ChatBot.java:118-120 | registering the next command of a batch with distinct names extends the batch's registration by one, and completes it at the last |
| Bot.ChatBot.RegisterCommand | src/eu/neurovertex/xmppcraft/ChatBot.java:118-120 | the command is stored under its full name, replacing any command of the same full name, and nothing else changes |
| Bot.ChatBot.RegisterUserCommands | src/eu/neurovertex/xmppcraft/UserCommands.java:17-148 | useradd, usermod, userdel and lookup are registered in category "User" at OP level with their prefixes, and nickname at USER + 1 with the "A is B" pattern; as registrations, the batch adds exactly its entries with their names, levels and bodies and leaves every other command unchanged |
| Bot.ChatBot.RegisterGameCommands | src/eu/neurovertex/xmppcraft/GameCommands.java:18-84 | "$" at OP, say at USER + 2, shutdown at 4 with its four words and list at ANON are registered in category "Game"; as registrations, the batch adds exactly its entries with their names, levels and bodies and leaves every other command unchanged |
| Bot.ChatBot.RegisterCoreCommands | src/eu/neurovertex/xmppcraft/ChatBot.java:129-319 | save (prefix "save "), get, set, reset, version, update and geterror (prefix "what was that") are registered in category "Core" with their levels; as registrations, the batch adds exactly its entries with their names, levels and bodies and leaves every other command unchanged |
| Bot.ChatBot.RegisterUtilsCommands | src/eu/neurovertex/xmppcraft/ChatBot.java:324-415 | help and ping at ANON, reload at ADMIN and toggle at OP, with toggle's help text, are registered in category "Utils"; as registrations, the batch adds exactly its entries with their names, levels and bodies and leaves every other command unchanged |
| Bot.ChatBot.MucMessage | src/eu/neurovertex/xmppcraft/ChatBot.java:489-500 | the room receives the text, cut to maxLen with the notice, only when it is joined and the connection is up |
| Bot.ChatBot.GameMessage | src/eu/neurovertex/xmppcraft/ChatBot.java:103-110 | the console receives one "say" line per non-empty line of the escaped text |
| Bot.ChatBot.SayAll | src/eu/neurovertex/xmppcraft/ChatBot.java:106-108 | the loop sends the "say" lines of the pieces, in order |
| Bot.ChatBot.ApplyEffects | src/eu/neurovertex/xmppcraft/ChatBot.java:84-110 | a game command's effects are sent in order: console lines as they are, broadcasts through gameMessage |
| Bot.ChatBot.ApplyEffect | src/eu/neurovertex/xmppcraft/ChatBot.java:84-110 | one effect: a console line, or a broadcast |
| Bot.ChatBot.Tell | src/eu/neurovertex/xmppcraft/ChatBot.java:509-518 | in game, a known user gets "tell <gamename> <message>" and no user means a broadcast; in chat, a known user is addressed by nickname in the room, and no user fails with a null dereference and sends nothing |
| Bot.ChatBot.IssuerOf | src/eu/neurovertex/xmppcraft/ChatBot.java:429-441 | the issuer is looked up by game name, nickname or JID according to the source; the JID lookup's failure is passed on; null exactly when not found |
| Bot.ChatBot.SelectCommand | src/eu/neurovertex/xmppcraft/ChatBot.java:461-462 | the loop picks FirstMatch of the commands in iteration order; every regex command tested, up to and including the one picked (all of them when none is), records the match of this input as its last matcher; the bot's state, the registry and every command's view are unchanged |
| Bot.ChatBot.SelectLoop | src/eu/neurovertex/xmppcraft/ChatBot.java:461-462 | the loop over the iteration order stops at the first enabled accepting command, or finds none, and every regex command it tested records the match of this input |
| Bot.ChatBot.ProbeAt | src/eu/neurovertex/xmppcraft/ChatBot.java:462 | the test of the command at that position is whether it is selected, and a regex command records the match of this input |
| Bot.ChatBot.ViewsAre | src/eu/neurovertex/xmppcraft/ChatBot.java:461 | views that agree with every registered command are the views of the iteration order |
| Bot.ChatBot.ListingLoop | src/eu/neurovertex/xmppcraft/ChatBot.java:329-332 | the listing loop builds ListingBuffer of the commands in iteration order |
| Bot.ChatBot.LastNamedLoop | src/eu/neurovertex/xmppcraft/ChatBot.java:337-340 | the fallback loop of help finds LastNamed |
| Bot.ChatBot.NamedAt | src/eu/neurovertex/xmppcraft/ChatBot.java:338-339 | the test of one command in the fallback loop: accessible and named as asked, ignoring case |
| Bot.ChatBot.AnyNamedLoop | src/eu/neurovertex/xmppcraft/ChatBot.java:338-339 | the loop tells whether any command has the name, ignoring case (what decides the anonymous failure) |
| Bot.ChatBot.HelpCommand | src/eu/neurovertex/xmppcraft/ChatBot.java:324-353 | help answers HelpOutcome for the issuer's level (none when anonymous) and the commands in iteration order |
| Bot.ChatBot.HelpListing | src/eu/neurovertex/xmppcraft/ChatBot.java:328-334 | help without argument answers HelpListingOutcome |
| Bot.ChatBot.HelpNamed | src/eu/neurovertex/xmppcraft/ChatBot.java:335-350 | help with a name answers HelpNamedOutcome, the direct lookup being the command registered under that full name |
| Bot.ChatBot.HelpText | src/eu/neurovertex/xmppcraft/ChatBot.java:336-349 | for a known issuer, the answer is HelpFor: the directly named accessible command, else the last accessible one so named ignoring case, else "Command not found" |
| Bot.ChatBot.ExecuteCore | src/eu/neurovertex/xmppcraft/ChatBot.java:136-415 | the new state and the answer are CoreStep: geterror reports the last recorded failure and clears it, ping answers "Yes ?", toggle answers and sets as ToggleOutcome and Toggled say, and the file, updater and network commands answer what the environment gives and change nothing |
| Bot.ChatBot.GetErrorCommand | src/eu/neurovertex/xmppcraft/ChatBot.java:306-319 | the answer reports the last recorded failure, or that there is none, and the record is then cleared |
| Bot.ChatBot.ToggleCommand | src/eu/neurovertex/xmppcraft/ChatBot.java:399-415 | the answer is ToggleOutcome; the settings and both flags become what Toggled says |
| Bot.ChatBot.ExecuteUser | src/eu/neurovertex/xmppcraft/UserCommands.java:19-147 | each user command leaves the registry and answers as its specification function says; lookup leaves the registry unchanged |
| Bot.ChatBot.ExecuteGame | src/eu/neurovertex/xmppcraft/GameCommands.java:21-83 | the new state and the answer are GameStep: the actions of the command's effects are appended to the outbox and its outcome is answered, the console output being what the environment captured |
| Bot.ChatBot.UserCommand | src/eu/neurovertex/xmppcraft/ChatBot.java:465 | the new registry and the outcome of a user command are UserStep for its handler: useradd, usermod, userdel, lookup and nickname as their specification functions say |
| Bot.ChatBot.BotCommandBody | src/eu/neurovertex/xmppcraft/ChatBot.java:465 | the new state and the outcome of a game, Core or Utils command are BotStep: GameStep for a game command, HelpOutcome with nothing changed for help, CoreStep otherwise |
| Bot.ChatBot.RecordFailure | src/eu/neurovertex/xmppcraft/ChatBot.java:469-472 | a failed outcome becomes the last exception, and nothing else changes |
| Bot.ChatBot.ParseCommand | src/eu/neurovertex/xmppcraft/ChatBot.java:428-483 | a failed issuer lookup is passed on; otherwise the level is the issuer's (ANON when unknown), the guard is the roster and presence test, the verdict is Decide and the answer is Answer; nothing changes unless a command body ran, and then the new state, the new registry and the outcome are RunStep of the selected command, whose matcher has just been probed |
| Bot.ChatBot.Command | src/eu/neurovertex/xmppcraft/ChatBot.java:428-483 | parseCommand as the message handlers call it: an issuer lookup that throws passes its exception on and nothing changes |
| Bot.ChatBot.Respond | src/eu/neurovertex/xmppcraft/ChatBot.java:447-482 | once the issuer is known: the verdict is Decide and the answer is Answer; nothing changes unless a body ran, and then the new state, registry and outcome are RunStep of the selected command |
| Bot.ChatBot.Dispatch | src/eu/neurovertex/xmppcraft/ChatBot.java:461-482 | the command loop: an unknown input gets the unknown answer, a too-low level the refusal, and a run body its classified outcome; the new state, registry and outcome are then RunStep of the selected command |
| Bot.ChatBot.RunCommand | src/eu/neurovertex/xmppcraft/ChatBot.java:463-473 | the answer is the classified outcome of the body; the new state, registry and outcome are RunStep, so a failure is recorded as the last error and nothing else beyond the body's own changes happens |
| Bot.ChatBot.Execute | src/eu/neurovertex/xmppcraft/ChatBot.java:465 | the new state, the new registry and the outcome are BodyStep of the command's handler: UserStep for a user command, BotStep for any other |
| Bot.ChatBot.RouteGame | src/eu/neurovertex/xmppcraft/ChatBot.java:548-558 | the answer to the game is sent as GameRoute: the mirror (when the response resumes transmission and game-to-chat mirroring is on), then the answer |
| Bot.ChatBot.MirrorInRoom | src/eu/neurovertex/xmppcraft/ChatBot.java:548-549 | the mirror of a game message is sent to the room when there is one |
| Bot.ChatBot.MirrorInGame | src/eu/neurovertex/xmppcraft/ChatBot.java:656-657 | the mirror of a room message is broadcast in the game when there is one |
| Bot.ChatBot.AnswerInGame | src/eu/neurovertex/xmppcraft/ChatBot.java:550-558 | an answer to the game goes as a private tell, or as a broadcast also sent to the room when meant for both sides |
| Bot.ChatBot.RouteRoom | src/eu/neurovertex/xmppcraft/ChatBot.java:656-662 | the answer to the room is sent as RoomRoute: the mirror (when the response resumes transmission and chat-to-game mirroring is on), then the answer |
| Bot.ChatBot.AnswerInRoom | src/eu/neurovertex/xmppcraft/ChatBot.java:658-662 | an answer to the room goes addressed by nickname, or to the room and also broadcast when meant for both sides |
| Bot.ChatBot.OnMessage | src/eu/neurovertex/xmppcraft/ChatBot.java:541-563 | a game message not addressed to the bot is only mirrored (when mirroring is on); an addressed one is parsed, a parse failure is passed on, and otherwise the answer is routed as GameRoute |
| Bot.ChatBot.GameCommand | src/eu/neurovertex/xmppcraft/ChatBot.java:547-558 | the parsed command from the game either fails or has its answer routed as GameRoute |
| Bot.ChatBot.ProcessPacket | src/eu/neurovertex/xmppcraft/ChatBot.java:635-668 | the bot's own, delayed and non-message packets are ignored; a sender without a resource part fails with the index exception, a missing body with a null dereference; otherwise the body is mirrored or parsed and routed as RoomRoute |
| Bot.ChatBot.RoomLine | src/eu/neurovertex/xmppcraft/ChatBot.java:647-665 | a room message not addressed to the bot is only mirrored in game (when mirroring is on); an addressed one is parsed and its answer routed as RoomRoute |
| Bot.ChatBot.RoomCommand | src/eu/neurovertex/xmppcraft/ChatBot.java:652-662 | the parsed command from the room either fails or has its answer routed as RoomRoute |
| Bot.ChatBot.ProcessMessage | src/eu/neurovertex/xmppcraft/ChatBot.java:676-689 | a private message without a body is ignored; otherwise it is parsed (the addressed part when it is addressed) and its text, if any, is sent back in the private chat |
| Bot.ChatBot.OnJoinLeft | src/eu/neurovertex/xmppcraft/ChatBot.java:526-533 | when game-to-chat mirroring is on, the room gets the join or left notice naming the player (and the linked nickname); otherwise nothing is sent |
| Bot.ChatBot.OnAchievement | src/eu/neurovertex/xmppcraft/ChatBot.java:571-576 | when game-to-chat mirroring is on, the room gets the achievement notice naming the linked nickname, or the game name when there is none |
| Bot.ChatBot.OnDeath | src/eu/neurovertex/xmppcraft/ChatBot.java:584-588 | when game-to-chat mirroring is on, the room gets the death notice |
| Bot.ChatBot.OnLog | src/eu/neurovertex/xmppcraft/ChatBot.java:596-602 | a UUID line registers that player with that UUID and sends nothing; otherwise the registry is unchanged and a line starting with "Done" announces the start in the room |
| Bot.ChatBot.OnExit | src/eu/neurovertex/xmppcraft/ChatBot.java:608-617 | the room gets the leaving notice |
| LogParsing.MessageSearchFound | src/eu/neurovertex/xmppcraft/LogParser.java:20 | the greedy name group of the message pattern ends at a valid split, and at the last valid one |
| LogParsing.MessageSearchComplete | src/eu/neurovertex/xmppcraft/LogParser.java:20 | the message pattern matches whenever some split into "<name> body" is valid |
| LogParsing.MessageTailLongest | src/eu/neurovertex/xmppcraft/LogParser.java:20 | "<name> body" matches as a chat message, and the reported name is at least as long as name |
| LogParsing.MessageTailSound | src/eu/neurovertex/xmppcraft/LogParser.java:20 | the groups of a message match are a non-empty name and body that rebuild the text as "<name> body" |
| LogParsing.FirstSpace | src/eu/neurovertex/xmppcraft/LogParser.java:21-23 | the [^ ]+ name group ends at the first space of the text |
| LogParsing.JoinTailSound | src/eu/neurovertex/xmppcraft/LogParser.java:21 | the groups of the join pattern are a space-free name and "joined" or "left", and rebuild the text |
| LogParsing.JoinTailComplete | src/eu/neurovertex/xmppcraft/LogParser.java:21 | every "name joined the game" and "name left the game" with a space-free name is matched, with those groups |
| LogParsing.JoinTailExact | src/eu/neurovertex/xmppcraft/LogParser.java:21 | the join pattern matches a text with given groups exactly when the text is built from them |
| LogParsing.AchievementTailSound | src/eu/neurovertex/xmppcraft/LogParser.java:22 | the groups of the achievement pattern are a space-free name and a non-empty title, and rebuild the text |
| LogParsing.AchievementTailComplete | src/eu/neurovertex/xmppcraft/LogParser.java:22 | every "name has just earned the achievement [title]" is matched, with those groups |
| LogParsing.AchievementTailExact | src/eu/neurovertex/xmppcraft/LogParser.java:22 | the achievement pattern matches with given groups exactly when the text is built from them |
| LogParsing.DeathTailExact | src/eu/neurovertex/xmppcraft/LogParser.java:23 | the death pattern matches with given groups exactly when the cause starts with one of the fourteen verbs and has more after it |
| LogParsing.SearchDownFound | src/eu/neurovertex/xmppcraft/LogParser.java:19 | a greedy group tried from its longest span down ends at a span that yields groups |
| LogParsing.SearchDownComplete | src/eu/neurovertex/xmppcraft/LogParser.java:19 | a greedy group tried from its longest span down misses no span that yields groups |
| LogParsing.SearchSecondExact | src/eu/neurovertex/xmppcraft/LogParser.java:19 | the second prefix group finds a match exactly when some end of it leaves a remainder of the shape, and reports that remainder's groups |
| LogParsing.SearchFirstExact | src/eu/neurovertex/xmppcraft/LogParser.java:19 | the first prefix group finds a match exactly when some pair of ends splits the line into prefix and shape |
| LogParsing.LineMatchExact | src/eu/neurovertex/xmppcraft/LogParser.java:19-25 | a line matches a pattern exactly when it splits into the log prefix and a remainder of the pattern's shape, and the groups come from such a split |
| LogParsing.ClassifyJoinLeft | src/eu/neurovertex/xmppcraft/LogParser.java:56-63 | a join or left callback comes only from a line that is not a chat message, with the flag true exactly for "joined" |
| LogParsing.ClassifyMessage | src/eu/neurovertex/xmppcraft/LogParser.java:56-59 | a message callback carries the name and body of a "<name> body" line after the prefix |
| LogParsing.ClassifyAchievement | src/eu/neurovertex/xmppcraft/LogParser.java:56-67 | an achievement callback comes only from a line that is neither a message nor a join notice, and carries its name and title |
| LogParsing.ClassifyDeath | src/eu/neurovertex/xmppcraft/LogParser.java:56-71 | a death callback comes only when no earlier pattern applies, and carries the name and a cause starting with a verb |
| LogParsing.ClassifyLog | src/eu/neurovertex/xmppcraft/LogParser.java:75-82 | a plain log callback comes only when no specific pattern applies, and carries the line without its prefix |
| LogParsing.ClassifyNone | src/eu/neurovertex/xmppcraft/LogParser.java:56-84 | a line gives no callback exactly when no pattern matches it; every prefixed single line gives one |
| LogParsing.Classify | src/eu/neurovertex/xmppcraft/LogParser.java:56-84 | the dispatcher's if/else chain: at most one callback per line, from the first of the message, join, achievement, death, exit and log patterns that matches; LogParsing.ClassifyMessage through LogParsing.ClassifyNone state each branch |
| LogParsing.Notify | src/eu/neurovertex/xmppcraft/LogParser.java:58-82 | the callback is made once on each listener of the snapshot, in registration order |
| LogParsing.DeliveriesAppend | src/eu/neurovertex/xmppcraft/LogParser.java:44-85 | handling two runs of lines in turn makes the callbacks of their concatenation |
| LogParsing.DeliveriesSnoc | src/eu/neurovertex/xmppcraft/LogParser.java:44-85 | the callbacks of one more line follow those of the lines before it |
| LogParsing.RecordAllSnoc | src/eu/neurovertex/xmppcraft/LogParser.java:78-80 | one more line updates the capture buffer after the lines before it |
| LogParsing.RecordAllCollects | src/eu/neurovertex/xmppcraft/LogParser.java:76-80 | no buffer stays no buffer; an active buffer gains exactly the plain log texts, in order |
| LogParsing.LineDeliveriesCount | src/eu/neurovertex/xmppcraft/LogParser.java:54-84 | a line without a callback reaches nobody; one with a callback reaches every listener of the snapshot when none throws, and otherwise stops right after the first listener that throws |
| LogParsing.Reached | src/eu/neurovertex/xmppcraft/LogParser.java:58-82 | a callback reaches at most the listeners of the snapshot |
| LogParsing.ReachedAt | src/eu/neurovertex/xmppcraft/LogParser.java:58-82 | the listener loop ends right after the first listener that throws, since only InterruptedException is caught (line 86) |
| LogParsing.ReachedPast | src/eu/neurovertex/xmppcraft/LogParser.java:58-82 | the listener loop reaches every listener before the first that throws |
| LogParsing.ReachedStops | src/eu/neurovertex/xmppcraft/LogParser.java:58-82 | a callback some listener throws on ends at the first such listener; otherwise it reaches them all |
| LogParsing.Taken | src/eu/neurovertex/xmppcraft/LogParser.java:43-88 | the dispatcher takes at most the queued lines |
| LogParsing.TakenAt | src/eu/neurovertex/xmppcraft/LogParser.java:43-88 | the dispatcher thread ends right after the first line whose callback throws, since the exception leaves the do-while loop |
| LogParsing.TakenPast | src/eu/neurovertex/xmppcraft/LogParser.java:43-88 | the dispatcher takes every line before the first whose callback throws |
| LogParsing.RunStateTaken | src/eu/neurovertex/xmppcraft/LogParser.java:43-88 | a run that has taken some lines has ended exactly when one of them threw, after exactly those lines; otherwise no line has thrown so far |
| LogParsing.HandledNext | src/eu/neurovertex/xmppcraft/LogParser.java:49-84 | taking the head line on a live thread extends the run's queue, callbacks and capture by that line, and the thread ends exactly when its callback throws |
| LogParsing.LogParser.constructor | src/eu/neurovertex/xmppcraft/LogParser.java:26-36 | a new parser is stopped, with no queue, listeners, capture or threads, and no ended dispatcher |
| LogParsing.LogParser.Enqueue | src/eu/neurovertex/xmppcraft/LogParser.java:139-145 | a console line goes to the tail of the queue unless the parser is stopped |
| LogParsing.LogParser.AddListener | src/eu/neurovertex/xmppcraft/LogParser.java:112-114 | the listener is appended to the list |
| LogParsing.LogParser.ClearListeners | src/eu/neurovertex/xmppcraft/LogParser.java:116-118 | the listener list becomes empty |
| LogParsing.LogParser.Start | src/eu/neurovertex/xmppcraft/LogParser.java:91-103 | a running parser refuses with IllegalStateException "Already started"; a stopped one is marked running with new threads created and a live dispatcher; a parser whose dispatcher ended while running still refuses |
| LogParsing.LogParser.Close | src/eu/neurovertex/xmppcraft/LogParser.java:105-110 | the parser is stopped; interrupting threads never created fails with NullPointerException |
| LogParsing.LogParser.BeginCapture | src/eu/neurovertex/xmppcraft/LogParser.java:121-123 | capture starts with a fresh empty buffer |
| LogParsing.LogParser.EndCapture | src/eu/neurovertex/xmppcraft/LogParser.java:126-130 | the current buffer is handed out and removed |
| LogParsing.LogParser.NotifyAll | src/eu/neurovertex/xmppcraft/LogParser.java:58-82 | the listeners of the snapshot receive the callback in order until one throws; it reports a throw exactly when some listener throws, and when none does every listener received it |
| LogParsing.LogParser.Step | src/eu/neurovertex/xmppcraft/LogParser.java:43-86 | an ended thread does nothing, stopped returns, an empty queue waits, otherwise the head line is taken, captured if plain and delivered to a listener snapshot, and a listener that throws ends the thread |
| LogParsing.LogParser.Run | src/eu/neurovertex/xmppcraft/LogParser.java:39-89 | a running dispatcher takes queued lines in queue order, making exactly their callbacks and captures, up to and including the first line whose callback throws; it ends exactly when some queued line throws, and otherwise empties the queue |
| LogParsing.LogParser.RunSteps | src/eu/neurovertex/xmppcraft/LogParser.java:43-86 | up to the given number of queued lines are taken from the head, in order, stopping after a line whose callback throws, which ends the thread |
| LogParsing.LogParser.Capture | src/eu/neurovertex/xmppcraft/LogParser.java:120-131 | the buffer handed out holds exactly the plain log texts of the lines taken meanwhile, including one whose callback threw, and no buffer remains |
| Nbt.UnsignedBound | src/eu/neurovertex/xmppcraft/nbtparser/NbtParser.java:334-346 | n big-endian bytes read as a value below 256^n |
| Nbt.SignedRange | src/eu/neurovertex/xmppcraft/nbtparser/NbtParser.java:334-346 | n bytes read by DataInput lie in the n-byte two's-complement range and are negative exactly when the top bit is set |
| Nbt.TypeOfId | src/eu/neurovertex/xmppcraft/nbtparser/NbtParser.java:537-541 | ids below 0 or above 12 give no type, 0 to 11 the type at that position, and 12 an out-of-bounds failure |
| Nbt.Latin1 | src/eu/neurovertex/xmppcraft/nbtparser/NbtParser.java:300-308 | a string payload has one character per byte, each of the byte's value |
| Nbt.After | src/eu/neurovertex/xmppcraft/nbtparser/NbtParser.java:301-304 | reading never moves the cursor backwards or past the end of the input |
| Nbt.StringAt | src/eu/neurovertex/xmppcraft/nbtparser/NbtParser.java:300-308 | a string payload stays inside the input and, when it reads, covers at least its two length bytes |
| Nbt.NamedTagAt | src/eu/neurovertex/xmppcraft/nbtparser/NbtParser.java:44-67 | a named tag stays inside the input, never lowers the error counter, carries a name, and consumes input unless it is an error tag |
| Nbt.PayloadAt | src/eu/neurovertex/xmppcraft/nbtparser/NbtParser.java:95-117 | a payload stays inside the input, never lowers the error counter, and is never itself an error |
| Nbt.ElementsFrom | src/eu/neurovertex/xmppcraft/nbtparser/NbtParser.java:387-390 | the element loop of a list stays inside the input and never lowers the error counter |
| Nbt.ElementStep | src/eu/neurovertex/xmppcraft/nbtparser/NbtParser.java:389 | one more element either fails the whole list or is appended unnamed after those read |
| Nbt.EntriesFrom | src/eu/neurovertex/xmppcraft/nbtparser/NbtParser.java:170-180 | the child loop of a compound always yields a map, inside the input, without lowering the error counter |
| Nbt.Put | src/eu/neurovertex/xmppcraft/nbtparser/NbtParser.java:174 | a put adds at most one stored entry |
| Nbt.Keys | src/eu/neurovertex/xmppcraft/nbtparser/NbtParser.java:236-247 | the key set holds exactly the stored keys |
| Nbt.LookupPut | src/eu/neurovertex/xmppcraft/nbtparser/NbtParser.java:236-240 | after a put the key gives the new tag and every other key what it gave before |
| Nbt.KeysPut | src/eu/neurovertex/xmppcraft/nbtparser/NbtParser.java:174 | a put adds its key to the key set and nothing else |
| Nbt.PutKeepsUniqueKeys | src/eu/neurovertex/xmppcraft/nbtparser/NbtParser.java:174 | puts never store a key twice |
| Nbt.ContainsKeyIffGet | src/eu/neurovertex/xmppcraft/nbtparser/NbtParser.java:236-247 | containsKey holds exactly when get finds a tag, both lower-casing the key first |
| Nbt.LookupFindsKeys | src/eu/neurovertex/xmppcraft/nbtparser/NbtParser.java:236-247 | a lookup finds a tag exactly for the stored keys |
| Nbt.Remove | src/eu/neurovertex/xmppcraft/nbtparser/NbtParser.java:260-264 | removing from a decoded compound always fails with UnsupportedOperationException, the map being unmodifiable |
| Nbt.PutNamed | src/eu/neurovertex/xmppcraft/nbtparser/NbtParser.java:174 | putting a named tag under its lower-cased name keeps every entry stored under its own name, and the tag put is the only error tag |
| Nbt.PutGood | src/eu/neurovertex/xmppcraft/nbtparser/NbtParser.java:173-177 | a put during the child loop keeps the map well stored, and a non-error child lets the loop go on |
| Nbt.EntriesWellStored | src/eu/neurovertex/xmppcraft/nbtparser/NbtParser.java:170-180 | every decoded compound stores each child once under its lower-cased name and holds at most one error tag |
| Nbt.ElementsCount | src/eu/neurovertex/xmppcraft/nbtparser/NbtParser.java:383-391 | a list that decodes has exactly its count of unnamed, non-error elements, none for a negative count |
| Nbt.NamedTagEnd | src/eu/neurovertex/xmppcraft/nbtparser/NbtParser.java:50-53 | a type byte of END or of no type makes parseNamedTag return null after consuming that byte |
| Nbt.NamedTagBadType | src/eu/neurovertex/xmppcraft/nbtparser/NbtParser.java:50-65 | type ids 11 and 12 and a missing type byte give an error tag "error_" plus the counter, and the counter goes up by one |
| Nbt.IntegerPayload | src/eu/neurovertex/xmppcraft/nbtparser/NbtParser.java:334-346 | an integer payload is its width of bytes read as a two's-complement value |
| Nbt.StringPayload | src/eu/neurovertex/xmppcraft/nbtparser/NbtParser.java:300-308 | a string that fits is its signed 16-bit length followed by that many bytes |
| Nbt.NamedTagRead | src/eu/neurovertex/xmppcraft/nbtparser/NbtParser.java:44-59 | a named tag whose type, name and payload read is the tag with that name and payload |
| Nbt.ErrorTagName | src/eu/neurovertex/xmppcraft/nbtparser/NbtParser.java:61-62 | an error tag's name is "error_" followed by the decimal counter value |
| Nbt.RootOf | src/eu/neurovertex/xmppcraft/nbtparser/NbtParser.java:36-42 | a root that is not a compound is refused, so an accepted root is a compound or null |
| Nbt.Subtrees | src/eu/neurovertex/xmppcraft/nbtparser/NbtParser.java:215-223 | the pre-order of a tree starts with the tree itself |
| Nbt.FirstNamedAppend | src/eu/neurovertex/xmppcraft/nbtparser/NbtParser.java:215-223 | the first match in a concatenation is the first match of the first part that has one |
| Nbt.FindTagIsFirstInPreorder | src/eu/neurovertex/xmppcraft/nbtparser/NbtParser.java:215-223 | findTag returns the first tag with the name, ignoring case, in depth-first pre-order |
| Nbt.FindInListIsFirst | src/eu/neurovertex/xmppcraft/nbtparser/NbtParser.java:452-460 | findTag on a list's elements is the first match in their pre-order |
| Nbt.FindInEntriesIsFirst | src/eu/neurovertex/xmppcraft/nbtparser/NbtParser.java:215-223 | findTag on a compound's children is the first match in their pre-order |
| Nbt.FirstNamedExact | src/eu/neurovertex/xmppcraft/nbtparser/NbtParser.java:154-156 | the first-match search finds a tag exactly when one has the name, and what it finds has the name |
| Nbt.FindTagFound | src/eu/neurovertex/xmppcraft/nbtparser/NbtParser.java:215-223 | findTag finds a tag exactly when some tag of the tree has the name, ignoring case, and returns such a tag of the tree |
| Nbt.FindTag | src/eu/neurovertex/xmppcraft/nbtparser/NbtParser.java:154-156 | findTag: the tag itself when its name equals the name ignoring case, else the first match among its children, depth first; Nbt.FindTagIsFirstInPreorder and Nbt.FindTagFound state it |
| Nbt.Hex | src/eu/neurovertex/xmppcraft/nbtparser/NbtParser.java:496-501 | the hex text of a byte has one or two digits |
| Nbt.HexRoundTrip | src/eu/neurovertex/xmppcraft/nbtparser/NbtParser.java:496-501 | the hex text of an unsigned byte reads back as that byte |
| Nbt.HexList | src/eu/neurovertex/xmppcraft/nbtparser/NbtParser.java:496-501 | one hex text per byte, in order |
| Nbt.RenderedStep | src/eu/neurovertex/xmppcraft/nbtparser/NbtParser.java:497-499 | each byte adds its hex text, then "," or, for the last one, "]" |
| Nbt.ByteArrayToString | src/eu/neurovertex/xmppcraft/nbtparser/NbtParser.java:496-501 | the text is "[" then the hex values separated by commas and closed by "]", or just "[" for no bytes |
| Nbt.GetArray | src/eu/neurovertex/xmppcraft/nbtparser/NbtParser.java:483-487 | getArray returns a new array with the same bytes |
| Nbt.NbtParser.constructor | src/eu/neurovertex/xmppcraft/nbtparser/NbtParser.java:16-34 | a new parser stands at the start of the input with a zero error counter and no root |
| Nbt.NbtParser.ReadBytes | src/eu/neurovertex/xmppcraft/nbtparser/NbtParser.java:301-304 | a read takes the n bytes at the cursor and moves past them, or fails at the end of the input |
| Nbt.NbtParser.ParseString | src/eu/neurovertex/xmppcraft/nbtparser/NbtParser.java:300-308 | StringTag.parse reads exactly the string payload at the cursor |
| Nbt.NbtParser.Catch | src/eu/neurovertex/xmppcraft/nbtparser/NbtParser.java:60-65 | a failure becomes an error tag named after the counter, which goes up by one |
| Nbt.NbtParser.ParseNamedTag | src/eu/neurovertex/xmppcraft/nbtparser/NbtParser.java:44-67 | parseNamedTag returns the named tag at the cursor and moves the cursor and counter as the decoding does |
| Nbt.NbtParser.ParsePayload | src/eu/neurovertex/xmppcraft/nbtparser/NbtParser.java:95-117 | the tag newInstance creates for the type parses the payload at the cursor |
| Nbt.NbtParser.ParseByteArray | src/eu/neurovertex/xmppcraft/nbtparser/NbtParser.java:476-481 | ByteArrayTag.parse reads a 4-byte length and that many bytes, failing on a negative length or the end of input |
| Nbt.NbtParser.ParseListPayload | src/eu/neurovertex/xmppcraft/nbtparser/NbtParser.java:383-391 | ListTag.parse reads the element type, the count and the elements at the cursor |
| Nbt.NbtParser.ParseElements | src/eu/neurovertex/xmppcraft/nbtparser/NbtParser.java:387-390 | the element loop reads the list's elements as the decoding does |
| Nbt.NbtParser.ParseCompound | src/eu/neurovertex/xmppcraft/nbtparser/NbtParser.java:170-180 | CompoundTag.parse reads named children until null or an error tag, as the decoding does |
| Nbt.NbtParser.ParseFile | src/eu/neurovertex/xmppcraft/nbtparser/NbtParser.java:36-42 | a compound or null root is kept; any other root is a ParseException "Non-compound root tag" and no root is kept |
| Nbt.Load | src/eu/neurovertex/xmppcraft/nbtparser/NbtParser.java:21-30 | parseFile(File) returns the decoded parser, or null when the root is refused |
| NbtPath.Root | src/eu/neurovertex/xmppcraft/nbtparser/NBTPath.java:45-47 | the root path has no steps |
| NbtPath.GetIndex | src/eu/neurovertex/xmppcraft/nbtparser/NBTPath.java:49-51 | get(int) extends the path by one list-index step |
| NbtPath.GetKey | src/eu/neurovertex/xmppcraft/nbtparser/NBTPath.java:53-55 | get(String) extends the path by one compound-key step |
| NbtPath.ToString | src/eu/neurovertex/xmppcraft/nbtparser/NBTPath.java:80-83 | a path prints as "root" followed by its steps |
| NbtPath.ParsePath | src/eu/neurovertex/xmppcraft/nbtparser/NBTPath.java:64-78 | parsePath peels off the last step, trying the list shape before the key shape; an index that does not convert or a text of neither shape is an error, and the prefix is the root or parsed in turn; NbtPath.ParsePrinted and NbtPath.ReparseParsed state the round trip |
| NbtPath.RunStart | src/eu/neurovertex/xmppcraft/nbtparser/NBTPath.java:13 | the trailing run of word or digit characters is the longest one: the character before it is outside the class |
| NbtPath.RunStartUnique | src/eu/neurovertex/xmppcraft/nbtparser/NBTPath.java:13 | a text ending in a non-class character and a run of the class has its run start right after that character |
| NbtPath.ListSplit | src/eu/neurovertex/xmppcraft/nbtparser/NBTPath.java:13 | a match of the list pattern covers the whole text, with a shorter prefix, then "[", digits and "]" |
| NbtPath.KeySplit | src/eu/neurovertex/xmppcraft/nbtparser/NBTPath.java:13 | a match of the key pattern covers the whole text, with a shorter prefix, then "." and word characters |
| NbtPath.ListSplitComplete | src/eu/neurovertex/xmppcraft/nbtparser/NBTPath.java:13 | every text of the list shape is matched, with its only split as the groups |
| NbtPath.KeySplitComplete | src/eu/neurovertex/xmppcraft/nbtparser/NBTPath.java:13 | every text of the key shape is matched, with its only split as the groups |
| NbtPath.ListSplitExact | src/eu/neurovertex/xmppcraft/nbtparser/NBTPath.java:13 | the list pattern matches exactly the texts of the list shape |
| NbtPath.KeySplitExact | src/eu/neurovertex/xmppcraft/nbtparser/NBTPath.java:13 | the key pattern matches exactly the texts of the key shape |
| NbtPath.ParseInt | src/eu/neurovertex/xmppcraft/nbtparser/NBTPath.java:70 | Integer.parseInt accepts a run of digits exactly when its value fits an int, and returns that value |
| NbtPath.Extend | src/eu/neurovertex/xmppcraft/nbtparser/NBTPath.java:76-77 | the parsed step goes after the parent's steps, and a failed parent fails the whole parse |
| NbtPath.ParseListStep | src/eu/neurovertex/xmppcraft/nbtparser/NBTPath.java:68-77 | a text of the list shape parses to its prefix's path extended by the index |
| NbtPath.ParseKeyStep | src/eu/neurovertex/xmppcraft/nbtparser/NBTPath.java:71-77 | a text of the key shape that is not a list parses to its prefix's path extended by the key |
| NbtPath.NodesTextNoLineTerminator | src/eu/neurovertex/xmppcraft/nbtparser/NBTPath.java:98-126 | printed well-formed steps hold no line terminator, so the patterns' (.*) can span them |
| NbtPath.RootedNoLineTerminator | src/eu/neurovertex/xmppcraft/nbtparser/NBTPath.java:80-83 | a printed well-formed path holds no line terminator |
| NbtPath.RootConcatNoLineTerminator | src/eu/neurovertex/xmppcraft/nbtparser/NBTPath.java:80-83 | "root" before a text without line terminators adds none |
| NbtPath.LastStepShape | src/eu/neurovertex/xmppcraft/nbtparser/NBTPath.java:80-83 | a printed path of at least one step has the shape of its last step after the printed prefix |
| NbtPath.InitWellFormed | src/eu/neurovertex/xmppcraft/nbtparser/NBTPath.java:68-77 | the steps before the last, and the last, of a well-formed path are well formed |
| NbtPath.RootedLast | src/eu/neurovertex/xmppcraft/nbtparser/NBTPath.java:80-83 | the printed path is the printed prefix followed by the last step's text |
| NbtPath.StepShape | src/eu/neurovertex/xmppcraft/nbtparser/NBTPath.java:98-126 | a well-formed step printed after a prefix without line terminators has that step's shape |
| NbtPath.LongerThanRoot | src/eu/neurovertex/xmppcraft/nbtparser/NBTPath.java:76 | the printed prefix of a path with a step is never taken for the root |
| NbtPath.ParsePrinted | src/eu/neurovertex/xmppcraft/nbtparser/NBTPath.java:64-83 | printing a well-formed path of at least one step and parsing the text gives the path back |
| NbtPath.ParseLastStep | src/eu/neurovertex/xmppcraft/nbtparser/NBTPath.java:64-83 | the last printed step parses onto whatever the printed prefix parses to |
| NbtPath.ParsedWellFormed | src/eu/neurovertex/xmppcraft/nbtparser/NBTPath.java:64-78 | everything that parses is a path of at least one step, with word-character keys and int-range indices |
| NbtPath.LastParsed | src/eu/neurovertex/xmppcraft/nbtparser/NBTPath.java:64-78 | a text that parses ends in one well-formed step after a shorter prefix, and is that prefix's path extended by it |
| NbtPath.ReparseParsed | src/eu/neurovertex/xmppcraft/nbtparser/NBTPath.java:64-83 | the printed form of any parsed path parses to the same path |
| NbtPath.RootAloneRejected | src/eu/neurovertex/xmppcraft/nbtparser/NBTPath.java:74-75 | "root" alone matches neither pattern and is a parse error |
| NbtPath.UnrootedRejected | src/eu/neurovertex/xmppcraft/nbtparser/NBTPath.java:74-76 | a first step without "root" in front fails on the text left before it |
| NbtPath.OverflowBeforePrefix | src/eu/neurovertex/xmppcraft/nbtparser/NBTPath.java:68-76 | an index beyond the int range fails with NumberFormatException before the prefix is looked at |
| NbtPath.Step | src/eu/neurovertex/xmppcraft/nbtparser/NBTPath.java:93-121 | a step on null fails as a missing key, and an index step that succeeds yields a tag |
| NbtPath.GetElement | src/eu/neurovertex/xmppcraft/nbtparser/NBTPath.java:24-43 | the root path gives the root; otherwise the element the steps lead to, or an NBTPathException naming the first failure |
| NbtPath.FindElement | src/eu/neurovertex/xmppcraft/nbtparser/NBTPath.java:39-43 | findElement: the root for the root path, else the last step applied to the element of the parent path, the first failure being kept; NbtPath.FindElementAppend and NbtPath.FailureSticks state it |
| NbtPath.FindElementAppend | src/eu/neurovertex/xmppcraft/nbtparser/NBTPath.java:39-43 | evaluating a longer path continues from where the shorter one led |
| NbtPath.FailureSticks | src/eu/neurovertex/xmppcraft/nbtparser/NBTPath.java:24-43 | once a step fails, later steps do not change the outcome |
| NbtPath.MissingKey | src/eu/neurovertex/xmppcraft/nbtparser/NBTPath.java:24-37 | a missing last key gives null; a missing key with a step after it gives "Unknown key in path" |
| NbtPath.KeyStep | src/eu/neurovertex/xmppcraft/nbtparser/NBTPath.java:118-121 | a key step on a compound gives the child under the lower-cased key, and finds one exactly when containsKey holds |
| NbtPath.StepOutcomes | src/eu/neurovertex/xmppcraft/nbtparser/NBTPath.java:93-121 | an index step succeeds exactly on a list with the index in range; a step of the wrong kind is a type error |

## Left out

- Threads: the reader thread, `wait`/`notifyAll` and `Thread.sleep` in `capture` are replaced by sequential steps. `LogParsing.LogParser.Capture` takes the number of dispatcher steps that happen during the sleep instead of a duration.
- Listener code is not part of this model. Whether a callback throws an unchecked exception is the parameter `fails`, a fixed function of the listener and the callback. A listener that throws on one call and returns on an identical later call is not represented.
- The `System.exit` on an empty poll in the dispatcher loop is not modelled. A step polls only a non-empty queue, so the branch cannot be reached there.
- The `java.util.regex` engine is not modelled. Each pattern is a hand-written matcher for its shape, and the log-prefix search follows the engine's greedy backtracking order.
- `HashMap` iteration order is not modelled. The order in which `parseCommand` and `help` visit the commands is an arbitrary enumeration `order` given as a parameter, and the proved properties hold for every such order.
- Nbt.FindTagIsFirstInPreorder: visits a compound's children in insertion order, whereas the source visits them in `HashMap` order. Nbt.FindTagFound is the order-independent statement.
- Nbt.FindInEntriesIsFirst: visits a compound's entries in insertion order, whereas the source visits them in `HashMap` order.
- ChatText.Truncate: counts characters as Unicode scalar values. `String.length` and `substring` count UTF-16 code units, so text with characters outside the Basic Multilingual Plane is cut at a different place.
- Bot.ChatBot.MucMessage: takes maxLen as a non-negative number. With a negative `chatbot.maxlen` setting every `mucMessage` while joined throws StringIndexOutOfBoundsException, which ChatText.Truncate models; MucMessage and the routes that send through it do not carry that exception to their callers. Its lengths are counted as for ChatText.Truncate, in Unicode scalar values rather than UTF-16 code units.
- ChatText.CommandGroup: compares the nick literally, ignoring case. The source compiles `nick + "(?:[,: ] ?)?(.+)"` as a regular expression (ChatBot.java:75), so a nick holding regex metacharacters matches other texts.
- ChatText.CommandGroupSound: holds of the literal-nick model only, for the reason given for ChatText.CommandGroup.
- ChatText.CommandGroupAddressed: holds of the literal-nick model only, for the reason given for ChatText.CommandGroup.
- Bot.ChatBot.constructor: states each registered command's category, name, level and body. Its matcher and help text are stated by the Register methods of its batch; its syntax string is not stated.
- Bot.ChatBot.RegisterAll: states each registered command's category, name, level and body, for the reason given for Bot.ChatBot.constructor.
- Bot.ChatBot.Command: states only the failed issuer lookup. The verdict, the answer and what the command body does to the state are stated by Bot.ChatBot.ParseCommand, which it calls. The message handlers that call it rely only on its answer.
- GameCommands.Shutdown: the saves of the registry, the settings and the language strings, the "Error saving settings" message on an I/O failure, and the half-second sleep are not modelled.
- XMPPCommands.java, Main.java, XMPPChatManager.java, StreamCopier.java, ChatHandler.java, Updater.java, Settings.java, PlayerData.java and LogListener.java are not part of this model. They are transport, process wiring, file I/O and logging.
- Settings are a key-to-value map that `toggle` writes; their JSON persistence is not modelled.
- The XMPP connection, roster and presence are an `Env` value (`roster`, `available`, `online`). A send is an action appended to the outbox; delivery is not modelled.
- Bot.ChatBot.ExecuteCore: `save`, `get`, `set`, `reset`, `version`, `update` and `reload` do file, settings or updater I/O. Their outcome is taken from the environment (`external`) rather than computed.
- Language-string lookups are fixed at their default texts.
- Registry persistence (`save`/`load`) is not modelled; registry changes are kept in memory only.
- `chatCreated` and the private-chat bookkeeping are not modelled. A private tell is an outbox action.
- Logging calls (`log`, `System.err`, `printStackTrace`) are not modelled.
- Bot.ChatBot.OnExit: sends the farewell only. The settings save, the sleep and the disconnection are not modelled.
- The `list` command's console capture is the `captured` field of the environment.
- GZIP decompression is not modelled. The decoder reads the decompressed bytes.
- FLOAT and DOUBLE payloads keep their raw big-endian bits as an integer instead of a floating-point value.
- Nbt.Latin1: decodes names and string payloads one character per byte, instead of with the platform charset of `new String(byte[])`.
- `printStructure`, `buildPath`/`getPath` and the `toString` of tags other than byte arrays are output formatting and are not modelled.
- The layout of a whole named numeric tag is not proved as one lemma. It follows from Nbt.NamedTagRead, Nbt.StringPayload and Nbt.IntegerPayload together.
- Text.ToLower: lower-cases ASCII letters only. `String.toLowerCase` and `equalsIgnoreCase` also fold other alphabets.
- UserCommands.ResolveLevel: a one-character level is read as an ASCII digit only. `Integer.parseInt` also accepts other Unicode decimal digits.

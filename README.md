# leaderz-backend, modelled in Dafny

leaderz-backend runs a golf tournament over WhatsApp. Players text their team name and then their score for each hole. Those scores feed a live leaderboard and a tournament chat. Web clients follow both through server-sent events.

This project models the core of that system and proves properties of the model:

- **Score grammar** (`score_parser.dfy`). `parseScore` turns free text such as `4`, `+1`, `birdie` or `snowman` into a stroke count. `getScoreDescription` names a score relative to par.
- **Tournament key codec** (`tournament_key.dfy`). A base-13 encoding over the alphabet `23478GLFZHARD`. Both source functions are loops, so they are methods proved against specification functions.
- **Subscriber registries**:
  - `sse_manager.dfy`: the `SSEManager`;
  - `connection_manager.dfy`: the `ConnectionManager` the message handler broadcasts through.

  Each is a class with a `seq` of entries and an outbox of writes. A response stream is an opaque handle. The `'close'` callbacks are explicit remove calls.
- **Store** (`database.dfy`). An in-memory model of the team, player, score, chat and course tables used by the `DatabaseService` operations. The queries are functions. The updates are methods on a `Store` class.
- **Inbound-message state machine** (`whatsapp_handler.dfy`):
  - `handleMessage` dispatches on the sender's records: no player, a player without a team, or a player on a team.
  - A player on a team has each message classified as help, delete, score or chat.
  - Each handler is modelled: join, delete, score submission and chat.
  - The actions are sequenced over the store and the connection manager.
- **Address handling** (`twilio.dfy`). `formatPhoneNumber` and the `whatsapp:` address that `sendMessage` builds.
- **Shared pieces** (`text.dfy`, `channels.dfy`, `wrappers.dfy`). String helpers (ASCII lower-casing, JavaScript-style trimming, decimal text), the shared delivery and topic types, and `Option`.

## Behaviour the model reproduces

These are properties of the code as written, and the model keeps them.

- **Table entries of 0 or more are absolute stroke counts**, even where the table's comments call them par-relative:
  - `par` is 0, floored to 1 stroke;
  - `bogey` is 1 stroke;
  - `zero` gives 0 strokes, because the number-word rule runs first.
- **In `removeConnection`, the topic is ignored.** It drops the first entry with the same response and tournament. Suppose one response is subscribed to both topics of a tournament and its leaderboard write fails. Then its chat entry is removed, and the failed leaderboard entry stays (`Connections.RemovalIgnoresTopic`).
- **A deleted team locks its players out.** `deleteTeam` sets only `is_deleted`. The player keeps the deleted team's id, `getTeamById` no longer finds it, and every later message from that player gets the apology (`WhatsApp.HandleMessage`, case `OnTeam`).
- **Asking to delete another team gets the apology.** The rejection message reads `player.teams.name`, which the player row does not have. So the rejection throws, and that one message is answered with the apology. Nothing is changed, and later messages are handled as usual (`WhatsApp.HandleTeamDeletion`).
- **The help text's correction syntax is not implemented.** The help text advertises corrections such as `bogey on 9`. Any text of the form `<term> on <hole>` matches no rule and is posted as chat (`WhatsApp.CorrectionIsChat`).
- **`constructor` and `__proto__` are read as scores.** The number-word lookup is a plain object, so these two keys find an inherited value that is not `undefined`. `parseScore` then returns a result whose strokes are not a number (`ScoreParser.InheritedKeyIsNonNumeric`). That result is truthy, so at a non-zero par the message goes to the score submission and not to the chat (`WhatsApp.InheritedKeyIsSubmitted`). There `addTeamScore` fails, and the sender gets the apology with nothing stored (`WhatsApp.ScoreOutcome`).
- **`formatPhoneNumber` removes only the first `whatsapp:`**, so applying it twice can differ from applying it once.

## Model

| member | source | states |
|---|---|---|
| ScoreParser.ParseScore | src/utils/scoreParser.ts:40-111 | the result is no score, a numeric score, or a non-numeric result, and the non-numeric result carries one of the two inherited keys; a numeric result echoes the raw input, and its description is `getScoreDescription` of its strokes at that par |
| ScoreParser.StrokesOf | src/utils/scoreParser.ts:43-108 | the rule chain in source order; its properties are stated by ScoreParser.DigitInput, ScoreParser.WordRules, ScoreParser.PlusScore, ScoreParser.MinusScore and ScoreParser.TableScore |
| ScoreParser.ParseIgnoresCaseAndWhitespace | src/utils/scoreParser.ts:41 | surrounding white space and letter case never change whether the text parses, nor its strokes or description |
| ScoreParser.DigitInput | src/utils/scoreParser.ts:44-54 | an all-digit input of value v is v strokes (0 included) when v ≤ 20 and is no score when v > 20 |
| ScoreParser.DecimalRoundTrip | src/utils/scoreParser.ts:44-54 | the decimal text of each count 0..20 parses to exactly that count |
| ScoreParser.WordRules | src/utils/scoreParser.ts:57-64 | a lower-case word gives the non-numeric result exactly when it is an inherited key; any other word reaches only the number-word rule and then the table, in that order |
| ScoreParser.InheritedKeyNoRule | src/utils/scoreParser.ts:44-108 | an inherited key is no digit string and matches no rule, so testing it first keeps the source's rule order |
| ScoreParser.InheritedKeyIsNonNumeric | src/utils/scoreParser.ts:41-64 | `constructor` or `__proto__`, in any letter case and with any surrounding white space, gives the non-numeric result under that key |
| ScoreParser.NumberWordScore | src/utils/scoreParser.ts:3-6 | each number word gives its literal value |
| ScoreParser.ZeroWord | src/utils/scoreParser.ts:22 | `zero` gives 0 strokes although its table entry would give 1 |
| ScoreParser.PlusScore | src/utils/scoreParser.ts:67-76 | `+d`, for every digit string d, is exactly par + value(d) strokes, with no cap and no floor |
| ScoreParser.MinusScore | src/utils/scoreParser.ts:79-88 | `-d`, for every digit string d, is max(1, par − value(d)) strokes |
| ScoreParser.TableScore | src/utils/scoreParser.ts:91-108 | a table word is its entry when the entry is ≥ 0 and par + entry otherwise, floored at 1 in both cases |
| ScoreParser.BirdieTerm | src/utils/scoreParser.ts:90-107 | birdie is max(1, par − 1) strokes |
| ScoreParser.EagleTerm | src/utils/scoreParser.ts:90-107 | eagle is max(1, par − 2) strokes |
| ScoreParser.AlbatrossTerm | src/utils/scoreParser.ts:90-107 | albatross is max(1, par − 3) strokes |
| ScoreParser.ParIsOneStroke | src/utils/scoreParser.ts:22 | `par` is one stroke whatever the par |
| ScoreParser.BogeyIsOneStroke | src/utils/scoreParser.ts:25 | `bogey` is one stroke whatever the par |
| ScoreParser.SnowmanIsEight | src/utils/scoreParser.ts:37 | `snowman` is eight strokes |
| ScoreParser.ConsoleCasePar | src/test-setup.ts:10-13 | at par 4, `4` is described as "par" |
| ScoreParser.ConsoleCaseBogey | src/test-setup.ts:10-13 | at par 4, `+1` is described as "bogey" |
| ScoreParser.ConsoleCaseBirdie | src/test-setup.ts:11 | at par 4, `birdie` is described as "birdie" |
| ScoreParser.ConsoleCaseEagle | src/test-setup.ts:12 | at par 4, `eagle` is described as "eagle" |
| ScoreParser.ConsoleCaseHoleInOne | src/test-setup.ts:14 | at par 4, `hole in one` is described as "hole in one" |
| ScoreParser.HoleInOneDescription | src/utils/scoreParser.ts:116 | "hole in one" describes exactly the one-stroke scores |
| ScoreParser.ScoreDescription | src/utils/scoreParser.ts:113-128 | `getScoreDescription`; its properties are stated by ScoreParser.HoleInOneDescription, ScoreParser.DescriptionShape and ScoreParser.DescriptionDeterminesScore |
| ScoreParser.DescriptionShape | src/utils/scoreParser.ts:113-128 | a description is "hole in one", a named term that maps back to the difference from par, "d over par" for d > 4, or "s strokes" for the rest |
| ScoreParser.DescriptionDeterminesScore | src/utils/scoreParser.ts:113-128 | equal descriptions imply the same hole-in-one status; the same difference from par for differences ≥ −3; and the same strokes otherwise |
| TournamentKey.GenerateTournamentKey | src/utils/tournamentKeyGenerator.ts:3-18 | the remainder loop and the padding loop return the specified key |
| TournamentKey.EncodeKey | src/utils/tournamentKeyGenerator.ts:3-18 | the key of a number; its properties are stated by TournamentKey.RoundTrip, TournamentKey.EncodeInjective, TournamentKey.EncodedInAlphabet and TournamentKey.KeyLength |
| TournamentKey.TournamentKeyToNumber | src/utils/tournamentKeyGenerator.ts:20-35 | the accumulation loop returns the specified value, or fails at the first character outside the alphabet |
| TournamentKey.Decode | src/utils/tournamentKeyGenerator.ts:20-35 | the value of a key, or the first invalid character; its properties are stated by TournamentKey.DecodeFailsIff, TournamentKey.DecodeNamesFirstInvalid and TournamentKey.RoundTrip |
| TournamentKey.IndexOf | src/utils/tournamentKeyGenerator.ts:27 | the first position of the character, or −1 exactly when it is absent |
| TournamentKey.AlphabetDistinct | src/utils/tournamentKeyGenerator.ts:1 | the alphabet has 13 pairwise-distinct characters |
| TournamentKey.DigitValueIsIndex | src/utils/tournamentKeyGenerator.ts:5-8 | the digit value of the k-th alphabet character is k |
| TournamentKey.DecodeFailsIff | src/utils/tournamentKeyGenerator.ts:27-30 | decoding fails if and only if some character is outside the alphabet |
| TournamentKey.DecodeNamesFirstInvalid | src/utils/tournamentKeyGenerator.ts:24-30 | a failing decode names the first character outside the alphabet: everything before it is in the alphabet |
| TournamentKey.LeadingZeroDigit | src/utils/tournamentKeyGenerator.ts:31 | a leading `2` adds nothing to a key's value |
| TournamentKey.LeadingZero | src/utils/tournamentKeyGenerator.ts:31 | prefixing any zero-valued digit keeps a key in the alphabet and keeps its value |
| TournamentKey.AppendDigit | src/utils/tournamentKeyGenerator.ts:31 | appending a digit multiplies the value by the base of 13 and adds the digit's index in the alphabet |
| TournamentKey.PadKeepsValue | src/utils/tournamentKeyGenerator.ts:13-15 | padding keeps the value and gives length max(4, original) |
| TournamentKey.DigitsValue | src/utils/tournamentKeyGenerator.ts:7-10 | the remainder loop's digits evaluate back to the number |
| TournamentKey.EncodedInAlphabet | src/utils/tournamentKeyGenerator.ts:8-14 | every character of a key is in the alphabet |
| TournamentKey.RoundTrip | src/utils/tournamentKeyGenerator.ts:3-35 | decoding the key of any n ≥ 0 gives n back |
| TournamentKey.EncodeInjective | src/utils/tournamentKeyGenerator.ts:3-18 | distinct numbers get distinct keys |
| TournamentKey.ZeroKey | src/utils/tournamentKeyGenerator.ts:7-15 | the key of 0, and of any non-positive number, is "2222" |
| TournamentKey.DigitsLength | src/utils/tournamentKeyGenerator.ts:7-10 | the loop yields at most k digits below 13^k and more than k digits from 13^k on |
| TournamentKey.KeyLength | src/utils/tournamentKeyGenerator.ts:7-15 | a key has at least 4 characters, and exactly 4 if and only if n < 13^4 |
| Channels.DeliverAllConcat | src/services/sseManager.ts:25-31 | writing a payload to two handle lists in turn is writing it to their concatenation, so the writes follow list order |
| Sse.SseManager.AddClient | src/services/sseManager.ts:12-14 | exactly one client is appended and the existing clients are kept |
| Sse.SseManager.RemoveClient | src/services/sseManager.ts:20-22 | the list becomes the clients holding another handle |
| Sse.SseManager.Broadcast | src/services/sseManager.ts:24-32 | one frame per matching client, in list order; the client list is untouched |
| Sse.ReceiversMembership | src/services/sseManager.ts:26-29 | a client is reached exactly when it is listed, has the tournament, and has the topic or the wildcard |
| Sse.ReceiversConcat | src/services/sseManager.ts:26 | receivers keep list order |
| Sse.TopicIsolation | src/services/sseManager.ts:24-31 | chat clients never get leaderboard frames and vice versa; unified clients get both |
| Sse.WithoutMembership | src/services/sseManager.ts:21 | after removal, a client is listed exactly when it was listed before and holds another handle |
| Sse.WithoutConcat | src/services/sseManager.ts:21 | removal keeps the order of the rest |
| Sse.WithoutUnknown | src/services/sseManager.ts:21 | removing a handle nobody holds changes nothing |
| Sse.WithoutIdempotent | src/services/sseManager.ts:21 | removing twice is removing once |
| Connections.ConnectionManager.AddConnection | src/services/connectionManager.ts:12-21 | appends exactly the given connection and returns it |
| Connections.ConnectionManager.RemoveConnection | src/services/connectionManager.ts:24-31 | the list becomes the first-match removal of the entry's key |
| Connections.ConnectionManager.BroadcastToTournament | src/services/connectionManager.ts:33-49 | writes go to the snapshot's targets in order, skipping failed writes; each failed target is then removed in turn |
| Connections.RemoveFirstNoMatch | src/services/connectionManager.ts:28 | with no entry of the same response and tournament, nothing changes |
| Connections.RemoveFirstMatch | src/services/connectionManager.ts:25-30 | otherwise exactly the first such entry is spliced out, whatever its topic |
| Connections.TargetsMembership | src/services/connectionManager.ts:34-36 | the targets are the connections with that tournament and the identical topic; there is no wildcard |
| Connections.BroadcastRemovesExactlyFailed | src/services/connectionManager.ts:40-47 | with unique response/tournament keys, a broadcast removes exactly the targets whose write failed and keeps every other connection |
| Connections.RemovalIgnoresTopic | src/services/connectionManager.ts:24-48 | a failed leaderboard write removes the same response's chat entry and leaves the failed entry |
| Connections.CountSplit | src/services/connectionManager.ts:51-55 | the untyped count is the leaderboard count plus the chat count |
| Connections.CountAfterAdd | src/services/connectionManager.ts:12-55 | adding a connection raises its (tournament, topic) count by one and leaves other typed counts alone |
| Connections.CountIsTargets | src/services/connectionManager.ts:33-55 | the count for a topic is the number of connections a broadcast on that topic targets |
| Connections.ConnectionManager.GetConnectionCount | src/services/connectionManager.ts:51-55 | with a topic, the number of connections a broadcast on that topic would target; without one, both topics together |
| Twilio.IndexOf | src/services/twilioService.ts:32 | the first position where the pattern occurs, or none when it never occurs |
| Twilio.FormatPhoneNumber | src/services/twilioService.ts:30-33 | `replace('whatsapp:', '')`; its properties are stated by Twilio.NoPrefixUnchanged, Twilio.FirstOccurrenceRemoved and Twilio.FormatNotIdempotent |
| Twilio.NoPrefixUnchanged | src/services/twilioService.ts:30-33 | a sender without `whatsapp:` is returned unchanged |
| Twilio.FirstOccurrenceRemoved | src/services/twilioService.ts:32 | otherwise the result is the text before the first occurrence followed by the text after it, nine characters shorter |
| Twilio.WhatsAppAddress | src/services/twilioService.ts:22 | the outgoing address starts with `whatsapp:`, the rest is exactly the number, and it is nine characters longer |
| Twilio.AddressRoundTrip | src/services/twilioService.ts:22-32 | formatting an outgoing-style address gives back the bare number |
| Twilio.FormatNotIdempotent | src/services/twilioService.ts:32 | for every `s`, on `whatsapp:whatsapp:s` one call removes one prefix, a second call removes the other, so the function is not idempotent |
| Database.FindByName | src/services/databaseService.ts:99-105 | the result is a listed, non-deleted team of that tournament with exactly that name, and there is none exactly when no team matches |
| Database.CreatedTeamIsFound | src/services/databaseService.ts:91-113 | a team created under a name no live team of the tournament holds is then found both by its new id and by that name |
| Database.DeletedTeamIsHidden | src/services/databaseService.ts:99-117 | after `deleteTeam` the team is found neither by id nor by name; only its `is_deleted` flag changed, and every other team is as before |
| Database.ProgressChangesOneTeam | src/services/databaseService.ts:119-125 | `updateTeamScore` changes exactly `total_score` and `current_hole` of one team |
| Database.CreatePlayerKeepsLink | src/services/databaseService.ts:128-134 | one record per phone; the name is overwritten (null when none is given); an existing team link is kept and a new player has none |
| Database.AddPlayerToTeamKeepsName | src/services/databaseService.ts:136-142 | sets the team link of an existing player, keeps their name when none is given, and leaves other players alone |
| Database.UpsertKeepsUnique | src/services/databaseService.ts:153-159 | at most one score per (team, hole) before and after; the written score is stored and the other slots are kept |
| Database.UpsertTotal | src/services/databaseService.ts:153-159 | the team's sum changes by the new strokes minus the strokes the hole had before |
| Database.UpsertOtherTeams | src/services/databaseService.ts:153-167 | writing a score leaves every other team's score list exactly as it was |
| Database.TotalAppend | src/services/whatsappHandler.ts:140 | the stroke sum is additive over concatenation |
| Database.PositionBounds | src/services/databaseService.ts:233-243 | a ranked team's position is between 1 and the number of ranked teams |
| Database.Position | src/services/databaseService.ts:233-243 | `getTeamPosition`; its properties are stated by Database.PositionBounds and Database.PositionOrder |
| Database.PositionOrder | src/services/databaseService.ts:236 | tied totals share a position, and a strictly lower total gives a strictly better position |
| Database.CountBelowStrict | src/services/databaseService.ts:236 | a ranked team with a total in [a, b) makes the count below b exceed the count below a |
| Database.CeilDiv | src/services/databaseService.ts:207 | `Math.ceil(total / limit)`: the least q with q·limit ≥ total |
| Database.Window | src/services/databaseService.ts:193 | `LIMIT`/`OFFSET`: at most `limit` rows, starting at the offset, empty past the end |
| Database.NewestComesFirst | src/services/databaseService.ts:188-192 | a newly stored message heads the newest-first listing, joined with its team's name, ahead of the listing as it was |
| Database.ChatMessages | src/services/databaseService.ts:185-210 | at most `limit` entries, all from that tournament's stored messages |
| Database.ChatPageContents | src/services/databaseService.ts:186-207 | page p holds the messages from position (p−1)·limit on, newest first; it holds min(limit, messages left) of them when it starts inside the list; total counts the tournament's messages; the page is non-empty exactly when p ≤ totalPages |
| Database.TournamentChatsSubset | src/services/databaseService.ts:191 | a message is in the tournament's list exactly when it is stored with that tournament |
| Database.Store.CreateTeam | src/services/databaseService.ts:91-97 | appends a team with the next id, hole 1, total 0, not deleted |
| Database.Store.DeleteTeam | src/services/databaseService.ts:115-117 | soft-deletes the team and touches no other table |
| Database.Store.UpdateTeamScore | src/services/databaseService.ts:119-125 | sets the team's total and current hole |
| Database.Store.CreatePlayer | src/services/databaseService.ts:128-134 | the player table becomes the upsert on the phone number |
| Database.Store.AddPlayerToTeam | src/services/databaseService.ts:136-142 | the player table becomes the team link update |
| Database.Store.AddTeamScore | src/services/databaseService.ts:153-159 | the score table becomes the (team, hole) upsert and stays unique |
| Database.Store.AddChatMessage | src/services/databaseService.ts:170-183 | appends the row and returns it joined with its team's name |
| WhatsApp.CurrentPar | src/services/whatsappHandler.ts:80 | the par of the first hole with that number, or none exactly when no hole has it |
| WhatsApp.Classify | src/services/whatsappHandler.ts:64-88 | the tests in source order; their outcome is stated by WhatsApp.HelpIgnoresCase, WhatsApp.DeleteKeepsCase, WhatsApp.ScoreNeedsPar, WhatsApp.InheritedKeyIsSubmitted and WhatsApp.CorrectionIsChat |
| WhatsApp.HelpIgnoresCase | src/services/whatsappHandler.ts:64-70 | `help` in any letter case gives the help reply, ahead of every other reading |
| WhatsApp.ScoreNeedsPar | src/services/whatsappHandler.ts:78-85 | a score is recognised exactly when the text is neither help nor a delete request and parses at a present, non-zero par; what is recognised is what the submission re-parses |
| WhatsApp.InheritedKeyIsSubmitted | src/services/whatsappHandler.ts:78-85 | at a non-zero par, a message spelling an inherited key goes to the score submission with the non-numeric result |
| WhatsApp.CorrectionIsChat | src/services/whatsappHandler.ts:64-97 | every `<term> on <digits>` whose term does not itself read as a delete request is posted as chat, at any par, and is not read as a correction |
| WhatsApp.CorrectionIsNoScore | src/utils/scoreParser.ts:40-111 | every `<term> on <digits>` matches no rule of the grammar |
| WhatsApp.DeleteKeepsCase | src/services/whatsappHandler.ts:73-106 | every text whose lower-cased form starts with `delete ` is a delete request at any par, and the team name is the trimmed original-case text after seven characters |
| WhatsApp.DeleteExample | src/services/whatsappHandler.ts:106 | `DELETE The Eagles ` names the team `The Eagles` |
| WhatsApp.NextHoleStaysOnCourse | src/services/whatsappHandler.ts:143-145 | the hole advances by one until the last hole and then stays; a hole on the course stays on it |
| WhatsApp.NewTeamKeepsTotals | src/services/databaseService.ts:91-97 | a new team has no scores, so every total still equals its team's sum |
| WhatsApp.ScoreKeepsTotals | src/services/whatsappHandler.ts:136-148 | storing a score and writing back the team's sum keeps every team's total equal to its sum |
| WhatsApp.HandleNewPlayer | src/services/whatsappHandler.ts:41-51 | creates the player without a name or team and replies with the welcome |
| WhatsApp.HandleTeamJoin | src/services/whatsappHandler.ts:209-234 | fails without a tournament; otherwise joins the live team of that exact name, or a newly created one, and reports that team's hole |
| WhatsApp.HandleTeamDeletion | src/services/whatsappHandler.ts:105-126 | throws unless the named live team is the player's own; refuses when it has scores; otherwise soft-deletes only that team; no other table changes |
| WhatsApp.RecordScore | src/services/whatsappHandler.ts:135-148 | upserts the strokes at the current hole, returns the sum of the team's scores, which equals the old total with that hole's strokes replaced, stores it with the next hole, and keeps every team's total equal to the sum of its scores |
| WhatsApp.HandleScoreSubmission | src/services/whatsappHandler.ts:128-184 | text that parses as no score gets the format reply and changes nothing; a non-numeric result throws with nothing stored or broadcast; a numeric one upserts the strokes at the current hole, makes the new total the old one with that hole's strokes replaced, advances the hole, broadcasts a leaderboard update, and adds the final total and place exactly on the last hole |
| WhatsApp.HandleChatMessage | src/services/whatsappHandler.ts:186-207 | stores the message and changes no other table, broadcasts it with the team's name to the tournament's chat connections, and confirms |
| WhatsApp.ActOnMessage | src/services/whatsappHandler.ts:64-88 | help, then delete, then score, then chat; help changes nothing, and each other branch has exactly the reply and the effect on the tables and the connections that its handler states |
| WhatsApp.HandleExistingPlayer | src/services/whatsappHandler.ts:53-89 | a missing tournament or a deleted or missing team throws with nothing changed; otherwise the reply and effects are those of acting on the classified message for the team found |
| WhatsApp.HandleMessage | src/services/whatsappHandler.ts:12-39 | replies to the formatted sender; an unknown sender is welcomed and created; a sender without a team gets the apology with nothing changed when there is no tournament, and otherwise is linked to the live team named by the trimmed text, which is created when there is none, with no other team or player changed; a sender whose team is gone gets the apology with nothing changed; a sender on a live team gets the reply and effects of acting on the trimmed text; every thrown error becomes the apology; the store invariants and matching totals are kept |

## Left out

- Emoji keys of the score table, Unicode case mapping and trimming beyond ASCII letters and JavaScript white space, and `parseInt` on digit strings beyond double precision: the model lower-cases ASCII and uses natural numbers.
- Postgres itself: SQL, connection pooling, `testConnection`, and every database failure. The model makes no database call fail except an absent tournament.
- `getLeaderboard` and `getPars`: a leaderboard broadcast carries only the tournament id (`WhatsApp.Event`).
- `JSON.stringify` of broadcast data: `Sse.SseManager` frames an already-serialised string. `Connections.ConnectionManager` records the data value written, whose frame would be the same `data: <json>` text.
- `DatabaseService.getTournamentByUrlId` and `Tournament.url_id` do not exist in `databaseService.ts` or `types/index.ts`. The handler receives the lookup's result as an optional `Tournament` that carries a `urlId`.
- The Twilio client and `sendMessage` failures: a reply is the returned `Outgoing` value. A failing send inside the apology path is not modelled.
- The asynchronous fire-and-forget call from the webhook route and any interleaving of messages. The model handles one message at a time.
- Reply template text, leaderboard URLs, ordinal place formatting and the `stroke`/`strokes` wording. Replies are a datatype that keeps only the data they show.
- `getTeamPosition` returns a Postgres bigint, which arrives as a string and is never `=== 1`. The model's place is the rank number.
- Row order of `getTeamByName` when several live teams share a name: the model returns the first in insertion order.
- `created_at` ordering of chat messages: the model takes insertion order; ties in the timestamp are not modelled.
- Schema defaults (`current_hole` 1, `total_score` 0, `is_deleted` false) are assumed, since the schema file is not part of this model.
- Golf course, tournament creation and update, `getGolfCourse`, `getTournamentByNumber`, `deleteTournament`, `deleteGolfCourse`: these are not used by the modelled core.
- `addPlayerToTeam` with an undefined team id: every modelled caller passes an existing team's id, and the team-id foreign key is a precondition of `Database.Store.AddPlayerToTeam`, `Database.Store.AddTeamScore` and `Database.Store.AddChatMessage`.
- The `join-team` route and Express routing, validation, CORS, rate limiting and startup. The page and limit bounds that `getChatMessages` relies on come from its route's validation and are its preconditions.
- `src/services/eventService.ts` and the tooling scripts.
- Connections.BroadcastRemovesExactlyFailed: proved only when no two connections share a response and tournament. `Connections.RemovalIgnoresTopic` shows what happens otherwise.
- ScoreParser.ParseScore: the non-numeric result keeps only the inherited key, not the function value found under it or its description. The storing step is taken to fail on it because the strokes column is assumed to be an integer column; the schema is not part of this model.
- TournamentKey.RoundTrip: stated over unbounded integers. The source computes with JavaScript doubles, whose `%`, `Math.floor` and `*`/`+` are exact only below 2^53, and takes any number, not only integers.
- TournamentKey.TournamentKeyToNumber: its value is exact for every key. In the source, `result * base + charIndex` rounds once the value passes 2^53, which is possible for keys of 15 or more characters.

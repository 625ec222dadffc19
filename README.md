# The Fox — a Dafny model of the game server's turn engine

"Коварный лис" ("The Sly Fox") is a 2–4 player board game served by a set of PHP endpoints over
a PostgreSQL database. Each game gets:

- a fox row, whose position is 0..36 in play, 37 or more when the fox escaped, −1 for a lost
  accusation and −2 for a won one;
- an 18×18 board of cells;
- every catalogue suspect, hidden;
- twelve clues shared out among the suspects and laid hidden on the board outside the centre 2×2.

Players join seats. The last join starts the turn clock. On their turn a player chooses an action
("clue" or "suspect"), which rolls three dice. A failed roll moves the fox three fields and passes
the turn. A successful clue search gives a step budget for `move.php`. A successful interrogation
lets the player open a suspect with `open_suspect.php`. Any seated player may accuse a suspect,
which decides the game. Stale turns are skipped when the state is read. Abandoned games are
swept away by the lobby listing and by a one-off cleanup. The web client translates the English
clue names to Russian with `translateItem`.

The model:

- **The database** is the class `Schema.Store`, with one field per table. Its value view
  `Snapshot()` is the datatype `Schema.Tables`.
- **Each endpoint** is a pure function from the tables before the request to a `Step`: the
  tables after the request and the reply. The reply is `Ok`, `Err` (rolled back) or
  `CommittedErr` (an error answered after a commit).
- **Each endpoint also has a method** on the store. The method performs the source's updates
  in its order, through its loops, and ensures that the new snapshot and the reply are those of
  the function.
- **The properties the game relies on** are `ensures` clauses of these functions and lemmas
  relating several calls. Examples: turn hand-off, idempotent timeouts, final verdicts, the
  cascade deleting exactly one game, and the shape of a created game. One module per source
  file.
- **Randomness and the clock** are parameters: the dice, the step budget, the random fox
  suspect, the clue shuffles, the picked cells, `NOW()` and `CURRENT_DATE`.

## Model

| member | source | states |
|---|---|---|
| Schema.FindPlayer | API/move.php:52-72 | the caller's row in the game (`players JOIN cells WHERE login AND gameid`): a player of that game with exactly that login; none only when no player of the game has it |
| Schema.NameOf | API/game_state.php:133-147 | the catalogue name joined to a clue or suspect id is a row of the catalogue with that id; none only when no row has that id |
| Schema.FirstLoginRow | API/join_game.php:21-23 | the first user row whose `LOWER(TRIM(login))` equals the lower-cased login; every earlier row does not match |
| Schema.StoredLogin | API/join_game.php:21-30 | the account a join acts for is the trimmed login of the FIRST matching user row; no account when that row's login is falsy or no row matches |
| Schema.AccountChecks | API/leave_game.php:26-45 | a non-positive game id or a blank login is 400; the check passes exactly when an account matches, and then yields that account's stored login; otherwise 404 |
| Schema.DeleteMove | API/helpers.php:235-238 | deleting a player's pending move removes exactly that row and changes no other table |
| Schema.BumpFox | API/helpers.php:241-253 | `foxpos = foxpos + 3` on the game's fox row only; without a fox row nothing changes |
| Schema.SetTurn | API/join_game.php:183-205 | the seat and clock update touches only that game's row, and only those two columns |
| Helpers.NotOverError | API/helpers.php:139-152 | a game is open exactly when its fox position is in 0..36; otherwise 400 |
| Helpers.StartedError | API/helpers.php:156-178 | 404 exactly when the seat count reads as ≤ 0 (no game); 400 exactly when fewer players than seats; passing means the game exists and every seat is taken |
| Helpers.GameGuards | API/choose_action.php:89-92 | the two guards in order: passing means the fox is in play and every seat is taken; an open game reports the started check's code; codes are 400 or 404 |
| Helpers.TurnError | API/choose_action.php:97-126 | passing exactly when the caller is a player of the game holding the current seat; 404 exactly when there is no such player or game; otherwise 400 |
| Helpers.NextSeat | API/helpers.php:256-264 | the seat after `cur` is `cur + 1`, or 1 from the last seat (or from seat 0); from a valid seat it stays in 1..n |
| Helpers.HandOff | API/choose_action.php:185-198 | the game's seat becomes `NextSeat`, its clock restarts at `now`, turntime and seat count are kept, and no other game or table changes |
| Helpers.CloseTurn | API/open_suspect.php:169-181 | the store after deleting the pending move and handing off is `HandOff(DeleteMove(...))` |
| Helpers.SeatHolder | API/helpers.php:223-232 | the player found for a seat is a player of that game sitting in it; none only when no player of the game sits there |
| Helpers.Timeout | API/helpers.php:184-273 | an unexpired turn changes nothing; an expired one drops only the seat holder's pending move, moves a fox in play by 3 (no other fox), passes the seat on and restarts the clock at `now` |
| Helpers.Expired | API/helpers.php:184-217 | the turn has run out: the game exists, a seat is current, its turn time is positive, the clock reads as set, and at least `turntime` seconds have passed; `Helpers.Timeout` acts exactly then |
| Helpers.AutoAdvanceTurnIfTimeout | API/helpers.php:184-273 | the sweep updates the store to exactly `Timeout` of the old tables |
| Helpers.TimeoutOncePerInstant | API/helpers.php:256-272 | a second sweep at the same instant changes nothing, because the first one restarted the clock |
| Helpers.CascadeLeavesNothing | API/helpers.php:279-313 | after the cascade no game, fox, cell, player, pending move, placement, suspect row or link of a deleted game is left |
| Helpers.CascadeKeepsOthers | API/helpers.php:279-313 | the cascade keeps every row of every other game, and the catalogue, users and id counters |
| Helpers.CascadeNothing | API/helpers.php:279-313 | cascading no game changes nothing |
| Helpers.CascadeStep | API/helpers.php:279-313 | cascading one more game after a set of games equals cascading their union, so the loop order does not matter |
| Helpers.CascadeAll | API/helpers.php:279-313 | `delete_game_cascade` over a set of games: the rows of those games go from every game table; its properties are `CascadeLeavesNothing`, `CascadeKeepsOthers`, `CascadeNothing` and `CascadeStep` |
| Helpers.Cascade | API/helpers.php:279-313 | `delete_game_cascade` of one game, as `CascadeAll` of that game alone |
| Helpers.DeleteGameCascade | API/helpers.php:279-313 | the eight deletes in foreign-key order give exactly `Cascade` of the old tables |
| Helpers.DeleteGames | API/list_games.php:62-110 | the delete loop over a set of games gives the cascade of all of them and counts each game once |
| Translations.Find | frontend/src/utils/translations.js:6-105 | a table hit is an entry of the table with that key; a miss means no entry has that key |
| Translations.TranslateItem | frontend/src/utils/translations.js:112-116 | a non-string or empty value gives itself when truthy, else `""`; a string whose key is in the table gives the Russian name; an unknown string is returned as it came |
| Translations.TranslateHints | frontend/src/utils/translations.js:123-126 | a non-array gives `[]`; an array gives the element-wise translation, of the same length |
| Translations.KeyIsKey | frontend/src/utils/translations.js:114 | every lookup key contains no whitespace and is already lower case |
| Translations.KeyOfKey | frontend/src/utils/translations.js:114 | a string already in key form is its own key |
| Translations.KeyIdempotent | frontend/src/utils/translations.js:114 | normalising a key again does not change it |
| Translations.KeyIgnoresCase | frontend/src/utils/translations.js:114 | lower-casing the input first gives the same key |
| Translations.KeyIgnoresPadding | frontend/src/utils/translations.js:114 | whitespace around the input does not change the key |
| Translations.KeySpacesAsUnderscore | frontend/src/utils/translations.js:114 | a run of whitespace between two words gives the same key as one `_` there |
| Translations.TrimLower | frontend/src/utils/translations.js:114 | trimming and lower-casing commute |
| Translations.RunsChars | frontend/src/utils/translations.js:114 | collapsing the whitespace runs leaves no whitespace and brings in no character but `_` |
| Translations.SameKeySameTranslation | frontend/src/utils/translations.js:114-115 | two names with the same key in the table translate to the same Russian name |
| Translations.UnknownShownAsIs | frontend/src/utils/translations.js:115 | a name whose key is not in the table is shown unchanged |
| Text.DropLeading | API/create_player.php:30 | leading blanks removed: a suffix of the input that starts with a non-blank, and everything cut was blank |
| Text.DropTrailing | API/create_player.php:30 | trailing blanks removed: a prefix of the input that ends with a non-blank, and everything cut was blank |
| Text.Trim | API/create_player.php:30 | the result is the slice `s[i..j]` left after cutting only blanks off both ends, and neither of its ends is a blank; an all-blank input gives `""`; an input with no blank at either end is kept |
| Text.Lower | API/open_suspect.php:122 | A–Z and А–Я become the letter 32 code points up, Ё becomes ё, the result is never upper case, and a character that is not upper case is kept |
| Text.LowerStr | API/open_suspect.php:122 | lower-casing a string lower-cases each character and keeps the length |
| Text.AsciiLower | API/join_game.php:95 | `strcasecmp` folds only A–Z, 32 code points down |
| Text.LowerIdempotent | API/open_suspect.php:122 | lower-casing twice is lower-casing once |
| Sorting.Ascending | API/game_state.php:202-209 | suspect ids ordered by id: the same ids, each once, strictly ascending |
| Sorting.Descending | API/list_games.php:148 | game ids ordered `DESC`: the same ids, each once, strictly descending |
| Sorting.SortStrings | API/open_suspect.php:184-192 | `ORDER BY item_name`: a sorted permutation of the names |
| Sorting.SortBySeat | API/list_games.php:125-131 | `ORDER BY p.seatnumber`: a permutation of the rows, sorted by seat |
| Sorting.StrLeqTotal | API/open_suspect.php:189 | the string order sorts any two names |
| SuspectHints.NamesOf | API/game_state.php:232-240 | each name is the catalogue name of one of the linked clue ids, and no other name appears |
| SuspectHints.NamesOfEach | API/game_state.php:232-240 | when every id has a catalogue name, the names come one per id, in the order of the ids |
| SuspectHints.NamesOfCount | API/game_state.php:232-240 | for distinct ids, there are as many names as ids with a catalogue name |
| SuspectHints.Hints | API/game_state.php:231-245 | the hints of a suspect are sorted, are a permutation (same multiset) of the catalogue names of its linked clues in id order, list each named linked clue once, and contain exactly those names |
| ChooseAction.DirectionOfWord | API/choose_action.php:40-53 | `clue`/`подсказка` name the clue search, `suspect`/`подозреваемый` the interrogation, and nothing else names a direction |
| ChooseAction.NormalizeDirection | API/choose_action.php:37-60 | after lower-casing and trimming, "clue" or "подсказка" reads as a clue search, "suspect" or "подозреваемый" as an interrogation, and any other word as none (the 400 of the caller) |
| ChooseAction.NormalizeDirectionIgnoresCase | API/choose_action.php:38 | case does not change how a direction word is read |
| ChooseAction.HitStays | API/choose_action.php:139-140 | a die that shows 1 is never re-rolled, so it still shows 1 later |
| ChooseAction.DiceOutcome | API/choose_action.php:137-144 | three dice, each 0 or 1; a die shows 1 exactly when one of its rolls in the three rounds hit |
| ChooseAction.DiceStopOnlyOnSuccess | API/choose_action.php:138-144 | one to three rounds are played; the loop stops early only on three ones; success is exactly all three dice hit by the last round played |
| ChooseAction.RollDice | API/choose_action.php:137-144 | the loop over three dice and three rounds returns exactly `DiceOutcome` and the rounds played |
| ChooseAction.ChooseChecks | API/choose_action.php:75-134 | each exit in source order with its code: a missing field is 400, the game-over and started guards give their own codes, an unknown direction word is 400, a caller not in the game is 404 and one out of turn 400, a caller with a pending move 400; the checks pass exactly when no exit is taken, giving the caller and the direction read |
| ChooseAction.ChooseCommit | API/choose_action.php:137-217 | success is three ones, and only a successful clue search carries a 3..6 budget; success stores the move and changes nothing else; failure moves a fox row by 3, leaves the moves table as it was, passes the seat on, restarts the clock, changes no other table and reports the new seat and fox |
| ChooseAction.Choose | API/choose_action.php:62-217 | an error exactly when a check fails, and it changes nothing; the reply shows the dice rolled |
| ChooseAction.InsertThenDelete | API/choose_action.php:154-187 | a failed roll inserts and then deletes the move, which leaves the pending moves as they were |
| ChooseAction.CommitChoice | API/choose_action.php:154-198 | the insert, fox update, delete and hand-off leave exactly the store and reply of `ChooseCommit` |
| ChooseAction.ChooseActionCall | API/choose_action.php:62-217 | the endpoint updates the store exactly as `Choose` |
| MoveAction.Distance | API/move.php:132-136 | the Manhattan distance is 0 exactly when the target is the player's own cell |
| MoveAction.Budget | API/move.php:107 | the step budget is positive exactly when the pending move stores a positive budget, and a non-zero budget is the stored one (a missing one reads as 0) |
| MoveAction.MoveChecks | API/move.php:31-111 | each exit in source order with its code: a missing field or non-positive target is 400, the guards give their own codes, a caller not in the game is 404 and one out of turn 400, no pending clue move is 400, a pending clue move without a positive budget is 500 (even a failed one); the checks pass exactly when no exit is taken |
| MoveAction.RevealClue | API/move.php:159-185 | a clue on the cell with a catalogue name is reported and left opened, and no other placement changes; no clue changes nothing |
| MoveAction.RevealClueIdempotent | API/move.php:159-185 | stepping on a clue again reports the same name and changes nothing more |
| MoveAction.ResolveMove | API/move.php:114-211 | a failed search closes the move, passes the turn, changes nothing else and answers 400 after committing; a target beyond the budget or off the board is 400 with nothing changed; success happens exactly otherwise: the player moves there, the clue there is opened, the move is closed, the turn passes, nothing else changes, and the reply gives the start, distance, budget, opened clue and next seat |
| MoveAction.MoveEffect | API/move.php:22-211 | a failed check answers its code and changes nothing; every rolled-back error leaves the tables unchanged |
| MoveAction.OpenClueAt | API/move.php:159-185 | the clue update in the store is exactly `RevealClue` |
| MoveAction.ResolveMoveCall | API/move.php:114-211 | the updates in source order give exactly `ResolveMove` |
| MoveAction.MoveCall | API/move.php:22-211 | the endpoint updates the store exactly as `MoveEffect` |
| OpenSuspect.SuspectNamed | API/open_suspect.php:119-131 | the suspect found has the name case-insensitively; none exactly when no catalogue name matches |
| OpenSuspect.SuspectNamedIgnoresCase | API/open_suspect.php:122 | names that lower-case alike find the same suspect |
| OpenSuspect.OpenChecks | API/open_suspect.php:31-98 | each exit in source order with its code: a missing field is 400, the game-over and started guards give their own codes, a caller not in the game is 404 and one out of turn 400, no pending move or one that is not an interrogation is 400; the checks pass exactly when no exit is taken, giving the caller |
| OpenSuspect.HintsReply | API/open_suspect.php:204-206 | the hints are in the reply exactly when there are some |
| OpenSuspect.ResolveSuspect | API/open_suspect.php:100-206 | a failed interrogation closes the move, passes the turn, changes nothing else and answers 400 after committing; an unknown name is 404, a suspect without a row in the game 400 and an opened one 409, each with nothing changed; success happens exactly otherwise: the suspect is opened, the move closed, the turn passed, nothing else changes, and the reply gives its name and hints |
| OpenSuspect.OpenEffect | API/open_suspect.php:27-208 | a failed check answers its code and changes nothing; every rolled-back error leaves the tables unchanged |
| OpenSuspect.OpenedStaysOpened | API/open_suspect.php:151-154 | once opened, opening the same suspect again, under any case of its name, is 409 |
| OpenSuspect.OpenAndClose | API/open_suspect.php:162-181 | the status update, move delete and hand-off give the matching tables |
| OpenSuspect.ResolveSuspectCall | API/open_suspect.php:100-206 | the updates in source order give exactly `ResolveSuspect` |
| OpenSuspect.OpenSuspectCall | API/open_suspect.php:27-208 | the endpoint updates the store exactly as `OpenEffect` |
| SkipTurn.SkipChecks | API/skip_turn.php:47-88 | each exit in source order with its code: a missing field is 400, the game-over and started guards give their own codes (404 without a game, 400 while seats are free), a caller not in the game is 404 and one out of turn 400; the checks pass exactly when no exit is taken, giving the caller, who holds the current seat |
| SkipTurn.Skip | API/skip_turn.php:91-128 | always succeeds: the caller's pending move goes, a fox in play moves 3 (a finished fox stays), the seat passes on and the clock restarts, no other table changes, and the reply shows the new seat and fox |
| SkipTurn.SkipIsTimeout | API/skip_turn.php:91-119 | skipping an expired turn as its seat holder leaves the same tables as the timeout sweep |
| SkipTurn.SkipEffect | API/skip_turn.php:43-128 | the endpoint succeeds exactly when its checks pass; a failed check changes nothing |
| SkipTurn.SkipCall | API/skip_turn.php:91-119 | the updates in source order give exactly `Skip` |
| SkipTurn.SkipTurnCall | API/skip_turn.php:43-128 | the endpoint updates the store exactly as `SkipEffect` |
| Accuse.SuspectExactly | API/accuse.php:58-70 | the suspect found has exactly that name (case-sensitive); none exactly when no catalogue name equals it |
| Accuse.AccuseChecks | API/accuse.php:27-95 | each exit in source order with its code: a missing field is 400, a caller not in the game 404, an unknown suspect name 404, a game without a fox suspect 400; the checks pass exactly when no exit is taken, giving the accused catalogue row |
| Accuse.DropGameMoves | API/accuse.php:128-137 | the pending moves of every player of the game are deleted, and those of other games are kept as they were |
| Accuse.Verdict | API/accuse.php:97-150 | a negative fox position answers the frozen verdict and changes nothing; otherwise the fox goes to −2 on the right suspect and to −1 on a wrong one, and the game's pending moves are cleared |
| Accuse.AccuseEffect | API/accuse.php:23-150 | the endpoint succeeds exactly when its checks pass; a failed check changes nothing |
| Accuse.VerdictIsFinal | API/accuse.php:97-109 | a second accusation, by anyone and of anyone, changes nothing and reports the first verdict |
| Accuse.AccusationAfterEscape | API/accuse.php:99 | a fox that escaped (37 or more) is not decided yet: accusing the right suspect still wins |
| Accuse.VerdictCall | API/accuse.php:97-137 | the updates give exactly `Verdict` |
| Accuse.AccuseCall | API/accuse.php:23-150 | the endpoint updates the store exactly as `AccuseEffect` |
| JoinGame.SeatColor | API/join_game.php:114-120 | seats 2, 3, 4 are yellow, blue, green; any other seat is red |
| JoinGame.StartCell | API/join_game.php:122-148 | a seat within the seat-count table has a start cell in the centre 2×2, and seat 1 starts at (9,9) |
| JoinGame.StartCellsDistinct | API/join_game.php:127-145 | two different seats never share a start cell |
| JoinGame.NewPlayer | API/join_game.php:111-176 | the new player has the login, seat `players_now + 1`, that seat's colour and its start cell on the game's board |
| JoinGame.Join | API/join_game.php:34-220 | a missing game is 404; a seated login gets its seat back unchanged; a case-insensitive namesake, a full game or a started game is 409; a free seat without a start cell is 500; otherwise the player is added on its start cell (and only then is the reply `Joined`), and the game starts when that was the last seat; an error changes nothing |
| JoinGame.LoginTaken | API/join_game.php:82-100 | the namesake test: some player of the game has a trimmed login equal to the new one up to ASCII case; its consequence is the 409 in `JoinGame.Join` |
| JoinGame.JoinEffect | API/join_game.php:9-30 | a failed account check answers its code and changes nothing |
| JoinGame.JoinAddsOnePlayer | API/join_game.php:165-177 | a join adds exactly one player, with a fresh id, to that game only |
| JoinGame.JoinTwice | API/join_game.php:51-79 | joining again gives back the same id, seat and colour and changes nothing |
| JoinGame.JoinMayRepeatSeat | API/join_game.php:112 | the seat counts players rather than looking for a free one, so after a leave two players can hold the same seat |
| JoinGame.SeatPlayer | API/join_game.php:165-205 | the insert and the seat/clock update give the joined tables |
| JoinGame.JoinCall | API/join_game.php:34-220 | the updates in source order give exactly `Join` |
| JoinGame.JoinGameCall | API/join_game.php:5-220 | the endpoint updates the store exactly as `JoinEffect` |
| LeaveGame.Unseat | API/leave_game.php:73-79 | the player's pending move and row are deleted, and each game keeps every other player |
| LeaveGame.Leave | API/leave_game.php:49-148 | a login not in the game changes nothing; otherwise its move and row go; the game is deleted exactly when it never started its clock and nobody is left |
| LeaveGame.LeaveDeletesOnlyThatGame | API/leave_game.php:96-140 | a leave that deletes the game leaves no row of it and keeps every other game with its players |
| LeaveGame.LeaveEffect | API/leave_game.php:26-45 | a failed account check answers its code and changes nothing |
| LeaveGame.LeaveCall | API/leave_game.php:49-148 | the updates in source order give exactly `Leave` |
| LeaveGame.LeaveGameCall | API/leave_game.php:22-148 | the endpoint updates the store exactly as `LeaveEffect` |
| ListGames.InactiveGames | API/list_games.php:30-57 | the games swept are exactly those the filter picks, and none of them is finished or has two players |
| ListGames.SeatRows | API/list_games.php:125-131 | each row is a player's seat and login, in the given order |
| ListGames.LoginsOf | API/list_games.php:128 | the logins of the rows, in their order |
| ListGames.PlayerIds | API/list_games.php:117-131 | the players of the game, each once |
| ListGames.SeatOrder | API/list_games.php:128 | the game's players, sorted by seat, as a permutation of its rows |
| ListGames.RowOf | API/list_games.php:133-141 | a lobby row: the game's turn time and seat count, players now, free seats making up the seat count, the fox position and its finished flag, and the logins of the seat-ordered player rows |
| ListGames.RowOfLogins | API/list_games.php:126-131 | the row lists one login per player: the `i`-th is the login of a player of the game at the `i`-th seat of a never-decreasing seat sequence |
| ListGames.SeatRowSource | API/list_games.php:126-131 | every seat-ordered `(seat, login)` row of a game is the row of one of that game's players |
| ListGames.RowsOf | API/list_games.php:133-145 | one row per listed id, in order |
| ListGames.ListedIds | API/list_games.php:146-148 | exactly the games with the fox in play and a free seat, newest first |
| ListGames.Listing | API/list_games.php:116-151 | one lobby row per listed game |
| ListGames.ListingShape | API/list_games.php:137-148 | every row is an unfinished game with a free seat and a fox in 0..36, every such game is listed, and the ids descend |
| ListGames.ListGamesEffect | API/list_games.php:21-156 | the sweep deletes exactly the inactive games, then the lobby of what is left is answered |
| ListGames.ListedRow | API/list_games.php:137-147 | a listed row belongs to a listed game and counts its players |
| ListGames.SweepSurvivor | API/list_games.php:62-110 | a game the sweep keeps was not swept and has the fox and players it had |
| ListGames.ListedGamesHavePlayers | API/list_games.php:44-53 | right after the sweep no listed game is empty |
| ListGames.SweepDeletesExactlyInactive | API/list_games.php:39-110 | the games gone after the sweep are exactly the inactive ones |
| ListGames.ListGamesCall | API/list_games.php:21-156 | the endpoint updates the store exactly as `ListGamesEffect` |
| CleanupOldGames.EndAll | API/cleanup_old_games.php:31-36 | the fox of each stale game goes to 37, and no other fox changes |
| CleanupOldGames.CleanupLeavesOnlyLiveOrOver | API/cleanup_old_games.php:20-48 | after the cleanup no game is left unstarted, every game started before today is over, and every game started today is untouched |
| CleanupOldGames.EndedGamesAreKept | API/cleanup_old_games.php:20-48 | the games ended and the games deleted are disjoint, and each ended game stays with its fox at 37 |
| CleanupOldGames.EndStale | API/cleanup_old_games.php:31-36 | the update loop gives exactly `EndAll` and counts each ended game once |
| CleanupOldGames.CleanupEffect | API/cleanup_old_games.php:16-57 | the tables after the cleanup are the cascade of the never-started games applied after ending the stale ones; the reply counts the games ended and deleted; exactly the games whose clock never started are gone (with their foxes), every remaining game row is kept, and a remaining fox goes to 37 exactly when its game was started before today and still in play |
| CleanupOldGames.CleanupRows | API/cleanup_old_games.php:38-48 | a player, pending move, cell, link or suspect row goes exactly when its game never started, and what stays is unchanged; accounts, catalogue and id counters are kept |
| CleanupOldGames.CleanupCall | API/cleanup_old_games.php:16-57 | the endpoint updates the store exactly as `CleanupEffect` |
| CreatePlayer.FormError | API/create_player.php:33-50 | the form passes exactly when the login is 3..30 characters of `[A-Za-z0-9_]` and the password 4..50 characters; otherwise 400 |
| CreatePlayer.Register | API/create_player.php:26-89 | registering succeeds exactly when the form passes and the trimmed login is new, and it then appends that login; a taken login is 409; every failure changes nothing |
| CreatePlayer.PaddedLoginSame | API/create_player.php:30 | registering with padding around the login is the same as without it |
| CreatePlayer.SameTrimSameRegister | API/create_player.php:30 | two logins that trim alike register alike |
| CreatePlayer.RegisterKeepsLoginsUnique | API/create_player.php:52-57 | registrations keep the stored logins distinct, and a second registration of the same login is 409 |
| CreatePlayer.RegisterCall | API/create_player.php:70-89 | the insert gives exactly `Register` |
| GameState.ResultOf | API/game_state.php:91-98 | win exactly at −2; lose at −1 or at 37 and over; a result only for a finished game; below −2 finished with no result |
| GameState.TimeRemaining | API/game_state.php:121-130 | a time only for a running clock with a positive turn time; it is never negative, 0 exactly when the turn ran out, and otherwise the time left |
| GameState.FoxClues | API/game_state.php:149-164 | the clues linked to the fox's suspect in this game; none without a fox suspect |
| GameState.ClueAt | API/game_state.php:166-185 | a clue's cell, name and status; whether the fox holds it only once it is opened |
| GameState.ClueViews | API/game_state.php:132-185 | exactly the game's placements whose clue has a catalogue name, each with its view |
| GameState.ShownSuspects | API/game_state.php:202-211 | exactly the game's suspects with a catalogue row, ascending by id |
| GameState.SuspectAt | API/game_state.php:215-247 | a suspect's name and status; hints only when it is opened and has some, and then exactly its hints |
| GameState.SuspectViews | API/game_state.php:214-248 | one view per suspect, in order |
| GameState.View | API/game_state.php:62-285 | the state: the game's id, turn time, seat count, player count and current seat, the fox position, finished exactly when the fox is terminal, its result, started exactly when every seat is taken, the time remaining, every player of the game with its own row and its pending move (or none), every clue and every suspect |
| GameState.GameStateEffect | API/game_state.php:24-285 | a missing id is 400; a game 2 hours past its clock start is deleted and answered 404; otherwise the timeout sweep runs, a missing game is 404, a game without a fox row is 500 (a committed error when the timeout sweep advanced the turn), and otherwise the state after the sweep is read |
| GameState.StaleReadDeletes | API/game_state.php:39-57 | reading a stale game deletes every row of it and keeps every other game |
| GameState.ReadShowsLiveTurn | API/game_state.php:59-130 | after the sweep a started game never shows a turn that has run out |
| GameState.GameStateCall | API/game_state.php:24-285 | the endpoint updates the store exactly as `GameStateEffect` |
| CreateGame.ValidTurntimes | API/create_game.php:36-39 | the accepted turn times are exactly 20, 30, 40, 50 and 60 |
| CreateGame.Grid | API/create_game.php:106-113 | the board is exactly the cells with both coordinates in 1..18 |
| CreateGame.HiddenSuspects | API/create_game.php:116-125 | every catalogue suspect joins the game hidden, and nothing else |
| CreateGame.Pairs | API/create_game.php:163-215 | the links written are exactly the (suspect, clue) pairs recorded |
| CreateGame.PairsAppend | API/create_game.php:167-178 | recording one more clue for a suspect writes exactly one more link |
| CreateGame.FirstPassCovers | API/create_game.php:163-180 | after the first pass, selected clue `j` is held by suspect `j mod n` |
| CreateGame.FirstPassDistinct | API/create_game.php:163-180 | with distinct clues, no suspect holds a clue twice after the first pass, and only selected clues |
| CreateGame.FirstPass | API/create_game.php:160-180 | specification of the first-pass loop: after `k` clues, clue `j < k` was appended to suspect `j mod n`; its properties are `FirstPassCovers` and `FirstPassDistinct` |
| CreateGame.TopUpShape | API/create_game.php:189-213 | the top-up appends only clues the suspect lacked, without repeats, and as many as needed and available |
| CreateGame.TopUpExtends | API/create_game.php:189-213 | the top-up only appends |
| CreateGame.TopUp | API/create_game.php:189-213 | specification of the inner loop: walk the shuffle, append each clue not yet held, stop once `needed` were added; its properties are `TopUpShape` and `TopUpExtends` |
| CreateGame.ToppedShape | API/create_game.php:183-215 | after its turn in the second pass a suspect holds at least 3 distinct clues |
| CreateGame.SecondPassKeepsOthers | API/create_game.php:183-215 | the second pass leaves a suspect it has not reached yet as it was |
| CreateGame.SecondPassHeld | API/create_game.php:183-215 | each visited suspect holds its first-pass clues topped up from its own shuffle |
| CreateGame.SecondPassExtends | API/create_game.php:183-215 | whatever the first pass gave a suspect it keeps |
| CreateGame.SecondPass | API/create_game.php:183-215 | specification of the second-pass loop: the first `k` suspects topped up in order, each from its own shuffle; its properties are `SecondPassHeld`, `SecondPassKeepsOthers` and `SecondPassExtends` |
| CreateGame.PairsMonotone | API/create_game.php:163-215 | links only grow with the clues held |
| CreateGame.SharedShape | API/create_game.php:157-215 | after both passes each suspect holds at least 3 distinct selected clues, and every selected clue is held by some suspect |
| CreateGame.SharedSuspect | API/create_game.php:183-215 | one suspect after the second pass: distinct, at least 3, its first-pass clues kept, all selected |
| CreateGame.LaidCount | API/create_game.php:234 | the loop lays `min(12, picked cells, clues)` clues |
| CreateGame.PlacedShape | API/create_game.php:234-244 | `laid[i]` is on `spots[i]`, hidden, and no other cell gets a clue |
| CreateGame.PlacedSize | API/create_game.php:234-244 | on distinct cells, `k` steps lay `k` clues |
| CreateGame.Placed | API/create_game.php:234-244 | specification of the laying loop: after `k` steps `laid[i]` lies hidden on `spots[i]` for each `i < k`; its properties are `PlacedShape` and `PlacedSize` |
| CreateGame.Furnish | API/create_game.php:157-244 | the two passes and the laying loop add only links and placements |
| CreateGame.SuspectsOf | API/create_game.php:145-152 | exactly the game's suspects, without repeats |
| CreateGame.Create | API/create_game.php:24-251 | a missing or invalid turn time or seat count is 400 and writes nothing; a later failure is 500 and rolls back all but the id sequence; fewer than 12 clues always fails |
| CreateGame.CreatedGameRows | API/create_game.php:51-244 | a creation adds exactly the new game: its row (clock unset, seat 0), its fox at 0 holding the drawn suspect, its board, every suspect hidden, the shared-out links and the laid clues |
| CreateGame.CreatedGameLinks | API/create_game.php:143-215 | in a created game each suspect holds at least 3 distinct clues, every selected clue is linked, and no other clue is, so every linked clue is a catalogue clue |
| CreateGame.CreateNeedsTwelveClues | API/create_game.php:127-141 | a catalogue of fewer than twelve clues makes every creation fail; with twelve or more, exactly twelve are selected |
| CreateGame.RandomChoicesValid | API/create_game.php:127-231 | what `ORDER BY random() LIMIT 12` and `shuffle` guarantee: the selected clues are distinct catalogue clues, `min(12, catalogue size)` of them; each reshuffle and the laying order are shuffles of them; the picked cells are twelve distinct board cells outside the centre 2×2 |
| CreateGame.LaidShape | API/create_game.php:217-244 | twelve clues are laid, or one per picked cell when fewer: each hidden on its own board cell outside the centre, each a selected clue |
| CreateGame.CreatedGameLaid | API/create_game.php:217-244 | exactly twelve clues are laid, hidden and selected, on cells of the new board, and no other placement is replaced |
| CreateGame.FirstPassCall | API/create_game.php:160-180 | the first-pass loop records exactly `FirstPass` and inserts its links |
| CreateGame.TopUpCall | API/create_game.php:187-214 | the inner loop records exactly `TopUp` and inserts its links |
| CreateGame.SecondPassCall | API/create_game.php:183-215 | the second-pass loop records exactly `SecondPass` and inserts its links |
| CreateGame.LayClues | API/create_game.php:231-244 | the laying loop inserts exactly `Placed` |
| CreateGame.FoundCall | API/create_game.php:82-125 | the fox row, the board and the hidden suspects are inserted |
| CreateGame.FurnishCall | API/create_game.php:143-244 | the passes and the loop give exactly `Furnish` |
| CreateGame.StockCall | API/create_game.php:127-246 | the rest of the creation, with its rollback |
| CreateGame.CreateFounds | API/create_game.php:51-89 | valid parameters and a drawn fox suspect go on to the founded game |
| CreateGame.CreateGameCall | API/create_game.php:24-251 | the endpoint updates the store exactly as `Create` |

## Left out

- Authentication (`require_auth`, `make_token`, `auth_login.php`): the bearer-token check is
  left out. A request is modelled as authorised for its login. `create_player.php`'s token
  and md5 hash are not modelled, and neither is its 500 for an empty token.
- HTTP and JSON I/O (`json_input`, `response_json`, `response_error`): requests are
  parameters and replies are datatypes. A missing request field is read as `""` or 0, as the
  `??` defaults give. `game_state.php` reading the id from the query or the body is one parameter.
- Row locks, transactions racing each other, and deadlock order: each endpoint is one atomic
  step over the tables. The 500 answered for an exception is not modelled.
- Randomness and the clock are parameters:
  - the dice (`coin`);
  - the step budget (`steps`, 3..6);
  - the fox suspect (`foxRow`);
  - the twelve clues (`selected`);
  - the shuffles (`reshuffle`, `laid`);
  - the picked cells (`spots`);
  - `NOW()` (`now`) and `CURRENT_DATE` (`today`).
- Enum introspection (`get_enum_value`, `enum_range`): statuses and directions are datatypes.
  The 500s for an enum without the expected values cannot arise.
- The `image_path` column check in `game_state.php` and the suspects' images.
- `ORDER BY random()` is not modelled as uniform: the model covers any choice.
- `LIMIT 1` without `ORDER BY` picks the smallest player id, or the first catalogue row.
- The delete loops visit their games in an unspecified order. They are modelled smallest id
  first, and `Helpers.CascadeStep` shows the order does not matter.
- The wording of replies and the message strings, including the cleanup summary, are left
  out. Only their codes and fields are kept.
- `skip_turn.php` declares `ensure_game_started` a second time (skip_turn.php:14), after
  requiring helpers.php, which declares it at helpers.php:156. PHP refuses to redeclare a
  function, so as written the endpoint stops with a fatal error at the `require_once` of
  helpers.php and never answers a request. The model follows the evidently intended
  endpoint: its check answers the same codes on the same conditions as the shared one, so
  both are `Helpers.StartedError`.
- PostgreSQL's id sequence is not rolled back: a failed creation keeps `nextGameId` advanced.
- Text.Lower: lower-cases only ASCII and the basic Cyrillic letters (including Ё). The full
  Unicode mappings of `mb_strtolower`, PostgreSQL `lower` and JavaScript `toLowerCase` are
  not modelled.
- Sorting.SortStrings: `ORDER BY item_name` is modelled as code-point order. The database's
  collation may order names otherwise, so the order of `SuspectHints.Hints` is code-point
  order too; its contents do not depend on it.
- GameState.View: the reply's players and pending actions are maps keyed by player id. Their
  listing in seat order (`ORDER BY seatnumber`) is not modelled.
- Translations.TranslateItem: JavaScript prototype properties of the table object (such as
  `constructor`) are not modelled as hits.
- GameState.TimeRemaining: `strtotime` is the clock value itself, and a clock at the epoch is
  falsy.
- Where the game's intended rules and the code disagree, the model follows the code:
  - Seat numbers are not kept unique: a join takes seat `players_now + 1`
    (`JoinGame.JoinMayRepeatSeat`).
  - An escaped fox (37 or more) is not frozen for an accusation: only a negative position
    counts as decided (`Accuse.AccusationAfterEscape`).
  - Accusing checks neither that the game is open nor that it has started.
  - Accusing looks the name up case-sensitively, while opening a suspect does not.
  - The lobby sweep deletes a game with no players whether or not it started.
  - The two-hour deletion happens only when that game's state is read.
  - A pending clue move without a positive budget is 500, before its failed result is looked
    at.
  - Opening a suspect answers all its linked hints, sorted, and omits them when there are
    none; there is no fixed count of 3.

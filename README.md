# ai-battle match engine in Dafny

ai-battle runs live pitch battles between two startups. An admin console creates a match from two catalog startups and starts it. The match then moves through its phases: `selecting` (the pitch order is drawn), `pitch1`, `pitch2`, `voting` and `completed`. Judges and audience members sign in, subject to per-type caps, and cast one vote per match. When voting ends, the stored winner is the side with the higher weighted score. A big-screen display shows who is pitching, a countdown, the totals and the winner. Startups are imported from a CSV/TSV upload.

The model has five modules:

- `Types` (types.dfy): startups, matches, tallies, votes, voters and the event settings node, as datatypes. A field the database may lack is an `Option`.
- `Database` (database.dfy): the store. It is the class `Store`, whose fields are the database's top-level paths: `matches`, `votes`, `voters`, `settings` (the `eventSettings` path) and `activeMatch`. Every exported operation is a method. `Store.Valid()` is the store invariant:
  - every stored match is well formed (its phase, pitch order, deadline and winner agree);
  - every ledger entry belongs to a stored match and sits under its own match id and email key;
  - each match's four counters equal the number of ledger entries behind them;
  - a settings node, when there is one, holds at least one field (the database keeps no node without children).

  The module also holds the pure rules the methods are proved against: the weighted winner, the phase step, the vote count and the settings defaults.
- `Excel` (excel.dfy): the upload parser. It is a specification function `Parse` from the file's text to the list of `{name, description}`. The methods `FindColumns`, `ParseRows` and `ParseText` carry the source's loops and are proved to compute it.
- `Display` (display.dfy): the display screen's helpers: pitch order, `mins:ss` countdown text, remaining seconds, the auto-advance condition, vote totals and the winner line.
- `Admin` (admin.dfy): the console's pure helpers, and the class `AdminController`. The controller holds the console's form state and drives a `Store` through the handlers.

The clock (`Date.now()`) is a `now: int` parameter. The coin `Math.random() < 0.5` is a boolean parameter. The key `push` hands out and the generated vote code are parameters too. `confirm(...)` is a boolean parameter.

## Model

| member | source | states |
|---|---|---|
| Database.ReplaceAll | ai-battle/src/lib/database.ts:313 | `replace(/\./g, ',')`: the result has the input's length, holds the replacement wherever the input held the replaced character, and keeps every other character. |
| Database.EmailKeyHasNoDot | ai-battle/src/lib/database.ts:313 | A key never contains '.'. |
| Database.EmailKeyRoundTrip | ai-battle/src/lib/database.ts:313 | For an email without ',', mapping the key's ',' back to '.' gives the email again. |
| Database.EmailKeyInjective | ai-battle/src/lib/database.ts:313 | Two emails without ',' that share a key are equal, so such voters never share a ledger slot. |
| Database.ScaledScoreIsExact | ai-battle/src/lib/database.ts:165-171 | The integer score `jv*jw + av*aw` is exactly 100 times the source's `jv*jw/100 + av*aw/100`, computed over the reals. |
| Database.WinnerFollowsExactScores | ai-battle/src/lib/database.ts:165-179 | The verdict is startup1 iff its exact score is strictly higher, startup2 iff strictly lower, and a tie iff the scores are equal. |
| Database.WinnerIsSymmetric | ai-battle/src/lib/database.ts:173-179 | Swapping the two sides' votes swaps the verdict; a tie stays a tie. |
| Database.WinnerExample | ai-battle/src/lib/database.ts:165-179 | Judge votes 3:1, audience votes 1:5 and weights 70/30 give startup1 the win. |
| Database.EqualTalliesAreATie | ai-battle/src/lib/database.ts:173-179 | Equal tallies on both sides, including 0–0, give a tie under any weights. |
| Database.AdvanceStepsOnePhase | ai-battle/src/lib/database.ts:130-158 | advancePhase leaves pending and completed matches unchanged (the switch has no default), and moves every other phase exactly one phase on. |
| Database.AdvanceNeverGoesBack | ai-battle/src/lib/database.ts:130-158 | No advance returns a match to an earlier phase. |
| Database.AdvancedAtRank | ai-battle/src/lib/database.ts:130-158 | After k advances of a started match, its phase is its old phase plus k, capped at completed. |
| Database.FourAdvancesComplete | ai-battle/src/lib/database.ts:130-158 | From selecting, a match is completed iff it has been advanced at least four times. |
| Database.AdvanceKeepsIdentity | ai-battle/src/lib/database.ts:130-158 | An advance changes only status, the deadlines and the winner; the contenders, tallies, weights, durations, pitch order, code and creation time are kept. |
| Database.WinnerWrittenOnlyWhenVotingEnds | ai-battle/src/lib/database.ts:154-185 | Only the step out of voting changes `winner`. That step writes completed, the weighted verdict and no deadline. |
| Database.RepeatedEndOfVotingIsIdempotent | ai-battle/src/lib/database.ts:154-185 | A second advance after the end of voting changes nothing. |
| Database.NewMatchWellFormed | ai-battle/src/lib/database.ts:84-97 | A created match is well formed: pending, with no winner, no pitch order and no deadline. |
| Database.StartedWellFormed | ai-battle/src/lib/database.ts:110-119 | Starting keeps a match well formed. |
| Database.AdvancedWellFormed | ai-battle/src/lib/database.ts:130-185 | Advancing keeps a match well formed: a deadline is set in selecting through voting, and a completed match has a winner and no deadline. |
| Database.RestartKeepsOldWinner | ai-battle/src/lib/database.ts:104-120 | startMatch has no pending guard: restarting a completed match gives selecting with the old winner still stored. |
| Database.CountedIncrementsOneCounter | ai-battle/src/lib/database.ts:345-350 | Counting a vote raises exactly the `{voterType}Votes.{side}` counter by one and leaves the other three and every other field alone. |
| Database.CountedAddsOne | ai-battle/src/lib/database.ts:345-350 | Counting a vote raises the match's total count by exactly one. |
| Database.LedgerAfterAdd | ai-battle/src/lib/database.ts:328-336 | Recording a fresh ledger entry grows exactly the one category it belongs to by one. |
| Database.WithoutMatch | ai-battle/src/lib/database.ts:299-301 | Removing `votes/{matchId}` keeps only entries of the ledger, each unchanged, leaves none of that match, and shrinks the ledger by exactly that match's entries, so every other entry stays. |
| Database.LedgerAfterRemove | ai-battle/src/lib/database.ts:296-302 | Deleting one match's ledger leaves every other match's ledger categories unchanged. |
| Database.TypeSplitsBySide | ai-battle/src/lib/database.ts:329-350 | A match's ballots of one voter type are those for startup1 plus those for startup2. |
| Database.LedgerSplitsByType | ai-battle/src/lib/database.ts:329-336 | A match's ballots are its judge ballots plus its audience ballots. |
| Database.TalliesSumToLedger | ai-battle/src/lib/database.ts:329-350 | When the counters agree with the ledger, the four counters add up to the number of ballots recorded for the match. |
| Database.ConsistentAfterCreate | ai-battle/src/lib/database.ts:84-98 | Adding a well-formed match with zero tallies under a fresh id keeps the store invariant. |
| Database.ConsistentAfterReplace | ai-battle/src/lib/database.ts:115-119 | Rewriting a match's phase fields (same id, contenders and counters, still well formed) keeps the store invariant. |
| Database.ConsistentAfterDelete | ai-battle/src/lib/database.ts:296-302 | Removing a match together with its ledger keeps the store invariant. |
| Database.ConsistentAfterVote | ai-battle/src/lib/database.ts:328-350 | Recording a fresh ballot and counting it once for its side keeps the store invariant. |
| Database.BumpCountsOneSignIn | ai-battle/src/lib/database.ts:396-400 | A sign-in raises the registering type's counter by one, reading a missing counter as 0, and leaves the other type's counter as it read before. |
| Database.JudgeCapLostAsWritten | ai-battle/src/lib/database.ts:396-400 | As written, starting from no settings node, every one of n judge sign-ins is admitted and the stored node has no judge cap. |
| Database.ElevenJudgesAdmittedAsWritten | ai-battle/src/lib/database.ts:380-385 | As written, eleven judges get in although the default cap is ten. |
| Database.JudgeCapKeptWhenFixed | ai-battle/src/lib/database.ts:435-449 | With the corrected counter write, the judge cap stays 10 and the count after n attempts is min(n, 10). |
| Database.Store.CreateMatch | ai-battle/src/lib/database.ts:72-101 | Stores a pending match with all four tallies 0, the given weights and durations, and no winner, pitch order or deadline, under the fresh key; it returns the key and changes nothing else. |
| Database.Store.StartMatch | ai-battle/src/lib/database.ts:104-120 | A missing id fails with "Match not found" and changes nothing. Otherwise the match becomes selecting, with a pitch order from the coin and a deadline of now + 3000, whatever its phase was; nothing else changes. |
| Database.Store.AdvancePhase | ai-battle/src/lib/database.ts:123-159 | A missing id fails and changes nothing. Otherwise the stored match becomes the phase step of the old one, which is proved above. The store invariant is kept. |
| Database.Store.EndVotingInternal | ai-battle/src/lib/database.ts:161-186 | Writes completed, the weighted verdict and no deadline over a voting match, and keeps the store invariant. |
| Database.Store.GetMatch | ai-battle/src/lib/database.ts:188-193 | Returns the stored match iff the id is stored. |
| Database.Store.GetMatchByCode | ai-battle/src/lib/database.ts:195-208 | A result is a stored match with that vote code; no result means no stored match has that code. |
| Database.Store.UpdateMatchWeights | ai-battle/src/lib/database.ts:287-294 | Overwrites both weights of a stored match in any phase and recomputes no stored winner. |
| Database.Store.DeleteMatch | ai-battle/src/lib/database.ts:296-302 | Removes the match and its whole ledger; voters, settings and the active pointer are untouched. |
| Database.Store.CastVote | ai-battle/src/lib/database.ts:305-353 | Succeeds iff no vote is stored under (match, email key) and the match exists and is voting. A refusal writes nothing. A success stores the identical vote in the ledger and in the voter's history, and counts it once for startup1 iff the startup id is startup1's (for startup2 otherwise). |
| Database.Store.HasVoted | ai-battle/src/lib/database.ts:355-360 | True iff the ledger holds a vote under (match, email key). |
| Database.Store.RegisterVoter | ai-battle/src/lib/database.ts:363-403 | A known email succeeds and changes nothing, whatever its type. A new email is refused with the type's message iff the type's count is at least its cap, read from the stored node or the defaults. Otherwise the voter is created and only that type's counter is written, bumped by one. |
| Database.Store.GetVoter | ai-battle/src/lib/database.ts:405-411 | Returns the voter node under the email's key iff there is one. |
| Database.Store.GetEventSettings | ai-battle/src/lib/database.ts:435-450 | Returns the stored node, or the defaults (judge123, audience123, caps 100 and 10, counts 0, the seven domains) when none is stored. |
| Database.MergeSettings | ai-battle/src/lib/database.ts:452-455 | A merge with a non-empty patch never gives a node without fields. |
| Database.UpdatedSettings | ai-battle/src/lib/database.ts:452-455 | An empty patch leaves the settings exactly as they were, with no node created. Any other patch gives a node that holds at least one field. |
| Database.UpdatesCompose | ai-battle/src/lib/database.ts:452-455 | Two updates in a row equal one update whose patch is the second laid over the first. |
| Database.UpdateIsIdempotent | ai-battle/src/lib/database.ts:452-455 | Applying the same patch twice gives what applying it once gives. |
| Database.Store.UpdateEventSettings | ai-battle/src/lib/database.ts:452-455 | The new settings are `UpdatedSettings` of the old ones: the patch's fields replace the stored ones, the rest are kept, and an empty patch writes nothing. Nothing else changes. |
| Database.Store.ResetVoterCounts | ai-battle/src/lib/database.ts:477-486 | Both sign-in counters become 0, every other settings field is kept, and the voters map is emptied. The ledger stays. |
| Database.Store.SetActiveMatch | ai-battle/src/lib/database.ts:489-492 | Writes the pointer unconditionally, even to a missing match or to null. |
| Database.Store.GetActiveMatch | ai-battle/src/lib/database.ts:494-498 | Returns the pointer. |
| Database.SecondVoteRefused | ai-battle/src/lib/database.ts:313-326 | A second cast with the same match and email is refused. If the first one succeeded, it raised the match's total count by exactly one. |
| Excel.TextStart | ai-battle/src/lib/excel.ts:16 | The start of the trimmed text: everything before it is white space, and the character there is not. |
| Excel.TextEnd | ai-battle/src/lib/excel.ts:16 | The end of the trimmed text: everything after it is white space, and the character before it is not. |
| Excel.TrimIsInnerSlice | ai-battle/src/lib/excel.ts:41 | `trim` keeps one contiguous slice, drops only white space around it, and leaves no white space at either end. |
| Excel.TrimEmptyIffBlank | ai-battle/src/lib/excel.ts:16 | A string trims to '' iff it is all white space. |
| Excel.StripQuotesLosesAtMostTheEnds | ai-battle/src/lib/excel.ts:41 | Quote stripping removes at most one leading and one trailing `"` or `'`: both when both ends are quotes, nothing when neither is. |
| Excel.SplitOn | ai-battle/src/lib/excel.ts:41 | `split` on one character gives at least one piece, and no piece contains the separator. |
| Excel.SplitOfBlank | ai-battle/src/lib/excel.ts:23 | Every piece of white-space text is white space. |
| Excel.SplitJoinRoundTrip | ai-battle/src/lib/excel.ts:70 | Joining the pieces with the separator gives the line back. |
| Excel.DropCR | ai-battle/src/lib/excel.ts:23 | A piece keeps a prefix of itself at most one character shorter, and is shortened exactly when it ends in '\r'. |
| Excel.SplitLines | ai-battle/src/lib/excel.ts:23 | `split(/\r?\n/)` gives at least one line, and no line contains '\n'. |
| Excel.SplitLinesRecoversText | ai-battle/src/lib/excel.ts:23 | There is one line per '\n'-separated piece of the text. A piece followed by '\n' that ends in '\r' is its line plus that '\r'; any other such piece is its line exactly; the last piece is the last line. |
| Excel.DropCRUndone | ai-battle/src/lib/excel.ts:23 | For a piece ending in '\r', putting the '\r' back after dropping it gives the piece. |
| Excel.NonBlank | ai-battle/src/lib/excel.ts:23 | The filter keeps only lines of the input that do not trim to '', and never adds lines. |
| Excel.NonBlankOfBlankLines | ai-battle/src/lib/excel.ts:23 | The filter keeps nothing of a run of blank lines. |
| Excel.BlankTextHasNoLines | ai-battle/src/lib/excel.ts:16-29 | White-space text has no non-blank line, so the check at lines 25-29 is reached only by non-blank text. |
| Excel.LinesAreNonBlankSingleLines | ai-battle/src/lib/excel.ts:23 | Every retained line has no line break and is not blank. |
| Excel.DelimiterPriority | ai-battle/src/lib/excel.ts:35-38 | ';' if the header has one, else a tab if it has one, else ','; a semicolon wins over a tab. |
| Excel.Clean | ai-battle/src/lib/excel.ts:41 | `trim()` then quote stripping keeps only characters of the raw text and never lengthens it. |
| Excel.Cells | ai-battle/src/lib/excel.ts:41 | A line gives one cell per piece of its split; no cell contains the separator or is longer than its piece. |
| Excel.FirstFromIsFirst | ai-battle/src/lib/excel.ts:51-59 | The header search finds the first position holding a key, or reports that no position does. |
| Excel.ColumnsAreFirstMatches | ai-battle/src/lib/excel.ts:45-65 | The name column is the first header exactly equal to a name key, or 0 when there is none. The description column is the first description-key header, or none. |
| Excel.FindColumns | ai-battle/src/lib/excel.ts:48-65 | The header loop computes exactly those two columns. |
| Excel.RowSkippedIff | ai-battle/src/lib/excel.ts:70-76 | A line is skipped iff its name cell is missing, empty or "undefined". A kept line's description is its description cell, or '' without a column or cell. |
| Excel.RowResultsOfConcatenation | ai-battle/src/lib/excel.ts:69-73 | Reading two runs of lines one after the other gives the first run's rows followed by the second's. |
| Excel.KeptAtMostOnePerResult | ai-battle/src/lib/excel.ts:74-76 | Keeping only the present results never gives more startups than results. |
| Excel.RowsAtMostOnePerLine | ai-battle/src/lib/excel.ts:68-77 | Each data line gives at most one startup. |
| Excel.KeptOfConcatenation | ai-battle/src/lib/excel.ts:74-76 | The startups kept from two runs of results are the first run's followed by the second's. |
| Excel.RowsOfConcatenation | ai-battle/src/lib/excel.ts:68-77 | The startups of two runs of lines, one after the other, are the first run's followed by the second's, so input order is kept. |
| Excel.KeptComeFromResults | ai-battle/src/lib/excel.ts:74-76 | Every startup kept is one of the present results. |
| Excel.RowsComeFromLines | ai-battle/src/lib/excel.ts:68-77 | Every startup has a usable name and is the row read from one of the lines. |
| Excel.RowsStep | ai-battle/src/lib/excel.ts:69-76 | One more turn of the row loop appends that line's startup, if it has one, and nothing else. |
| Excel.ParseRows | ai-battle/src/lib/excel.ts:67-77 | The row loop yields exactly the rows of the lines after the header, in order. |
| Excel.ParseText | ai-battle/src/lib/excel.ts:14-80 | The handler body yields exactly `Parse` of the text. |
| Excel.BlankTextYieldsNothing | ai-battle/src/lib/excel.ts:16-20 | Empty or all-white text yields no startup. |
| Excel.AtMostOnePerDataLine | ai-battle/src/lib/excel.ts:25-77 | No non-blank line means no startup; otherwise there are at most as many startups as non-blank lines minus one (the header). |
| Excel.ParseOfLines | ai-battle/src/lib/excel.ts:16-77 | A file with a non-blank line passes the empty-file check, and its startups are exactly the rows of the lines after the first, read with the first line's separator and columns. |
| Excel.ParsedStartupsComeFromDataLines | ai-battle/src/lib/excel.ts:68-77 | Every startup has a name other than '' and "undefined", and is the row read from some line after the header, with the header's separator and columns. |
| Display.PitchersFollowFirstPitcher | ai-battle/src/app/display/page.tsx:103-110 | pitch1 shows the startup named by `firstPitcher`, and pitch2 the other one. |
| Display.EachStartupPitchesOnce | ai-battle/src/app/display/page.tsx:103-110 | The pitch1 and pitch2 pitchers are the two startups, once each, whatever `firstPitcher` holds. |
| Display.NextPitcherIsUpAfterAdvance | ai-battle/src/app/display/page.tsx:114-120 | During pitch1, the announced next pitcher is the one on stage after the advance to pitch2. |
| Display.NoPitcherOffStage | ai-battle/src/app/display/page.tsx:103-120 | No pitcher without a match or outside pitch1/pitch2, and a next pitcher only during pitch1. |
| Display.Decimal | ai-battle/src/app/display/page.tsx:100 | `toString` gives at least one decimal digit, no leading zero, and reads back as the number. |
| Display.ColonAt | ai-battle/src/app/display/page.tsx:100 | Finds the first ':' of a string, or reports its length when there is none. |
| Display.FormatTimeShape | ai-battle/src/app/display/page.tsx:97-101 | The text is the minutes, ':', then exactly two digits worth `seconds mod 60`. |
| Display.DigitsAtLeast | ai-battle/src/app/display/page.tsx:100 | Three or more digits without a leading zero are worth at least 100, so `seconds mod 60` never needs more than two. |
| Display.FormatTimeRoundTrip | ai-battle/src/app/display/page.tsx:97-101 | `mins:ss` reads back as `mins*60 + ss == seconds`, so the text loses nothing. |
| Display.RemainingSeconds | ai-battle/src/app/display/page.tsx:82 | The remaining time is never negative and is the whole seconds left, floored; it is 0 once the deadline has passed. |
| Display.RemainingZeroIff | ai-battle/src/app/display/page.tsx:82 | It is 0 exactly when less than a second is left. |
| Display.RemainingCountsDown | ai-battle/src/app/display/page.tsx:82 | It never goes up as time passes. |
| Display.TimerFiresIff | ai-battle/src/app/display/page.tsx:76-88 | For a well-formed match with a nonzero deadline, the timer fires iff the phase is pitch1, pitch2 or voting and less than a second is left. |
| Display.TimerAdvanceMovesOn | ai-battle/src/app/display/page.tsx:86-87 | The advance the timer fires moves a well-formed match exactly one phase on. |
| Display.EqualWeightsFollowTotals | ai-battle/src/app/display/page.tsx:129-132 | With equal judge and audience weights, a side wins iff its on-screen total is the larger one, and the match is a tie iff the totals are equal. |
| Display.TotalsCountTheLedger | ai-battle/src/app/display/page.tsx:129-132 | When the counters agree with the ledger, the two totals on screen add up to the ballots recorded for the match. |
| Display.ScreenNamesTheWinner | ai-battle/src/app/display/page.tsx:141-145 | After voting ends, the screen names the side with the higher weighted score, or shows 'TIE' when the scores are equal. |
| Admin.FindStartup | ai-battle/src/app/admin/page.tsx:156-157 | `find` returns the first catalog startup with that id, or none iff no startup has it. |
| Admin.WinnerNameAgreesWithDisplay | ai-battle/src/app/admin/page.tsx:203-207 | The console names the same winner as the display; only a tie is spelled differently ('Tie' here, 'TIE' there). |
| Admin.ConsoleNamesTheWinner | ai-battle/src/app/admin/page.tsx:203-207 | After voting ends, the console names the side with the higher weighted score, or 'Tie' when the scores are equal. |
| Admin.SkipMovesOnePhase | ai-battle/src/app/admin/page.tsx:593 | "Skip Phase" is offered only where an advance moves the match one phase on. After a skip it is offered again iff the match has not completed. |
| Admin.TimerFiresOnlyWhereSkipIsOffered | ai-battle/src/app/admin/page.tsx:593 | On a well-formed match with a deadline, the display's timer fires only in phases the console can skip, and it fires in each of them at the deadline. |
| Admin.StartOfferedBeforeFirstPitcher | ai-battle/src/app/admin/page.tsx:583 | On a well-formed match, "Start Match" is offered iff no pitch order has been drawn. |
| Admin.WeightsKeptWhenReplaced | ai-battle/src/app/admin/page.tsx:172-174 | Rewriting a match without touching its weights, as an advance does, keeps every stored match's weights summing to 100. |
| Admin.AdminController.constructor | ai-battle/src/app/admin/page.tsx:54-60 | The form starts with no selection, no active match until `LoadActiveMatch` reads the store's pointer, 60 s voting, 90 s pitches and a judge weight of 70. |
| Admin.AdminController.LoadActiveMatch | ai-battle/src/app/admin/page.tsx:92 | The mount effect copies the store's active-match pointer into the console's own active id, and changes nothing else. |
| Admin.AdminController.SetJudgeWeight | ai-battle/src/app/admin/page.tsx:484-490 | The slider sets the judge weight within 0..100 and keeps the console invariant. |
| Admin.AdminController.Select | ai-battle/src/app/admin/page.tsx:431-447 | The drop-downs set the two selections. |
| Admin.AdminController.HandleCreateMatch | ai-battle/src/app/admin/page.tsx:146-164 | Alerts and changes nothing when a selection is empty or both are equal. Gives up silently (the result is `Abandoned`, exactly in this case) when an id is not in the catalog. Otherwise it creates exactly the match with the found startups and weights `judgeWeight` and `100 - judgeWeight`, then clears both selections. Every stored match keeps weights summing to 100. |
| Admin.AdminController.HandleStartMatch | ai-battle/src/app/admin/page.tsx:166-170 | A missing match stops at the start error with the pointers unchanged. Otherwise the match is started and becomes active, both in the store and locally. |
| Admin.AdminController.HandleAdvancePhase | ai-battle/src/app/admin/page.tsx:172-174 | One store advance of the match. |
| Admin.AdminController.HandleDeleteMatch | ai-battle/src/app/admin/page.tsx:176-184 | Nothing happens unless confirmed. When confirmed, the match and its ledger go, and the active pointer (store and local) is cleared iff this console had that match active; otherwise both pointers are unchanged. |
| Admin.AdminController.HandleSetActiveMatch | ai-battle/src/app/admin/page.tsx:186-189 | Points the store and the console at the match. |

## Left out

- Firebase plumbing: `getDb`, `ref`, `onValue`/`off` and every `subscribeTo*`. The store is in-memory maps, and each exported operation is one atomic method.
- Concurrency: the read-then-write counter races in `castVote` and `registerVoter`, and several clients racing to call `advancePhase`. Only the sequential effect of each call is modelled.
- `generateUniqueCode` and `push` keys: the vote code and the new match id are parameters. `Database.Store.CreateMatch` requires the id to be fresh, as `push` guarantees.
- The floating-point scores on screen (`calculateScore`, `getVotePercentage`, `toFixed`). The winner rule is decided on integers scaled by 100, which is exact over the rationals; the source compares doubles (see the `Database.Store.EndVotingInternal` line below).
- The startup catalog (`addStartup`, `addStartups`, `getStartups`, `clearStartups`) and the upload handler around the parser. The controller's catalog is a `seq<Startup>` field.
- `getMatches`, `getVoterVoteHistory`, and the legacy `startVoting`, `endVoting`, `getSettings` and `updateSettings`. No page shown calls them. `endVoting` would also break the well-formedness invariant: it has no status guard and does not clear `phaseEndTime`.
- `FileReader`, `Promise`, `console.log`, `alert` and `confirm` (a boolean parameter). React state, effects and timers, including the display's 2.5 s + 0.5 s selection animation that calls `advancePhase`. JSX and QR codes.
- Excel.Trim: JavaScript's `trim` also removes Unicode spaces and line terminators; the model removes ASCII white space only.
- Database.Store.UpdateMatchWeights: on a missing id, Firebase's `update` would create a partial match node; the model leaves the store unchanged, since a node without contenders is not a match.
- Database.EmailKey: only '.' is replaced, as in the source (database.ts:313, 356, 367, 406, 414, 422). An email holding a character Firebase forbids in keys ('#', '$', '[', ']') would make the source's write fail, and a '/' would nest the path one level deeper. The model accepts any string as a slot key.
- Database.Store.EndVotingInternal: the source compares `judgeVotes * judgeWeight / 100 + audienceVotes * audienceWeight / 100` in doubles, so on an exact tie with unequal tallies it may store a win where the model stores `Tie`. Judge votes 1:4 and audience votes 9:2 at weights 70/30 score 0.7 + 2.7 = 3.4000000000000004 against 2.8 + 0.6 = 3.4, and the source stores startup1. For vote counts of realistic size, scaled scores that differ by at least 1 are compared the same way in doubles.
- Database.Store.GetMatchByCode: Firebase iterates in key order. The model returns some match with the code, so which match is returned when two share a code is not pinned down.
- Database.Store.AdvancePhase: a repeated call is not idempotent in general, because the code advances again on a second call. Only the step out of voting is idempotent (`Database.RepeatedEndOfVotingIsIdempotent`).
- Database.WellFormed: it does not state that a stored winner implies a completed match. `startMatch` has no pending guard, so a restarted completed match keeps its winner (`Database.RestartKeepsOldWinner`). The invariant states only that a completed match has a winner.
- The button `disabled={!selectedStartup1 || !selectedStartup2}` is not modelled separately. `HandleCreateMatch` already refuses that case.

## Findings

| source | as written | input that shows it | evidently intended | confidence | as-written member | corrected member |
|---|---|---|---|---|---|---|
| ai-battle/src/lib/database.ts:396-400 | `registerVoter` checks the caps of `getEventSettings()`, which returns the defaults when no settings node exists. It then writes only `eventSettings/currentJudgeCount`, which creates a node with that one field. Later checks read the stored node, whose `maxJudgeSignIns` is undefined, and `count >= undefined` is false. | Never save settings, then let eleven new judges sign in: all eleven are admitted. | The default cap of ten judges keeps applying until an admin changes it. | not executed | Database.JudgeCapLostAsWritten | Database.JudgeCapKeptWhenFixed |

`Database.ElevenJudgesAdmittedAsWritten` is the concrete case. `Database.WithCountBumpedFixed` is the corrected write: it bumps the counter inside the settings that were checked. `Database.Store.RegisterVoter` keeps the code as written, so that the store stays faithful to the source.

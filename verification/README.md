# Portland Scavenger Hunt — a Dafny model of the game engine

This project models the SMS scavenger hunt's game engine, `ScavengerHuntGame`
in `scavenger_game.py`, together with the keyword reply classifier
`generate_sms_response` of `app.py`.

The engine keeps a dictionary from phone number to a player record. The
record holds the current clue (0 before the game, 1 to 5 while playing, 6 once
clue 5 is resolved), the total score, the hints used on the current clue, a
started flag, the list of completed clues, a start time and a last-activity
time. A reply to the current clue is judged by a substring matcher, or by an
external natural-language judge when one is configured. A right answer earns
40, 30, 20 or 10 points for 0, 1, 2 or 3 hints. A wrong answer reveals the
next hint. Once all three hints are used, a wrong answer earns 5 consolation
points and reveals the first accepted answer. After clue 5, the next message
returns the final summary with a rank and resets the record.

Modules:

- `text.dfy` (`Text`): the Python string operations used: `lower`, `upper`,
  `strip`, the substring test `in`, and `any(... in ...)`.
- `matcher.dfy` (`Matcher`): the fallback matcher and `check_answer_with_ai`.
  The external judge is an oracle value (`JudgeCall`).
- `catalogue.dfy` (`Catalogue`): the five clues of scavenger_game.py:32-119, with the same texts, and
  `WellShaped`, the shape of catalogue the game relies on. Long texts are
  written as concatenations of shorter pieces; the strings are unchanged.
- `engine.dfy` (`Engine`): the player record, the replies, and one function
  per step of the game. It also holds the record invariant `WellFormed` and
  the lemmas about whole games. Like the Python methods, which read
  `self.clues`, every step takes the catalogue as a parameter. The lemmas
  hold for any catalogue of the fixed one's shape.
- `game.dfy` (`Game`): class `ScavengerHuntGame`. It holds the catalogue in a
  constant field, as `self.clues`. Its `players` map is
  updated in place by methods that are proved against the `Engine` functions
  and keep every record `WellFormed`.
- `sms.dfy` (`Sms`): `generate_sms_response`.

Behaviour of the code that the model follows, although a reader might expect
otherwise:

- `start_game` keeps `total_score` and `completed_clues`. Restarting mid-game
  therefore keeps the earlier points. So the number of completed clues equals
  `current_clue - 1` only for a game started from a fresh record. The
  invariant proved instead is weaker: the last `current_clue - 1` records are
  clues 1, 2, … in order (`Engine.CurrentRun`), and the total score is the sum
  of all recorded points.
- Resolving clue 5 does not produce the summary on the same turn. The test
  `current_clue == len(clues) + 1` (scavenger_game.py:244, :283) sits inside
  the guard `current_clue <= len(clues)` and so never holds. The record stays
  on clue 6, where `get_status` reports a completed game. The next message of
  any content reaches `get_final_score` through scavenger_game.py:165-167.
- The matcher lower-cases the reply but does not trim it. `process_answer`
  passes the raw message.

## Model

| member | source | states |
|---|---|---|
| `Text.IsSpace` | app.py:276 | the whitespace `strip()` removes includes space, tab, newline and carriage return, and never an ASCII letter or digit |
| `Text.Lower` | app.py:276 | `lower()` keeps the length and maps every character on its own: ASCII capitals to small letters, everything else unchanged |
| `Text.Upper` | scavenger_game.py:211 | `upper()` keeps the length and maps ASCII small letters to capitals, everything else unchanged |
| `Text.Strip` | app.py:276 | `strip()` returns a slice of its input with only whitespace outside it and no whitespace at either end |
| `Text.StripUnique` | app.py:276 | the result of `strip()` is the only slice with whitespace alone outside it and non-blank characters at both ends |
| `Text.StripKeepsTrimmed` | app.py:276 | a text that neither begins nor ends with whitespace is unchanged by `strip()` |
| `Text.StripIgnoresPadding` | app.py:276 | surrounding whitespace never changes the stripped text |
| `Text.Contains` | scavenger_game.py:184 | the substring test `needle in hay` holds exactly when the needle occurs at some index of the haystack |
| `Text.ContainsAny` | app.py:279 | `any(w in s for w in words)` holds exactly when some word of the list occurs in the text |
| `Matcher.FallbackMatch` | scavenger_game.py:181-184 | an answer matches exactly when some accepted answer, lower-cased, occurs in the lower-cased reply |
| `Matcher.CheckAnswer` | scavenger_game.py:179-218 | with no judge configured, or when the judge call raises, the fallback rule decides; otherwise the answer is right exactly when the judge's reply, trimmed and upper-cased, is `CORRECT` |
| `Matcher.AliasAnywhereMatches` | scavenger_game.py:183-184 | a reply containing an accepted answer anywhere, spelled in any letter case, is a match |
| `Matcher.AliasAloneMatches` | scavenger_game.py:183-184 | replying with an accepted answer alone is a match |
| `Matcher.JudgeReplyTrimmed` | scavenger_game.py:211-212 | the judge's `correct`, in any case and with surrounding whitespace, counts as a match |
| `Matcher.JudgeOverridesFallback` | scavenger_game.py:211-212 | a judge reply of `INCORRECT`, in any case and with surrounding whitespace, rejects the answer even when the substring rule would accept it |
| `Catalogue.CatalogueShape` | scavenger_game.py:32-119 | the catalogue has five clues, with ids 1 to 5 in order, each with three hints and at least one accepted answer |
| `Engine.Fresh` | scavenger_game.py:123-132 | the default record: not started, clue 0, no score, no hints, no completed clues, no start time, last activity now |
| `Engine.Lookup` | scavenger_game.py:121-133 | the stored record for a known number, the default record for a new one |
| `Engine.Start` | scavenger_game.py:137-141 | started, on clue 1, no hints, start time now; score, completed list and last activity kept |
| `Engine.NextClue` | scavenger_game.py:248-250 | the next clue is announced exactly when its number is within the catalogue, with that number and that clue's prompt |
| `Engine.Advance` | scavenger_game.py:230-241 | resolving the current clue for some points: the score grows by them, {clue id, points, hints} is appended, the next clue is current with 0 hints, and the game stays started with its times kept |
| `Engine.OnCorrect` | scavenger_game.py:220-252 | adds `Points(hints)` to the score, appends {clue id, points, hints}, moves to the next clue with 0 hints, and replies with the points and the next clue's announcement if any |
| `Engine.OnIncorrect` | scavenger_game.py:254-289 | a hint exactly when fewer hints than the clue has were used: hint number `hints_used`, count incremented, nothing else changed; otherwise 5 points, {clue id, 5, hints} appended, next clue, and the first accepted answer revealed |
| `Engine.Answer` | scavenger_game.py:174-177 | a judged answer gets `Correct` exactly when it was judged right, with `Points(hints)` added; otherwise a hint exactly when hints remain, else the revealed answer |
| `Engine.Process` | scavenger_game.py:158-177 | before the start the READY prompt with no change; past the last clue the summary with a fresh record; on a clue, the reply is `Correct` exactly when the answer is judged right, and a hint or a revealed answer otherwise |
| `Engine.FinalScore` | scavenger_game.py:291-331 | the summary carries the score, the completed clues as recorded and the rank of that score; the record returns to the default |
| `Engine.Status` | scavenger_game.py:333-349 | not started exactly when the game is not started; completed exactly when past the last clue; otherwise the clue number, score, hints used and that clue's prompt |
| `Engine.Points` | scavenger_game.py:227-228 | the points table: 40 less 10 per hint used, with a floor of 10; 10 for any count outside the table |
| `Engine.RankOf` | scavenger_game.py:308-316 | the rank is Expert from 180, Explorer from 150, Guide from 100, and Seeker below 100 |
| `Engine.RankMonotone` | scavenger_game.py:308-316 | a higher score never earns a lower rank |
| `Engine.FreshWellFormed` | scavenger_game.py:123-132 | the record created on first contact satisfies the record invariant |
| `Engine.StartPreservesWellFormed` | scavenger_game.py:137-141 | starting keeps the invariant and leaves the score and completed list untouched |
| `Engine.AdvancePreservesWellFormed` | scavenger_game.py:229-241 | recording a resolved clue keeps the score equal to the sum of recorded points and keeps the latest records in clue order |
| `Engine.AnswerPreservesWellFormed` | scavenger_game.py:220-289 | every handled answer, right or wrong, keeps the record invariant |
| `Engine.ProcessPreservesWellFormed` | scavenger_game.py:158-177 | `process_answer` keeps the invariant; in particular `hints_used` stays between 0 and 3 |
| `Engine.NotStartedIsInert` | scavenger_game.py:160-163 | before READY, an answer returns the READY prompt and changes nothing |
| `Engine.CorrectAnswerScores` | scavenger_game.py:227-250 | a right answer adds 40 − 10 × hints, appends {clue, points, hints}, moves to the next clue, resets the hint count and announces the next clue |
| `Engine.WrongAnswerGivesHint` | scavenger_game.py:260-265 | a wrong answer with fewer than 3 hints used returns hint number `hints_used` and increments the count; nothing else changes |
| `Engine.WrongAnswerAfterHintsMovesOn` | scavenger_game.py:267-287 | a wrong answer after 3 hints adds exactly 5 points, appends {clue, 5, 3}, reveals the first accepted answer and moves on with 0 hints; the game stays started and the start and activity times are kept |
| `Engine.ScoreOnlyGrows` | scavenger_game.py:220-289 | during a game the score grows by 0, 5, 10, 20, 30 or 40; the completed list only grows at its end, and only when points are awarded |
| `Engine.LastClueDefersSummary` | scavenger_game.py:239-252 | resolving clue 5 leaves the record on clue 6 with no summary; status then reports a completed game, and the next message returns the summary and a fresh record |
| `Engine.SummaryResets` | scavenger_game.py:291-331 | the summary carries the score, the completed clues in order and the rank; the record becomes the fresh one, so status reports a game not started |
| `Engine.AcceptedAnswerIsCorrect` | scavenger_game.py:165-175 | without a judge, any accepted answer of the current clue is handled as a right answer |
| `Engine.HintDecayScenario` | test_scavenger_game.py:159-182 | from a fresh start: a right answer gives 40; then a hint on clue 2 and a right answer bring the score to 70 |
| `Engine.PerfectGame` | scavenger_game.py:220-252 | five right answers without hints give 200 points, five records of 40 points and rank Expert on the following message |
| `Game.ScavengerHuntGame.constructor` | scavenger_game.py:13-32 | an empty player dictionary and the fixed clue catalogue; whether the judge is configured is fixed here |
| `Game.ScavengerHuntGame.GetPlayerData` | scavenger_game.py:121-133 | returns the stored record unchanged if there is one; otherwise it inserts and returns the default record |
| `Game.ScavengerHuntGame.StartGame` | scavenger_game.py:135-156 | sets started, clue 1, the start time and 0 hints; keeps the score and completed list; replies with the welcome and clue 1 |
| `Game.ScavengerHuntGame.ProcessAnswer` | scavenger_game.py:158-177 | updates the dictionary and replies exactly as one `Engine.Process` step on the looked-up record, keeping every record well-formed |
| `Game.ScavengerHuntGame.HandleCorrectAnswer` | scavenger_game.py:220-252 | performs `Engine.OnCorrect` in place |
| `Game.ScavengerHuntGame.HandleIncorrectAnswer` | scavenger_game.py:254-289 | performs `Engine.OnIncorrect` in place |
| `Game.ScavengerHuntGame.GetFinalScore` | scavenger_game.py:291-331 | the summary lists the completed clues in order, with the score and its rank; the record is replaced by the default one |
| `Game.ScavengerHuntGame.GetStatus` | scavenger_game.py:333-349 | reports not started, completed (clue 6) or progress on the current clue; only a first contact changes the dictionary |
| `Sms.GenerateSmsResponse` | app.py:274-296 | on the lower-cased, trimmed body, with first-match priority: greeting words, then help words, then `info`, then farewell words, then all digits (the value and whether it is even), else the original body echoed |
| `Sms.Normalize` | app.py:276 | the text the keyword tests see is never longer than the body and has no capital letter left |
| `Sms.NormalizeIdempotent` | app.py:276 | normalized text is already lower-case and trimmed: normalizing it again changes nothing |
| `Sms.IsDigits` | app.py:291 | `isdigit()` is false for the empty text, and a text it accepts neither begins nor ends with whitespace |
| `Sms.DigitsValue` | app.py:292 | `int()` of a digit string: its value is even exactly when its last digit is even |
| `Sms.DecimalRoundTrip` | app.py:291-292 | reading back the decimal spelling of a number gives the number |
| `Sms.NormalizeIgnoresPadding` | app.py:276 | the text the keyword tests see ignores surrounding whitespace |
| `Sms.ReplyIgnoresCaseAndPadding` | app.py:276-296 | letter case and surrounding whitespace do not change the reply; an echo still differs because it repeats the body as sent |
| `Sms.ReplyIgnoresSender` | app.py:274-296 | the reply does not depend on the sender's number |
| `Sms.NoKeywordsInNumber` | app.py:279-289 | no greeting, help, `info` or farewell keyword occurs in a string of digits |
| `Sms.DigitsAfterNormalize` | app.py:276-293 | a body whose normalized text is all digits is answered with that number and its parity |
| `Sms.DigitsReply` | app.py:291-293 | a body of digits alone is answered with its value and parity |
| `Sms.NumberReply` | app.py:291-293 | any number sent in decimal, padded or not, is read back with `even` exactly when it is divisible by 2 |
| `Sms.GreetingWins` | app.py:279-280 | a body holding `hello`, `hi` or `hey` in any case is a greeting whatever else it holds |

## Left out

- The natural-language judge (scavenger_game.py:186-212) is a network call.
  The model takes its outcome as a parameter: the text it replied, or an
  exception. The prompt sent to it is not modelled.
- Client set-up from environment variables (scavenger_game.py:13-26) is
  reduced to the constructor's `hasJudge` flag.
- Timestamps are opaque strings passed in as `now`. The two clock readings
  within one call are taken to be the same instant.
- Reply texts, emoji included, are modelled as a reply kind plus the values
  they embed: points, hint, revealed answer, next clue, score, rank, and the
  list of completed clues.
- `lower` and `upper` are modelled for ASCII letters only. Python maps every
  Unicode letter.
- `isdigit` is modelled for ASCII digits only. Python also accepts other
  Unicode digits, for some of which `int()` raises.
- In Python, `get_player_data` returns the stored dictionary itself, which
  callers then change in place. The model stores records as values and writes
  them back. The core keeps no other reference to a record, so nothing
  observable differs.
- Game.ScavengerHuntGame.HandleCorrectAnswer requires the record to exist and
  to be on one of the five clues. Its only caller, `process_answer`,
  guarantees this. Python would otherwise index clue -1.
- Game.ScavengerHuntGame.HandleIncorrectAnswer has the same requirement, for
  the same reason.
- Engine.Process requires a well-formed record, as every record in the
  dictionary is. Records changed by hand, as the tests do, are not modelled.
  It also requires a catalogue of the fixed one's shape, which
  `Catalogue.CatalogueShape` proves of the only catalogue there is.
- Sms.GenerateSmsResponse reads an all-digit body of any length as its number.
  CPython 3.11 and later, and security releases of earlier lines, make
  `int()` (app.py:292) refuse strings of more than 4300 digits by default.
  The exception then reaches the webhook's handler (app.py:79-83), which
  replies with an apology. The limit depends on the interpreter version and
  its settings, so it is not modelled.
- Sms.NumberReply and Sms.DigitsReply are stated for numbers of any length,
  for the same reason.
- The HTTP and telephony layer of app.py is not part of this model: the
  webhooks, `/send-sms`, `/twilio-data`, and the message and call logs.
- webhook_validator.py, config.py, run.py, start_codespaces.py and
  test_app.py are not part of this model. They hold HMAC signing, environment
  loading, start-up scripts and live HTTP checks.
- A READY/STATUS/HELP/QUIT command router, quit/reset, and stats and
  leaderboard views do not exist in the modelled files. The function
  `process_scavenger_hunt_message` imported by the tests is not defined in
  app.py. None of these are modelled.
- The module-level `game` instance is not modelled. No concurrency exists in
  the code.

# Schema diff and Pong, modelled in Dafny

The repository holds two unrelated programs. This project models the core
of each and proves properties of the model.

**The PostgreSQL schema comparer (main.go).** It reads two lists of tables
(each a name and a list of columns with a name, a data type and a
nullability flag). It reports the differences as records of four kinds:

- `table_missing`
- `column_missing`
- `column_type_different`
- `column_nullable_different`

It optionally filters the records by the option flags of its configuration
file, and groups them by kind for the report. Three modules model it:

- `SchemaTypes` holds the records and the name-keyed indexes, where the last
  entry with a name wins.
- `SchemaCompare` holds `compareDatabases`.
- `SchemaFilter` holds `applyConfigFilters` and the grouping loop of
  `generateReport`.

Each loop of the Go code is an imperative method. The method is proved equal
to a specification function defined over a prefix of its input, and the
properties the tool promises are lemmas about those functions.

**The browser Pong game (script.js).** Its module-level variables are the
fields of the class `PongGame.Game`. Each handler and frame function is a
method that updates them in place. Each method is proved to end in the state
that a function of `PongRules` computes from the old state, taken as a
`GameState` snapshot. The lemmas of `PongRules` state what the transitions
guarantee: guards, sign flips, score steps, bounds, and an invariant
(`ValidState`) that every player-triggered method keeps.

Modelling choices:

- Positions and speeds are exact reals.
- Each `Math.random()` result is a parameter in [0, 1).
- The canvas size is a parameter, at least one paddle high and of positive
  width.

## Behaviour worth knowing

- Human paddles are guarded, not clamped. A move happens only while the paddle
  is strictly inside its range (script.js:318-323), so the paddle can end up
  less than one step (10) past either end. On a 400-high canvas, a paddle at
  295 moved down reaches 305, past the lowest in-court position 300
  (`PongRules.HumanMoveOvershoots`). The invariant the model proves is
  therefore the band between -10 and H - 90, exclusive.
- `resetBall` always reverses the horizontal speed (script.js:192), although
  the comment on the line before it speaks of keeping the direction.
- The vertical serve speed lies in [-7, 7), because `Math.random()` never
  returns 1.

## Model

| member | source | states |
|---|---|---|
| SchemaTypes.NullableText | main.go:388-396 | a nullable column is written "NULL", any other "NOT NULL" |
| SchemaTypes.TableIndexSpec | main.go:282-291 | the table map has exactly the list's names as keys; each entry sits under its own name; the entry under a name is the last list entry with that name |
| SchemaTypes.TableIndexDistinct | main.go:282-291 | with distinct names, every table is the one stored under its name |
| SchemaTypes.ColumnIndexSpec | main.go:327-336 | the same three facts for the column map |
| SchemaTypes.ColumnIndexDistinct | main.go:327-336 | with distinct names, every column is the one stored under its name |
| SchemaCompare.BuildTableIndex | main.go:282-291 | the map the loop builds is the last-wins table index |
| SchemaCompare.BuildColumnIndex | main.go:327-336 | the map the loop builds is the last-wins column index |
| SchemaCompare.AppendMissingColumns | main.go:339-364 | appends one column_missing record per column absent from the other side, in order |
| SchemaCompare.AppendMismatches | main.go:367-408 | appends, per column present on both sides, the type and then the nullability record when they differ |
| SchemaCompare.CompareColumns | main.go:326-408 | the column records of one shared table: both missing directions, then the mismatches |
| SchemaCompare.AppendMissingTables | main.go:294-317 | appends one table_missing record per table absent from the other side, in order, with the given side values |
| SchemaCompare.AppendSharedTableDiffs | main.go:319-409 | appends the column records of every first-database table the second database has, in order |
| SchemaCompare.CompareDatabases | main.go:278-412 | the result is the first database's missing tables, then the second's, then the column records of each shared table |
| SchemaCompare.TablesAbsentFromShape | main.go:294-317 | each table record is table_missing, has an empty column name and the given side values, and names a table of its list that the other side lacks |
| SchemaCompare.TablesAbsentFromCount | main.go:294-317 | a missing name yields one record per list entry with that name; a name the other side has yields none |
| SchemaCompare.ColumnsAbsentFromShape | main.go:339-364 | each record is column_missing for the table, with the given side values, for a column name the other side lacks |
| SchemaCompare.ColumnsAbsentFromCount | main.go:339-364 | one record per column entry whose name the other side lacks, none otherwise |
| SchemaCompare.MismatchesShape | main.go:367-408 | mismatch records are only of the two mismatch kinds and name a column present on both sides |
| SchemaCompare.MismatchesType | main.go:374-384 | a column_type_different record with values (v1, v2) is emitted iff a column of that name has type v1 and its counterpart type v2, v1 differing from v2 |
| SchemaCompare.MismatchesNullable | main.go:387-407 | a column_nullable_different record is emitted iff the nullability differs, with the NULL/NOT NULL texts of both sides |
| SchemaCompare.ColumnDiffsMissingInSecond | main.go:339-350 | every column of the first table whose name the second lacks is reported presente/ausente, once per entry |
| SchemaCompare.ColumnDiffsMissingInFirst | main.go:353-364 | every column of the second table whose name the first lacks is reported ausente/presente, once per entry |
| SchemaCompare.ColumnDiffsTypeDifferent | main.go:374-384 | per table: a type record iff the shared column's data types differ |
| SchemaCompare.ColumnDiffsNullableDifferent | main.go:387-407 | per table: a nullability record iff the shared column's flags differ |
| SchemaCompare.BothMismatchesForOneColumn | main.go:374-407 | one column can yield both a type and a nullability record, type first |
| SchemaCompare.ColumnDiffsKinds | main.go:338-408 | a table's column records are of the three column kinds and name that table |
| SchemaCompare.SharedTableDiffsShape | main.go:320-324 | column records arise only for first-database tables whose name the second database has |
| SchemaCompare.CompareSegments | main.go:293-409 | what each of the three segments of the result consists of |
| SchemaCompare.CompareFirstOnlyTables | main.go:294-304 | a first-only table name gets one presente/ausente record per entry; a shared name gets none |
| SchemaCompare.CompareSecondOnlyTables | main.go:307-317 | a second-only table name gets one ausente/presente record per entry; a shared name gets none |
| SchemaCompare.CompareOrder | main.go:293-409 | first-only table records precede second-only ones, and all table records precede all column records |
| SchemaCompare.CompareColumnRecordsShared | main.go:320-324 | every record has a known kind; column records name a table both databases have |
| SchemaCompare.CompareIncludesColumnDiffs | main.go:320-409 | all column records of every shared table appear in the result |
| SchemaCompare.SharedTableDiffsFrom | main.go:319-409 | every record of the shared-table loop comes from the column comparison of one first-database table whose name the second database has |
| SchemaCompare.CompareColumnRecordFrom | main.go:319-409 | every record of the result that is not table_missing comes from comparing a first-database table with the second database's table of the same name |
| SchemaCompare.CompareTypeDifferent | main.go:319-384 | in the whole result, a column_type_different record with values (v1, v2) is emitted iff a first-database table of that name has a column of type v1 whose counterpart in the second database's table has the other type v2 |
| SchemaCompare.CompareNullableDifferent | main.go:319-407 | in the whole result, a column_nullable_different record is emitted iff such a column's nullability differs from its counterpart's, with both NULL/NOT NULL texts |
| SchemaCompare.CompareMissingInSecond | main.go:319-350 | in the whole result, a presente/ausente column_missing record is emitted iff a first-database table of that name has the column and the second database's table lacks it |
| SchemaCompare.CompareMissingInFirst | main.go:319-364 | in the whole result, an ausente/presente column_missing record is emitted iff the second database's table has the column and a first-database table of that name lacks it |
| SchemaCompare.ColumnDiffsSelf | main.go:326-408 | a table with distinct column names compared with itself yields nothing |
| SchemaCompare.CompareSelf | main.go:278-412 | comparing a list with itself, when table and column names are distinct, yields no records |
| SchemaFilter.Kept | main.go:255-272 | only records of the four known kinds are ever kept, and with every flag set all of them are |
| SchemaFilter.ApplyConfigFilters | main.go:251-276 | the loop returns exactly the kept records, in order |
| SchemaFilter.FilteredSubsequence | main.go:251-276 | the result is the subsequence of the input at exactly the positions whose record's kind flag is set |
| SchemaFilter.FilteredCount | main.go:254-273 | a kept record occurs as often as in the input; a dropped one, including any of an unknown kind, never |
| SchemaFilter.FilteredIdempotent | main.go:251-276 | filtering twice equals filtering once |
| SchemaFilter.FilteredAllOff | main.go:254-273 | with every flag false the result is empty |
| SchemaFilter.FilteredAllKept | main.go:254-273 | a list whose every record is kept passes unchanged |
| SchemaFilter.FilteredAllOn | main.go:254-273 | with every flag true exactly the records of the four known kinds remain |
| SchemaFilter.GroupByKind | main.go:424-440 | the four groups are the records of each kind, in input order |
| SchemaFilter.OfKindCount | main.go:429-440 | a group holds each record of its kind as often as the input, and nothing else |
| SchemaFilter.GroupsPartition | main.go:429-440 | with known kinds only, the four groups together are the input, as a multiset and in total size |
| SchemaFilter.OfKindIsFilter | main.go:429-440 | each group equals the filter with only that kind's flag set |
| SchemaFilter.AllOnReportsComparison | main.go:171-179 | a comparison passes the all-true filter unchanged, and the report's groups partition it |
| PongRules.InitialValid | script.js:6-38 | the state at load time satisfies the game invariant |
| PongRules.KeyFlags | script.js:54-76 | each key sets or clears only its own flag; any other key changes nothing |
| PongRules.BallResetSpec | script.js:188-194 | the serve is from the centre with the horizontal speed reversed (same magnitude) and a vertical speed in [-7, 7); nothing else changes |
| PongRules.RestartedSpec | script.js:174-185 | after a restart: scores 0, game on, no winner, no confetti, ball centred, moving left at exactly 8; paddles, keys, mode and difficulty kept |
| PongRules.RestartedValid | script.js:174-185 | a restart keeps the game invariant |
| PongRules.MakeParticle | script.js:82-88 | a particle's size is in [5, 15), its speed in [2, 5), its colour components integers in [0, 255), and its height is the drawn fraction of H minus H |
| PongRules.Confetti | script.js:79-90 | exactly 100 particles, the i-th made from the i-th draws |
| PongRules.WinnerCheckedSpec | script.js:197-207 | player 1 wins at 3 points, else player 2 at 3, else nothing changes; on a win the confetti becomes the 100 particles of the draws; only the outcome and the confetti ever change |
| PongRules.HumanMoveSpec | script.js:318-323 | up moves only above 0, down only below H - 100; no key, or both keys inside the range, give no movement |
| PongRules.HumanMoveInBand | script.js:318-333 | a guarded move keeps the paddle strictly between -10 and H - 90 |
| PongRules.HumanMoveOvershoots | script.js:321-323 | on a 400-high canvas a paddle at 295 moves down to 305, past the lowest in-court position 300 |
| PongRules.ClampInCourt | script.js:307-312 | after the clamp the AI paddle lies in [0, H - 100]; an in-court position is kept |
| PongRules.FoldDecreases | script.js:284-290 | each reflection of the prediction loop lowers a natural-number measure, so the loop ends |
| PongRules.Fold | script.js:284-290 | the folded prediction lies in [0, H] |
| PongRules.FoldIsMirror | script.js:284-290 | the folded prediction is an image of the straight-line prediction under reflections at 0 and H |
| PongRules.FoldUnique | script.js:284-290 | it is the only such image in [0, H] |
| PongRules.MirrorSameSide | script.js:284-290 | two images in [0, H] with the same orientation coincide |
| PongRules.MirrorOppositeSides | script.js:284-290 | two images in [0, H] with opposite orientations coincide |
| PongRules.ProfileOf | script.js:252-268 | each difficulty's reaction speed and prediction accuracy lie strictly between 0 and 1, and its error margin is positive |
| PongRules.ProfilesOrdered | script.js:252-268 | a harder level has a higher reaction speed, a smaller error margin and a higher prediction accuracy |
| PongRules.AIIdle | script.js:271-305 | while the ball moves away, the AI aims at its own centre and only the clamp can move its paddle |
| PongRules.AITargetRange | script.js:274-298 | with the ball approaching, the target lies in the court widened by the error margin, and in the court when the aim draw does not exceed the accuracy |
| PongRules.AIPaddleInCourt | script.js:300-312 | after the AI's move its paddle is inside the court |
| PongRules.BallFlightMoves | script.js:341-342 | the ball moves by exactly its speed; bounces change only the speed |
| PongRules.BallFlightWall | script.js:344-347 | without a paddle hit, the vertical speed is negated exactly when the moved ball touches the top or bottom, and the horizontal speed is kept |
| PongRules.BallFlightLeftHit | script.js:350-356 | a left-paddle hit reverses the horizontal speed and makes it 5% larger, and sets the vertical speed to 0.4 times the offset from the paddle's centre |
| PongRules.BallFlightRightHit | script.js:358-364 | the same for a right-paddle hit |
| PongRules.TickedWhenOver | script.js:316-339 | while the game is over a frame moves only the paddles: ball, scores, outcome and confetti are kept |
| PongRules.TickedScoring | script.js:339-380 | a ball left of the court gives player 2 a point, right of it player 1, inside it nobody; after a point the ball is served from the centre at the same horizontal speed |
| PongRules.TickedScoresStep | script.js:366-380 | per frame the scores either stay or exactly one rises by one |
| PongRules.TickedValid | script.js:316-381 | every frame keeps the game invariant: paddle bands, no winner below 3 points, exactly one winner at 3 with 100 particles |
| PongGame.FoldPrediction | script.js:284-290 | the reflection loop ends with the folded prediction, in [0, H] |
| PongGame.Game.constructor | script.js:6-38 | the variables start in the initial state, which is valid |
| PongGame.Game.KeyDownHandler | script.js:54-64 | sets the key's flag as the key function says, nothing else; keeps the invariant |
| PongGame.Game.KeyUpHandler | script.js:66-76 | clears the key's flag as the key function says, nothing else; keeps the invariant |
| PongGame.Game.CreateConfetti | script.js:79-90 | the loop replaces the confetti by the 100 particles of the draws, nothing else |
| PongGame.Game.ResetBall | script.js:188-194 | the new state is the serve of the old one |
| PongGame.Game.RestartGame | script.js:174-185 | the new state is the restart of the old one; keeps the invariant |
| PongGame.Game.CheckWinner | script.js:197-207 | the new state is the winner check of the old one |
| PongGame.Game.TargetY | script.js:246-298 | returns the AI's target for the current state, without changing it |
| PongGame.Game.UpdateAI | script.js:246-313 | only the right paddle changes, to the AI move, and it ends inside the court |
| PongGame.Game.MoveLeftPaddle | script.js:317-323 | only the left paddle changes, by the guarded w/s move |
| PongGame.Game.MoveRightPaddle | script.js:325-337 | only the right paddle changes: arrow keys in two-player mode, the AI otherwise |
| PongGame.Game.MoveBall | script.js:340-364 | only the ball changes, by one frame of flight |
| PongGame.Game.BounceOffWalls | script.js:344-347 | the vertical speed is negated iff the ball touches the top or bottom |
| PongGame.Game.BounceOffLeftPaddle | script.js:350-356 | the left paddle's hit rule applied to the ball |
| PongGame.Game.BounceOffRightPaddle | script.js:358-364 | the right paddle's hit rule applied to the ball |
| PongGame.Game.CheckPoint | script.js:366-380 | the new state is the scoring step of the old one |
| PongGame.Game.Update | script.js:316-381 | the new state is one frame of the old one; keeps the invariant |
| PongGame.Game.SetGameMode | script.js:143-159 | the mode is set, then the game restarts; keeps the invariant |
| PongGame.Game.SetDifficulty | script.js:162-171 | the difficulty is set, then the game restarts; keeps the invariant |

## Left out

- Database access: connecting and pinging, and the `information_schema`
  queries of `getTables`/`getColumns` (main.go:132-168, 183-247). They are
  calls into the PostgreSQL driver; tables and columns are inputs. The
  conversion of `is_nullable` to a flag (main.go:242) is part of that code.
- `loadConfig` and the command-line handling of `main` (main.go:61-129). They
  read a file, decode JSON and exit the process. That the filter runs only
  with `-c` is not modelled; `SchemaFilter.AllOnReportsComparison` relates
  the comparison, the filter and the grouping directly.
- The `Description` text of each record and the database names it mentions.
  They come from `fmt.Sprintf` and only feed the printed report.
- The printing in `generateReport` (main.go:415-421, 442-495). It is output
  formatting; only the grouping loop is modelled.
- Drawing and page updates in script.js: the canvas drawing functions, the
  particle movement inside `drawConfetti`, the pulsing victory message and
  its `animationFrame` counter, `updateScore`, the button and text updates of
  `setGameMode`/`setDifficulty`, the event-listener registration, and the
  `requestAnimationFrame` loop. They are DOM and rendering effects.
- `Math.random` itself. Each draw is a parameter, and the model does not
  track how many draws a call actually consumes. For example, the aim draws
  are unused while the ball moves away, and the confetti draws are unused
  without a win.
- The colour of a particle is three integers, not the `rgb(...)` string.
- The unused `bounces` value in `updateAI` (script.js:278). Nothing reads it.
- Mode and difficulty strings outside the values the buttons set. They are
  closed datatypes here, so the missing `default` of the difficulty switch
  cannot arise.
- IEEE-754 rounding, infinities and NaN. With exact reals the reflection loop
  always ends, for any prediction.
- `update` is split into methods for its paddle, ball and scoring sections.
  The statements and their order are those of the script.

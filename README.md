# RootGuesser, modelled in Dafny

RootGuesser is a one-window Swing quiz. Each challenge shows a number, and the player
guesses its square, cube, fourth or sixth root. The guess is scored by percent error. A
current score, a high score and a Decimal/Integer setting are kept, and the last two
persist in `RGHS.txt` as one line `"<highScore> <settingIsDecimal>"`. This project models
the exact part of `RootGuesser.java`:

- `isNumeric`, the validator that decides whether a guess is asked again and whether a
  stored high score is trusted. It is modelled as a declarative predicate (`Validator.Numeric`)
  and as the original single-pass loop (`Validator.IsNumeric`), proved equal.
- the score state: `updateScore`, the reset button, `switchSetting`, the setting button
  and the window-closing write. They live in the class `Game.RootGuesser`, whose fields
  `score`, `highScore`, `settingIsDecimal` and `rghs` (the file contents, `None` when the
  file is absent) are updated in place. Java's 32-bit `int` addition is written out
  (`JavaInt.Add`).
- the record format: `writeDataToRGHS` serialises the line. `readHighScore` and
  `readSetting` read the first line (`BufferedReader.readLine`) and split it at the first
  space (`indexOf`, `substring`). The high-score field is then checked with `isNumeric`
  and `Integer.parseInt`, and the setting field is compared with `"true"`. These steps are
  pure functions over a `Startup.Session` value. The same module also holds the constructor's
  call order (`Startup.Launch`).
- the text tables `rootToString` and `settingName`.

Modules: `Wrappers` (Option), `JavaInt`, `Validator`, `Labels`, `Score` (the arithmetic
of `updateScore`), `Record`, `Startup`, `Game`.

Points where the code behaves differently from what one might expect, and the model follows the code:

- `updateScore` does not write the record. Raising the high score during play reaches the
  file only at the next setting toggle or window close, not on every change. A reset
  writes 0, not the raised score.
- With no `RGHS.txt`, the code does not start at (0, Decimal). See Findings.
- A record whose first line has no space aborts start-up, because `substring(0, -1)`
  throws. So does a numeric high score that `parseInt` refuses (`"1.5"`, or a value above
  2147483647). Neither is treated as a corrupt record that gets rewritten.

## Model

| member | source | states |
|---|---|---|
| `Validator.IsNumeric` | RootGuesser.java:464-488 | the one-pass loop with its digit flag, point counter and early returns returns true exactly when the text is all digits and points, has at most one point and has a digit |
| `Validator.RejectsForeignCharacter` | RootGuesser.java:474-477 | text containing a sign, a space or an exponent letter anywhere is rejected |
| `Validator.RejectsTwoPoints` | RootGuesser.java:478-484 | text with two decimal points anywhere is rejected |
| `Validator.RejectsNoDigit` | RootGuesser.java:487 | `""` and `"."` are rejected because no digit occurs |
| `Validator.RejectsExamples` | RootGuesser.java:458-463 | `"1.2.3"`, `"-4"`, `" 4"` and `"1e5"` are rejected |
| `Validator.AcceptsExamples` | RootGuesser.java:464-488 | `"4"`, `".5"` and `"5."` are accepted |
| `JavaInt.Add` | RootGuesser.java:244 | Java `int` addition: the result is an int, congruent to the exact sum modulo 2^32, and equal to it when the sum fits |
| `Score.NextScore` | RootGuesser.java:244-251 | the new score is a non-negative int and, when the sum does not overflow, equals max(0, score + change) |
| `Score.NextHigh` | RootGuesser.java:254-258 | the new high score is at least the old high score and the new score, and is one of them (their maximum) |
| `Score.OverflowResets` | RootGuesser.java:244-251 | a score already at 2147483647 wraps negative on any gain and is clamped to 0 |
| `Score.ZeroChange` | RootGuesser.java:77 | `updateScore(0)` keeps any reachable score |
| `Labels.RootToString` | RootGuesser.java:389-405 | three snippets for every degree, all non-empty for 2, 3, 4 and 6, all empty otherwise; for a supported degree the second one begins with "\n The actual " and the third with a space |
| `Labels.RootLabelsDistinct` | RootGuesser.java:394-400 | two different supported degrees never share a snippet |
| `Labels.SettingName` | RootGuesser.java:370-380 | "Decimal" exactly for true and "Integer" exactly for false |
| `Record.DecimalString` | RootGuesser.java:347 | the decimal rendering of a non-negative int is non-empty, made of digits and has no leading zero |
| `Record.IntString` | RootGuesser.java:347 | `"" + n`: the digits for n >= 0, a minus sign followed by the digits of -n otherwise |
| `Record.BoolString` | RootGuesser.java:347 | `"" + b` is "true" exactly when b holds and "false" exactly when it does not |
| `Record.Serialize` | RootGuesser.java:347 | the record is the high score, one space and "true" or "false" for the setting, and holds no line terminator |
| `Record.ReadLine` | RootGuesser.java:283-286 | no line for an empty file; otherwise the longest terminator-free prefix, followed by a terminator or the end |
| `Record.DataText` | RootGuesser.java:281-286 | the line the readers split is `" "` for an empty file and exactly the file's first line otherwise |
| `Record.IndexOf` | RootGuesser.java:287 | -1 exactly when the character is absent, else the position of its first occurrence |
| `Record.HighScoreField` | RootGuesser.java:287 | fails exactly when the line has no space; otherwise the space-free text just before the first space |
| `Record.SettingField` | RootGuesser.java:328 | the whole line when it has no space, else exactly the text after the first space |
| `Record.ParseInt` | RootGuesser.java:290 | `Integer.parseInt` yields only ints, and on pure digit strings it yields their value exactly when that fits an int |
| `Record.DecimalStringValue` | RootGuesser.java:290 | a rendered number reads back as itself |
| `Record.ParseNumeric` | RootGuesser.java:288-290 | on text `isNumeric` accepts, `parseInt` succeeds exactly when there is no point and the value fits, and then gives a non-negative value |
| `Record.DecimalStringParses` | RootGuesser.java:288-290 | a rendered high score passes `isNumeric`, and `parseInt` gives it back exactly when it fits an int |
| `Record.RoundTrip` | RootGuesser.java:287-329 | the record written for h >= 0 and m is its own first line; its high-score field is numeric and parses back to h when h fits; its setting field is "true" exactly when m |
| `Startup.Persist` | RootGuesser.java:343-360 | the whole record is replaced by the current high score and setting, and no field changes |
| `Startup.ReadHighScore` | RootGuesser.java:271-310 | a missing file is written from the current score and then aborts at `updateScore`; a line without a space aborts at `substring`; a numeric field becomes the high score when `parseInt` accepts it, with the file untouched, and aborts otherwise; a corrupt field is replaced by the score and rewritten; score and setting never change |
| `Startup.ReadSetting` | RootGuesser.java:312-341 | a present file sets the setting exactly when the text after the first space (the whole line when it has no space) is "true"; a missing file is written and the fields stay |
| `Startup.Launch` | RootGuesser.java:118-121 | the constructor as written; a start-up that completes begins at score 0 |
| `Startup.LaunchFixed` | RootGuesser.java:118-121 | the constructor with the setting read first; a start-up that completes begins at score 0 |
| `Startup.LaunchRoundTrip` | RootGuesser.java:271-341 | a record written for 0 <= h <= 2147483647 restores exactly h, the setting and the same file, in both load orders |
| `Startup.LaunchWithoutRecord` | RootGuesser.java:303-307 | with no file, start-up aborts after writing "0 false", and the next start-up begins in the Integer setting |
| `Startup.LaunchCorrupt` | RootGuesser.java:292-296 | a non-numeric high-score field gives high score 0, the record "0 false" and the Integer setting, whatever setting was stored |
| `Startup.LaunchNoSpaceAny` | RootGuesser.java:287 | as written, every first line without a space aborts start-up at `substring` |
| `Startup.LaunchNumericField` | RootGuesser.java:287-290 | as written, a numeric high-score field that fits an int (such as "007") becomes the high score, the setting is "true" exactly when the text after the first space is, and the file is left as it is |
| `Startup.LaunchOutcome` | RootGuesser.java:271-341 | as written, start-up fails exactly without a file, on a line without a space, or on a numeric field `parseInt` refuses; otherwise 0 == score <= highScore <= 2147483647 |
| `Startup.LaunchNoSpace` | RootGuesser.java:287 | the line "42" aborts start-up at `substring` |
| `Startup.LaunchUnparsable` | RootGuesser.java:288-290 | a numeric high-score field that `parseInt` refuses aborts start-up |
| `Startup.LaunchDecimalHighScore` | RootGuesser.java:290 | the line "1.5 true" aborts start-up at `parseInt` |
| `Startup.LaunchOversizedHighScore` | RootGuesser.java:290 | a record whose high score exceeds the int range aborts start-up at `parseInt` |
| `Startup.LaunchEmptyFile` | RootGuesser.java:281-287 | an empty file is read as " " and is rewritten as "0 false" |
| `Startup.LaunchFixedWithoutRecord` | RootGuesser.java:303-307 | corrected: with no file, start-up completes at (0, 0, Decimal) and writes "0 true" |
| `Startup.LaunchFixedCorrupt` | RootGuesser.java:292-296 | corrected: a non-numeric high-score field gives 0 and keeps the stored setting in memory and in the rewritten record |
| `Startup.LaunchFixedOutcome` | RootGuesser.java:271-341 | corrected start-up fails exactly on a line without a space or a numeric field `parseInt` refuses; otherwise 0 == score <= highScore <= 2147483647 |
| `Game.RootGuesser.constructor` | RootGuesser.java:113-121 | the fields are those of the corrected start-up, and the invariant 0 <= score <= highScore <= 2147483647 holds |
| `Game.RootGuesser.WriteData` | RootGuesser.java:343-360 | the record becomes the serialised high score and setting; nothing else changes |
| `Game.RootGuesser.UpdateScore` | RootGuesser.java:242-260 | from any int scores: score becomes the clamped Java sum, high score becomes the larger of the old high score and the new score, and the invariant holds |
| `Game.RootGuesser.Reset` | RootGuesser.java:73-78 | the score is unchanged, the in-memory high score ends equal to the score, and the record says 0 |
| `Game.RootGuesser.SwitchSetting` | RootGuesser.java:362-368 | the setting is negated, the scores are kept, and the record carries the new setting |
| `Game.RootGuesser.SettingPressed` | RootGuesser.java:83-87 | the same as `SwitchSetting`: the second write leaves the same record |
| `Game.RootGuesser.WindowClosing` | RootGuesser.java:496-499 | the record carries the current high score and setting |
| `Game.RootGuesser.SettingName` | RootGuesser.java:370-380 | "Decimal" exactly when the setting is true and "Integer" exactly when it is false |

`Game.PlayResetAndToggle` is a verified client of the class. It plays from a fresh start:
a round ending below zero is clamped, a gain raises the high score, and a reset writes 0.
A relaunch from that record restores high score 0, and two toggles restore the setting.

## Left out

- The Swing window, buttons, labels and dialogs are not modelled: the frame and widget
  set-up (lines 122-141 and 154-226), the label updates, and the window events other than
  closing (lines 501-518). The bodies of the reset and setting listeners (lines 73-87), the
  constructor's field initialisation (lines 118-121) and the write on closing (lines
  496-499) are modelled. The score label missing during start-up is modelled as the fault
  `NullScoreLabel`.
- Challenge generation (lines 44-51) uses `Math.random` and `Math.pow`, so it is left out.
- Evaluating a guess (line 66 and `outputFeedback`, lines 413-455) uses `double`
  arithmetic, so it is left out. Its integer result, the score change, is the free
  argument of `UpdateScore`.
- The re-prompt loop at line 58 reads replies from dialogs, and a cancelled dialog gives
  `null`. Only the validator that loop calls is modelled.
- I/O failures are not modelled: every write succeeds. The `IOException` branches, which
  print a message and keep the in-memory state, are left out, and so are the file
  `delete`, `exists` and the `CREATE, APPEND` open. The record is a whole-file
  `Option<string>` value.
- Characters are modelled directly. The platform charset of `getBytes` and
  `InputStreamReader` is not modelled.
- Validator.IsNumeric: `Character.isDigit` is modelled for the ASCII digits only. The
  same holds for the digits `Integer.parseInt` accepts.
- Game.RootGuesser.constructor requires a start-up that completes. A start-up that
  throws creates no object, and the exceptions are modelled in `Startup` instead.
- Game.RootGuesser.constructor follows the corrected load order (`Startup.LaunchFixed`).
  The order as written is `Startup.Launch`.

## Findings

| source | as written | input that shows it | evidently intended | confidence | as-written member | corrected member |
|---|---|---|---|---|---|---|
| RootGuesser.java:303-307 | When `RGHS.txt` is missing, `readHighScore` calls `updateScore(0)`. Line 259 of that method uses `scoreDisplay`, which is assigned only at line 124, after `readHighScore` returns. The constructor throws `NullPointerException` after writing "0 false". | no `RGHS.txt` | create the file and start at high score 0, as the comment at lines 262-270 says | high; not executed | `Startup.LaunchWithoutRecord` | `Startup.LaunchFixedWithoutRecord` |
| RootGuesser.java:119-121 | `readHighScore` rewrites a missing or corrupt record before line 120 sets the setting, so the record gets Java's default `false`. `readSetting` then reads that back, so the program starts in the Integer setting and a stored "true" is lost. | the line "x true" | default to Decimal (line 120) and keep the stored setting | medium; not executed | `Startup.LaunchCorrupt` | `Startup.LaunchFixedCorrupt` |

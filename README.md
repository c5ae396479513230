# Incremental-development trails of zyLab runs

This project models the scoring engine of `incdev.py` in the zyLab analysis
tool and proves properties of that model. The engine looks at every student's
runs on every lab. A run is either a develop run or a submit run, and it carries
the code, a timestamp and, for a submit run, a score. For each lab the engine
computes:

- an incremental-development score;
- a score trail: the line count of each run and the running score after it;
- a LOC trail: line counts, with unremarkable runs shown as '.', '^' for a
  drastic change and '*' for a run that added more than 20 lines;
- a time trail: the minutes between the submits of one work session;
- a coding trail: dates, weekday letters, '-' for develop runs and the
  scores of submit runs;
- a drastic-change trail: the numbers of the runs whose code changed by
  more than 70 %.

Units and representation:

- Scores are integers in hundredths, so 100 stands for 1.0, the 0.1 bonus
  is 10 and the 0.04 penalty per line is 4. `round(score, 2)` is then the
  identity.
- Rendering a score with `str(...)` is a parameter `fmt: Render`.
- A timestamp is a `Stamp`. It holds the seconds since some origin, a day
  number for the calendar date, the month, the day of the month and the
  weekday, with Monday as 0.
- Code is a `string`. `splitlines` is modelled on '\n' only.
- The difflib comparison is a parameter `differ: Differ`. It gives the
  number of changed lines between two codes. `get_diff` divides that number
  by the non-blank line count of its first argument.
- Every threshold on the ratio is decided exactly, on integers.

Module layout, one module per file:

- `Wrappers`: `Option`.
- `Strings`: `str()` of integers, joining and counting characters.
- `Lines`: removing blank lines and counting lines.
- `Submissions`: runs.
- `DiffRatio`: `get_diff` and the 0.5 and 0.7 thresholds.
- `Sessions`: session breaks, time differences and weekday letters.
- `Score`: the score and the score trail.
- `Relevance`: the three passes over the relevance list.
- `LocTrail`, `TimeTrail`, `CodingTrail`, `DrasticTrail`: the other four trails.
- `IncDev`: `run`.

Each loop of the source is a method with loop invariants. Its `ensures`
ties the result to a pure function. Lemmas state what that function
promises. The two passes over the relevance list work in place on an
`array<nat>`, as the source mutates its list.

The coding trail's docstring describes a date "if the student worked over
more than a week". The code does something narrower, and the model follows
the code. A date is written only when the weekday differs from the previous
run's weekday and the day is at least 7 days after the last date written
(`CodingTrail.CodingDates`). So a run exactly one week after the previous
run, on the same weekday, gets no date.

The docstring of `get_diff` says it divides by the line count of `sub2`.
The code divides by that of `sub1`, and the model follows the code.

## Model

| member | source | states |
|---|---|---|
| Strings.NatToStringDigits | incdev.py:137 | `str(n)` of a non-negative integer holds only decimal digits and has no leading zero |
| Strings.NatToStringRoundTrip | incdev.py:137 | reading the digits of `str(n)` back gives `n`, so rendering a line count loses nothing |
| Strings.IntToString | incdev.py:336 | `str(int(score))` ends in a digit and starts with a digit exactly when the score is non-negative |
| Strings.IntToStringDigits | incdev.py:336 | after its first character, `str(i)` holds only digits |
| Strings.CountNatToString | incdev.py:221-223 | a rendered count holds none of the trail's marks |
| Strings.CountIntToString | incdev.py:336-338 | a rendered score holds no mark other than a leading '-' |
| Strings.DropLast | incdev.py:151 | `s[:-k]` has `k` characters fewer, or is empty when `s` is shorter than `k` or `k` is 0 |
| Strings.DropSeparator | incdev.py:151 | cutting the last separator off a list in which every part is followed by a separator gives the list joined by that separator |
| Strings.ConcatStart | incdev.py:324-325 | a trail built piece by piece starts with its first piece |
| Lines.FirstNewline | incdev.py:82 | the index of the first '\n', or the length when there is none; no '\n' comes before it |
| Lines.NonBlankKeepsNoBlank | incdev.py:82 | no line kept by the blank-line filter is blank |
| Lines.SplitJoin | incdev.py:82-83 | joining lines that are non-empty and hold no newline, then splitting again, gives the same lines |
| Lines.NormaliseLines | incdev.py:82-83 | normalised code splits into exactly the non-blank lines of the original, and their number is the line count |
| Lines.NonBlankIdempotent | incdev.py:82 | filtering blank lines twice is filtering once |
| Lines.NormaliseFacts | incdev.py:82-83 | normalising is idempotent and keeps the line count; normalised code is empty exactly when the run has no non-blank line |
| Lines.NormalisedHasLines | incdev.py:400-402 | non-empty normalised code has a non-zero line count to divide by |
| Lines.NormaliseCode | incdev.py:82-83 | computes the normalised code and its line count; the code is non-empty exactly when the count is positive |
| Submissions.LineCountAt | incdev.py:180 | entry `i` of the line counts is the non-blank line count of run `i` |
| Submissions.NormalisedCodeAt | incdev.py:178 | entry `i` of the normalised codes is run `i`'s normalised code |
| DiffRatio.GetDiff | incdev.py:379-403 | the ratio is non-negative, and times the non-blank line count of the first code it gives the changed-line count |
| DiffRatio.DrasticByCounts | incdev.py:183-185 | `diff > .7` is the same as 10 times the changes exceeding 7 times the previous line count |
| DiffRatio.CaretByCounts | incdev.py:133-135 | `change > .5` is the same as 2 times the changes exceeding the previous line count |
| DiffRatio.DrasticIsCaret | incdev.py:133-135 | a drastic change (above 0.7) always earns a '^' (above 0.5) |
| DiffRatio.ExceedsByCounts | incdev.py:400-402 | the ratio exceeds p/q exactly when changes times q exceed p times the line count |
| Sessions.SubmissionTimeDiff | incdev.py:512-530 | no difference (-1) exactly for a develop run's missing time; otherwise `prev` plus the difference is `curr` |
| Sessions.GetSubSessions | incdev.py:488-510 | one flag per run, the first clear, run `i` flagged exactly when it comes more than 1800 s after run `i - 1`; one flag for no runs |
| Sessions.BreakThreshold | incdev.py:506 | runs 1800 s apart stay in one session, and runs 1801 s apart do not |
| Sessions.DayLetter | incdev.py:550-565 | the weekday's letter (M T W R F S U) between two spaces |
| Sessions.DayLetterInjective | incdev.py:327 | different weekdays give different letters, so comparing letters compares weekdays |
| Score.AdjustScore | incdev.py:532-548 | the result is at most 1; a score above 1 becomes 1 and any other is unchanged |
| Score.FinalScore | incdev.py:97-101 | the score lies between 0 and 1; it is the accumulator after the last run, or 0 when that is negative |
| Score.AccAtMostFull | incdev.py:93-94 | the accumulator never exceeds 1 |
| Score.StepRule | incdev.py:85-94 | a run adding at most 20 lines gains 0.1 up to 1; a run adding 20 + k lines loses exactly 0.04 k |
| Score.SteadyStaysFull | incdev.py:85-94 | runs that never add more than 20 lines keep the accumulator at 1 |
| Score.SteadyTrailFull | incdev.py:139-147 | under the same condition every trail entry shows 1, and the final score is 1 |
| Score.FloorOnlyAtEnd | incdev.py:97-99 | the floor at 0 applies only after the last run: runs of 50 and 51 lines give -0.2 then -0.1, and a final score of 0 |
| Score.AssignIncDevScore | incdev.py:63-102 | the score of the runs' line counts, between 0 and 1 |
| Score.CaretsAt | incdev.py:132-135 | flag `i` is the '^' decision between runs `i - 1` and `i` |
| Score.ScoreTokensAt | incdev.py:137-147 | trail entry `k` shows run `k`'s '^' flag, its line count and the running score after it, the same accumulator the final score floors |
| Score.TrailPrefixTerminated | incdev.py:128-150 | the loop's text is each entry followed by ", " |
| Score.TrailPrefixJoined | incdev.py:151 | cutting the last ", " gives the entries joined by ", " |
| Score.CaretMark | incdev.py:132-135 | a '^' exactly when there is a previous code and the ratio exceeds 0.5 |
| Score.ScoreTrailEntry | incdev.py:129-150 | one run's entry: normalised code, line count, the score after the step rule and the rendered entry |
| Score.EntryScore | incdev.py:139-147 | the score update of one run, at most 1, and its parenthesised rendering with the separator |
| Score.AssignIncDevScoreTrail | incdev.py:104-152 | the score trail of the runs: one entry per run, joined by ", " |
| Score.ScoreTrailLoop | incdev.py:123-150 | the loop builds every entry followed by ", " |
| Score.TrailPrefixCounts | incdev.py:137-147 | the loop's text has one '(' per run and one '^' per flagged run |
| Score.ScoreTrailCounts | incdev.py:104-152 | the trail holds exactly one parenthesised score per run and one '^' per run whose change exceeds 0.5 |
| Relevance.Abs | incdev.py:199 | `abs(x)` is `x` or `-x` and never negative |
| Relevance.OwnTag | incdev.py:193-204 | the tag a run gives itself is 0, 1 or 2 |
| Relevance.Seeded | incdev.py:190-205 | the seeded list starts and ends with 1, has one tag per run (two for fewer than two runs), and every zero tag has a line count |
| Relevance.SeedRelevance | incdev.py:190-205 | the list starts and ends with 1, has one tag per run (two for fewer than two runs), each interior tag is its seeded tag, and the whole list is `Seeded` |
| Relevance.SeedTwoOnlyOnJump | incdev.py:195-197 | a seeded 2 sits only at a run that added more than 20 lines |
| Relevance.NotableShowsPredecessor | incdev.py:195-201 | a notable run, or one adding more than 20 lines, sets the tag of the run before it to 1 |
| Relevance.PromotesTransitive | incdev.py:208-209 | two passes that only turn 0 into 1 together only turn 0 into 1 |
| Relevance.ValuesWalk | incdev.py:470-482 | the walk over a stretch keeps the list's length and only turns tags inside the stretch into 1 |
| Relevance.ValuesStep | incdev.py:462-484 | one iteration keeps the list's length and a count under every zero, and leaves a set end marker before the next index |
| Relevance.CheckSubsequenceValues | incdev.py:443-485 | the array ends as `ValuesPass` of its old contents: the source's loop, including the move of `start_loc` past every run it shows |
| Relevance.CheckValuesAt | incdev.py:462-484 | one iteration on the array does what `ValuesStep` describes |
| Relevance.ValuesStretch | incdev.py:470-482 | the array ends as `ValuesWalk` of its old contents over the stretch `s..e` |
| Relevance.WalkSteady | incdev.py:470-482 | a walk over runs that all follow the trend of the stretch's ends changes nothing |
| Relevance.WalkFirstBreak | incdev.py:470-482 | the walk shows the first run that breaks the trend of the stretch's ends and leaves every run before it as it was |
| Relevance.WalkSettles | incdev.py:470-482 | the walk over a closed stretch leaves it omitted when it follows its trend, and otherwise shows its first break with the runs before it omitted |
| Relevance.ValuesStepKeeps | incdev.py:462-484 | one iteration of the values pass keeps its invariant |
| Relevance.ValuesStepCloses | incdev.py:467-484 | the iteration that closes a stretch walks it, settles it, and keeps the invariant |
| Relevance.ValuesFoldInvariant | incdev.py:462-484 | after any number of iterations the values pass's invariant holds |
| Relevance.ValuesPassFacts | incdev.py:443-485 | only zeros of closed stretches become 1; with a non-zero first tag, a stretch whose runs all follow the trend of its ends stays omitted, and otherwise its first break is shown while the runs before it stay omitted |
| Relevance.ValuesPassExample | incdev.py:443-485 | `[1, 0, 0, 0, 0, 0, 0, 1]` with counts `[10, 10, 18, 9, 14, 8, 17, 17]` becomes `[1, 0, 1, 0, 0, 1, 0, 1]`: after the first break the walk reads the trend from the run after it |
| Relevance.ShowStretch | incdev.py:437-438 | tags `s..e` become 1 and every other tag is unchanged |
| Relevance.Shown | incdev.py:437-438 | the list with tags `s..e` set to 1 and the rest unchanged |
| Relevance.LengthStepKeeps | incdev.py:423-440 | one step of the length pass keeps its invariant |
| Relevance.LengthStepBounded | incdev.py:423-440 | one step leaves every closed stretch before the index 3 to 10 runs long |
| Relevance.CheckLengthAt | incdev.py:424-440 | one iteration on the array does what the length step describes |
| Relevance.CheckSubsequenceLength | incdev.py:405-441 | the array ends as `LengthPass` of its old contents: the source's loop, step by step |
| Relevance.LengthFoldInvariant | incdev.py:423-440 | after any number of iterations the length pass's invariant holds |
| Relevance.LengthPassFacts | incdev.py:405-441 | only turns 0 into 1; when the first tag is not zero, a stretch of at most 10 zeros is shown in full if shorter than 3 and kept otherwise, and every stretch left is 3 to 10 runs long |
| Relevance.LengthPassExample | incdev.py:408 | `[2, 0, 0, 0, 1, 0, 0, 2]` becomes `[2, 0, 0, 0, 1, 1, 1, 2]`, as the docstring says |
| Relevance.RunFrom | incdev.py:425-426 | a stretch is determined by where it starts: a zero block after a non-zero tag |
| LocTrail.DrasticRule | incdev.py:182-187 | the rule applied to two codes is the drastic-change test between them |
| LocTrail.DrasticLength | incdev.py:175-188 | the list has one flag per run exactly when no code before the last is empty |
| LocTrail.DrasticAt | incdev.py:182-187 | when it has one flag per run, flag `i` is the drastic test between runs `i - 1` and `i` |
| LocTrail.BlankBeforeLastCodes | incdev.py:182 | a run before the last is blank exactly when its normalised code is empty |
| LocTrail.LinesEntry | incdev.py:178-188 | one pass: the normalised code, its count, and a flag exactly when the previous code is not empty |
| LocTrail.BuildLines | incdev.py:174-188 | the line counts of the runs and their drastic flags |
| LocTrail.LocTrailLast | incdev.py:213-216 | the trail ends in '.' exactly when its last run (not the first) is omitted |
| LocTrail.RenderLocTrail | incdev.py:211-224 | the rendering loop builds the trail of all runs |
| LocTrail.RenderNext | incdev.py:213-223 | one pass extends the trail of `i` runs to that of `i + 1` |
| LocTrail.PieceCounts | incdev.py:213-223 | one run's piece holds one '.' when omitted, one '*' when tagged 2, one '^' when shown with a drastic change, one ',' when shown and not after a '.' |
| LocTrail.LocTrailFirst | incdev.py:211 | the trail of one run is the first line count |
| LocTrail.LocTrailDots | incdev.py:213-214 | the trail holds one '.' per omitted run |
| LocTrail.LocTrailStars | incdev.py:220-223 | the trail holds one '*' per run tagged other than 0 and 1 |
| LocTrail.LocTrailCarets | incdev.py:218-219 | the trail holds one '^' per shown run with a drastic change |
| LocTrail.LocTrailCommas | incdev.py:216-217 | the trail holds one ',' per shown run that does not follow an omitted one |
| LocTrail.LocTrailStartsWithFirst | incdev.py:211 | the trail starts with the first run's line count |
| LocTrail.LocTagsFacts | incdev.py:190-209 | the relevance list starts and ends with 1, differs from the seeded list only by zeros shown as 1, and leaves every omitted stretch 3 to 10 runs long; a seeded stretch of at most 10 runs that follow their trend stays omitted when at least 3 long and is shown otherwise; the first break of a seeded stretch is shown |
| LocTrail.LocTagsQuietExample | incdev.py:190-209 | five runs of 10 lines with no drastic change give the list `[1, 0, 0, 0, 1]` |
| LocTrail.LocTrailQuietExample | incdev.py:211-224 | with that list the five runs render as `10...10` |
| LocTrail.AssignLocTrail | incdev.py:154-224 | no trail (IndexError) exactly for no runs or a blank run before the last; otherwise the rendering, with the runs' line counts and drastic flags, of `LocTags`: the seeded list after the values pass and then the length pass |
| DrasticTrail.MarkAt | incdev.py:364-367 | run `k` is marked exactly when it has a run before it and changed drastically from it |
| DrasticTrail.ListedMembers | incdev.py:367 | a run is listed by its number exactly when marked; every number is a run number; the list is strictly increasing |
| DrasticTrail.DrasticRunsMembers | incdev.py:360-369 | run `k` is listed as `k + 1` exactly when it changed drastically from run `k - 1`; the first run is never listed; the numbers increase |
| DrasticTrail.NumeralsAppend | incdev.py:367 | rendering one more number appends its `str()` |
| DrasticTrail.AssignDrasticChangeTrail | incdev.py:342-372 | the drastic run numbers joined by ", " |
| DrasticTrail.DrasticPass | incdev.py:363-369 | one pass keeps the loop invariant one run further on |
| DrasticTrail.DrasticEntry | incdev.py:363-366 | the normalised code, and whether its change is drastic |
| DrasticTrail.DrasticAdvance | incdev.py:364-369 | the invariant holds for the next run once run `i` is handled |
| DrasticTrail.MarkedPrefixTerminated | incdev.py:359-369 | the loop's text is each listed number followed by ", " |
| DrasticTrail.TerminatedExtend | incdev.py:367 | listing one more number appends it and a separator |
| DrasticTrail.DrasticFinish | incdev.py:371 | cutting the last ", " gives the numbers joined by ", " |
| DrasticTrail.DrasticRunsMatchLocFlags | incdev.py:184-185 | when the LOC trail has one drastic flag per run, it flags exactly the runs the drastic-change trail lists |
| DrasticTrail.JoinedNumeralsCommas | incdev.py:367-371 | the joined list has one comma fewer than numbers, and none when empty |
| DrasticTrail.DrasticTrailCommas | incdev.py:342-372 | the trail's commas number one fewer than the drastic runs |
| TimeTrail.SubTime | incdev.py:250-255 | a time exactly for a submit run, and it is the run's time |
| TimeTrail.Times | incdev.py:250-251 | the time of every run, in order |
| TimeTrail.RoundMinutes | incdev.py:277-279 | the nearest whole minute to `d` seconds, the even one on a tie, as Python's `round` does |
| TimeTrail.RoundMinutesUnique | incdev.py:279 | the rounding is the only whole minute within 30 s (even on a tie) |
| TimeTrail.RoundMinutesExamples | incdev.py:279 | 89 s gives 1, 90 s gives 2, 150 s gives 2, -90 s gives -2 |
| TimeTrail.RoundMinutesNonNegative | incdev.py:279 | a non-negative difference never rounds below 0 |
| TimeTrail.Minutes | incdev.py:272-279 | what a submit writes after any comma ends in a digit |
| TimeTrail.TimeStep | incdev.py:261-280 | after a submit the previous submit is that run; a develop run keeps it unless a break forgot it |
| TimeTrail.SubTimes | incdev.py:250-255 | every run's submit time, none for develop runs |
| TimeTrail.TimePass | incdev.py:261-280 | one iteration of the loop does one step |
| TimeTrail.CollectTimes | incdev.py:250-255 | the first loop collects the times and the submit times |
| TimeTrail.AssignTimeTrail | incdev.py:226-282 | the time trail of the runs |
| TimeTrail.RunsChronological | incdev.py:494-495 | runs in time order give chronological time lists |
| TimeTrail.StepEnd | incdev.py:264-280 | a step leaves the trail ending in '-' after a develop run and in a digit after a submit |
| TimeTrail.TimeFoldEnd | incdev.py:258-281 | the trail is empty exactly before the first run; afterwards its last character tells the last run's kind |
| TimeTrail.TimeFoldPrev | incdev.py:261-280 | the difference is always taken from the latest submit of the current session; after a break or before any submit of the session there is none |
| TimeTrail.LastSubmitNotLater | incdev.py:276-280 | with chronological runs, the session's latest submit is no later than the latest run |
| TimeTrail.StepAppends | incdev.py:261-280 | a step appends the break marker and the run's entry, never rewriting the trail |
| TimeTrail.CommaDueAt | incdev.py:269-270 | the test on the trail's last character writes a comma exactly when the previous run is a submit of the same session |
| TimeTrail.FoldStepPiece | incdev.py:260-280 | each run appends exactly its piece |
| TimeTrail.TimeFoldPieces | incdev.py:258-281 | the trail is the concatenation of the runs' pieces, as described without the loop's state |
| TimeTrail.TimeTrailPieces | incdev.py:226-282 | the time trail of the runs is the concatenation of their pieces |
| TimeTrail.DevelopPiece | incdev.py:265-266 | a develop run writes '-' after any break marker |
| TimeTrail.FirstSubmitPiece | incdev.py:271-274 | the first submit of a session writes "0", without a comma |
| TimeTrail.SubmitGapNonNegative | incdev.py:276-279 | with chronological runs a later submit of a session shows a non-negative number of minutes |
| CodingTrail.DateLabel | incdev.py:324-329 | `strftime('%m/%d')` is five characters with '/' in the middle |
| CodingTrail.Scores | incdev.py:314-317 | the score of every submit run, -1 for develop runs |
| CodingTrail.CodingPass | incdev.py:322-338 | one iteration appends run `i`'s piece and moves the week marker; the test on a trailing space agrees with "the weekday changed" |
| CodingTrail.EntryChars | incdev.py:333-338 | an entry holds no space and no '/', and starts with ',' exactly when it is a submit that is not written plainly |
| CodingTrail.CollectCodingData | incdev.py:311-317 | the kinds, times and scores of the runs |
| CodingTrail.CodingLoop | incdev.py:321-339 | the loop builds the pieces of all runs |
| CodingTrail.PiecesEnd | incdev.py:335 | a trail of at least one run ends in the last run's entry, never in a space |
| CodingTrail.PieceDate | incdev.py:323-330 | a run's piece holds '/' exactly when it writes a date: the first run or a new week |
| CodingTrail.PieceDay | incdev.py:323-331 | a run's piece holds a space exactly when it writes a weekday letter: the first run or a changed weekday |
| CodingTrail.PieceComma | incdev.py:333-338 | a piece starts with ',' exactly when it and the previous run are submits on one weekday |
| CodingTrail.LastDated | incdev.py:328-330 | the last run before `n` that wrote a date |
| CodingTrail.WeekMarkerIsLastDate | incdev.py:320-330 | the week marker is the day of the last run that wrote a date |
| CodingTrail.CodingDates | incdev.py:323-330 | run `k` writes a date exactly when it is first, or its weekday changed and its day is at least 7 past the week marker |
| CodingTrail.CodingDays | incdev.py:322-331 | run `k` writes a weekday letter exactly when it is first or its weekday differs from the previous run's |
| CodingTrail.CodingCommas | incdev.py:333-338 | run `k`'s score follows a comma exactly when it and the previous run are submits on one weekday |
| CodingTrail.CodingPiecesPrefix | incdev.py:321-339 | a later run never rewrites an earlier piece |
| CodingTrail.CodingTrailStart | incdev.py:323-325 | the trail starts with the first run's date and weekday letter |
| CodingTrail.CodingTrailEnd | incdev.py:333-338 | the trail ends in '-' after a develop run and in a digit after a submit |
| CodingTrail.AssignCodingTrail | incdev.py:284-340 | no trail (IndexError) exactly for no runs; otherwise the coding trail of the runs |
| IncDev.RunLab | incdev.py:54-59 | no result exactly when the lab fails; otherwise the score and all five trails, each as its own operation defines it (the LOC trail rendering `LocTags` of the lab's counts and flags) |
| IncDev.RunStudent | incdev.py:48-59 | no result exactly when some lab fails; otherwise one result per lab, each fitting that lab's runs |
| IncDev.Run | incdev.py:5-61 | no result exactly when some lab of some student fails; otherwise one result per student and lab, each fitting its runs |

## Left out

- difflib's `Differ` is not modelled: the number of changed lines is the parameter `differ`.
- Floating-point arithmetic is not modelled: scores are exact hundredths. `str(round(score, 2))` is the parameter `fmt`.
- pandas timestamps are not modelled: `Timedelta.total_seconds`, `strftime`, `date()` and `weekday()` are fields of `Stamp`, and sub-second parts are dropped.
- `splitlines` splits on '\n' only, not on the other Unicode line breaks. `os.linesep` is taken to be '\n'.
- main.py (reading the zyBooks export and writing the spreadsheet) is not part of this model.
- submission.py is not part of this model beyond the fields of `Submission`.
- IndexError is modelled as `None`. That covers the LOC trail with no runs or with a blank run before the last, the coding trail with no runs, and `run`, which the exception ends.
- The result of `run` is a map. The order in which Python visits students and labs is not modelled, because each lab's result depends on its own runs only.
- `run` also fills a dictionary with placeholder zeros before setting the six fields. The placeholders are all overwritten, so the model does not keep them.
- `run`'s field list leaves out `drastic_change_trail`, but the field is set all the same.
- `run_type[i - 1]` at `i == 0` reads the last run. It has no effect: the condition it is part of holds anyway when `i == 0`.
- Relevance.LengthPassFacts: what the length pass does when the first tag is 0 is left unstated, because seeding always sets that tag to 1.
- Relevance.ValuesPassFacts: what the values pass does when the first tag is 0 is left unstated, for the same reason; `ValuesPass` itself covers that case.

# Queue progress for YouTube Music — a verified model

The browser content script `scripts/content.js` shows the queue's progress under
the YouTube Music queue panel: how much of the whole queue has played and how
long the queue is, as "M:SS / M:SS". This project models its core in Dafny, with
the page replaced by plain inputs, and proves what the script promises about it.

- `text.dfy` (module `Text`). The JavaScript string built-ins the script relies on:
  - `split` with a one-character separator, with `Join` as its inverse;
  - `trim`, over ECMAScript's full white-space and line-terminator set;
  - `Number(...)` of a group (`None` stands for NaN whenever the group has a non-digit);
  - decimal printing of whole numbers, `NatToString`, with `ParseNat` as its inverse on canonical numerals.
- `duration.dfy` (module `Duration`). The duration text codec:
  - `parseDuration`;
  - the `minutes * 60 + seconds` recombination of the first two groups, `ClockSeconds`;
  - the text side of `getCurrentTime`;
  - `secondsToString`.
- `queue.dfy` (module `Queue`). Queue parsing and aggregation:
  - `parseQueue`, a loop that appends one song per matched queue item;
  - `getQueueProgress`, a single pass that accumulates the total and the elapsed time;
  - the bootstrap test `getQueueProgress(0).totalTime`.

  Both loops are methods. `ParseQueue`'s loop is proved against `ClockSeconds`, the reading of one label. `GetQueueProgress`'s loop is proved against the specification functions `Total`, `FirstCurrent` and `ElapsedBefore`.
- `display.dfy` (module `Display`). The text `showQueueProgress` writes into the progress element, and the proof that it reads back.
- `hook.dfy` (module `Hook`). The state machine of `updateProgress` in `hookIntoPlayer`. It is a class `ProgressHook` with the closure variables `previousTime` and `previousQueueProgress` as fields, and `Update` as the method both listeners call.
  - The caller (`this instanceof HTMLElement` / `MutationObserver`) becomes an explicit `Event`.
  - The time getCurrentTime read and the matched queue items are parameters.
  - What is shown is the result, `Render`.

The page is replaced as follows:
- A queue panel is `Option<seq<QueueItem>>`: `None` when `#queue #contents` is absent, otherwise the matched items in document order.
- Each `QueueItem` carries the text of its duration label and whether it has a `selected` attribute.
- The time-info element is `Option<string>`: its text content, or `None` when it is absent.

## Model

| member | source | states |
|---|---|---|
| Text.Split | scripts/content.js:21 | there is always at least one piece; the pieces are specified by JoinSplit, SplitPiecesFree, SplitWhole and SplitFirst |
| Text.Trim | scripts/content.js:99 | the result neither starts nor ends with white space; TrimPadded states what it keeps |
| Text.Number | scripts/content.js:21 | a group is a number exactly when it consists of ASCII digits, otherwise NaN; its value is ParseNat, specified by the numeral round trips |
| Duration.NumberGroups | scripts/content.js:21 | mapping `Number` over the groups keeps their count and their order |
| Duration.ParseDuration | scripts/content.js:20-22 | one number (or NaN) per ':'-separated group, in order; there is always at least one group |
| Duration.ParseDurationOfGroups | scripts/content.js:20-22 | digit groups joined with ':' parse to exactly their values, one per group, in order |
| Text.JoinSplit | scripts/content.js:21 | joining the pieces of `split` with the separator gives back the text |
| Text.SplitPiecesFree | scripts/content.js:21 | no piece of `split` contains the separator |
| Text.SplitJoin | scripts/content.js:21 | splitting a join of separator-free pieces gives back the pieces, so `split` and `join` are inverse |
| Text.SplitWhole | scripts/content.js:97 | a text without the separator splits into itself alone |
| Text.SplitFirst | scripts/content.js:97 | the text before the first separator is the first piece, and the rest splits independently |
| Text.TrimPadded | scripts/content.js:99 | `trim` removes any surrounding white space and keeps a core that neither starts nor ends with white space |
| Text.NatToString | scripts/content.js:112 | `${n}` prints a canonical numeral (no leading zero), of one digit exactly when n < 10 |
| Text.ParseNatToString | scripts/content.js:112 | reading the printed numeral gives back the number |
| Text.NatToStringParse | scripts/content.js:112 | printing the value of a canonical numeral gives back the numeral |
| Duration.ClockSeconds | scripts/content.js:40-43 | `minutes * 60 + seconds` of the first two groups, NaN when one is NaN or missing; specified by ClockSecondsOfGroups and SingleGroupIsNaN |
| Duration.ClockSecondsOfGroups | scripts/content.js:40-43 | a label "minutes:seconds", with or without further groups, yields `minutes * 60 + seconds` from its first two groups |
| Duration.SingleGroupIsNaN | scripts/content.js:99-101 | a text without ':' has no seconds group, and its value is NaN |
| Duration.CurrentTime | scripts/content.js:90-101 | the text side of getCurrentTime; specified by CurrentTimeReadsBeforeSlash and, on the display text, by ProgressTextReadsBack |
| Duration.CurrentTimeReadsBeforeSlash | scripts/content.js:90-101 | getCurrentTime is 0 when the time element is absent, and otherwise reads only the trimmed text before the first '/' |
| Duration.SecondsToString | scripts/content.js:108-113 | secondsToString; specified by FormatLayout, FormatRoundTrip, FormatOfCanonical and FormatExamples |
| Duration.Pad2TwoDigits | scripts/content.js:112 | the padded seconds are exactly two digits whose value is the seconds |
| Duration.FormatLayout | scripts/content.js:108-113 | secondsToString(n) is `floor(n / 60)` unpadded, a ':', then `n mod 60` as two digits |
| Duration.FormatRoundTrip | scripts/content.js:108-113 | reading the formatted text as `minutes * 60 + seconds` gives back n |
| Duration.FormatOfCanonical | scripts/content.js:108-113 | formatting `minutes * 60 + seconds` of canonical minutes and two-digit seconds below 60 reproduces the text "minutes:seconds"; with ClockSecondsOfGroups, which reads that text as `minutes * 60 + seconds`, such a text is read and reprinted unchanged |
| Duration.FormatExamples | scripts/content.js:108-113 | 125 is printed "2:05" and 59 is printed "0:59" |
| Queue.FirstCurrent | scripts/content.js:68-71 | the position of the first current song: no song before it is current, and it is current unless it is past the end |
| Queue.ParseQueue | scripts/content.js:28-49 | one song per matched item, in document order; its duration is `minutes * 60 + seconds` of its label; it is current exactly when the item is selected |
| Queue.GetQueueProgress | scripts/content.js:55-85 | no panel gives `{songs: [], elapsedTime: 0, totalTime: 0}`; otherwise the parsed songs unchanged, `totalTime` the sum of all durations, and `elapsedTime` the current time plus the durations before the first current song |
| Queue.TotalAppend | scripts/content.js:77 | the total of two queues laid end to end is the sum of their totals |
| Queue.TotalZero | scripts/content.js:198 | a total is zero exactly when every duration is zero |
| Queue.TotalPrefixAtMost | scripts/content.js:64-78 | the songs before any position never last longer than the whole queue |
| Queue.ElapsedAtMostTotal | scripts/content.js:64-78 | `elapsedTime - currentTime <= totalTime` |
| Queue.NoCurrentSong | scripts/content.js:64-78 | with no current song, `elapsedTime - currentTime` is the whole total |
| Queue.ElapsedStopsAtCurrent | scripts/content.js:68-75 | the elapsed time counts the songs before the first current song only: not that song, not later songs, not later current flags |
| Queue.QueueExample | scripts/content.js:64-78 | durations 30, 45, 20 with the second current: 30 seconds elapsed before it, 95 in all |
| Queue.QueueProgressExample | scripts/content.js:55-85 | labels reading 30, 45 and 20 seconds with the second selected, at position 10: 40 seconds of 95 have elapsed |
| Queue.ElapsedWithinQueue | scripts/content.js:64-78 | while the position stays within the current song, the elapsed time does not exceed the total |
| Queue.ReadyToHook | scripts/content.js:197-202 | the hook is installed exactly when the queue panel exists and some song has a non-zero duration |
| Display.ProgressText | scripts/content.js:151 | the displayed text; specified by SplitProgressText and ProgressTextReadsBack |
| Display.FormattedShape | scripts/content.js:151 | a formatted time holds no '/' and neither starts nor ends with white space |
| Display.SplitProgressText | scripts/content.js:151 | split at '/', the displayed text is exactly the elapsed and the total part, each with its space |
| Display.TrimFormatted | scripts/content.js:151 | trimming either part of the display recovers the formatted time |
| Display.ProgressTextReadsBack | scripts/content.js:151 | both halves of the display parse back to the elapsed and the total time, and read as the time-info text it gives the elapsed time |
| Hook.ProgressHook.constructor | scripts/content.js:159-164 | the hook starts at time 0 with the empty progress |
| Hook.ProgressHook.Update | scripts/content.js:166-184 | a time update at the stored time renders nothing and changes nothing; without a queue panel nothing is rendered and nothing changes, because showing a progress needs the panel (content.js:147-149, 120) and fails before the store; with a panel, a mutation with an unchanged song count re-renders the stored progress and changes nothing, even at a new time, and anything else renders the fresh getQueueProgress result and stores it with its time; with a panel a mutation always renders; the stored progress is always one getQueueProgress returned at the stored time |
| Hook.StoredElapsedBounded | scripts/content.js:180-183 | the stored elapsed time never exceeds the stored time plus the stored total |
| Hook.RepeatedTick | scripts/content.js:169-171 | of two time updates at the same position, the second renders nothing |

## Left out

- DOM lookups are replaced by inputs: `getVideoElement`, `getQueueElement`, `querySelectorAll`, the wrapper descent into `#primary-renderer ytmusic-player-queue-item` and `getElementsByClassName('duration')`. Which elements match is decided by the page.
- `prepareProgressElement`, and the writing of the text into the element, are left out. They are element creation, styling and insertion. The display is the value `ProgressText`.
- Registering the `timeupdate` listener and the mutation observer, the teardown closure, and the bootstrap observer's `disconnect` are host event-loop plumbing. `ReadyToHook` models only the bootstrap's test.
- A missing duration label (an exception in `parseQueue`) is not modelled: every matched item has a label.
- Without a queue panel, showing a progress raises an exception, because the progress element is looked up inside the missing panel. The model treats this as an update that writes nothing and stores nothing (`NoRender`). The exception itself is not modelled.
- `Number(...)` coercion is modelled for groups of ASCII digits only. All other groups are NaN in the model, including leading or trailing white space, signs, fractions, exponents, and hexadecimal (`0x`), which JavaScript would read as numbers.
- Queue.ParseQueue: requires every label to read as "M:SS", because the NaN a malformed label would add to every sum is not modelled.
- Queue.GetQueueProgress: also requires every label to read as "M:SS".
- Hook.ProgressHook.Update: takes the time from getCurrentTime as a natural number, so a NaN time (which never equals `previousTime`) is not modelled.
- `toLocaleString` is modelled as two ASCII digits of zero padding. Locale digit shapes and grouping separators are left out; so is the floating-point rendering of huge or non-integral numbers. All values are natural numbers.
- Floating point and the 2^53 limit of JavaScript numbers are left out. Sums are unbounded naturals.
- The round trip from text holds only for canonical minutes (no leading zero) and two-digit seconds below 60, because the script prints nothing else. "03:45" and "3:75" parse, but they do not print back as themselves.

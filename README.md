# YouTube Music → Discord presence, modelled in Dafny

The system has two halves. A userscript runs in the YouTube Music page. Every poll, it reads the player bar and builds a song snapshot. It sends the snapshot over a local WebSocket when the title or the play state has changed. A Node bridge receives each snapshot and builds a Discord rich-presence activity from it. The activity has a title line, an artist line, the large artwork image, a small play/pause image, and start and end timestamps while a song plays. The bridge hands the activity to the RPC client and remembers the last one the client accepted.

This project models the deterministic core of both halves and proves what it promises.

- `wrappers.dfy` (`Wrappers`): `Option`, the model of `null`/`undefined`.
- `js_strings.dfy` (`JsStrings`): the JavaScript string operations the page agent relies on.
  - `trim` over the ECMAScript white-space set.
  - `split` on one character, with its inverse `join`.
  - `includes`.
- `js_numbers.dfy` (`JsNumbers`): the page agent's numbers.
  - A `Number` is `NaN` or an integer.
  - `parseInt` without a radix: leading white space, a sign, and a `0x` prefix, then the longest digit prefix. It gives `NaN` when no digit follows the white space and the sign, or when a `0x` has no hexadecimal digit after it.
- `userscript.dfy` (`Userscript`): the page agent.
  - `parseTime`.
  - The pure parts of `getSongInfo`: title, byline split, time split, artwork cut at `=`, and the three-valued play state.
  - The change test of `checkForUpdates` as a function `Poll`, and runs of polls as `Run`.
  - The class `PageAgent`. Its fields are the script's two module variables, `ws` and `lastSongData`. Its methods are `sendSongData` and `checkForUpdates`.
- `bridge.dfy` (`Bridge`): the bridge.
  - The activity that `updateDiscordPresence` builds, as a function of the received record and the clock. It follows JavaScript truthiness: an empty string and `0` count as absent.
  - The class `PresenceBridge`, which holds `currentActivity`. Its method `UpdateDiscordPresence` builds the activity field by field, as the source does. The outcome of `setActivity` is a parameter.
- `wire.dfy` (`Wire`): what JSON does to a snapshot on its way from the page to the bridge, and lemmas that follow a page view all the way to the activity.
  - `NaN` becomes `null` and `undefined` properties disappear. Both arrive at the bridge as absent.

Behaviour of the code that the model keeps:

- The bridge computes the timestamps from its own clock when the message is handled. It never reads the snapshot's `timestamp` (bridge.js:79-84).
- The bridge calls `setActivity` for every non-null record it receives. Nothing waits for the RPC client's `ready` event (bridge.js:44-47, 87).
- `parseTime` gives `0` for a text with no colon or with more than two (ytm-rpc-userscript.js:98). It gives `NaN` when the text has two or three fields and one of them reads as `NaN` under `parseInt`: no digit follows its leading white space and sign, or a `0x` has no hexadecimal digit after it (`Userscript.ParseTimeNaN`).
- Timestamps need a truthy duration and a truthy current time, not just present ones. So a song at 0:00 shows no timestamps even while it plays (bridge.js:78).
- `lastSongData` is updated even when the send was dropped because the socket was not open (ytm-rpc-userscript.js:127-128). A snapshot lost that way is not sent again until the title or play state changes (`Userscript.PollIgnoresOtherFields`).

## Model

| member | source | states |
|---|---|---|
| JsStrings.Trim | ytm-rpc-userscript.js:43-44 | `String.prototype.trim`: `TrimStart` then `TrimEnd` over the ECMAScript white-space and line-terminator set; its meaning is stated by `TrimCuts`, `TrimIsTrimmed` and `TrimSurrounded` |
| JsStrings.TrimCuts | ytm-rpc-userscript.js:43-44 | `trim` removes exactly the white space at both ends: the result stands inside the input with only white space around it, and its own ends are not white space |
| JsStrings.TrimIsTrimmed | ytm-rpc-userscript.js:43-44 | a trimmed text has no white space at either end |
| JsStrings.TrimSurrounded | ytm-rpc-userscript.js:65 | trimming white space off a non-empty trimmed core gives back exactly that core |
| JsStrings.Split | ytm-rpc-userscript.js:92 | `split` on one character: the text is cut at every occurrence of the separator; `SplitPieces`, `JoinSplit`, `SplitJoin` and `SplitFirst` state its meaning |
| JsStrings.IndexOf | ytm-rpc-userscript.js:78 | for a character that occurs, the position found holds it |
| JsStrings.SplitPieces | ytm-rpc-userscript.js:92 | `split` on one character gives one piece more than the character occurs, and no piece contains the separator |
| JsStrings.JoinSplit | ytm-rpc-userscript.js:54 | joining the pieces of a split with the separator gives back the original text |
| JsStrings.SplitJoin | ytm-rpc-userscript.js:54 | splitting a join of separator-free pieces gives back those pieces |
| JsStrings.SplitHeadIsPrefix | ytm-rpc-userscript.js:78 | the first piece of a split holds no separator and is the whole text or stands before the first separator |
| JsStrings.SplitFirst | ytm-rpc-userscript.js:54 | the first separator ends the first piece; the rest is split independently |
| JsStrings.IndexOfFirst | ytm-rpc-userscript.js:78 | the position found holds the character and no earlier position does |
| JsStrings.Includes | ytm-rpc-userscript.js:47 | `includes`: the text holds the other text at some position (`OccursAt`) |
| JsStrings.IncludesChar | ytm-rpc-userscript.js:53 | `includes` of a one-character string holds exactly when the character occurs |
| JsNumbers.ParseInt | ytm-rpc-userscript.js:92 | `parseInt` with no radix; `ParseIntDecimal`, `ParseIntNegative`, `ParseIntNonDigitStart`, `ParseIntSignNonDigit` and `ParseIntNoDigits` state what it gives |
| JsNumbers.ParseIntDecimal | ytm-rpc-userscript.js:92 | `parseInt` skips leading white space and reads a decimal field as its value, when what follows does not continue it and does not turn a lone `0` into `0x` |
| JsNumbers.ParseIntNegative | ytm-rpc-userscript.js:92 | a minus sign before a decimal field gives the negated value |
| JsNumbers.ParseIntNonDigitStart | ytm-rpc-userscript.js:92 | when the first character after the white space is neither a digit nor a sign, the result is `NaN`, whatever follows |
| JsNumbers.ParseIntSignNonDigit | ytm-rpc-userscript.js:92 | a sign that is not followed by a digit gives `NaN` |
| JsNumbers.ParseIntNoDigits | ytm-rpc-userscript.js:92 | `parseInt` on a text without a decimal digit is `NaN` |
| Userscript.ParseTime | ytm-rpc-userscript.js:91-99 | `parseTime`: split on `:`, each part read by `parseInt`, then combined by part count; the lemmas below state its results |
| Userscript.ParseDecimalField | ytm-rpc-userscript.js:92 | a field of decimal digits reads as its decimal value |
| Userscript.ParseTimeTwoParts | ytm-rpc-userscript.js:92-94 | two `:`-separated parts give `parts[0] * 60 + parts[1]` |
| Userscript.ParseTimeThreeParts | ytm-rpc-userscript.js:95-96 | three parts give `parts[0] * 3600 + parts[1] * 60 + parts[2]` |
| Userscript.ParseTimeOtherCounts | ytm-rpc-userscript.js:97-98 | with neither one nor two colons the result is 0 |
| Userscript.ParseTimeNoColon | ytm-rpc-userscript.js:97-98 | a text without a colon, the empty one included, reads as 0, not as no value |
| Userscript.ParseTimeNaN | ytm-rpc-userscript.js:92-98 | the result is `NaN` exactly when there are two or three parts and one of them reads as `NaN` |
| Userscript.ParseTimeNonNegative | ytm-rpc-userscript.js:91-99 | when every field is digits only, the result is a number and never negative |
| Userscript.ParseTimeMonotone | ytm-rpc-userscript.js:93-94 | on two parts, more minutes or more seconds never give fewer seconds |
| Userscript.SplitTwoFields | ytm-rpc-userscript.js:92 | `M:SS` with colon-free fields splits into exactly those two fields |
| Userscript.SplitThreeFields | ytm-rpc-userscript.js:92 | `H:MM:SS` with colon-free fields splits into exactly those three fields |
| Userscript.ParseTimeMinutesExample | ytm-rpc-userscript.js:93-94 | "3:45" is 225 seconds |
| Userscript.ParseTimeHoursExample | ytm-rpc-userscript.js:95-96 | "1:02:03" is 3723 seconds |
| Userscript.TrimOpt | ytm-rpc-userscript.js:43-44 | a missing element stays missing; a present text is replaced by its trim |
| Userscript.ParseByline | ytm-rpc-userscript.js:50-57 | with a bullet: an album, and artist and album both trimmed; without one: no album, and the artist is the byline or "Unknown Artist" when it is empty or missing |
| Userscript.BylineSegments | ytm-rpc-userscript.js:53-56 | with a bullet, the artist is the trimmed text before the first bullet and the album the trimmed text up to the next one; later segments are ignored |
| Userscript.ParseTimeInfo | ytm-rpc-userscript.js:61-70 | the current time and the duration are set together or not at all |
| Userscript.TimeInfoSetIffOneSlash | ytm-rpc-userscript.js:64-69 | both times are set exactly when the time element exists and its text holds exactly one `/` |
| Userscript.TimeInfoHalves | ytm-rpc-userscript.js:65-68 | the trimmed text before the slash is the current time and the trimmed text after it the duration, each read by `parseTime` |
| Userscript.TimeInfoExample | ytm-rpc-userscript.js:65-68 | "1:23 / 4:56" gives 83 and 296 seconds |
| Userscript.StripSizeParameters | ytm-rpc-userscript.js:78 | the artwork URL is kept up to its first `=`: a prefix of the source without `=`, followed in the source by `=` when shorter |
| Userscript.IsPlayingFrom | ytm-rpc-userscript.js:46-47 | the play state is missing exactly when the label is, and `true` exactly when the label contains "Pause" |
| Userscript.GetSongInfo | ytm-rpc-userscript.js:41-83 | no snapshot exactly when the title is missing or trims to empty; otherwise a well-formed snapshot whose every field is the corresponding parse of the page and whose timestamp is the clock |
| Userscript.DataChanged | ytm-rpc-userscript.js:121-123 | the change test: there is no kept snapshot, or title or play state differs by `!==` |
| Userscript.Poll | ytm-rpc-userscript.js:115-130 | a send is attempted exactly when there is a snapshot and there was none before, or title or play state differs; the attempted snapshot becomes the kept one; otherwise the kept one stays |
| Userscript.PollIgnoresOtherFields | ytm-rpc-userscript.js:121-123 | a snapshot equal in title and play state to the kept one changes nothing, whatever its artist, album, artwork or times |
| Userscript.Run | ytm-rpc-userscript.js:137-147 | a run of polls, from the interval timer or the navigation observer, folded through `Poll`: the final kept snapshot and the snapshots attempted, in order |
| Userscript.RunSendsOnlyChanges | ytm-rpc-userscript.js:121-128 | over any run of polls the kept snapshot is the last one sent, and each snapshot sent differs from the previous one sent in title or play state |
| Userscript.RunSendsPolled | ytm-rpc-userscript.js:125-128 | every snapshot sent is one that was polled, and there are never more sends than polls |
| Userscript.RunSteady | ytm-rpc-userscript.js:121-125 | while every poll agrees with the kept snapshot in title and play state, nothing is sent and the kept snapshot stays |
| Userscript.PageAgent.constructor | ytm-rpc-userscript.js:14-15 | no socket and no kept snapshot at start |
| Userscript.PageAgent.ObserveSocket | ytm-rpc-userscript.js:20 | the socket is now in the given state, and nothing else changes |
| Userscript.PageAgent.SendSongData | ytm-rpc-userscript.js:102-112 | the snapshot goes out, unchanged, exactly when the socket exists and is open |
| Userscript.PageAgent.CheckForUpdates | ytm-rpc-userscript.js:115-130 | the kept snapshot moves as `Poll` says, even when the send was dropped; the snapshot sent is the attempted one when the socket is open and nothing otherwise; only well-formed snapshots are kept, and only a well-formed one, never an untitled one, is sent |
| Bridge.ShowsProgress | bridge.js:78 | the timestamp test: `isPlaying`, `duration` and `currentTime` all truthy |
| Bridge.BuildActivity | bridge.js:53-85 | the details are the title, the state is "by " and the artist, the instance flag is false; both timestamps are present exactly when playing with a truthy duration and current time |
| Bridge.LargeImage | bridge.js:60-66 | a non-empty artwork URL is the large image, with the album or "YouTube Music" as its text; otherwise the "ytmusic" asset with "YouTube Music" |
| Bridge.SmallImage | bridge.js:69-75 | ("play", "Playing") exactly when `isPlaying` is true, ("pause", "Paused") otherwise |
| Bridge.ImagesNeverEmpty | bridge.js:60-75 | no image key and no image text is ever empty |
| Bridge.Timestamps | bridge.js:78-85 | start is `now - currentTime * 1000` and end is start plus `duration * 1000` |
| Bridge.ProgressRoundTrip | bridge.js:80-84 | reading the timestamps back at the same clock gives the current time and the duration of the record, in milliseconds |
| Bridge.NowWithinSong | bridge.js:78-85 | for a current time between 0 and the duration, the clock lies between start and end |
| Bridge.NoProgressNoTimestamps | bridge.js:78 | paused, or with a missing or zero time, the activity has no timestamps, whatever was shown before |
| Bridge.BuildActivityCoherent | bridge.js:53-85 | every built activity has both timestamps or neither, timestamps only with the play image, and a non-empty large image |
| Bridge.PresenceBridge.constructor | bridge.js:17 | no activity at start |
| Bridge.PresenceBridge.UpdateDiscordPresence | bridge.js:49-94 | a null record requests nothing; otherwise the activity requested is the one `BuildActivity` gives; the kept activity becomes it exactly when `setActivity` succeeded and stays otherwise |
| Wire.NumberOnWire | ytm-rpc-userscript.js:108 | a time arrives as a number exactly when it was present and not `NaN`, and then with the same value |
| Wire.Received | ytm-rpc-userscript.js:108 | the record the bridge receives shows progress exactly when the snapshot is playing and both its times read as non-zero numbers: the bridge's truthiness test in the page's terms |
| Wire.PresenceFromPage | ytm-rpc-userscript.js:72-82 | the activity shows the trimmed, non-empty page title, and has timestamps exactly when the play label says "Pause" and both times read as non-zero numbers |
| Wire.NoTimesNoTimestamps | ytm-rpc-userscript.js:64-69 | a time text without exactly one slash gives an activity without timestamps |
| Wire.NaNTimeNoTimestamps | ytm-rpc-userscript.js:108 | a time that read as `NaN` never produces a timestamp |

## Left out

- WebSocket creation, the `onopen`/`onclose`/`onerror` handlers and the reconnect timer are network I/O and timers. The page agent retries every 5 s, on close and when creating the socket throws (ytm-rpc-userscript.js:28, 36); no member models that retry. `PageAgent.ObserveSocket` stands for whatever state the socket has reached.
- `ws.send` failing is left out, because the script catches the error and only logs it.
- The DOM `querySelector` reads are browser UI, so their results are the inputs of `GetSongInfo` (`PageView`). The same goes for the `setInterval` poll and the `MutationObserver` that re-polls after navigation; a run of polls is a sequence of snapshots (`Run`).
- `Date.now()` on both sides is a parameter (`now`).
- The JSON text format is a library encoding. It is not modelled; only the values that survive `JSON.stringify`/`JSON.parse` are (`Wire.Received`).
- `dotenv` loading and the exit on a missing `CLIENT_ID` are process plumbing.
- The `discord-rpc` client, `login`, the `ready` handler, `clearActivity`, `destroy` and the SIGINT shutdown are foreign IPC calls and signals. `setActivity` is an abstract success or failure (`RpcOutcome`).
- The bridge's `!rpc` test is always false once the client exists, so it is left out.
- Console logging is left out everywhere.
- The bridge is only modelled on messages of the shape the page agent sends (`SongRecord`); messages of other shapes, and the `try`/`catch` around `JSON.parse`, are left out.
- Numbers are unbounded integers. Floating point, precision loss beyond 2^53 and `Infinity` from very long digit runs are not modelled; no text the player bar shows comes near them.
- Strings are sequences of code points rather than UTF-16 code units. The bullet, the colon, the slash and `=` are single code units either way.
- `JsNumbers.ParseInt`: the `0x` hexadecimal branch and a `+` sign before digits are modelled, but no lemma states their value, because the player bar never shows them.
- Bridge.PresenceBridge.UpdateDiscordPresence: calls are modelled one at a time, each taking effect in the order its `setActivity` settles. The message handler is `async` and several page connections may be open (bridge.js:24-32), so two calls can overlap at `await rpc.setActivity` (bridge.js:87-88). `currentActivity` then follows the order the requests settle, not the order the messages arrived; the model does not capture that interleaving.


# streamertweet announcer, modelled in Dafny

streamertweet watches a fixed roster of Twitch streamers. Once per cycle it
asks Twitch whether each streamer is live. It tweets an announcement the first
time a streamer is seen live, stays quiet while the streamer remains live, and
re-arms once the streamer goes offline. This project models that per-streamer
logic from `streamertweet.go` and proves its properties:

- **The `Tweeted` flag.** It is set for every entry `ReadStreamers` builds.
  A post sets it. An offline observation clears it.
- **Composing the tweet.** The handle falls back to the display name. Known
  game titles are shortened by the `ShortGame` table. There are nine random
  templates. A template over the limit is replaced by a fallback text.
- **The `[test]` title marker**, which suppresses posting.
- **`FitsTweet`**, the 140-byte length check.

Files, one module each:

- `text.dfy` (`Text`): Go's `len` on a string, which counts UTF-8 bytes (`ByteLen`), and `strings.Contains`.
- `roster.dfy` (`Roster`): the `Streamer` record and `ReadStreamers`.
- `compose.dfy` (`Compose`): `FitsTweet`, `ShortGame`, handle resolution, the templates, the fallback and the choice between them.
- `presence.dfy` (`Presence`): the state machine `Apply`, the loop body `Step` on an array, one pass over the roster (`Cycle`), several passes (`Watch`), and lemmas over sequences of observations.

Modelling choices:

- **The roster is an `array<Streamer>` and `Streamer` is a datatype.** Go's
  `[]Streamer` is a slice of struct values. The loop variable `streamer` is a
  copy of `streams[i]`. So the handle substitution at `streamertweet.go:59`
  changes only the copy. Only `streams[i].Tweeted` is ever written back.
  `Step` does exactly this, and its postcondition says that no other entry
  and no other field changes.
- **`Apply` is the state machine.** It is written by state and observation,
  in a different shape from the Go branches. `Step` follows the Go branches
  and is proved equal to `Apply`.
- **The outside world arrives as a `Poll` for each streamer in each cycle.**
  A `Poll` holds three things:
  - the observation: `Offline`, or `Online` with the result of `getStream`
    (`FetchFailed`, or `Fetched(game, title)`);
  - the template index that `rand.Intn(9)` would return;
  - whether `PostTweet` succeeds.
- **Strings are sequences of Unicode scalar values.** Go's `len` is their
  UTF-8 byte count, so the 140 limit is in bytes, as in the code.

Behaviour of the code worth noting:

- **The fallback tweet is posted without a length check**
  (`streamertweet.go:85-92`). It fits exactly when the handle and the Twitch
  user together take at most 88 bytes (`FallbackFits`), and some inputs make
  it too long (`FallbackCanOverflow`). When they do take at most 88 bytes,
  whatever is posted fits (`ShortChannelFits`).
- **The limit is the constant 140** (`streamertweet.go:161`).
- **A failed `getStream` changes nothing** (`streamertweet.go:53-56`).
- **A failed `checkOnline` reads as "offline"** (`streamertweet.go:106-133`),
  so it re-arms an entry whose flag is set, like any offline observation.

## Model

| member | source | states |
|---|---|---|
| `Text.ByteLen` | streamertweet.go:161 | Go's `len` of a string: zero exactly for the empty string. |
| `Text.ByteLenAppend` | streamertweet.go:161 | The byte length of a concatenation is the sum of the byte lengths. |
| `Text.ByteLenBounds` | streamertweet.go:161 | Go's `len` is at least the number of characters and at most four times it. It equals the number of characters exactly when the text is ASCII. |
| `Text.OccursContains` | streamertweet.go:77 | An occurrence of `t` at any offset makes `Contains(s, t)` true. |
| `Text.ContainsOccurs` | streamertweet.go:77 | `Contains(s, t)` is true only when `t` occurs at some offset. This is the converse of `OccursContains`. |
| `Roster.ReadStreamers` | streamertweet.go:210-221 | Succeeds exactly when every record has at least three fields. Entry `j` is then `(row[0], row[1], row[2], tweeted = true)`, so every entry starts suppressed. |
| `Compose.FitsTweetLength` | streamertweet.go:160-162 | Fitting implies at most 140 characters. For ASCII text, it fits exactly when it has at most 140 characters (the 91-, 140- and 150-character cases of the length test). |
| `Compose.FitsTweetPrefix` | streamertweet.go:160-162 | If a concatenation fits, so does each of its parts. |
| `Compose.ShortGame` | streamertweet.go:165-187 | The result is never empty. The eight listed games map to their table entry, which starts with `#`. `""` maps to "some games". Every other game is returned unchanged. |
| `Compose.ShortGameIdempotent` | streamertweet.go:165-187 | Shortening an already shortened label changes nothing. |
| `Compose.ShortGameExamples` | streamertweet_test.go:115-131 | The five cases of the ShortGame test: CSGO, Hearthstone, Overwatch, Dark Souls, and the empty game. |
| `Compose.Handle` | streamertweet.go:58-60 | The display name when the Twitter field is "NoTwitter", "" or "none", and the Twitter field otherwise. Never empty when the name is not empty. |
| `Compose.Candidates` | streamertweet.go:62-72 | There are exactly nine templates. |
| `Compose.CandidateMentions` | streamertweet.go:62-72 | Every template contains the handle and `https://twitch.tv/<user>`. Templates 5, 6 and 8 also contain the game label. |
| `Compose.Url` | streamertweet.go:63-73 | The channel link is `https://twitch.tv/` followed by the Twitch user, 18 characters longer than the user. |
| `Compose.Fallback` | streamertweet.go:73 | The fallback has 52 characters besides the handle and the user. |
| `Compose.FallbackMentions` | streamertweet.go:73 | The fallback contains the handle and the channel URL. |
| `Compose.ChooseTweet` | streamertweet.go:74-92 | The chosen template when it fits, the fallback otherwise. Either the result fits or it is the fallback. |
| `Compose.ChosenTweetMentions` | streamertweet.go:62-92 | Whatever is chosen names the handle and links the channel. |
| `Compose.FallbackFits` | streamertweet.go:73 | The fallback has 52 fixed bytes plus the handle and the user. It fits exactly when the handle and the user take at most 88 bytes together. |
| `Compose.FallbackIsSecondTemplateTrimmed` | streamertweet.go:64-73 | The fallback is template 1 without its trailing space, so it is one byte shorter and fits whenever that template fits. |
| `Compose.ShortChannelFits` | streamertweet.go:74-92 | When the handle and the user take at most 88 bytes together, the posted text fits whichever template is picked. |
| `Compose.FallbackCanOverflow` | streamertweet.go:85-92 | Some handle and user make the posted fallback exceed the limit. |
| `Presence.Apply` | streamertweet.go:52-98 | Only `tweeted` ever changes: the handle substitution does not persist. A post happens only from the ready state, leaves the flag set, and carries the post outcome it was given. |
| `Presence.Step` | streamertweet.go:48-98 | The Go loop body for index `i`. Afterwards the roster equals the old roster with only entry `i` replaced by `Apply`'s new state, and the action is `Apply`'s action. |
| `Presence.Cycle` | streamertweet.go:48-100 | One pass over the roster. Every entry `j` becomes `Apply(old entry, polls[j])`, and action `j` is the action of that step. |
| `Presence.Watch` | streamertweet.go:46-103 | Several passes: the roster becomes `Rounds` of the old roster, and what is posted for entry `j` in cycle `m` is step `m` of `Trace` of the old entry over its own column of polls, so the trace lemmas below hold of the main loop's posts. |
| `Presence.RoundsSnoc` | streamertweet.go:46-103 | Running one more cycle after some cycles is one more `Round` of the roster they left. |
| `Presence.WatchAction` | streamertweet.go:46-103 | What entry `j` does in cycle `m`, from the roster the first `m` cycles left, is step `m` of its own trace. |
| `Presence.After` | streamertweet.go:84-97 | However many observations a streamer sees, only its `tweeted` flag changes. |
| `Presence.RoundsPerStreamer` | streamertweet.go:48-98 | Entries do not interact. After any number of cycles, entry `j` is what its own observations alone make of it. |
| `Presence.TraceAt` | streamertweet.go:48-98 | The action at position `j` of a streamer's history is what the state reached by the earlier observations does with observation `j`. |
| `Presence.SilentUntilOffline` | streamertweet.go:215-221 | A suppressed streamer (every entry at start-up) posts nothing and stays suppressed as long as it is seen online. |
| `Presence.OnePostPerOnlineRun` | streamertweet.go:52-97 | After a post, nothing is posted again while the observations stay online. |
| `Presence.PostsSeparatedByOffline` | streamertweet.go:84-97 | Between any two posts for one streamer there is an offline observation. |
| `Presence.OfflineRearms` | streamertweet.go:95-97 | An offline observation posts nothing. If the next observation is online with a fetched, unmarked stream, that observation posts. |
| `Presence.PostsExactlyWhenReady` | streamertweet.go:52-92 | A step posts exactly when the flag is clear, the streamer is online, `getStream` succeeded and the title lacks `[test]`. The flag is then set, and the new state does not depend on whether the post succeeded. |
| `Presence.FlagTransitions` | streamertweet.go:52-98 | Offline always leaves the flag clear and posts nothing. Online with the flag set changes nothing. A failed fetch changes nothing. A `[test]` title changes nothing. |
| `Presence.PostedText` | streamertweet.go:58-92 | A posted text is `ChooseTweet` applied to the resolved handle, the user, the shortened game and the random index. It names the handle and links the channel. |
| `Presence.MarkerNeedsBracket` | streamertweet.go:77 | A title with the test marker contains a `[`. |
| `Presence.ExampleTitleUnmarked` | streamertweet.go:77 | "ranked grinding" does not carry the marker. |
| `Presence.OneSession` | streamertweet.go:52-97 | A ready streamer with an unmarked title: the first online observation posts a text that names the handle and the channel. A second online observation is quiet. Going offline restores the ready entry. |
| `Presence.AliceExample` | streamertweet.go:58-92 | An entry with an empty Twitter field resolves to its name "Alice", CS:GO shortens to "#CSGO", and whichever template is picked the posted text for "Alice" and "alicestream" fits in 140 bytes. |
| `Presence.TestMarkerExample` | streamertweet.go:77 | Online with the title "ranked grinding [test]" leaves a ready entry unchanged and posts nothing. |

## Left out

- `checkOnline` and `getStream` (HTTP requests and JSON decoding) are not modelled. Only their results are: an `Observation` with a `Fetch` inside.
- When the flag is already set, the model still receives a `Fetch`, and `Apply` ignores it. The original makes no `getStream` call in that case.
- Twitter posting through `anaconda` and credential loading through `godotenv` are foreign library calls. The outcome of a post is an input.
- CSV parsing in `ReadStreamers` (`os.Open`, `csv.Reader`, comment lines, trimming) is library I/O. The model starts from the parsed records. The `io.EOF` branch at `streamertweet.go:212` cannot be reached.
- When the streamers file cannot be read, `main` logs the error and loops over an empty roster. That is `Watch` on an empty array.
- Roster.ReadStreamers: a record with fewer than three fields makes the original panic with an index out of range. The model reports `ok == false` instead of stopping the program.
- `rand.Seed` and `rand.Intn`, `time.Sleep` and all logging are left out. The random index is an input, and timing and output do not affect state.
- Presence.Watch: the original loops forever. The model runs as many cycles as it is given.
- Go strings may hold invalid UTF-8. The model's strings are Unicode scalar values.
- `twitchstream.go` only declares JSON structures. The game and title fields are the only parts the model uses.
- The network tests `TestTwitter` and `TestTwitch` are left out.

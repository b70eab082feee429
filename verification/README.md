# Word association game: prompt state machine and flag log

A Dafny model of the two pieces of sequential logic in the word/improv
prompt generator:

- the browser client (`script.js`): the state `(currentMode, wordHistory)`,
  the mode selector's change handler, the Space-key handler, the
  `generateContent` dispatch over game modes "1".."7", random picks from
  content pools with the `"???"` fallback, the mode-"6" word stream that
  keeps the five newest words newest-first, and the faded item list that
  `renderHistory` draws from that buffer;
- the server (`server.js`): `GET /api/flags`, which lists the stored
  flags, and `POST /api/flags`, which appends a flag unless one with the
  same `content` is stored already and replies with the count.

Files:

- `pick.dfy` (module `Pick`): content pools, `Math.random()` values as
  explicit `Roll`s in [0, 1), the index `floor(roll * n)`, `getRandom`.
- `history.dfy` (module `WordHistory`): `updateHistory` (`Push`), pushing
  many words (`Feed`), `renderHistory` (`Render`) with opacity and font
  size in integer tenths.
- `game.dfy` (module `Game`): the game state, `generateContent`, the two
  event handlers, whole sessions (`Run`) and the state invariant `Valid`.
- `flags.dfy` (module `FlagLog`): JSON values, flags, the append-if-new
  rule, and the two HTTP handlers with file I/O outcomes as parameters.

Randomness, the DOM and the file system are not executed: each
`Math.random()` call is a `Roll` argument, the page is reduced to the
last thing a handler drew on it (`Screen`), and each file read or write is
represented by its outcome (`ReadResult`, `writeOk`).

Behaviour of the code that the model keeps:

- Every mode change empties the word buffer, including a change to mode
  "6" (script.js:103).
- A mode outside "1".."7" still clears the display, because the clearing
  happens before the `switch` (script.js:17); it draws nothing and leaves
  the buffer alone, because the `switch` has no default case.
- Duplicate detection compares the `JSON.stringify` renderings of
  `content` (server.js:48). The model compares parsed JSON values
  (`FlagLog.Content`) by equality. A parsed value holds only safe
  integers (at most 2^53 - 1 in magnitude), has no repeated member names,
  and lists its members in the order JavaScript enumerates them: keys that
  are array indices first, in ascending order, then the other keys.
  `JSON.stringify` renders two such values to the same text exactly when
  they are equal, so this equality is the comparison the server makes.

## Model

| member | source | states |
|---|---|---|
| Pick.GetRandom | script.js:10-13 | an empty or undefined pool yields `"???"`; otherwise the result is an element of the pool |
| Pick.Index | script.js:12 | `Math.floor(r * n)` for r in [0, 1) is a valid index i < n with i <= r*n < i+1 |
| Pick.IndexInterval | script.js:12 | a roll selects index i exactly when it lies in [i/n, (i+1)/n), so every index gets a slice of equal width |
| Pick.EveryItemDrawable | script.js:12 | every item of a non-empty pool is returned for some roll, so the picks are exactly the pool's items |
| WordHistory.Push | script.js:70-74 | the new word is at index 0, the rest is a prefix of the old buffer (oldest evicted), the length grows by one only below the cap of 5, and for a buffer within the cap the result is `[w] + old[..min(|old|, 4)]` |
| WordHistory.FeedWithinCap | script.js:73 | from a buffer within the cap, any number of pushes keeps it within the cap |
| WordHistory.FeedKeepsNewest | script.js:72-73 | after pushing words, the buffer is the pushed words newest first followed by the old buffer, cut at 5 entries |
| WordHistory.StreamFromEmpty | script.js:72-73 | from an empty buffer, the buffer is the last min(n, 5) generated words, newest first |
| WordHistory.SixWords | script.js:72-73 | generating W1..W6 gives `[W6, W5, W4, W3, W2]` |
| WordHistory.Render | script.js:76-98 | one item per buffer entry in buffer order; only index 0 is `current`; item i >= 1 is `past` with opacity 6-i tenths and font size 25-3i tenths of a rem |
| WordHistory.FadeStaysPositive | script.js:89-91 | within the cap every older item has opacity and font size above zero, and both strictly decrease with age |
| Game.Generate | script.js:16-67 | generation never changes the mode; modes 1-5 and 7 show one or two picks from the mode's pools and empty the buffer; mode 6 puts a pick from the word pool in front of the buffer, evicting beyond 5, and shows the buffer; any other mode shows nothing and keeps the buffer |
| Game.SelectMode | script.js:101-105 | a mode change sets the mode to the selected value, empties the buffer and shows the "Press Spacebar" notice |
| Game.Step | script.js:100-111 | each event keeps the invariant (buffer within 5, non-empty only in mode 6, a word-stream display shows the buffer); only a mode change changes the mode; keys other than Space change nothing |
| Game.Run | script.js:100-111 | any sequence of events from a valid state ends in a valid state |
| Game.StartIsValid | script.js:1-3 | the initial state (mode "1", empty buffer) satisfies the invariant |
| Game.ReachableWithinCap | script.js:70-74 | in every state reachable from page load the buffer holds at most 5 words |
| Game.NonStreamClears | script.js:46-55 | a generation in modes 1-5 or 7 leaves the buffer empty and shows lines |
| Game.TopicsMayRepeat | script.js:32-34 | the two topic picks of mode 5 are independent: the same roll gives the same topic twice |
| Game.Drawn | script.js:71 | each Space press in mode 6 draws one pick from the word pool |
| Game.StreamRun | script.js:35-38 | Space presses in mode 6 push the drawn words into the buffer in order, keep the mode at 6, and after at least one press show the buffer |
| Game.SwitchThenStream | script.js:100-111 | switching to mode 6 and pressing Space n times leaves the last min(n, 5) drawn words in the buffer, newest first, and for n >= 1 shows exactly that buffer |
| FlagLog.IndexKeysComeFirst | server.js:48 | a member list in text order with a non-index key before an index key is not a parsed value; the same members with the index key first are |
| FlagLog.Load | server.js:45 | an empty stored file is read as the empty list; otherwise the stored array is used as is |
| FlagLog.HasContent | server.js:48 | true exactly when some stored item's content equals the candidate content |
| FlagLog.Append | server.js:47-61 | the outcome is "duplicate" exactly when a stored item has the same content; a new flag gives `old + [flag]` and count `|old|+1`, a duplicate leaves the list unchanged with count `|old|` |
| FlagLog.AppendIdempotent | server.js:48-51 | appending the same flag twice gives the same list as appending it once, and the second append reports a duplicate |
| FlagLog.OnlyContentMatters | server.js:48 | candidates with equal content get the same outcome and count whatever their timestamp and mode |
| FlagLog.AppendOnlyExtends | server.js:51 | stored items keep their order and values; at most the candidate itself is added, at the end |
| FlagLog.AppendKeepsUnique | server.js:48-51 | if no two stored items share content before an append, none do after it |
| FlagLog.List | server.js:25-33 | a failed read gives a 500 error; otherwise the stored list (empty file as empty list) is returned verbatim |
| FlagLog.Post | server.js:36-63 | a failed read gives a 500 and no write; a duplicate writes nothing and replies "Already flagged" with the stored count; a new flag writes the whole list with it appended and replies with the new count, or a 500 when the write fails |
| FlagLog.TwoPostsThenList | server.js:25-63 | two successful posts with different contents to an empty store are then listed as exactly those two items, in order |

## Left out

- DOM work (`innerHTML`, element creation, CSS classes beyond the
  current/past tag, `animationDelay` staggering, the history container):
  the model keeps only the list of lines or items a handler draws.
- The initial page markup and the instruction markup's styling: the
  initial screen is an opaque `Markup` value.
- `Math.random()` as a source of randomness: each call is an explicit
  `Roll` argument in [0, 1).
- Pick.Index: computed on exact reals, not IEEE doubles; the rounding of
  `Math.random() * arr.length` in floating point is not modelled.
- WordHistory.Render: opacity and font size are exact integer tenths;
  the floating-point values `0.6 - index * 0.1` and `2.5 - index * 0.3`
  and their rendering into CSS strings are not modelled.
- The content pools (`CHARACTERS`, `SITUATIONS`, `ADJECTIVES`,
  `ALL_WORDS`, `TOPICS`, `SAYINGS`) are defined outside the client script
  and are parameters here.
- Key events other than their `code`; keyboard repeat and focus.
- Express routing, CORS, static file serving, the port, and the creation
  of the data directory and an empty flags file at start-up: plumbing.
- File reads and writes: their outcomes are parameters; the state of the
  file after a failed write is not modelled (`Persist` describes only a
  successful write).
- `JSON.parse` of malformed or non-array file contents, and request
  bodies that are not flag objects (missing or `undefined` content):
  the model takes a parsed array of flags and a well-formed flag.
- JSON numbers are safe integers; fractional numbers and their
  `JSON.stringify` rendering are not modelled.
- The read-modify-write race between concurrent POST requests: the model
  is sequential.
- `JSON.parse` turning request text into a value: the reordering of
  members, last-wins handling of repeated names and rounding of large
  numbers to doubles happen before the model starts. Flag contents are
  taken as already parsed, so two request texts that parse to the same
  value are one `Content`.
- `JSON.stringify` itself: the model does not render values to text; the
  equality of parsed values stands in for the equality of their renderings.

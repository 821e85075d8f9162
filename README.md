# Hidden-picture quiz game: tile assembly and tile state machine

This project models the core of a picture-reveal quiz game in Dafny. A grid of quiz tiles
covers a picture. Teams open tiles, answer the tile's quiz, and reveal the picture piece by
piece. The model covers two parts:

- **The play store** (`src/store/usePlay.ts`). When a game starts, the store builds the tile
  list from the quiz pool and the game record. It filters by subject (the subject `"랜덤"`,
  "random", switches the filter off). It then filters by an inclusive year and difficulty
  window. A loop replicates the list, the list is cut to `sizeX * sizeY`, and the result is
  shuffled. The store also replaces single fields of the game record (`setGameInfo`).
  Files: `interfaces.dfy` (the records), `quiz_assembly.dfy` (the assembly),
  `play_store.dfy` (the store class `Play`).
- **One tile** (`PlayHiddenPictureQuizItem`). A tile's state is four fields: `show`,
  `successModal`, `showFailModal` and `groupName`. A click opens the answer dialog. A submit
  grades a short-answer quiz and opens the success or the fail dialog. Closing the success
  dialog commits the result to the store with four ordered calls. Closing the fail dialog
  only advances the turn. The Enter key closes the open dialogs. The tile also computes a
  star display from the quiz's difficulty. File: `quiz_item.dfy`.

The assembly loop is modelled as written, and it does not do what its bound suggests. Each
pass replaces the list `L` by `L ++ L`. The bound `ceil((quizCount - |L|) / |L|)` is
recomputed before every pass. `QuizAssembly.GuardIff` shows that pass `i` runs exactly when
`(i + 1) * |L| < quizCount`. The number of passes is therefore the least `k` with
`(k + 1) * n * 2^k >= quizCount` (`QuizAssembly.IsStopCount`), where `n` is the size of the
filtered pool. The tile list is exactly `sizeX * sizeY` long only when `n * 2^k` reaches that
count. One matching quiz on a 2 x 2 grid gives two tiles. An empty filtered pool with a
positive count makes the bound `+Infinity`, and the loop never ends.

The store calls the tile makes (`updateQuizListFinished`, `updateGroupListScore`,
`updateGroupListItem`, `updateTurn`) are recorded, in order, in the call log `Store.calls`.
Their effect on the store is not modelled, because their bodies are not part of this model.

Facts about the code that the model keeps:
- The tile list can be shorter than `sizeX * sizeY` (see Findings).
- An empty filtered pool with a positive tile count makes the loop run forever.
- The click handler does not read the game-wide `finished` flag; the flag only styles the
  tile (src/components/play/hidden-picture/PlayHiddenPictureQuizItem.tsx:127-128).
- Nothing in the tile prevents a second `updateQuizListFinished` call; what the store does
  with it is not modelled.

`HiddenPictureQuizItem.WrongAnswerThenRetry` is a client scenario. A wrong answer, then
Enter, leaves the quiz unfinished, and the next click opens the dialog again.

## Model

| member | source | states |
|---|---|---|
| `QuizAssembly.FilterCounts` | src/store/usePlay.ts:57-69 | `filter` keeps every occurrence of an element that passes the test and drops every element that fails it |
| `QuizAssembly.FilterConcat` | src/store/usePlay.ts:57-69 | `filter` distributes over concatenation, so the kept quizzes stay in their original order |
| `QuizAssembly.FilteredConcat` | src/store/usePlay.ts:56-69 | both filters together keep the pool's order: filtering two concatenated parts gives the filtered first part followed by the filtered second part |
| `QuizAssembly.SubjectFilter` | src/store/usePlay.ts:56-60 | for the subject "랜덤" the pool is kept whole; otherwise exactly the quizzes whose subject equals the game's subject are kept, each with its multiplicity |
| `QuizAssembly.RangeFilter` | src/store/usePlay.ts:63-69 | keeps exactly the quizzes with `yearStart <= year <= yearEnd` and `difficultyStart <= difficulty <= difficultyEnd`, bounds included, each with its multiplicity |
| `QuizAssembly.CeilDiv` | src/store/usePlay.ts:76 | `Math.ceil(a / b)` for a positive divisor is the integer `r` with `(r - 1) * b < a <= r * b` |
| `QuizAssembly.GuardIff` | src/store/usePlay.ts:74-78 | with a non-empty list, the re-evaluated loop condition `i < ceil((q - len) / len)` holds exactly when `(i + 1) * len < q` |
| `QuizAssembly.Replicate` | src/store/usePlay.ts:72-81 | the doubling loop returns the filtered pool repeated `2^k` times, where `k` is the least pass count with `(k + 1) * n * 2^k >= q`; no pass runs when `n >= q` |
| `QuizAssembly.EmptyPoolNeverExits` | src/store/usePlay.ts:76 | with an empty filtered pool and a positive count, the list stays empty after every pass and the loop condition still holds, so the loop never ends |
| `QuizAssembly.StopCountUnique` | src/store/usePlay.ts:74-80 | the pass count is unique, so the replicated list depends only on the pool and the count |
| `QuizAssembly.SliceTo` | src/store/usePlay.ts:82 | `slice(0, end)` is a prefix of length `min(end, len)`; a negative end counts from the back |
| `QuizAssembly.TileCount` | src/store/usePlay.ts:72-82 | the tile list is never longer than `q`; it is exactly `q` long iff `n * 2^k >= q`, which holds when `n >= q` or `q <= 2n`; it is never shorter than `min(q, 2n)` |
| `QuizAssembly.TileContents` | src/store/usePlay.ts:73-82 | before the shuffle, tile `i` is filtered quiz `i mod n`; every tile comes from the filtered pool; with `q <= n` the tiles are the first `q` filtered quizzes; with `q >= n` every filtered quiz appears |
| `QuizAssembly.ShortfallExample` | src/store/usePlay.ts:74-82 | one matching quiz on a 2 x 2 grid: the loop makes exactly one pass, and the list holds two tiles, not four |
| `QuizAssembly.Shuffle` | src/store/usePlay.ts:83 | the shuffle returns a permutation of its input, whatever the random draws are |
| `QuizAssembly.AssembleQuizList` | src/store/usePlay.ts:52-83 | the tile list is a permutation of the replicated-then-cut filtered pool, and every tile is in the pool, inside the year/difficulty window and of the game's subject (unless "랜덤") |
| `QuizAssembly.FillToCount` | src/store/usePlay.ts:72-82 | corrected replication: an empty pool with tiles to fill is a `NoMatchingQuizzes` error; otherwise exactly `max(q, 0)` tiles come out, tile `i` being filtered quiz `i mod n` |
| `PlayStore.With` | src/store/usePlay.ts:38-41 | `{ ...gameInfo, [key]: value }` gives the named field the new value and leaves every other field unchanged |
| `PlayStore.GetDeterminesGame` | src/store/usePlay.ts:38-41 | the fields determine the record, so the new record is the only one with that field update |
| `PlayStore.WithOwnValue` | src/store/usePlay.ts:38-41 | writing a field's current value back leaves the record unchanged |
| `PlayStore.Play.constructor` | src/store/usePlay.ts:17-44 | the store starts not started and with no game record (lines 17-18) and with an empty tile list (line 44) |
| `PlayStore.Play.GetGameInfo` | src/store/usePlay.ts:22-34 | an existing game record replaces `gameInfo`; a missing record or a failed read leaves it unchanged |
| `PlayStore.Play.SetGameInfo` | src/store/usePlay.ts:36-43 | only the named field of `gameInfo` changes, to the given value |
| `PlayStore.Play.GetQuizList` | src/store/usePlay.ts:49-95 | on data: `startGame` is set and `quizList` is the assembled list (empty when no game record is loaded); without data the state is unchanged |
| `HiddenPictureQuizItem.SuccessCommitOrder` | src/components/play/hidden-picture/PlayHiddenPictureQuizItem.tsx:86-101 | a correct answer commits in order: the tile is finished, then the score is added to the group, then one key is granted iff the tile bears one, then the turn advances iff turn play is on |
| `HiddenPictureQuizItem.FailCommitsOnlyTurn` | src/components/play/hidden-picture/PlayHiddenPictureQuizItem.tsx:103-109 | a wrong answer commits no finish, no score and no key; it advances the turn iff turn play is on |
| `HiddenPictureQuizItem.StarDisplay` | src/components/play/hidden-picture/PlayHiddenPictureQuizItem.tsx:152-161 | for a difficulty `d >= 0` the display has `full` whole stars and `half <= 1` half stars with `2 * full + half == d`; a negative difficulty makes `Array` throw |
| `HiddenPictureQuizItem.StarDisplayInverse` | src/components/play/hidden-picture/PlayHiddenPictureQuizItem.tsx:152-161 | every display with at most one half star is the display of the difficulty `2 * full + half` |
| `HiddenPictureQuizItem.Store.constructor` | src/components/play/hidden-picture/PlayHiddenPictureQuizItem.tsx:30-39 | the store view a tile reads: the tile list, the game record, the key tiles, the game-wide finished flag, and an empty call log |
| `HiddenPictureQuizItem.QuizItem.constructor` | src/components/play/hidden-picture/PlayHiddenPictureQuizItem.tsx:20-26 | a tile starts with every dialog hidden and an empty group name |
| `HiddenPictureQuizItem.QuizItem.SetShow` | src/components/play/hidden-picture/PlayHiddenPictureQuizItem.tsx:53-57 | when the dialog goes from hidden to shown, the captured group name is reset to "" |
| `HiddenPictureQuizItem.QuizItem.OnClick` | src/components/play/hidden-picture/PlayHiddenPictureQuizItem.tsx:59-63 | the dialog opens iff the tile's quiz is not finished; the game-wide finished flag plays no part |
| `HiddenPictureQuizItem.QuizItem.OnSubmit` | src/components/play/hidden-picture/PlayHiddenPictureQuizItem.tsx:69-84 | the group is recorded and the dialog closes; a short-answer quiz opens the success dialog (reward KEY iff the index is in `keyList`) on an exact match and the fail dialog otherwise; other answer types open neither |
| `HiddenPictureQuizItem.QuizItem.CloseSuccessModal` | src/components/play/hidden-picture/PlayHiddenPictureQuizItem.tsx:86-101 | appends the four ordered success calls to the call log and hides the success dialog; the score committed is the quiz's explicit score, zero included, else the default (`score ?? DEFAULT_SCORE`, line 88) |
| `HiddenPictureQuizItem.QuizItem.CloseFailModal` | src/components/play/hidden-picture/PlayHiddenPictureQuizItem.tsx:103-109 | appends only `updateTurn`, iff turn play is on, and hides the fail dialog |
| `HiddenPictureQuizItem.QuizItem.OnKeyDown` | src/components/play/hidden-picture/PlayHiddenPictureQuizItem.tsx:111-121 | Enter closes each dialog that was shown when the key arrived, success first; any other key changes nothing |

## Findings

| source | as written | input that shows it | evidently intended | confidence | as-written member | corrected member |
|---|---|---|---|---|---|---|
| src/store/usePlay.ts:74-82 | each pass doubles the list and the bound is recomputed, so the loop stops when `(k + 1) * n * 2^k >= q`, possibly before the list covers the grid | one quiz matches the filters, grid 2 x 2: the list has 2 tiles | exactly `sizeX * sizeY` tiles | medium, not executed | `QuizAssembly.ShortfallExample` | `QuizAssembly.FillToCount` |
| src/store/usePlay.ts:76 | with no quiz left after filtering, the bound is `ceil(q / 0) = +Infinity` and the loop never ends | no quiz matches the filters, grid 2 x 2 | stop with a "no matching quizzes" outcome | medium, not executed | `QuizAssembly.EmptyPoolNeverExits` | `QuizAssembly.FillToCount` |

The store class `Play` assembles tiles with the loop as written, so that it matches the
code. `FillToCount` stands beside it as the corrected replication.

## Left out

- The remote reads (`getDatabase`, `ref`, `child`, `get`, promises, `console.log`, `console.error`): a settled read is a parameter, `Some` for an existing record and `None` for a missing record or a failed read.
- The asynchrony of `getQuizList`: the source captures `gameInfo` when the read starts; the model reads it when the data arrives, as one atomic step.
- The order of `Object.values` over the pool snapshot: the pool is given as a sequence in that order.
- `Number(...)` coercion and NaN for non-numeric fields: years, difficulties and sizes are integers.
- Replicate: requires a non-empty filtered pool or a non-positive count, because otherwise the source loop never ends (see `EmptyPoolNeverExits`).
- AssembleQuizList: carries the same requirement as `Replicate`, for the same reason.
- PlayStore.Play.GetQuizList: carries the same requirement as `Replicate` when data and a game record are present.
- PlayStore.Play.SetGameInfo: requires a loaded game record; with none, the source's spread of `null` builds a record holding only the one field, which a full `Game` record cannot express.
- PlayStore.With: requires a value of the field's declared type; the source's `value: any` also accepts mistyped values.
- Shuffle: the random draws of lodash's `shuffle` are the parameter `pick`; uniformity of the distribution is not modelled.
- The 200 ms `setTimeout` in `onSubmit`: the submit is one atomic step.
- The `keydown` listener registration and re-registration: Enter is an input to one tile. In the source every mounted tile's listener receives the key.
- The bodies of `updateQuizListFinished`, `updateGroupListScore`, `updateGroupListItem` and `updateTurn`, and where `keyList` and the game-wide `finished` come from: they are not part of this model, so the tile's calls are logged and their effects are not stated.
- `CONST.DEFAULT_SCORE`: the constants module is not part of this model; the value is a parameter of each tile.
- A tile whose index is outside the tile list: the source would throw on `quizInfo.finished`; tiles require a valid index.
- Rendering: JSX, `SliceImage`, icons, `classNames`, image URLs and the padded index label. Only the star arithmetic is kept.

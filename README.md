# Typing simulator, modelled in Dafny

LanguageTool's `TypingSimulator` is a benchmark. It pretends to be a person
typing documents into the browser add-on, and it times the check requests
such a person would cause on a LanguageTool server. This project models the
core of that benchmark and proves properties of the model:

- **the keystroke state machine of `runOnDoc`** (module `Typing`, file
  `typing.dfy`). The state is a buffer (the `StringBuilder`), a cursor into
  the document, and the time of the last throttled check. Each iteration of
  the loop may make a typo. A typo either appends `'x'` or drops the
  buffer's last character. Then the iteration either takes a backspace or
  types the document's character. A backspace deletes a character, checks
  the buffer and moves the cursor back. Next comes a throttled check, and
  last a pause whose length is re-drawn until it is positive. `Step` is one
  iteration as a function and `Simulate` is the loop. `TypeKey` and
  `TypeDocument` are the same loop written imperatively, and each is proved
  equal to its function.
- **the per-run counters of `checkByPOST`** (module `Stats`, file `stats.dfy`).
  While warm-up lasts, a successful request only counts as skipped. After
  that it is counted and its round-trip time is added to the run's total. A
  failed request changes nothing.
- **the `TypingSimulator` object** (module `Simulator`, file
  `simulator.dfy`). This is a class holding the three counter fields. Its
  methods are `CheckByPost`, `Check` (the same text in mode `textLevelOnly`
  and then in mode `allButTextLevelOnly`), `RunOnDoc` (a pasted document is
  checked once, otherwise the document is typed) and `Run` (three runs, each
  starting from zeroed counters, with the per-run totals sorted at the end).
  The sort of the totals is `SortAscending` (module `Sorting`, file
  `sorting.dfy`).

The model has no randomness, no clock and no network. Each of them is an
input:

- Each loop iteration reads one `Keystroke`. It holds the typo draw, the
  insert-or-drop coin, the backspace draw, the two clock readings of lines
  124 and 127, and the rounded Gaussian draws of the pause.
- Each document gets a `DocDraws`. It holds the copy-paste draw, the
  keystrokes, and the network's answer to the document's k-th request.
  An answer is `Success(runTime)` or `Failure` (an `IOException`).

The supply of draws is finite, but the Java loop has no bound: a backspace
moves the cursor back. So a pass whose draws run out ends with status
`DrawsExhausted`. Nothing in the source corresponds to that status.

Points where the code behaves in a way worth knowing, all modelled as the code does it:

- The backspace guard tests the cursor (`i > 2`), not the length of the
  buffer. Earlier dropped keystrokes can empty the buffer, and line 117 then
  deletes from an empty `StringBuilder`, which throws
  `StringIndexOutOfBoundsException`. Nothing catches it, so the benchmark
  ends. The model gives this case the status `IndexOutOfBounds`.
  `BackspaceOnEmptyBufferThrows` shows an input that reaches it, and
  `NoTyposTypesDocument` shows that it cannot happen without typos.
- A backspace checks the shortened buffer but does not update `lastCheck`.
- The test for the last character (`i == doc.length()-1`) reads the cursor
  after a backspace has moved it back. So an iteration that backspaces never
  counts as the last character.
- With typos and backspaces off, the throttle due at every keystroke and
  every pause drawn, a document of n UTF-16 code units gets n check
  points: the prefixes of length 1 to n. A backspace adds a check point of
  its own. "Hello world" gets
  11: one per character, and none for the empty buffer
  (`CheckEveryKeystroke`). The model counts Dafny characters rather than
  code units, so this holds as stated for text without surrogate pairs (see
  "## Left out").

## Model

| member | source | states |
|---|---|---|
| `Typing.FirstPositive` | languagetool-dev/src/main/java/org/languagetool/dev/simulation/TypingSimulator.java:130-134 | the pause is the first positive draw: it is at least 1, every earlier draw is at most 0, and there is none exactly when no draw is positive |
| `Typing.DrawWait` | languagetool-dev/src/main/java/org/languagetool/dev/simulation/TypingSimulator.java:130-134 | the do/while loop finds a draw exactly when some draw is positive, and then returns the first positive draw (at least 1) |
| `Typing.Typo` | languagetool-dev/src/main/java/org/languagetool/dev/simulation/TypingSimulator.java:109-114 | a typo either appends exactly `'x'` or, only when the buffer is non-empty, removes exactly its last character; there is no other change, and without a typo the buffer is unchanged |
| `Typing.StepSpec` | languagetool-dev/src/main/java/org/languagetool/dev/simulation/TypingSimulator.java:109-139 | one iteration. It throws exactly when it backspaces and the typo left the buffer empty. A backspace removes exactly one character and emits the shortened buffer, and the next index is i-1, which is at least 2. Otherwise the document's character is appended and the next index is i+1. A throttled check of the new buffer is emitted, with `lastCheck` set to the second clock reading, exactly when the clock moved on by more than 10 ms or the last character was typed. Otherwise `lastCheck` is kept. A throw emits no check point. The pause is exactly `minWaitMillis` plus the first positive draw, so at least `minWaitMillis + 1` |
| `Typing.MakeTypo` | languagetool-dev/src/main/java/org/languagetool/dev/simulation/TypingSimulator.java:109-114 | the in-place edit of the buffer computes exactly `Typo` |
| `Typing.TypeKey` | languagetool-dev/src/main/java/org/languagetool/dev/simulation/TypingSimulator.java:108-139 | the imperative loop body (buffer edits, `i -= 2`, checks, pause loop) computes exactly `Step` |
| `Typing.TypeDocument` | languagetool-dev/src/main/java/org/languagetool/dev/simulation/TypingSimulator.java:105-140 | the typing loop with its rewinding cursor, from an empty buffer, cursor 0 and `lastCheck` 0, computes exactly `Simulate` |
| `Typing.SimulateBounds` | languagetool-dev/src/main/java/org/languagetool/dev/simulation/TypingSimulator.java:107-139 | every pause of a pass is at least `minWaitMillis + 1`; a pass makes at most one pause and at most two check points per keystroke |
| `Typing.NoTypoStep` | languagetool-dev/src/main/java/org/languagetool/dev/simulation/TypingSimulator.java:109-128 | without a typo, a buffer equal to `doc[0..i)` at the head of an iteration stays equal to `doc[0..i')` for the next index i', the iteration cannot throw, and what it emits are prefixes of the document |
| `Typing.NoTyposTypesDocument` | languagetool-dev/src/main/java/org/languagetool/dev/simulation/TypingSimulator.java:107-128 | with typos off, a pass never throws, every check point is a prefix of the document, and a completed pass over a non-empty document ends with a check point equal to the whole document |
| `Typing.CheckEveryKeystroke` | languagetool-dev/src/main/java/org/languagetool/dev/simulation/TypingSimulator.java:107-128 | with typos and backspaces off and the clock always past the throttle interval, a pass completes and its check points are exactly the document's prefixes of length 1, 2, …, n |
| `Typing.BackspaceOnEmptyBufferThrows` | languagetool-dev/src/main/java/org/languagetool/dev/simulation/TypingSimulator.java:109-119 | three dropped keystrokes on "abcd" followed by a backspace at index 3 reach the deletion from an empty buffer |
| `Stats.Record` | languagetool-dev/src/main/java/org/languagetool/dev/simulation/TypingSimulator.java:179-190 | a failed request changes no counter. During warm-up a successful request only increments `totalChecksSkipped`. After warm-up it increments `totalChecks` and adds its `runTime` to `totalTime` |
| `Stats.Tally` | languagetool-dev/src/main/java/org/languagetool/dev/simulation/TypingSimulator.java:179-190 | over any sequence of requests, each success is counted exactly once, as skipped or as checked; `totalChecksSkipped` never decreases and never passes `warmUpChecks` |
| `Stats.TallyClosedForm` | languagetool-dev/src/main/java/org/languagetool/dev/simulation/TypingSimulator.java:179-185 | the counters after any requests equal a closed form. The first successes fill what is left of the warm-up. Exactly the remaining successes are counted, and `totalTime` grows by the sum of their times |
| `Stats.WarmUpExcluded` | languagetool-dev/src/main/java/org/languagetool/dev/simulation/TypingSimulator.java:179-185 | from zeroed counters, the first 20 successful requests never reach `totalTime`/`totalChecks`, and the 21st and later all do |
| `Stats.FailureIgnored` | languagetool-dev/src/main/java/org/languagetool/dev/simulation/TypingSimulator.java:186-190 | a failed request leaves the counters exactly as if it had not been sent, so the requests after it are counted as before |
| `Sorting.Insert` | languagetool-dev/src/main/java/org/languagetool/dev/simulation/TypingSimulator.java:90 | inserting into an ascending list gives an ascending list holding the old values plus the new one |
| `Sorting.SortAscending` | languagetool-dev/src/main/java/org/languagetool/dev/simulation/TypingSimulator.java:90 | the sorted totals are ascending and a permutation (same multiset) of the unsorted ones |
| `Simulator.RequestsAt` | languagetool-dev/src/main/java/org/languagetool/dev/simulation/TypingSimulator.java:145-148 | the j-th check point sends requests 2j and 2j+1, both with its text, in mode `textLevelOnly` then `allButTextLevelOnly` |
| `Simulator.CopyPasteChecksWholeDocument` | languagetool-dev/src/main/java/org/languagetool/dev/simulation/TypingSimulator.java:102-103 | a pasted document has exactly one check point, the whole document unmodified, and sends it in both modes |
| `Simulator.PassTally` | languagetool-dev/src/main/java/org/languagetool/dev/simulation/TypingSimulator.java:80-85 | the counters at the end of a run are the bookkeeping of all answers the run got, across its documents, from the counters it started with |
| `Simulator.TypingSimulator.constructor` | languagetool-dev/src/main/java/org/languagetool/dev/simulation/TypingSimulator.java:56-58 | the three counters start at 0 |
| `Simulator.TypingSimulator.CheckByPost` | languagetool-dev/src/main/java/org/languagetool/dev/simulation/TypingSimulator.java:154-191 | sends one request with the given text and mode, and the counters move as `Record` says |
| `Simulator.TypingSimulator.Check` | languagetool-dev/src/main/java/org/languagetool/dev/simulation/TypingSimulator.java:145-152 | sends exactly the two requests for the text, `textLevelOnly` first, and books both answers in that order |
| `Simulator.TypingSimulator.CheckAll` | languagetool-dev/src/main/java/org/languagetool/dev/simulation/TypingSimulator.java:117-127 | every check point of a pass is checked in order, and the counters book the answers to the pass's requests in order |
| `Simulator.TypingSimulator.RunOnDoc` | languagetool-dev/src/main/java/org/languagetool/dev/simulation/TypingSimulator.java:101-143 | the check points are the pasted document or the typing loop's, the requests are two per check point, and the counters book the document's answers |
| `Simulator.TypingSimulator.RunOverDocs` | languagetool-dev/src/main/java/org/languagetool/dev/simulation/TypingSimulator.java:83-85 | runs the documents in order on shared counters, and stops at a pass that throws |
| `Simulator.TypingSimulator.Run` | languagetool-dev/src/main/java/org/languagetool/dev/simulation/TypingSimulator.java:73-91 | it completes exactly when the pass of every one of the three runs, each from zeroed counters (`Results`), completes; when one does not, it ends with the status of the first run that did not complete and returns no totals. When all complete, it returns exactly `maxRuns` (3) totals, ascending, a permutation of the per-run totals in run order. The counters are those of the last run |

## Left out

- HTTP: `checkAtUrlByPost`, the URL, the `http.keepAlive` toggle and its restore, writing the body and reading the response. These are network I/O. The network's answer to each request is an input.
- The POST body built with `URLEncoder.encode` and the fixed auxiliary parameters. This is a library call with an opaque payload. A request is modelled as its text and mode.
- `java.util.Random`, `nextFloat`, `nextBoolean`, `nextGaussian` and `Math.round`. Each draw is an input, already compared with its probability or already rounded.
- `System.currentTimeMillis()`. Each clock reading is an input, and a request's measured time is part of its answer.
- `Thread.sleep` and the `InterruptedException` handler. A pause is recorded as a number in the trace and has no other effect.
- The per-run average `(float) totalTime / (float) totalChecks` and the sort of `avgTimes`. This is floating-point division, which gives NaN when no check was counted.
- Console output, the date, the CSV line, the argument check, the `avgWaitMillis < 2` check and reading the input file in `main`. These are formatting and I/O.
- UTF-16 code units. A document and the buffer are sequences of Dafny characters (Unicode scalar values), while `doc.length()`, `doc.charAt(i)` and the `StringBuilder` edits work on UTF-16 code units. In the source a character outside the Basic Multilingual Plane takes two iterations, and a check point, a dropped keystroke or a backspace can fall between its two halves and send a lone surrogate. The model takes one iteration per such character. It is exact only for text within the Basic Multilingual Plane.
- 64-bit `long` wrap-around of `totalTime`. The counters are unbounded integers.
- Simulator.TypingSimulator.RunOnDoc: the typing pass is computed first, and its check points are then sent in order. In the source each check is sent while typing. The requests, their order and the counters come out the same, because sending reads and writes nothing of the typing state. Only the real-time interleaving of typing and requests is lost.
- Simulator.TypingSimulator.Run: a run that throws ends the benchmark. The model then returns no totals and the status of that first failing run, where the source propagates the exception.
- `check` rethrows an `IOException` as a `RuntimeException`. `checkByPOST` catches the `IOException` of the request itself. The only code outside its `try` that could throw is encoding with the always-supported UTF-8 and parsing a constant, well-formed URL. So this path cannot be reached and is not modelled.

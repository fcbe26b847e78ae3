# Formualizer bindings and tooling, modelled and proved

Formualizer is a spreadsheet engine with bindings for Python, WebAssembly and C. This project models
the code around the engine that has hard promises of its own, and proves those promises for all inputs,
all runs and all interleavings. `dafny verify dfyconfig.toml` checks everything.

| file | models |
|---|---|
| `Utf8`, `WasmImports`, `WasmGrammar`, `WasmStrict` | the reader of WebAssembly import sections, against an encoder written from the WebAssembly Core Specification 2.0 (sections 5.2.2, 5.2.4, 5.3.7, 5.5.2, 5.5.5, 5.5.16) |
| `Columns`, `Addresses`, `TraceIndex`, `CffiRange` | column letters, sheet-qualified A1 addresses, the address index of trace graphs, the range functions of the C binding |
| `Literals`, `Cells`, `PyWorkbook`, `CacheProtocol`, `StaleRuns`, `OneSpelling` | the Python workbook: the value store in its layers, the compatibility cache, the locks of one workbook as a state machine over threads, and when cache and engine part |
| `Reentrancy`, `Nesting`, `Knots`, `Guard`, `Slips` | the guard against re-entrant callbacks, and nested calls of several workbooks over threads with the interpreter lock, and their deadlocks |
| `CallbackRegistry` | ownership of JavaScript callbacks over registration, clones and drops |
| `FeatureClosure`, `FeaturePolicy` | the feature closure and the feature policy of the release preflight |
| `Calibration`, `Statistics`, `PlanTasks`, `Parity` | the benchmark fixture and its oracle, timing statistics, plan resolution, workbook comparison |
| `AstWalk` | the visitor over formula trees and the two reference collectors |
| `BlockBounds` | the bounds checks in front of block writes |

Code that works by updating variables or fields is a method or a class with the same loops and fields,
proved against a function; the promises are then lemmas about the function. `Options` holds the option
and result types.

## What the proofs found

Where a promise does not hold for all inputs, the code is modelled as it is, and the exact condition is
proved.

- The WebAssembly reader accepts files that the format does not have: files cut off inside a skipped section
  or behind a last global import, numbers longer or larger than a u32, an import section with a wrong size,
  tags and unknown types, sections out of order, and anything behind the import section. `ImportsOfIff` gives
  the exact set, and `GapIff` says exactly which of these files belong to the specification.
- `CellRef::new` with a letter column adds letter values up instead of evaluating base 26. It is right for
  columns A to Z and wrong for every later one (`CellRefColumnIff`).
- The cache is kept under the caller's spelling of a sheet, while the engine's graph ignores case and publishes
  under the spelling registered first. For any two spellings of a sheet: a logged value under the second shows
  where the cache still answers for the first (`OtherSpellingGoesStale`), and in every workbook, logged or not,
  so does the result of a formula set under the second, from the next evaluation on (`EvaluationGoesStale`).
- A result does not show where a typed value covers it, so a formula that interactive mode stages under the
  second spelling does no harm at first (`MaskedResultIsHarmless`). But the engine moves typed values beneath
  results when it compacts a column: a value set in the next row, under the first spelling, then puts the
  result in sight (`CompactionGoesStale`).
- A batch that fails leaves the writes before the failure in the engine and skips the cache (`FailedBatchIff`).
  After a formula the engine may go on showing the old value from its base until an evaluation
  (`FailedBatchGoesStale`).
- Of the modelled steps nothing else makes the cache stale: `StepKeepsInv` gives the condition of each step,
  in both directions, from the layers of the store. Callers that spell each sheet in one way and have no
  batch fail behind a cached cell are always safe, whatever they evaluate and whenever the engine compacts
  (`OneSpellingIsSafe`).
- The cache hands out values as they were set, while the engine hands out what its store kept: integers as
  floats, arrays as an error, errors without message and context, times and durations without fractions of a
  second, dates before the epoch, long durations and everything temporal under the serial policy as numbers.
  `CachedReadIff` gives the exact test; it depends on the number format in force, which a formula of another
  spelling can derive for the cell.
- An ordinary call keeps the interpreter lock (GIL) while it waits for the workbook lock, and an evaluation keeps
  the workbook lock while a callback waits for the GIL: they stop each other for good. For one workbook whose
  callbacks only read, the cache lock included, it is the only deadlock (`DeadlockIff`), and it is reachable
  (`WedgeIsReachable`, `OrdinaryCallSlipsPast`).
- Over several workbooks, detached evaluations, callbacks on any threads and the GIL, everyone can still come
  through exactly when no set of locks, the GIL among them, is knotted (`CanFinishIff`), and a single thread
  exactly when neither the GIL nor a lock that it stands on or wants is in a knot (`ComesThroughIff`).
- The comment in bindings/python/src/workbook.rs:50-57 says that a re-entrant call necessarily happens on the
  thread of the callback. The guard lets calls through that wait, at some remove, for something they keep
  themselves: an evaluation on their thread or the GIL (`GuardIsCompleteIff`). Among them are a nested evaluation
  on a second worker (`SecondWorkerSlipsPast`), two threads in each other's workbooks (`CrossedCallsSlipPast`),
  and any ordinary call to a workbook with a callback out on another thread (`OrdinaryCallSlipsPast`).
- Registering a name that is taken fails in the engine, so the branch that frees a replaced callback is
  never taken (`NothingToReplace`). Ids stay distinct as long as the counter does not wrap into a live id
  (`RegisterIff`).
- `analytical_terminal` casts the exponent to i32. From 2^31 + 1 formulas on the exponent is negative and
  the oracle wrong, unless the seed is the fixed point (`TerminalIff`).
- The C range parser splits at the first `!`, so a sheet name that holds one does not come back
  (`RangeRoundTrip`).
- The two ways to measure a block differ on trailing empty rows (`FormulaIff`, `TrailingRowRefused`).

## Model

| member | source | states |
|---|---|---|
| `WasmImports.ReadU32Leb` | scripts/check-wasm-artifact-imports.py:26-35 | The LEB128 loop, with its value and shift, computes the recursive reading of the number: low group plus 128 times the rest, or an index error |
| `WasmGrammar.LebAtIff` | scripts/check-wasm-artifact-imports.py:26-35 | The number reader returns `value` and stops at `next` if and only if the bytes between are a LEB128 form of `value`, zero-padded ones included |
| `Utf8.DecodeIff` | scripts/check-wasm-artifact-imports.py:38-42 | The strict UTF-8 decoding of names: bytes decode to a text exactly when they are its encoding |
| `WasmImports.ReadName` | scripts/check-wasm-artifact-imports.py:38-42 | The name reader: length, clamped slice, decoding, and the cursor moved by the stated length |
| `WasmGrammar.ReadsName` | scripts/check-wasm-artifact-imports.py:38-42 | Reading back an encoded name gives its text and consumes exactly its encoding |
| `WasmImports.SkipLimits` | scripts/check-wasm-artifact-imports.py:45-50 | Limits: flags, minimum, and a maximum exactly when the lowest flag bit is set |
| `WasmGrammar.ReadsLimits` | scripts/check-wasm-artifact-imports.py:45-50 | Skipping encoded limits consumes exactly their encoding |
| `WasmImports.SkipImportDesc` | scripts/check-wasm-artifact-imports.py:53-69 | The five descriptor kinds, and the error for any other |
| `WasmGrammar.ReadsDesc` | scripts/check-wasm-artifact-imports.py:53-69 | Skipping an encoded descriptor of any of the five kinds consumes exactly its encoding |
| `WasmImports.ReadImports` | scripts/check-wasm-artifact-imports.py:89-97 | The loop over the entries returns all of them in order, or the first error |
| `WasmGrammar.ReadsImports` | scripts/check-wasm-artifact-imports.py:89-97 | An encoded import list reads back as its (module, field, kind) entries in order |
| `WasmImports.IterImports` | scripts/check-wasm-artifact-imports.py:72-99 | The section loop terminates, stops at the first import section, and skips every other section by its stated size |
| `WasmGrammar.ReadsWellFormed` | scripts/check-wasm-artifact-imports.py:72-99 | Round trip: for every module that is not cut, whatever follows its import section and whatever size that section states, `iter_imports` returns exactly its imports, or none without an import section |
| `WasmGrammar.ImportsOfIff` | scripts/check-wasm-artifact-imports.py:72-99 | The exact language of the reader: it returns `entries` if and only if the bytes encode an accepted module with those imports, and raises otherwise |
| `WasmGrammar.CutFileAccepted` | scripts/check-wasm-artifact-imports.py:72-99 | The reader accepts a file cut off inside a skipped section, which is the encoding of no whole module |
| `WasmStrict.AcceptedUnique` | scripts/check-wasm-artifact-imports.py:72-99 | A file that the reader accepts has one structure only |
| `WasmStrict.GapIff` | scripts/check-wasm-artifact-imports.py:72-99 | An accepted file is one of the WebAssembly Core Specification 2.0, as far as framing and imports go, if and only if its structure is nowhere cut, its numbers are u32 in at most five bytes, the import section has its stated size, types are known ones, and sections are in order |
| `WasmStrict.ReadsStrictFiles` | scripts/check-wasm-artifact-imports.py:72-99 | The reader reads every such file |
| `WasmStrict.LongSizeAccepted` | scripts/check-wasm-artifact-imports.py:26-35 | A section size in six bytes is accepted |
| `WasmStrict.WrongSizeAccepted` | scripts/check-wasm-artifact-imports.py:81-97 | An import section with a wrong size is accepted |
| `Columns.NumberToColumn` | bindings/python/src/reference.rs:336-344 | The loop computes the bijective base-26 letters of the column |
| `Columns.ColToLetters` | bindings/wasm/src/reference.rs:152-166 | The WebAssembly loop computes the same letters for every column from 1 on |
| `Columns.ColumnToLetters` | crates/formualizer-common/src/coord.rs:404-417 | So does the common crate's loop, on 0-based columns and pushing letters in reverse |
| `Columns.UnboundedColumnLetters` | crates/formualizer-common/src/grid_address.rs:41-49 | And so does the unbounded printer of the address types |
| `Columns.LettersBijection` | bindings/python/src/reference.rs:336-344 | Columns from 1 on and non-empty A-Z strings correspond one to one, with base-26 evaluation as the inverse |
| `Columns.LettersOrder` | bindings/python/src/reference.rs:336-344 | The correspondence keeps the order: shorter strings first, then alphabetical |
| `Columns.LettersToColumnIndex` | crates/formualizer-common/src/coord.rs:419-437 | The reader with its checked u32 steps is base-26 evaluation after upper-casing; it refuses non-letters and overflow, and nothing else |
| `Columns.ColumnRoundTrip` | crates/formualizer-common/src/coord.rs:440-461 | Printed letters read back exactly for the columns of the grid, and are refused beyond it |
| `Columns.CellRefColumnIff` | bindings/python/src/reference.rs:47-66 | `CellRef::new` adds letter values up, so it undoes `str_col` if and only if the column has one letter, that is up to column 26 |
| `Addresses.SplitSheet` | bindings/python/src/inspect.rs:67-104 | The quote-state loop computes the scan: last `!` outside quotes, doubled apostrophes passed over, and the three errors |
| `Addresses.UndoubledDoubled` | crates/formualizer-common/src/address.rs:13-21 | Replacing doubled apostrophes undoes doubling them, for every text |
| `Addresses.ScanQuoted` | bindings/python/src/inspect.rs:67-104 | Inside quotes the scanner runs over any doubled name, with `!` and apostrophes at either end, and closes exactly behind it |
| `Addresses.SplitOfText` | bindings/python/src/inspect.rs:67-104 | Splitting a printed sheet name, quoted or not, followed by `!` and a plain reference gives both back |
| `Addresses.EndpointRoundTrip` | bindings/python/src/inspect.rs:106-140 | Printed letters and digits, either of them possibly absent, parse back to the same row and column |
| `Addresses.CellRoundTrip` | bindings/python/src/inspect.rs:142-154 | Printing a cell and parsing the text gives the cell back if and only if it is in the grid and names its sheet |
| `Addresses.CellTextInjective` | bindings/python/src/inspect.rs:142-154 | Two in-grid cells have the same label only if they are the same cell |
| `Addresses.AreaRoundTrip` | bindings/python/src/inspect.rs:40-65 | Printing an area and parsing the text gives it back if and only if it is valid, names its sheet, and has both column bounds or neither; rows may be open on one side |
| `Addresses.RangeTextIsAreaText` | bindings/python/src/inspect.rs:27-38 | A finite range printed by `range_text` parses to the area with the same four bounds |
| `TraceIndex.GetItemIff` | bindings/python/src/inspect.rs:1336-1348 | Looking up any text finds node `i` if and only if the text parses to the cell of node `i` and of no later node; it is a key error if and only if it parses to no node's cell; `in` agrees |
| `TraceIndex.KeysAreFound` | bindings/python/src/inspect.rs:1048-1072 | Every key of the address index is found, at a node with that cell, and at its own node when cells are distinct |
| `TraceIndex.CollectLast` | bindings/python/src/inspect.rs:1048-1072 | The index maps each address to the last node that has it |
| `CffiRange.ParseA1OfLabel` | crates/formualizer-common/src/coord.rs:464-536 | The A1 component parser reads back a printed cell label |
| `CffiRange.RangeRoundTrip` | crates/formualizer-cffi/src/lib.rs:300-375 | The C formatter accepts exactly the ordered in-grid ranges, and the C parser returns the same range from its text if and only if the sheet has no `!`; single cells and the empty sheet included |
| `Literals.KindRoundTrip` | crates/formualizer-eval/src/arrow_store/mod.rs:1107-1143 | Every error kind survives its one-byte code |
| `Literals.DateRoundTripIff` | crates/formualizer-common/src/date_serial.rs:33-45 | A date's serial reads back as the date, and is a valid serial if and only if the date lies between the system's epoch and 9999-12-31 |
| `Literals.DateTimeRoundTripIff` | crates/formualizer-common/src/date_serial.rs:51-62 | A date and time reads back with whole seconds if and only if its date does; otherwise not at all |
| `Literals.DurationRead` | crates/formualizer-eval/src/engine/eval.rs:13084-13126 | A stored duration reads back in whole seconds as long as its nanoseconds fit in 64 bits, and as a number beyond |
| `Literals.SurvivesIff` | crates/formualizer-eval/src/engine/eval.rs:13146-13156 | For every literal, number format, date system and egress policy: what Python receives from the store is what it would receive of the literal itself if and only if a test of the literal and the format says so (no integer, no array, no error message or context; a number only where the format leaves it one; temporal values only natively, under their own format, in whole seconds and in range) |
| `Literals.IntegerBecomesFloat` | crates/formualizer-eval/src/engine/eval.rs:13076-13082 | Set as 5, read back as 5.0 |
| `Literals.ArrayBecomesError` | crates/formualizer-eval/src/arrow_store/mod.rs:1198-1200 | An array is stored as #VALUE! |
| `Literals.ErrorLosesItsMessage` | crates/formualizer-eval/src/arrow_store/mod.rs:1286-1288 | An error with a message comes back without it |
| `Literals.ErrorLosesItsContext` | crates/formualizer-eval/src/arrow_store/mod.rs:1286-1288 | An error with a position comes back without it |
| `Literals.DurationLosesItsFraction` | crates/formualizer-eval/src/arrow_store/mod.rs:1196-1196 | A duration of 1.5 seconds comes back as 1 second |
| `Literals.TimeLosesItsFraction` | crates/formualizer-common/src/date_serial.rs:59-62 | So do times and date times lose their microseconds |
| `Literals.EarlyDateBecomesSerial` | crates/formualizer-common/src/date_serial.rs:350-353 | A date before the epoch comes back as a negative number |
| `Literals.DateUnderSerialPolicy` | crates/formualizer-eval/src/engine/eval.rs:13091-13093 | Under the serial policy a date comes back as a number |
| `Cells.CallShows` | crates/formualizer-eval/src/engine/eval.rs:11213-11279 | What shows at a place after a call of values or of formulas, told from the layers before it: the last value given to it under its own or the registered spelling; under a formula, or where a compaction in its column moves a typed value away, the result or base value beneath; else what showed before |
| `Cells.ReadAfterWrite` | crates/formualizer-eval/src/engine/eval.rs:13126-13156 | Right after a value is set a read shows it with its own number format, or with none where the log left only the plain copy under the caller's spelling |
| `Cells.UncachedWritesIff` | crates/formualizer-workbook/src/workbook.rs:2653-2667 | Writes that reach the engine but not the cache keep the two coherent if and only if what they leave to show is, wherever the cache has a value, that value |
| `Cells.FailedFormulaBatch` | crates/formualizer-workbook/src/workbook.rs:2653-2667 | For formulas: if and only if, beneath every place they reach, there lies what the cache has for it |
| `Cells.CachedWritesIff` | bindings/python/src/workbook.rs:800-860 | A call under one spelling that updates both leaves them coherent if and only if it overtakes no cached value of a cell that it does not name |
| `Cells.WhoIsOvertaken` | crates/formualizer-workbook/src/workbook.rs:2149-2198 | Only two things overtake a value: a logged edit under another spelling of its sheet, and a compaction that uncovers a result beneath it |
| `Cells.WritesKeepCoherent` | bindings/python/src/workbook.rs:800-860 | A call under the spelling that its edits have in the store keeps every cached value in sight, unless it compacts a cached cell with a result beneath |
| `Cells.EvaluationIff` | crates/formualizer-eval/src/engine/eval.rs:11917-11968 | An evaluation, whatever staged formulas it builds and whatever comes out, keeps the cache right if and only if it publishes no other value at a formula's place where the cache has one and nothing typed covers it |
| `Cells.CachedReadIff` | bindings/python/src/workbook.rs:1062-1084 | A cached read gives Python what a direct read under the same spelling would if and only if the cached value survives the store with the number format in force at the cell |
| `PyWorkbook.Workbook.constructor` | bindings/python/src/workbook.rs:1498-1504 | A new workbook has nothing cached |
| `PyWorkbook.Workbook.SetCell` | bindings/python/src/workbook.rs:800-860 | One cell set: engine and cache both take the write, or neither does and the error says why; cache and engine are coherent afterwards if and only if no cached value is overtaken |
| `PyWorkbook.Workbook.SetBatch` | bindings/python/src/workbook.rs:1183-1276 | The nested loops cache exactly the cells the engine wrote, offset from the anchor; a failed call leaves the cache alone and the taken prefix in the engine; and in each case exactly when cache and engine stay coherent |
| `PyWorkbook.Workbook.UndoOrRedo` | bindings/python/src/workbook.rs:1155-1180 | Undo and redo empty the cache, also when the engine refuses |
| `PyWorkbook.Workbook.GetValue` | bindings/python/src/workbook.rs:1062-1084 | A read is answered from the cache if it holds a value for the cell, else from the engine, and refused for zero coordinates; the same lookup as `get_cell` of the sheet object |
| `CacheProtocol.StepKeepsInv` | bindings/python/src/workbook.rs:1584-1650 | Every step of every thread keeps the locks, the engine and the cache in step if and only if it is none of three harmful kinds, each a test of the state before the step: overtaking a cached value, failing behind writes that leave another value in sight, publishing another result where nothing typed covers it |
| `CacheProtocol.RunKeepsInv` | bindings/python/src/workbook.rs:1584-1650 | Along a run of any steps of any threads in any order the invariant holds all the way if and only if every step is harmless |
| `CacheProtocol.CacheCoherentWhenFree` | bindings/python/src/workbook.rs:1062-1084 | In every harmless interleaving from a fresh workbook, whenever no thread holds the workbook lock for writing the engine shows every cached value |
| `StaleRuns.OtherSpellingGoesStale` | bindings/python/src/workbook.rs:812-824 | For any two spellings of a sheet in a logged workbook: setting A1 to 5 under one and to 6 under the other, both successfully, leaves 5 in the cache where the engine shows 6 |
| `StaleRuns.SpellingsExist` | crates/formualizer-eval/src/engine/sheet_registry.rs:24-52 | `Sheet1` and `sheet1` are two spellings of one sheet |
| `StaleRuns.EvaluationGoesStale` | crates/formualizer-eval/src/engine/eval.rs:12998-13034 | In any workbook, logged or not: setting A1 to 5 and then to a formula under another spelling keeps the cache right, and the next evaluation makes it stale |
| `StaleRuns.MaskedResultIsHarmless` | crates/formualizer-eval/src/engine/eval.rs:9760-9858 | In a logged workbook a formula staged under another spelling is built and evaluated beneath the typed 5: reads and cache still answer 5 |
| `StaleRuns.CompactionGoesStale` | crates/formualizer-eval/src/arrow_store/mod.rs:4758-4780 | Then a value set in the next row under the first spelling compacts the column, and the result shows where the cache answers 5 |
| `StaleRuns.FailedBatchGoesStale` | crates/formualizer-workbook/src/workbook.rs:2673-2767 | In a logged workbook that does not defer: setting a cell to 5 and then a formula batch that fails behind that cell leaves the cache right, and the next evaluation makes it stale |
| `OneSpelling.OneSpellingIsSafe` | bindings/python/src/workbook.rs:1062-1084 | In every interleaving of calls, evaluations, compactions, undos, new sheets and switches of the change log, from callers that spell each sheet in one way and whose batches fail only behind cells without a cached value: whenever no thread holds the workbook lock for writing the engine shows every cached value |
| `OneSpelling.CallKeepsTidy` | bindings/python/src/workbook.rs:800-860 | Under that discipline a call that goes through overtakes nothing and leaves cached values only where there is no formula, no result and no staged text |
| `OneSpelling.EvaluationKeepsTidy` | crates/formualizer-eval/src/engine/eval.rs:9760-9858 | and an evaluation, whatever it builds and whatever comes out, puts nothing else in sight of the cache |
| `CacheProtocol.ReadsAreCommitted` | bindings/python/src/sheet.rs:78-118 | Every read under a lock, cached or direct, answers from what has been committed at that moment, also in the middle of another thread's call |
| `CacheProtocol.CommitsAreWholeCalls` | bindings/python/src/workbook.rs:1584-1650 | Calls do not mix: after any run, harmful or not, the workbook is what whole calls, failed prefixes, undos and evaluations make of it one after the other, and whenever the lock is free the engine is that workbook |
| `CacheProtocol.CacheHolderMoves` | bindings/python/src/workbook.rs:1062-1084 | The cache lock is never held by a thread that is itself waiting |
| `CacheProtocol.CallsGoOn` | bindings/python/src/workbook.rs:1584-1650 | While the workbook is not wedged some call under way can always take a step |
| `CacheProtocol.DeadlockIff` | bindings/python/src/workbook.rs:1594-1630 | For one workbook, evaluations on their own thread and callbacks that only read: no thread can move if and only if a thread with the interpreter lock waits for the workbook lock of an evaluation that waits for the interpreter lock |
| `CacheProtocol.WedgeIsReachable` | bindings/python/src/workbook.rs:882-1007 | That state is reached by one detached evaluation with a callback and one ordinary call beside it |
| `CacheProtocol.FailedBatchIff` | bindings/python/src/workbook.rs:1183-1276 | A batch of values or formulas that fails part way keeps the invariant if and only if what its taken writes leave to show is, wherever the cache has a value, that value |
| `CacheProtocol.CanMoveIff` | bindings/python/src/workbook.rs:1584-1650 | The closed description of when a thread can move agrees with the steps |
| `Reentrancy.ThreadMarker.constructor` | bindings/python/src/workbook.rs:60-62 | A new thread has no callback marked |
| `Reentrancy.ThreadMarker.Enter` | bindings/python/src/workbook.rs:67-71 | Entering a callback pushes its workbook |
| `Reentrancy.ThreadMarker.Leave` | bindings/python/src/workbook.rs:74-83 | Dropping a guard removes the last occurrence of its workbook and nothing else |
| `Reentrancy.ThreadMarker.IsActive` | bindings/python/src/workbook.rs:85-87 | The search finds the workbook if and only if it is in the vector |
| `Reentrancy.ActiveIffRunning` | bindings/python/src/workbook.rs:57-88 | For any nesting and any order of guard drops, a workbook is active if and only if one of its callbacks is still running on the thread |
| `Nesting.RunKeepsInv` | bindings/python/src/workbook.rs:1584-1630 | Over all runs of nested calls, evaluations and callbacks on any threads, with the GIL taken, kept, given up and taken back as the binding does: locks and frames agree, calls nest as they must, and above a callback of a workbook no frame of the same thread wants or holds that workbook's lock |
| `Nesting.MarkersAreVector` | bindings/python/src/workbook.rs:57-88 | In every run the vector that the guard searches is what the thread's guards have pushed and dropped, and holds exactly the workbooks with a callback running there |
| `Knots.KnotPersists` | bindings/python/src/workbook.rs:882-1007 | A set of locks, the GIL possibly among them, each of which waits for the release of one of them stays so whatever anyone does |
| `Knots.CanFinishIff` | bindings/python/src/workbook.rs:882-1007 | Everyone can still come through if and only if there is no such knot |
| `Knots.ComesThroughIff` | bindings/python/src/workbook.rs:882-1007 | A thread can still come through, whatever becomes of the others, if and only if neither the GIL nor any lock that it stands on or wants is in a knot |
| `Guard.RejectionIsJustified` | bindings/python/src/workbook.rs:1584-1591 | A call that the guard rejects would have tied a knot on the spot, and never have come through |
| `Guard.GuardIsCompleteIff` | bindings/python/src/workbook.rs:57-88 | A call that the guard lets through ties a knot if and only if the lock it wants waits, at some remove, for something that the caller keeps: an evaluation on its thread or, under an ordinary call, the GIL |
| `Guard.OneThreadIsSafe` | bindings/python/src/workbook.rs:138-160 | One thread that runs its own callbacks never ties a knot, however deep it nests workbooks |
| `Slips.SecondWorkerSlipsPast` | bindings/python/src/workbook.rs:50-57 | A run from scratch: a nested evaluation whose callback runs on another worker slips past the guard, and they never all come through again, against the comment on the module |
| `Slips.CrossedCallsSlipPast` | bindings/python/src/workbook.rs:50-57 | So do two threads that run their own callbacks, each calling the other's workbook |
| `Slips.OrdinaryCallSlipsPast` | bindings/python/src/workbook.rs:1594-1613 | and an ordinary call of another thread to a workbook whose evaluation wants the GIL for a callback |
| `CallbackRegistry.FreshId` | bindings/wasm/src/workbook.rs:18-23 | Ids are never 0, and count up until the 64-bit counter wraps |
| `CallbackRegistry.Bindings.constructor` | bindings/wasm/src/workbook.rs:11-16 | The registry starts empty |
| `CallbackRegistry.Bindings.InsertCallback` | bindings/wasm/src/workbook.rs:18-23 | Inserting stores the callback under the fresh id |
| `CallbackRegistry.Bindings.RegisterFunction` | bindings/wasm/src/workbook.rs:845-888 | Registration statement by statement: insert, engine, roll back on refusal, name table, free a replaced id |
| `CallbackRegistry.Bindings.UnregisterFunction` | bindings/wasm/src/workbook.rs:890-909 | Unregistering removes handler, name and callback together, or nothing |
| `CallbackRegistry.Bindings.CloneHandle` | bindings/wasm/src/workbook.rs:694-702 | A clone counts one more handle on the same tables |
| `CallbackRegistry.Bindings.DropHandle` | bindings/wasm/src/workbook.rs:704-720 | Only the last drop empties the name table and frees exactly its callbacks |
| `CallbackRegistry.RegisterIff` | bindings/wasm/src/workbook.rs:845-888 | A registration keeps ownership, accepted or refused, if and only if the fresh id is not in use |
| `CallbackRegistry.NothingToReplace` | bindings/wasm/src/workbook.rs:845-888 | The engine refuses every name in the table, so no registration ever replaces an id |
| `CallbackRegistry.RunKeepsInv` | bindings/wasm/src/workbook.rs:694-720 | Over all runs with fewer than 2^64 registrations the live ids are the disjoint union of the name tables of open workbooks, and handlers and tables agree |
| `CallbackRegistry.OpenNeverDangles` | bindings/wasm/src/workbook.rs:184-198 | In an open workbook every handler reaches a function |
| `CallbackRegistry.RegisterMeans` | bindings/wasm/src/workbook.rs:845-888 | A registration makes its name reach the new function in this workbook only; a refused one changes nothing that can be called |
| `CallbackRegistry.UnregisterMeans` | bindings/wasm/src/workbook.rs:890-909 | Unregistering makes exactly that name of that workbook unreachable |
| `CallbackRegistry.DropMeans` | bindings/wasm/src/workbook.rs:704-720 | Only the last drop changes what is reachable: the workbook's own functions dangle for sheets that keep its engine, no other workbook is touched |
| `FeatureClosure.AliasClosure` | scripts/release-preflight.py:299-315 | The worklist terminates on every table, cycles included, fails if and only if an undeclared name is reachable, and returns exactly the reachable features, whatever the order of the initial ones |
| `FeatureClosure.ClosedHoldsReachable` | scripts/release-preflight.py:299-315 | The closure is the least set that holds the initial features and follows every same-package member |
| `FeatureClosure.ReachesUnion` | scripts/release-preflight.py:299-315 | Closure distributes over union of the initial sets |
| `FeatureClosure.ReachesIdempotent` | scripts/release-preflight.py:299-315 | Closing a closure adds nothing |
| `FeaturePolicy.CheckValueFeatures` | scripts/release-preflight.py:328-335 | The loop passes if and only if there are value-affecting features, each declared and with a rationale |
| `FeaturePolicy.CheckAlternateEdges` | scripts/release-preflight.py:188-226 | The nested loops pass if and only if no entry of any table of any binding is a way around the profiles |
| `FeaturePolicy.CheckOptOuts` | scripts/release-preflight.py:337-362 | The loops pass if and only if opt-outs stand in the Python manifest only, for known profiles, approved and with a substantive rationale |
| `FeaturePolicy.DependencyEdges` | scripts/release-preflight.py:163-185 | The targets with an entry for the dependency, or an error if and only if an entry goes by another name |
| `FeaturePolicy.CheckEdges` | scripts/release-preflight.py:364-372 | Passes if and only if the entries stand under exactly the expected targets and none hides under another name |
| `FeaturePolicy.CheckForwarding` | scripts/release-preflight.py:364-397 | Passes if and only if nothing is forwarded weakly and no forwarded feature reaches a value-affecting one |
| `FeaturePolicy.CheckProfile` | scripts/release-preflight.py:399-422 | Passes if and only if for each value-affecting feature exactly one holds: it is reached, or its opt-out is on record; and reports which |
| `FeaturePolicy.RationaleIsSubstantive` | scripts/release-preflight.py:353-362 | Every opt-out on record is approved and has a rationale of 40 characters and 8 words |
| `FeaturePolicy.Validate` | scripts/release-preflight.py:318-422 | The whole check returns if and only if the declarative policy holds, and its report accounts for every profile and value-affecting feature |
| `FeaturePolicy.PolicyCanHold` | scripts/release-preflight.py:318-422 | Some checkout meets the whole policy, so what follows from it does not follow from nothing |
| `FeaturePolicy.OnlyOneOptOut` | scripts/release-preflight.py:318-422 | If the check returns, every profile activates every value-affecting feature, except perhaps the Pyodide build the system clock |
| `FeaturePolicy.EverySemanticEdgeIsAProfile` | scripts/release-preflight.py:188-226 | If the check returns, every dependency entry of a binding on a semantic crate, under whatever alias or target, is the entry of a checked profile |
| `FeaturePolicy.ForwardingAddsNothing` | scripts/release-preflight.py:364-397 | If the check returns, turning on any features of the binding itself activates no further value-affecting feature |
| `Calibration.NewShape` | crates/formualizer-bench-core/src/c6_calibration.rs:177-194 | For every u32 count: an error exactly below 200, else four branches that sum to the total, none empty, in increasing order of share, with no overflow; the second error never comes up |
| `Calibration.Sheet.PopulateFinanceBranch` | crates/formualizer-bench-core/src/c6_calibration.rs:264-280 | The loop writes the seed, the first formula and one formula per further row, over whatever the sheet held |
| `Calibration.PopulatedIsBranch` | crates/formualizer-bench-core/src/c6_calibration.rs:264-280 | The written sheet holds the branch cell by cell |
| `Calibration.SolutionIsRecurrence` | crates/formualizer-bench-core/src/c6_calibration.rs:264-280 | Any assignment of numbers that satisfies every formula of the sheet follows the recurrence down the branch |
| `Calibration.RecurrenceSolves` | crates/formualizer-bench-core/src/c6_calibration.rs:264-280 | Such an assignment exists |
| `Calibration.LastIsClosed` | crates/formualizer-bench-core/src/c6_calibration.rs:296-304 | The recurrence is a multiple of a power of the ratio plus its fixed point |
| `Calibration.TerminalIff` | crates/formualizer-bench-core/src/c6_calibration.rs:296-304 | The closed form is the last value of the recurrence if and only if the count is at most 2^31, where the exponent's cast to i32 is harmless, or the seed is the fixed point |
| `Calibration.OracleAgreesIff` | crates/formualizer-bench-core/src/c6_calibration.rs:296-304 | So, under exactly that condition, the oracle is the value of the last cell in every solution of the written sheet |
| `Calibration.TargetCone` | crates/formualizer-bench-core/src/c6_calibration.rs:211-245 | The last cell of a branch needs its seed and all its formulas, and nothing else: the least set closed under references has as many formulas as the branch |
| `Calibration.OracleCountsNeeded` | crates/formualizer-bench-core/src/c6_calibration.rs:196-202 | For every scope the oracle is the number of formulas that the targeted cells need |
| `Calibration.AllowedOracle` | crates/formualizer-bench-core/src/c6_calibration.rs:526-528 | The allowance is the least whole number that is at least 1.01 times the oracle; the saturating addition never saturates |
| `Statistics.SortIs` | crates/formualizer-bench-core/src/c6_calibration.rs:500-518 | Sorting gives a sorted permutation |
| `Statistics.DistributionOf` | crates/formualizer-bench-core/src/c6_calibration.rs:500-503 | No distribution exactly for an empty sample or one with a non-finite value |
| `Statistics.PercentileIsNearestRank` | crates/formualizer-bench-core/src/c6_calibration.rs:520-523 | The percentile is a value of the sample with at least ceil(p*n) values at or below it and fewer below it |
| `Statistics.DistributionIff` | crates/formualizer-bench-core/src/c6_calibration.rs:500-518 | The four numbers are the nearest ranks of the sample and of its deviations, and its maximum; and no others are |
| `Statistics.MultisetOnly` | crates/formualizer-bench-core/src/c6_calibration.rs:500-518 | The distribution depends only on the multiset of the values |
| `Statistics.DistributionBounds` | crates/formualizer-bench-core/src/c6_calibration.rs:500-518 | median <= p95 <= max; at least half of the values lie within `mad` of the median, and 95 percent at or below p95 |
| `Statistics.ChangeOfUnits` | crates/formualizer-bench-core/src/c6_calibration.rs:500-518 | Measuring in other units, from another zero, gives the same distribution in those units |
| `PlanTasks.AddBatch` | benchmarks/harness/runner/main.py:198-217 | The three inner loops add the triples of one batch that were not seen before, and count them |
| `PlanTasks.ResolvePlanTasks` | benchmarks/harness/runner/main.py:186-222 | The loops keep, of all triples in order, the first of each key, and the errors batch by batch |
| `PlanTasks.TasksCoverThePlan` | benchmarks/harness/runner/main.py:186-222 | No two tasks share a triple, and the triples are exactly those covered by some batch |
| `PlanTasks.FirstBatchLabels` | benchmarks/harness/runner/main.py:186-222 | Every task carries the name of the first batch that covers its triple |
| `PlanTasks.ErrorIffNothingNew` | benchmarks/harness/runner/main.py:191-220 | A batch is reported if and only if it covers no triple that earlier batches have not; as matching no scenario if and only if it matches none |
| `PlanTasks.OfBatchIs` | benchmarks/harness/runner/main.py:167-183 | The triples of the loops over a batch are exactly those it covers, by every selector |
| `AstWalk.Children` | bindings/python/src/ast.rs:63-90 | Children are proper parts of their node, so the walk terminates |
| `AstWalk.Walk` | bindings/python/formualizer/visitor.py:60-75 | The recursion with early return is a scan of the preorder layout that jumps over the subtree after skip and ends at stop, for visitors with state of their own |
| `AstWalk.WalkAst` | bindings/python/formualizer/visitor.py:22-77 | The whole walk leaves the visitor in the state of that scan |
| `AstWalk.WalkVisits` | bindings/python/formualizer/visitor.py:60-77 | The visitor is shown, once each and in preorder, exactly the nodes under no skipped node and behind no visible stop |
| `AstWalk.PreorderLaminar` | bindings/python/src/ast.rs:63-90 | In the layout two subtrees are nested or apart |
| `AstWalk.CollectReferences` | bindings/python/formualizer/visitor.py:102-121 | The collecting walk returns the references of the preorder |
| `AstWalk.CollectRefsRecursive` | bindings/python/src/ast.rs:264-301 | The case-by-case recursion appends what the recursive definition collects |
| `AstWalk.CollectedIs` | bindings/python/src/ast.rs:264-301 | That is the references of the preorder |
| `AstWalk.CollectBothWays` | bindings/python/src/ast.rs:258-301 | For every tree the walk over `children` and the case-by-case recursion collect the same sequence |
| `Parity.ParityIff` | crates/formualizer-bench-core/src/parity_harness.rs:441-481 | Two values are parity-equal if and only if they have the same canonical form, which differs only in the payloads of NaNs, at any depth of arrays; -0.0 and 0.0 stay apart |
| `Parity.ParityIsEquivalence` | crates/formualizer-bench-core/src/parity_harness.rs:441-481 | Parity equality is reflexive, symmetric and transitive |
| `Parity.CompareSheet` | crates/formualizer-bench-core/src/parity_harness.rs:414-436 | The two loops over a sheet count its combined rectangle and append its differing cells up to the limit |
| `Parity.CompareWorkbooks` | crates/formualizer-bench-core/src/parity_harness.rs:404-439 | The comparison counts all cells and returns the first `max` of all divergences |
| `Parity.NamesAre` | crates/formualizer-bench-core/src/parity_harness.rs:409-411 | The sheets compared are those of either workbook, each once, in ascending order |
| `Parity.ReportIs` | crates/formualizer-bench-core/src/parity_harness.rs:404-439 | The divergences before the cut are exactly the differing cells of the combined rectangles, in sheet, row and column order |
| `Parity.NoneIffAgree` | crates/formualizer-bench-core/src/parity_harness.rs:404-439 | With a limit of at least one, the report is empty if and only if the workbooks agree on every cell of every combined rectangle |
| `Parity.NoneIffSame` | crates/formualizer-bench-core/src/parity_harness.rs:404-439 | For workbooks whose dimensions hold their cells that means agreement everywhere |
| `Parity.PassingIsEquivalence` | crates/formualizer-bench-core/src/parity_harness.rs:404-439 | Passing the comparison is an equivalence of such workbooks, whatever the limits |
| `BlockBounds.ActualIff` | crates/formualizer-cffi/src/workbook.rs:60-114 | With its actual dimensions a ragged block is accepted if and only if the anchor and every cell it has are in the grid |
| `BlockBounds.FormulaIff` | crates/formualizer-cffi/src/workbook.rs:116-123 | With the formula dimensions it is accepted if and only if, in addition, a block with cells has its last row, empty or not, in the grid |
| `BlockBounds.BindingsAgree` | bindings/wasm/src/workbook.rs:237-255 | The WebAssembly check accepts exactly the blocks that the C check accepts for formulas |
| `BlockBounds.TrailingRowRefused` | crates/formualizer-cffi/src/workbook.rs:107-123 | A cell in the last row with an empty row below it tells the two apart |
| `BlockBounds.WriteTargets` | crates/formualizer-workbook/src/workbook.rs:2598-2611 | The write loops touch the cast-and-added position of each cell |
| `BlockBounds.AcceptedTargets` | crates/formualizer-workbook/src/workbook.rs:2598-2611 | For an accepted block these are exactly the cells' own places in the grid: no sum wraps |

## Left out

- The calculation engine, parser and storage: the engine is its value store in layers, its sheet registry, the places of its formulas and its staged formulas; an undo may lead to any engine, and an evaluation builds any of the staged formulas in any order and gives any formulas any results.
- Which formulas the engine stages and which it takes at once, and which typed values a write compacts: each write says so, for all choices within its column.
- `Cells.CallShows`: names are folded in ASCII here and in Unicode by the engine; only the concrete runs look inside the folding.
- Rounding of 64-bit floats: calibration and statistics are over exact reals, and 0.95 is the decimal; parity compares floats by their bits. Integers beyond 2^53 and durations of fractions of a nanosecond round in the engine.
- Foreign-call plumbing of PyO3, wasm-bindgen and C pointers, JSON and CBOR payloads, panics and exception mapping.
- SheetPort operations and changes of the egress policy, which clear the Python cache outside the workbook lock, and poisoned locks; what is proved of reads holds under each policy.
- Formula text kept in the Python cache, results spilled by array formulas, and renamed, copied or removed sheets.
- `Cells.EvaluationIff`: number formats loaded from files, results that the engine folds into its base under a memory limit, and evaluations that fail while they build are not modelled.
- The sheet level of the Python cache: the nested map is one map keyed by sheet, row and column, so dropping a whole sheet's entries is not modelled.
- JavaScript callbacks that re-enter the registry while it is borrowed.
- Reporting in `check_portable` and `main` of the WebAssembly import script.
- TOML parsing and the type checks on its tables, and in `local_source` the comparison of file-system paths and symbolic links: a profile's source is the manifest it names, under the package name the edge gives, and the edge must have a path.
- Which policy error is raised first: the policy methods say whether the check passes.
- `WasmImports.ReadU32Leb`: bitwise or is addition, which is the same here because the groups do not overlap.
- `CallbackRegistry.Bindings.RegisterFunction`: the engine's checks of arity and reserved names are one parameter, and the engine's table of handlers is a map.
- `Knots.CanFinishIff`: an ordinary call takes the workbook for itself, whether it reads or writes, which is the same here because it keeps the GIL; the cache lock is left to `CacheProtocol`, where its holder never waits.
- `WasmStrict.GapIff`: the contents of sections other than the import section are not looked at.
- `CacheProtocol.StepKeepsInv`: fairness of the locks is not modelled, so it is not stated that a waiting thread is served in the end.
- `BlockBounds.ActualIff`: which of the eight messages a refused block gets is in the function and not restated.
- The text that `format_value` makes of a diverging value: divergences carry the values themselves.
- `AstWalk.CollectReferences`: the conversion of a reference to its Python object is the pair of its parsed and original form.
- Benchmark metadata validators, summaries, version bumping, the documentation site, charts and examples.

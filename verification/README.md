# Buddhabrot renderer: configuration loader and density accumulator in Dafny

This project models the integer core of a Buddhabrot renderer: the INI-style
configuration loader (`ConfigLoader::load`, `ConfigLoader::trim` and the
`ParsingConfigFileException` it throws), the `Buddha` engine's parameter
record, constructor and pixel-index conversions, the worker loop that
enumerates sub-pixel samples and accumulates orbit points into the shared
density buffer `data_` through a thread-local buffer, and the `clamp` and
`interpolate` helpers.

Modules, one per component:

- `Wrappers`: `Option` and `Result`.
- `MachineInts`: 64-bit unsigned and 32-bit signed ranges, and the `int` to
  `size_t` conversion (reduction modulo 2^64).
- `Strings`: the `std::string` searches and `substr` that `trim` and `load`
  use, `trim` exactly as written, and decimal rendering for `std::to_string`.
- `StringOrder` and `OrderedMap`: `std::map<std::string, Params>` as an
  association list kept sorted by `std::string` comparison.
- `ParseError`: the exception's fields and the `what()` text that `regenerate`
  rebuilds after every setter.
- `Buddha`: `Params`, `get_empty_params`, the constructor as written and as
  evidently intended, `run`, `lin2car` and `car2lin`.
- `ConfigLoader`: one line of `load` (`Classify`, `Apply`, `Step`), the loop,
  and the whole of `load`.
- `Worker`: the sample order, the retention rule, the functional reference
  `Step`/`Fold`/`RunWorker`, and the imperative `Work` (nested loops over a
  local array) proved equal to it.
- `WorkerIntended`: the worker with out-of-range orbit points dropped instead of
  counted (see Findings).
- `Utility`: `clamp` and `interpolate` at integer type.

The complex-plane part of the worker (`lin2complex`, `mandelbrot_hint`, the
recurrence `z := z*z + c`, the escape test and `complex2lin`) is floating-point
and is represented by an oracle, `Worker.Orbits`. For each sample, the oracle
gives the hint test's verdict and the `complex2lin` index of each iterate. The
numeric conversions of `load` (`std::stoul` and the `istringstream >>`
extractions) are passed in as `ConfigLoader.Readers`. File reading is replaced
by the list of the file's lines, or `None` when it cannot be opened.

Every model follows the code as written, including its defects. The three
corrected definitions in "## Findings" stand beside the as-written ones: the
loader keeps the as-written `trim`, and the worker keeps the as-written buffer
handling. `Buddha.ConstructValidated` is what establishes the worker's
precondition `Buddha.WorkerReady` when the width is non-zero and the buffer
size is below 2^63 (`Buddha.ValidatedIsReady`).

## Model

| member | source | states |
|---|---|---|
| `MachineInts.ToSize` | src/Buddha.cpp:7 | converting a negative `int` to `size_t` adds 2^64; a non-negative one is kept |
| `Strings.FirstNonBlankFrom` | src/ConfigLoader.h:37 | `find_first_not_of(" \t")`: absent exactly when all remaining characters are blanks; otherwise the first non-blank position |
| `Strings.LastNonBlankBelow` | src/ConfigLoader.h:38 | `find_last_not_of(" \t")`: absent exactly when the string is blank; otherwise the last non-blank position |
| `Strings.FindFirstNotBlank` | src/ConfigLoader.h:37 | `find_first_not_of(" \t")` on the whole string: npos iff the string is blank; otherwise a non-blank position with only blanks before it |
| `Strings.FindLastNotBlank` | src/ConfigLoader.h:38 | `find_last_not_of(" \t")` on the whole string: npos iff the string is blank; otherwise a non-blank position with only blanks after it |
| `Strings.FindFirst` | src/ConfigLoader.cpp:90 | `find_first_of("=")`: absent iff the character does not occur; otherwise its first occurrence |
| `Strings.FindFirstAt` | src/ConfigLoader.cpp:90 | a position holding the character, with no earlier occurrence, is what `find_first_of` returns |
| `Strings.Substr` | src/ConfigLoader.h:39-42 | `substr` fails (`std::out_of_range`) exactly when the start lies past the end; otherwise it is a prefix of the suffix, of length min(count, rest) |
| `Strings.Trim` | src/ConfigLoader.h:36-43 | `trim` throws exactly on an empty or all-blank string; otherwise its result starts at the first non-blank character, keeps everything through the last one, and anything more it keeps is blank |
| `Strings.TrimLength` | src/ConfigLoader.h:39-42 | the length of `trim`'s result is min(end + 1, size - begin), because `end + 1` is passed as a count |
| `Strings.TrimNonBlankEnd` | src/ConfigLoader.h:39-40 | a string ending in a non-blank is trimmed to its whole suffix from the first non-blank |
| `Strings.TrimNoLeadingBlank` | src/ConfigLoader.h:37-42 | a string starting with a non-blank loses exactly its trailing blanks |
| `Strings.TrimIsStrippedIff` | src/ConfigLoader.h:36-43 | `trim` strips both sides iff the string has no leading blank or no trailing blank |
| `Strings.TrimKeepsTrailingBlank` | src/ConfigLoader.h:39-42 | `trim(" a ")` is `"a "` |
| `ConfigLoader.TrimIndentedKey` | src/ConfigLoader.h:36-43 | `trim("  width ")` is `"width "`: the trailing blank survives |
| `ConfigLoader.TrimIndentedValue` | src/ConfigLoader.h:36-43 | `trim(" 5")` is `"5"` |
| `Strings.Stripped` | src/ConfigLoader.h:36-43 | the intended trim: non-empty, neither starting nor ending with a blank |
| `Strings.StrippedSpan` | src/ConfigLoader.h:36-43 | the string is its stripped core with only blanks before and after it |
| `Strings.Spaces` | src/ConfigLoader.cpp:41 | `std::string(n, ' ')` is exactly n spaces |
| `Strings.NatToStringRoundTrip` | src/ConfigLoader.cpp:31 | the decimal rendering used for the line number reads back as the number |
| `Strings.IntToString` | src/ConfigLoader.cpp:31 | `std::to_string(int)` is non-empty and begins with '-' exactly for negative numbers |
| `Strings.IntToStringDigits` | src/ConfigLoader.cpp:31 | after the optional '-', `std::to_string` writes the decimal numeral of the magnitude, without leading zeros, and it reads back as the magnitude |
| `StringOrder.Less` | src/ConfigLoader.cpp:72 | the key order of `std::map<std::string, …>` is character-wise, with a proper prefix before any longer string |
| `StringOrder.LessIrreflexive` | src/ConfigLoader.cpp:72 | the map's key order is irreflexive |
| `StringOrder.LessTransitive` | src/ConfigLoader.cpp:72 | the map's key order is transitive |
| `StringOrder.LessTotal` | src/ConfigLoader.cpp:72 | any two different keys are ordered |
| `StringOrder.LessAsymmetric` | src/ConfigLoader.cpp:72 | the map's key order is asymmetric |
| `OrderedMap.Get` | src/ConfigLoader.cpp:112 | `find` succeeds exactly for keys present in the map |
| `OrderedMap.Values` | src/ConfigLoader.cpp:183-185 | iterating the map yields one value per entry |
| `OrderedMap.Put` | src/ConfigLoader.cpp:113 | assigning through `operator[]` keeps the map ordered, adds the key, maps it to the new value and leaves every other key's value unchanged |
| `OrderedMap.SortedKeyCount` | src/ConfigLoader.cpp:183-185 | an ordered map has as many entries as distinct keys |
| `OrderedMap.PutPut` | src/ConfigLoader.cpp:121 | a second assignment to a key overrides the first |
| `OrderedMap.PutPresent` | src/ConfigLoader.cpp:112-113 | assigning to a present key keeps the key set |
| `ParseError.Prefix` | src/ConfigLoader.cpp:26-33 | the location prefix is empty iff the file name is; otherwise it is the file name, followed by ':' and the line number when there is one |
| `ParseError.Block` | src/ConfigLoader.cpp:35-43 | the appended block is a newline and the prefixed offending line, then, with a column, a newline and the caret line, and nothing else (its length is the sum of those parts) |
| `ParseError.Regenerate` | src/ConfigLoader.cpp:17-45 | only the text changes; it is the message (or, without one, the previous text), followed by the block when there is an offending line |
| `ParseError.SetFile` | src/ConfigLoader.cpp:47-52 | sets file name and line number, keeps message, line and column, and regenerates the text: the base text, then the block when there is an offending line |
| `ParseError.SetErrorMessage` | src/ConfigLoader.cpp:54-58 | sets the message, keeps the location fields, and regenerates the text: the new message (or the old text when it is empty), then the block when there is an offending line |
| `ParseError.SetLine` | src/ConfigLoader.cpp:60-65 | sets line and column, keeps file, line number and message, and regenerates the text: the base text, then the block when the new line is non-empty |
| `ParseError.RegenerateIdempotent` | src/ConfigLoader.cpp:19-20 | with a message, regenerating twice equals regenerating once |
| `ParseError.RegenerateRepeats` | src/ConfigLoader.cpp:19-35 | without a message but with a line, each regeneration appends the same block again |
| `ParseError.BlockIgnoresText` | src/ConfigLoader.cpp:27-43 | the block depends on every field but the current text |
| `ParseError.CaretUnderOffendingChar` | src/ConfigLoader.cpp:38-42 | with a file name, the caret stands under the offending character of the quoted line |
| `ParseError.CaretWithoutFile` | src/ConfigLoader.cpp:40-41 | without a file name the caret is never indented |
| `ParseError.Located` | src/ConfigLoader.cpp:95-98 | the three setters leave the message followed by exactly one block, with all fields as set |
| `ParseError.Unlocated` | src/ConfigLoader.cpp:128-130 | set_file then set_error_message leave the message alone as the text |
| `Buddha.GetEmptyParams` | src/Buddha.cpp:13-17 | `num_threads` is -1 and the strings are empty; the other members are whatever the uninitialised local held |
| `Buddha.Construct` | src/Buddha.cpp:6-12 | square image of side `width`, radius and cap copied, buffer size from `num_threads`; the other members unassigned; `data_` empty |
| `Buddha.ConstructIgnoresBufferSize` | src/Buddha.cpp:6-7 | the buffer-size argument has no effect |
| `Buddha.ConstructedIsNotReady` | src/Buddha.cpp:6-12 | no engine built by the constructor as written meets `WorkerReady`, because its `data_` is empty; with `num_threads` = -1 its buffer size is 2^64 - 1 |
| `Buddha.BufferSizeFromThreadCount` | src/Buddha.cpp:6-7 | with four threads and a cap of 20, the written constructor makes a 4-entry buffer, while the corrected one is ready |
| `Buddha.ConstructValidated` | src/Buddha.cpp:6-12 | the corrected constructor raises MaxIterationsTooBig iff cap > buffer and MinGreaterThanMax iff min > cap; otherwise it gives a square engine with min ≤ max ≤ buffer and width² zero counters |
| `Buddha.ValidatedIsReady` | src/Buddha.cpp:6-12 | a validated engine of non-zero width whose buffer size is below 2^63 is fit for the worker |
| `Buddha.Run` | src/Buddha.cpp:19-21 | `run` changes nothing |
| `Buddha.Lin2Car` | src/Buddha.cpp:23-25 | the column is below the width and row * width + column is the index |
| `Buddha.Car2LinLin2Car` | src/Buddha.cpp:23-29 | every linear index survives the round trip through (column, row) |
| `Buddha.Lin2CarCar2Lin` | src/Buddha.cpp:23-29 | an in-width pixel whose flattening does not wrap survives the round trip through the linear index |
| `Buddha.Car2Lin` | src/Buddha.cpp:27-29 | when row * width + column is below 2^64, `car2lin` returns it unwrapped |
| `Buddha.Car2LinWraps` | src/Buddha.cpp:27-29 | once the 64-bit flattening wraps, the round trip fails |
| `Buddha.Car2LinInImage` | src/Buddha.cpp:27-29 | an in-width pixel whose flattening does not wrap past 2^64 maps inside the image iff its row is inside |
| `ConfigLoader.HeaderName` | src/ConfigLoader.cpp:102-111 | a line is a header iff it is no comment, has no '=', starts with '[' and its last non-blank is ']'; the name is `substr(1, end)`, everything after the '[' through that ']' |
| `ConfigLoader.Classify` | src/ConfigLoader.cpp:83-118 | empty and comment lines are skipped; an '='-free line is a header, or fails with the located exception "Expected '['" at column 0 or "Expected ']'" at the last non-blank; an assignment fails with out_of_range iff a side is blank, else gives both trimmed sides |
| `ConfigLoader.ClassifyBare` | src/ConfigLoader.cpp:94-111 | an '='-free line gives its header, or the located "Expected '['" exception at column 0, or the located "Expected ']'" exception at the last non-blank |
| `ConfigLoader.ClassifySplit` | src/ConfigLoader.cpp:116-118 | a split line fails with out_of_range iff a side is blank; otherwise it gives both trimmed sides |
| `ConfigLoader.IndentedLineIsSetting` | src/ConfigLoader.cpp:90-118 | the line `  width = 5` has its '=' at position 8 and is an assignment |
| `ConfigLoader.IndentedKeyUnknown` | src/ConfigLoader.cpp:117-118 | the line `  width = 5` is read as a setting of the key `"width "` (with its trailing blank) to `"5"` |
| `ConfigLoader.BlankSuffixedKeyUnknown` | src/ConfigLoader.cpp:120-178 | the key `"width "` matches none of the eight keys `load` recognises |
| `ConfigLoader.Apply` | src/ConfigLoader.cpp:120-178 | `name` and `format` take the value; each numeric key fails exactly when its conversion fails, with "Unable parse '…" for `width` and "Unable parse as double: …" for the rest, and otherwise takes the converted value; no other member changes; an unknown key raises "Unknown key: " + key; every error carries the line number and no quoted line |
| `ConfigLoader.UnknownKeyRejected` | src/ConfigLoader.cpp:173-178 | a setting whose key is none of the known ones fails with "Unknown key: " + key at the 1-based line number, with no quoted line |
| `ConfigLoader.ApplyTwice` | src/ConfigLoader.cpp:120-178 | a later setting of a key replaces an earlier one entirely |
| `ConfigLoader.Step` | src/ConfigLoader.cpp:81-179 | one loop iteration keeps the map ordered and the current section present, and never removes a section; its cases are stated by the lemmas below |
| `ConfigLoader.ReopenKeepsValues` | src/ConfigLoader.cpp:111-113 | a header for a present section only switches to it |
| `ConfigLoader.HeaderOpensSection` | src/ConfigLoader.cpp:111-113 | a header naming an absent section makes it current and inserts the `get_empty_params` record; no other section changes |
| `ConfigLoader.SettingTouchesCurrentSection` | src/ConfigLoader.cpp:117-178 | a setting changes only the current section's record, creating it if needed, and only the member its key names; the stored record is the one the assignment of the key's value produces |
| `ConfigLoader.SettingFailsAsApply` | src/ConfigLoader.cpp:117-178 | a setting fails exactly when assigning the value to the current section's record fails, and with that error |
| `ConfigLoader.CommentSkipped` | src/ConfigLoader.cpp:83-88 | an empty or comment line leaves the state unchanged |
| `ConfigLoader.MalformedLineFails` | src/ConfigLoader.cpp:92-118 | a line that classifies as an error ("Expected '['", "Expected ']'" or the `std::out_of_range` from `trim`) ends the iteration with that very error |
| `ConfigLoader.LastAssignmentWins` | src/ConfigLoader.cpp:117-178 | of two consecutive settings of one key, the first can be dropped without changing the outcome |
| `ConfigLoader.ParseFrom` | src/ConfigLoader.cpp:81-181 | the loop keeps the map ordered; where it fails, `ParseFromFirstError` names the line |
| `ConfigLoader.ParseFromFirstError` | src/ConfigLoader.cpp:81-181 | a failed loop ends with the error of its first failing line: all earlier lines succeed, and that line, numbered `ln + i` (reported as `ln + i + 1`), raises the error |
| `ConfigLoader.FailsFirst` | src/ConfigLoader.cpp:81-88 | a loop whose first line fails ends with that line's error |
| `ConfigLoader.FailsLater` | src/ConfigLoader.cpp:81-88 | after a successful first line, a failure at line i of the rest is a failure at line i + 1 |
| `ConfigLoader.ParseFromStopsAt` | src/ConfigLoader.cpp:81-181 | when the lines before index i succeed and line i fails, the loop ends with line i's error |
| `ConfigLoader.ParseFromHead` | src/ConfigLoader.cpp:81 | a loop that succeeds on non-empty lines succeeds on the first and continues from its state |
| `ConfigLoader.PassesTail` | src/ConfigLoader.cpp:81 | past a successful first line, the rest of the lines succeed up to index i - 1 and fail there |
| `ConfigLoader.ParseFromSections` | src/ConfigLoader.cpp:81-181 | the sections after the loop are those before, those named by headers, and the current one if an assignment precedes all headers |
| `ConfigLoader.Parse` | src/ConfigLoader.cpp:72-181 | the section map is ordered |
| `ConfigLoader.Load` | src/ConfigLoader.cpp:71-188 | unopenable file gives CannotOpen; on success one record per section name, in key order; an opened file fails exactly when the parse fails, with the parse's own error |
| `ConfigLoader.MalformedLineStopsLoad` | src/ConfigLoader.cpp:71-118 | after lines that all succeed, a line that classifies as an error is the error `load` raises; a line without '=' not starting with '[' gives "Expected '['" at line i + 1, column 0 |
| `Worker.Row` | src/BuddhaWorker.cpp:22 | the innermost loop visits indices i … to-1 in order |
| `Worker.Grid` | src/BuddhaWorker.cpp:21-22 | the middle loop for one `sub_x`: every sample has that `sub_x`, a `sub_y` from the start below the resolution, and an index in [from, to) |
| `Worker.Outer` | src/BuddhaWorker.cpp:20-22 | the outer loop from one `sub_x` on: every sample has a `sub_x` from the start and a `sub_y` below the resolution, and an index in [from, to) |
| `Worker.Samples` | src/BuddhaWorker.cpp:20-22 | the whole loop nest: every sample has both offsets below the resolution and an index in [from, to) |
| `Worker.RowShape` | src/BuddhaWorker.cpp:22 | the innermost loop's samples are increasing and are exactly those of its row |
| `Worker.GridLength` | src/BuddhaWorker.cpp:21-22 | the middle loop visits (res - sy) * (to - from) samples |
| `Worker.GridMembers` | src/BuddhaWorker.cpp:21-22 | the middle loop visits exactly the samples with its sub_x, rows from sy, indices in range |
| `Worker.GridIncreasing` | src/BuddhaWorker.cpp:21-22 | the middle loop visits in lexicographic order |
| `Worker.OuterLength` | src/BuddhaWorker.cpp:20-22 | the outer loop visits (res - sx) * res * (to - from) samples |
| `Worker.OuterMembers` | src/BuddhaWorker.cpp:20-22 | the outer loop visits exactly the samples from sub_x = sx on |
| `Worker.OuterIncreasing` | src/BuddhaWorker.cpp:20-22 | the outer loop visits in lexicographic order |
| `Worker.SamplesShape` | src/BuddhaWorker.cpp:20-22 | every (sub_x, sub_y, i) with sub offsets below res and i in [from, to) is visited exactly once, in lexicographic order |
| `Worker.EscapeTime` | src/BuddhaWorker.cpp:48-61 | the iteration stops at the cap or at escape, so it is below the cap only if the orbit escaped |
| `Worker.Retained` | src/BuddhaWorker.cpp:45-64 | a sample's orbit is kept exactly when the hint does not skip it and its length is at least `min_iterations_` and below `max_iterations_` |
| `Worker.Flush` | src/BuddhaWorker.cpp:30-32 | a flush adds to each cell the number of times the buffer names it |
| `Worker.FlushSum` | src/BuddhaWorker.cpp:30-32 | a flush adds one count per flushed entry |
| `Worker.FlushAccounted` | src/BuddhaWorker.cpp:30-32 | a buffer of base counts plus multiplicities is the flush |
| `Worker.Store` | src/BuddhaWorker.cpp:52-56 | slot at + k receives the k-th iterate's index if it is in range; other slots keep their content |
| `Worker.FlushBuffer` | src/BuddhaWorker.cpp:26-35 | a flush empties the buffer and keeps the invariant |
| `Worker.Step` | src/BuddhaWorker.cpp:24-65 | the loop body keeps the buffer invariant |
| `Worker.StepAccounting` | src/BuddhaWorker.cpp:24-65 | a flush happens exactly when the buffer lacks room for a full orbit; `filled` then grows by the sample's gain; writes stay in the buffer; progress counts every sample |
| `Worker.Fold` | src/BuddhaWorker.cpp:20-68 | the loop nest keeps the buffer invariant |
| `Worker.FoldConcat` | src/BuddhaWorker.cpp:20-68 | running the loop over two runs of samples is running it over each in turn |
| `Worker.FoldSnoc` | src/BuddhaWorker.cpp:20-68 | running the loop over one more sample is one more step |
| `Worker.FoldCons` | src/BuddhaWorker.cpp:20-68 | running the loop over a sample and then the rest is a step followed by the loop over the rest |
| `Worker.Init` | src/BuddhaWorker.cpp:13-14 | the empty buffer of `thread_vector_size` zeroed slots satisfies the invariant |
| `Worker.FoldConserves` | src/BuddhaWorker.cpp:24-65 | counts in `data_` plus pending entries equal the initial counts plus the retained escape times; progress counts the samples |
| `Worker.FoldAccounted` | src/BuddhaWorker.cpp:26-35 | each cell holds its initial count plus its number of flushed occurrences |
| `Worker.StepTraced` | src/BuddhaWorker.cpp:52-56 | each buffer slot and flushed index is 0 or an in-range iterate of a visited orbit |
| `Worker.FlushTraced` | src/BuddhaWorker.cpp:30-34 | a flush keeps every logged index 0 or named, and leaves the slots as they were |
| `Worker.StoreTraced` | src/BuddhaWorker.cpp:52-56 | storing an orbit's in-range iterates keeps every slot 0 or named |
| `Worker.FoldTraced` | src/BuddhaWorker.cpp:14-65 | the same holds for the whole loop nest, starting from the zeroed buffer |
| `Worker.RunWorker` | src/BuddhaWorker.cpp:12-77 | a worker call ends with an empty buffer and the invariant |
| `Worker.RunWorkerProperties` | src/BuddhaWorker.cpp:12-77 | progress grows by res² (to - from); cells only grow, each by its flushed multiplicity; the total grows by the retained escape times; flushed indices are 0 or named by an orbit |
| `Worker.FlushLoop` | src/BuddhaWorker.cpp:73-75 | the imperative flush loop computes the flush |
| `Worker.VisitAll` | src/BuddhaWorker.cpp:13-68 | the imperative loop nest, from a zeroed buffer, computes the reference loop over all samples |
| `Worker.Iterate` | src/BuddhaWorker.cpp:48-61 | the inner `while` stops after min(orbit length, cap) iterates and leaves the buffer as `Store` describes |
| `Worker.Visit` | src/BuddhaWorker.cpp:24-65 | one imperative loop body computes the reference step |
| `Worker.VisitRow` | src/BuddhaWorker.cpp:22-66 | the imperative innermost loop computes the reference loop over its row |
| `Worker.VisitGrid` | src/BuddhaWorker.cpp:21-67 | the imperative middle loop computes the reference loop over its rows |
| `Worker.Work` | src/BuddhaWorker.cpp:12-77 | the imperative worker computes the reference result: res² (to - from) progress, cells only grow, total grows by the retained escape times |
| `Worker.WorkProperties` | src/BuddhaWorker.cpp:12-77 | the reference result's progress, monotonicity and total hold of `Work`'s outputs |
| `WorkerIntended.InRange` | src/BuddhaWorker.cpp:54-55 | the in-range iterates: valid cells, each as often as in the orbit, nothing else |
| `WorkerIntended.InRangeConcat` | src/BuddhaWorker.cpp:48-61 | filtering distributes over concatenation, so the order of the iterates is kept |
| `WorkerIntended.InRangeSingle` | src/BuddhaWorker.cpp:54-55 | a single iterate is kept exactly when it is in range |
| `WorkerIntended.Points` | src/BuddhaWorker.cpp:54-64 | a retained orbit contributes at most its escape time in points, any other sample none |
| `WorkerIntended.RetainedPoints` | src/BuddhaWorker.cpp:20-68 | the points of all samples, in visiting order, name valid cells |
| `WorkerIntended.Splice` | src/BuddhaWorker.cpp:54-55 | writing points at `filled` keeps the length, puts them right after the first `filled` slots, and keeps every slot a valid cell |
| `WorkerIntended.StepIntended` | src/BuddhaWorker.cpp:24-65 | the corrected loop body keeps the invariant and counts progress |
| `WorkerIntended.FoldIntended` | src/BuddhaWorker.cpp:20-68 | the corrected loop nest keeps the invariant |
| `WorkerIntended.RunIntended` | src/BuddhaWorker.cpp:12-77 | the corrected worker ends with an empty buffer |
| `WorkerIntended.StepFaithful` | src/BuddhaWorker.cpp:24-65 | a corrected step extends flushed-plus-pending by exactly the sample's points |
| `WorkerIntended.FlushKeepsLog` | src/BuddhaWorker.cpp:26-35 | a flush moves pending entries to the log without changing log-plus-pending, and keeps every cell accounted |
| `WorkerIntended.FoldFaithful` | src/BuddhaWorker.cpp:20-68 | flushed-plus-pending is exactly the points of the samples seen, and every cell is accounted for |
| `WorkerIntended.RunIntendedCounts` | src/BuddhaWorker.cpp:12-77 | the corrected worker adds to each cell exactly the number of in-range points naming it, and counts the same progress as the worker as written |
| `WorkerIntended.FoldIntendedProgress` | src/BuddhaWorker.cpp:24 | the corrected loop counts one progress step per sample |
| `WorkerIntended.StaleSlotCounted` | src/BuddhaWorker.cpp:54-64 | one sample whose only iterate is outside the image adds a count to cell 0 as written, nothing as intended |
| `Utility.Clamp` | src/Utility.hpp:4-11 | below `lower` gives `lower`; otherwise above `upper` gives `upper`; in between gives the value |
| `Utility.ClampNearest` | src/Utility.hpp:4-11 | with ordered bounds, the result is in range, nearest to the value, and clamping again changes nothing |
| `Utility.ClampInverted` | src/Utility.hpp:6-9 | with inverted bounds the result is `lower` below `lower` and `upper` otherwise |
| `Utility.Trunc` | src/Utility.hpp:15 | the cast to an integer truncates toward zero |
| `Utility.TruncMonotone` | src/Utility.hpp:15 | truncation is monotone |
| `Utility.TruncBetween` | src/Utility.hpp:15 | a real between two integers truncates to a value between them |
| `Utility.TruncNegate` | src/Utility.hpp:15 | truncation toward zero commutes with negation |
| `Utility.ScaledBetween` | src/Utility.hpp:15 | a weight in [0, 1] keeps the truncated weighted span between 0 and the span, for either sign |
| `Utility.ScaledNegate` | src/Utility.hpp:15 | negating the span negates the truncated weighted span |
| `Utility.ScaledMonotone` | src/Utility.hpp:15 | with a non-negative span, the truncated weighted span grows with the weight |
| `Utility.Scaled` | src/Utility.hpp:15 | the weighted span is truncated toward zero |
| `Utility.Interpolate` | src/Utility.hpp:13-16 | the result minus `lower` is the weighted span truncated toward zero |
| `Utility.InterpolateEnds` | src/Utility.hpp:13-16 | weight 0 gives `lower` and weight 1 gives `upper` |
| `Utility.InterpolateBetween` | src/Utility.hpp:13-16 | a weight in [0, 1] gives a value between the bounds, in either order |
| `Utility.InterpolateMonotone` | src/Utility.hpp:13-16 | with ordered bounds, the result grows with the weight |

## Left out

- File input: `std::ifstream` and `std::getline` are replaced by the file's lines, or `None` when it cannot be opened.
- `report_error` is not part of this model: it only writes to `std::cerr`, and `load` never calls it.
- The numeric conversions (`std::stoul`, `istringstream >>` into `double`, `uint64_t`, `int`) are library calls. They are passed in as functions that may fail.
- Floating point is not modelled. `lin2complex`, `complex2lin`, `mandelbrot_hint`, the recurrence and the escape test are represented by the `Orbits` oracle. The radius is carried as an opaque 64-bit pattern.
- Concurrency is not modelled: the threads, `data_lock_`, the log queue and the progress counter's sharing between threads. `Worker.Work` describes one worker call on its own.
- Rendering, the colouring schemas and `main.cpp` are not part of this model. Neither is the `schema` pointer of `Params`, which `load` never sets.
- Worker.Work: the 64-bit wrap-around of `data_` cells and of the progress counter is not modelled, because the cells are unbounded counters.
- Worker.Work: the worker requires `max_iterations <= thread_vector_size`, `thread_vector_size + max_iterations < 2^64` and a non-empty `data_`. Without these, the source writes out of bounds or indexes an empty vector (behaviour the C++ standard leaves undefined).
- ConfigLoader.Load: the `int` line counter is unbounded, so overflow after 2^31 lines is not modelled.
- ConfigLoader.Load: the text of the `std::out_of_range` that `trim` lets escape is not modelled; only its occurrence is.
- Allocation failure (`std::bad_alloc`) is not modelled.
- Buddha.Lin2CarCar2Lin: the round trip is stated only for flattenings that do not wrap past 2^64. `Buddha.Car2LinWraps` shows that it fails otherwise.
- Utility.Clamp: modelled for integers only, while the template also serves floating-point types.
- Utility.Interpolate: modelled for integers only, with a real-valued weight, while the template also serves floating-point types. The product is taken in exact real arithmetic, so the rounding of a `double` product is not modelled, and `upper - lower` is an unbounded difference, so its wrap-around for an unsigned `T` with `upper < lower` is not modelled.
- Buddha.ConstructedIsNotReady: states only that the constructed engine misses the worker's precondition; it does not show the worker leaving its bounds, which happens only once some orbit is retained (with `subpixel_resolution_` 0 the loop nest is empty).
- Buddha.ValidatedIsReady: also requires a buffer below 2^63 entries, so that `filled + max_iterations_` cannot wrap past 2^64.
- ParseError.Column: columns below -1, which the `int` parameter of `set_line` admits, are excluded; for them `(size + 1) + pos_` would wrap, and `load` passes only 0 or a last non-blank position.
- Strings: a Dafny `char` stands for one byte of `std::string`, so positions from `find`, `substr` and the caret column count bytes; no character encoding is modelled.
- ConfigLoader.Load: the indeterminate members of `get_empty_params` are supplied per header line, as `junk(ln)`, since nothing in the source fixes them across calls.

## Findings

| source | as written | input that shows it | evidently intended | confidence | as-written member | corrected member |
|---|---|---|---|---|---|---|
| src/Buddha.cpp:6-12 | the buffer size comes from `p.num_threads`; `min_iterations_`, `subpixel_resolution_` and `num_threads_` are never assigned; `data_` stays empty; the declared exceptions are never thrown | `num_threads` = 4, `max_iterations` = 20: the buffer has 4 entries, fewer than one orbit needs | buffer size from the `thread_vector_size` argument, all members assigned, `data_` of width² counters, the two declared errors raised | not executed | `Buddha.BufferSizeFromThreadCount` | `Buddha.ValidatedIsReady` |
| src/BuddhaWorker.cpp:54-64 | an iterate outside the image leaves its slot of `local_data` untouched, but `filled += pos` still counts the slot, so a stale index is flushed | a 2×2 image, cap 2, minimum 1, and one sample whose only iterate has index 7: cell 0 gains a count | only in-range iterates are stored and counted | not executed | `WorkerIntended.StaleSlotCounted` | `WorkerIntended.RunIntendedCounts` |
| src/ConfigLoader.h:39-42 | `substr(begin, end + 1)` passes a position as a count, so with leading blanks some trailing blanks survive | `trim(" a ")` gives `"a "`; a line `  width = 5` yields the key `"width "`, which is not among the known keys, so `load` rejects it as unknown (`ConfigLoader.IndentedKeyUnknown`, `ConfigLoader.BlankSuffixedKeyUnknown`, `ConfigLoader.UnknownKeyRejected`) | `substr(begin, end + 1 - begin)` | not executed | `Strings.TrimKeepsTrailingBlank` | `Strings.StrippedSpan` |

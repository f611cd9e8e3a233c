# Date-range log extractor, modelled in Dafny

The program pulls every line of one date out of a large log file.
Each line of the file starts with a `YYYY-MM-DD` date field.
The program maps the file into memory as one read-only buffer.
It validates the requested date, then locates the first line of that date with a chunked binary search over line starts.
It snaps each probe back to its line start and compares the 10-byte date field.
A match walks back to the first line of its run.
A probe dated too early jumps ahead a fixed 4096-byte stride.
From the located line, the program copies lines forward while their first ten characters equal the date.

The model has four modules:

- `DateKeys` (`date_keys.dfy`): the date format check `validateDate`, and the `std::string` order on date keys as a lexicographic order. The order is proved a strict total order: trichotomous, asymmetric and transitive.
- `LineLayout` (`line_layout.dfy`): the line structure of the buffer. `LineStart` is the offset that `findLineStart` snaps back to, and `LineEnd` is the offset of the line's `'\n'`, or the buffer's length when the last line has no `'\n'`.
- `LogFile` (`log_file.dfy`): what a probe reads and what a run of one date is. It also holds the specification of the collection loop, as spans of offsets (`CollectSpans`). The main result is `CollectFromRunIsComplete`. In a file sorted by date, collecting from the first line of a run yields exactly the lines of the file that carry that date, in file order.
- `Extractor` (`extractor.dfy`): the `LogExtractor` class over the mapped buffer. Its methods `FindLineStart`, `BinarySearch` and `CollectLines` have the loops of the original code, and `ExtractLogs` calls the search and then the collection, as `extractLogs` does. Two nested loops are methods of their own: `WalkBackToRunStart` (the search's walk back) and `ScanLineEnd` (the collection's scan for the '\n'). Each is proved against the specification functions above.

The buffer is a `seq<char>` in which each byte of the file is one `char` with a value from 0 to 255, and offsets are `nat`. The model matches the program only under that reading: `std::string` `<` compares bytes as `unsigned char`, and `substr(0, 10)` and `getDateFromLine` count bytes, so a buffer decoded as UTF-8 would not agree with `LinePrefix` and `DateAt`. The mapped file is given to the constructor.

## Model

| member | source | states |
|---|---|---|
| DateKeys.ValidateDate | src/extract_logs.cpp:162-171 | accepts exactly the strings of length 10 with '-' at indices 4 and 7 and an ASCII digit at every other index |
| DateKeys.NoCalendarCheck | src/extract_logs.cpp:162-171 | only the shape is checked: "2024-13-45" and "0000-00-00" are accepted; "2024-1-01" and "2024/01/01" are rejected |
| DateKeys.DateFormatHasNoNewline | src/extract_logs.cpp:162-171 | a validated date holds no '\n' |
| DateKeys.LexLess | src/extract_logs.cpp:102 | `std::string` `<`: at the first position where the strings differ the smaller character wins, and a proper prefix is smaller |
| DateKeys.LexLessFromWitness | src/extract_logs.cpp:102 | `<` on date strings holds when the first difference has the smaller character in the left string, or the left string is a proper prefix |
| DateKeys.LexLessHasWitness | src/extract_logs.cpp:102 | conversely, every `a < b` has such a first difference |
| DateKeys.LexTrichotomy | src/extract_logs.cpp:91-106 | exactly one of `<`, `==`, `>` holds between two date strings, so the search's three branches are exhaustive and exclusive |
| DateKeys.LexLessTransitive | src/extract_logs.cpp:102 | `a < b` and `b < c` imply `a < c` |
| DateKeys.LexLeAntisymmetric | src/extract_logs.cpp:102 | `a <= b` and `b <= a` imply `a == b` |
| LineLayout.LineStart | src/extract_logs.cpp:64-69 | the snapped offset is at most `pos`, is 0 or follows a '\n', and no '\n' lies between it and `pos` |
| LineLayout.LineStartUnique | src/extract_logs.cpp:64-69 | those three properties determine the snapped offset |
| LineLayout.LineStartIdempotent | src/extract_logs.cpp:64-69 | snapping a line start returns it unchanged, so snapping twice equals snapping once |
| LineLayout.LineStartIsGreatest | src/extract_logs.cpp:64-69 | every line start at or before `pos` is at or before the snapped offset |
| LineLayout.LineEnd | src/extract_logs.cpp:142-145 | the end of a line is its first '\n' at or after the start, or the end of the buffer |
| LineLayout.LineAt | src/extract_logs.cpp:147 | the line cut out at `pos` is the bytes from `pos` up to its end, and holds no '\n' |
| LineLayout.SnapWithinChunk | src/extract_logs.cpp:78-82 | when every line is shorter than 4096 bytes, snapping moves an offset back by less than the 4096-byte stride |
| LogFile.DateAt | src/extract_logs.cpp:71-73 | a probe reads exactly the 10 bytes at `pos`, which may run past the line's '\n' |
| LogFile.LinePrefix | src/extract_logs.cpp:148 | `substr(0, 10)` is the first ten characters, or the whole line when it is shorter |
| LogFile.LineMatches | src/extract_logs.cpp:148 | the collection loop's test: the line's `substr(0, 10)` equals the target |
| LogFile.CollectSpans | src/extract_logs.cpp:141-154 | the lines the collection loop emits from `pos`: each line in turn while it passes the test, up to the first line that fails or the end of the buffer |
| LogFile.CollectSpansSound | src/extract_logs.cpp:141-154 | the collection emits whole lines, consecutive in file order from its start, each starting with the target date; it stops at the end of the buffer or at the first line that does not match, including a last line with no '\n' |
| LogFile.ProbeAgreesWithLinePrefix | src/extract_logs.cpp:89-91 | for a validated date, the probe's 10 bytes equal the date exactly when the line's `substr(0, 10)` does |
| LogFile.FirstOfRunIsFirst | src/extract_logs.cpp:92-99 | in a sorted file, no line before the first line of a run carries the run's date |
| LogFile.NoneMatchAfterRun | src/extract_logs.cpp:148-149 | in a sorted file, once a line after the run has another date, no later line carries the run's date |
| LogFile.CarriesBackOneLine | src/extract_logs.cpp:92-99 | one step of the walk back: when the previous line also carries the date, every line start from that previous line up to `hit` carries it |
| LogFile.CollectMatchesAfterRun | src/extract_logs.cpp:148-149 | in a sorted file, from a line after the run that carries another date, the collection emits nothing and no later line matches |
| LogFile.CollectFromRunIsComplete | src/extract_logs.cpp:135-154 | in a sorted file, collecting from the first line of a run of a validated date yields exactly the file's lines of that date, in file order, and at least one |
| LogFile.CollectAllWhenAllDated | src/extract_logs.cpp:141-154 | when every line carries a validated target date, the collection loop emits every line of the file from the start offset on |
| Extractor.LogExtractor.constructor | src/extract_logs.cpp:44-45 | the extractor holds the mapped contents, and its size is their length |
| Extractor.LogExtractor.FindLineStart | src/extract_logs.cpp:64-69 | the loop stops at `LineStart(pos)` |
| Extractor.LogExtractor.WalkBackToRunStart | src/extract_logs.cpp:91-99 | from a line `hit` carrying `target`, the walk back ends on the first line of its run: at or before `hit`, every line start from there up to `hit` carries `target`, and it is offset 0 or a line whose predecessor carries another date; in a file whose every line carries `target` it ends at 0 |
| Extractor.LogExtractor.BinarySearch | src/extract_logs.cpp:75-110 | the result is the file size (not found) or the first line of a run of `target`: a line start before the end whose 10-byte date equals `target`, at offset 0 or after a line with another date; when every line of a non-empty file carries `target`, the result is 0. The body proves that the `mid >= file_size` guard is never taken |
| Extractor.LogExtractor.ScanLineEnd | src/extract_logs.cpp:142-145 | the inner scan stops at `LineEnd(pos)`: the line's '\n' or the end of the buffer |
| Extractor.LogExtractor.CollectLines | src/extract_logs.cpp:141-154 | the lines returned are the texts of `CollectSpans` from the start offset, one for one and in order |
| Extractor.LogExtractor.ExtractLogs | src/extract_logs.cpp:135-158 | the call reports success; nothing is collected when the search finds nothing; otherwise the lines collected run from the first line of a run; in a sorted file with a validated date they are exactly the file's lines of that date; when every line of a non-empty file carries the validated date, the search lands on 0 and every line is collected |
| Extractor.LongLineStalls | src/extract_logs.cpp:80-103 | on a 5000-byte file holding one line dated 2024-01-01 (so a line of 4096 bytes or more), searching for 2024-01-02 gives the facts both of the first two iterations rest on: the probes 2500 and 4548 both snap to 0, and the date there is earlier; so each iteration sets `left` to 0 + 4096 |
| Extractor.StrideSkipsRun | src/extract_logs.cpp:80-109 | on the 33-byte file "2024-01-01\n2024-01-02\n2024-01-03\n" (dates in order, every line shorter than the stride, so the search's preconditions hold), searching for 2024-01-03 gives the facts the only iteration rests on: the probe 16 snaps to 11, the date there is earlier, and 11 + 4096 is past the end; yet the line at 22 carries 2024-01-03 |

## Left out

- Opening, sizing, mapping and unmapping the file, and the destructor (src/extract_logs.cpp:30-62, 113-117) are operating-system calls. The constructor takes the mapped contents instead, so the failure paths of `extractLogs` (lines 122-124) are not modelled.
- `Timer` and the execution-time message (lines 12-21, 120, 157) read the wall clock.
- Creating the output directory and file, writing to the stream, and the console messages are I/O (lines 126-133, 137, 152, 156-157). `CollectLines` returns the lines instead; the program writes each one followed by '\n'. The output-file failure path (lines 130-133) is not modelled.
- `main` (lines 173-191) only checks the argument count and calls `validateDate` and `extractLogs`.
- `size_t` arithmetic is modelled as unbounded `nat`. The overflow of `mid + chunk_size` near the top of the address space is not modelled.
- Extractor.LogExtractor.BinarySearch: requires every line to be shorter than 4096 bytes (`ShortLines`). BinarySearch is proved to terminate under that condition; without it the original code can loop forever on a line of 4096 bytes or more dated before the target (`LongLineStalls`).
- Extractor.LogExtractor.BinarySearch: requires every line start before the end of the buffer to have 10 bytes behind it (`DatesInBounds`). The original code reads those bytes unchecked.
- Extractor.LogExtractor.BinarySearch: only soundness is proved. The 4096-byte jump after an early probe can skip a short run that lies entirely inside the jump. A date that is present can therefore be reported as not found (`StrideSkipsRun`), so completeness does not hold and is not stated. Only the case of a file whose every line carries the date is guaranteed to be found.
- Extractor.LogExtractor.ExtractLogs: for a zero-length file the program's `mmap` of length 0 fails (line 45), `mapFile` returns false (line 50), and `extractLogs` reports failure at lines 122-124 without creating an output file. The model's constructor accepts empty contents instead, and `ExtractLogs` then reports success with no lines.
- Extractor.LogExtractor.ExtractLogs: has the same two preconditions as BinarySearch, which it calls.
- Extractor.LogExtractor.ExtractLogs: the "exactly the lines of that date" guarantee assumes a file sorted by date and a validated target. Without sortedness it states only what the collection loop does from the located line.

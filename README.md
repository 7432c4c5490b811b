# go-api-prj in Dafny

A model of the demonstration service in `src/api/main.go` and
`src/utils/utils.go`, together with the three naive Fibonacci routines of
the repository (Go, Rust over `i32`, Go over `C.int` through cgo).

The service has two fronts in one process.

- **HTTP handlers.** `jsonHandler`, `fileUploadHandler` and `squareHandler`
  are modelled as pure functions (`Handlers`). Each takes the request
  fields and the outcome of every library call it makes (JSON decoding,
  multipart parsing, `os.MkdirAll`, `os.Create`, the encoder, `io.Copy`).
  Each returns the HTTP response and the side effects performed, in order.
- **Console menu.** The loop in `main` reads one line per pass, trims it,
  converts it with `strconv.Atoi` and runs one of five entries. It is
  modelled twice (`Menu`). `Step`/`Run` are a state machine over the parsed
  entries: its state is the loaded byte buffer (nil at first) and whether
  the loop is still running. `MenuLoop` is the imperative loop over an
  `array?<byte>` that stands for the `*[]byte`. It is proved to end in the
  state the machine predicts.

The utilities are imperative (`Utils`).

- `SimulateFileStreaming` is a method whose loop builds the file's
  contents, the lengths of the writes and the progress counts. These are
  tied to the reference write plan `ChunkPlan`.
- `LoadAndModifyString` allocates the "BascomHunter" seed or reuses the
  given array, shows it in hex, and writes 'Z' at index 6 in place.

The native `square` routine is reached through `C.int`, so a Go `int` is
narrowed to 32 bits on the way in (`NativeSquare`). The Go standard-library
routines the service relies on are modelled in `GoStrings`:
`strings.TrimSpace`, `strings.TrimRight`, `strconv.Atoi` and `%d`.
Fixed-width arithmetic is written out in `MachineInt`: Go `int` as 64 bits,
C `int` and Rust `i32` as 32 bits.

## Model

| member | source | states |
|---|---|---|
| MachineInt.Wrap32 | fib_cgo.go:11 | the result is a 32-bit value congruent to the input modulo 2^32, and equals the input when that already fits |
| MachineInt.Wrap32Unique | src/api/main.go:204 | a 32-bit value congruent to x modulo 2^32 is the truncation of x, so the truncation is the only such value |
| MachineInt.Wrap64 | internal/fibonacci/fibonacci.go:8 | the result is a 64-bit value congruent to the input modulo 2^64, and equals the input when that already fits |
| Fibonacci.FibLandmarks | internal/fibonacci/fibonacci.go:4-9 | Fib(46), Fib(47), Fib(92) and Fib(93) have the values that bound the exact range of each implementation |
| Fibonacci.FibBound32 | fib_cgo.go:7-12 | every Fibonacci number up to index 46 fits in a signed 32-bit integer |
| Fibonacci.FibBound64 | internal/fibonacci/fibonacci.go:4-9 | every Fibonacci number up to index 92 fits in a signed 64-bit integer |
| Fibonacci.Compute | internal/fibonacci/fibonacci.go:4-9 | every n below 2, negatives included, is returned as is; for 0 <= n <= 92 the result is the n-th Fibonacci number |
| Fibonacci.ComputeRecurrence | internal/fibonacci/fibonacci.go:8 | in the exact range the sum of the two previous values does not wrap and is non-negative |
| Fibonacci.ComputeTestedValues | internal/fibonacci/fibonacci_test.go:9-13 | Compute gives 0, 1, 5 and 55 for 0, 1, 5 and 10 |
| Fibonacci.ComputeWrapsAt93 | internal/fibonacci/fibonacci.go:8 | at n = 93 the 64-bit addition wraps: the result is Fib(93) - 2^64, a negative number |
| FibRust.RustFib | fibrust/src/lib.rs:4-11 | every n below 2 is returned as is; for 0 <= n <= 46 the result is the n-th Fibonacci number |
| FibRust.RustFibRecurrence | fibrust/src/lib.rs:9 | the recurrence holds without overflow for every admitted n from 2 to 46 |
| FibRust.RustFibTestedValues | fibrust/src/lib.rs:23-26 | fib gives 0, 1, 5 and 55 for 0, 1, 5 and 10 |
| FibRust.RustFibBoundIsTight | fibrust/src/lib.rs:9 | the sum computed for n = 47 leaves the `i32` range, so 46 is the largest n that does not overflow |
| FibCgo.CgoFib | fib_cgo.go:7-12 | every n below 2 is returned as is; for 0 <= n <= 46 the result is the n-th Fibonacci number |
| FibCgo.CgoFibWrapsAt47 | fib_cgo.go:11 | at n = 47 the `C.int` addition wraps to Fib(47) - 2^32, a negative number |
| FibCgo.ImplementationsAgree | fib_cgo.go:7-12 | the cgo, Go and Rust versions return the same value for every n <= 46, negatives included |
| GoStrings.TrimLeftSpaceSpec | src/api/main.go:160 | the leading trim keeps a suffix, removes only white space, and leaves no white space at the front |
| GoStrings.TrimRightSpaceSpec | src/api/main.go:160 | the trailing trim keeps a prefix, removes only white space, and leaves no white space at the end |
| GoStrings.TrimSpace | src/api/main.go:160 | trimming never lengthens the text, and leaves text that neither starts nor ends with white space unchanged |
| GoStrings.TrimSpaceEnds | src/api/main.go:160 | a trimmed line is a slice of the input and neither of its ends is white space |
| GoStrings.TrimSpaceOfPadded | src/api/main.go:196 | trimming a white-space-padded text whose ends are not white space gives that text back exactly |
| GoStrings.TrimRight | src/api/main.go:106 | the result is a prefix of the input, every removed character is in the cut set, and the last kept character is not |
| GoStrings.ParseDigitsSpec | src/api/main.go:218 | the digit scan succeeds exactly on non-empty all-digit text, with its decimal value |
| GoStrings.Atoi | src/api/main.go:218 | an accepted text ends in a digit, and a negative result was written with a leading minus |
| GoStrings.AtoiSpec | src/api/main.go:218 | Atoi accepts exactly an optional sign followed by one or more digits whose signed value fits in 64 bits, and returns that value |
| GoStrings.NatDigits | src/api/main.go:228 | the decimal digits of n are non-empty, all digits, have no leading zero, and read back as n |
| GoStrings.Itoa | src/api/main.go:228 | the `%d` text is never empty and starts with a minus exactly for negative numbers |
| GoStrings.AtoiItoa | src/api/main.go:218 | parsing the `%d` text of any 64-bit integer gives the integer back |
| NativeSquare.CSquare | src/api/main.go:225 | the native square is exact for every argument whose square fits in 32 bits |
| NativeSquare.SquareOf | src/api/main.go:204 | a Go `int` is narrowed to the 32-bit value congruent to it modulo 2^32, so the reported square is that value's native square; a value in the 32-bit range is passed through unchanged, and the square is exact for arguments from -46340 to 46340 |
| NativeSquare.SquareOfCongruent | src/api/main.go:204 | every 32-bit value congruent to num modulo 2^32 has the same native square as num's narrowing |
| NativeSquare.SquareTruncates | src/api/main.go:225 | the reported square is not always num * num: 2^32 + 3 is narrowed to 3 by `C.int` and squares to 9, and 65536, which is not narrowed, squares to 0 only through the wrap assumed of the native routine |
| Utils.Repeat | src/utils/utils.go:35 | a run of n copies of one character: length n, every position that character |
| Utils.ChunkPlan | src/utils/utils.go:37-44 | the loop writes something exactly when some of the total is still missing |
| Utils.ChunkPlanShape | src/utils/utils.go:37-51 | the planned writes add up to exactly the missing size, none when nothing is missing; each is 1 to chunkSize bytes, and only the last may be short |
| Utils.ChunkPlanCount | src/utils/utils.go:37-51 | the number of writes is the total divided by the chunk size, rounded up |
| Utils.ChunkPlanStep | src/utils/utils.go:39-44 | one pass writes the full chunk, or the whole remainder when less than a chunk is missing, and leaves the plan for the rest |
| Utils.ProgressStep | src/utils/utils.go:54 | among positive totals, the progress divisor is 0 exactly for 1 to 19, and it is at least 1 from 20 on |
| Utils.ProgressLogSpec | src/utils/utils.go:54-56 | a progress log's counts are positive, bounded, pass the progress test and strictly increase |
| Utils.NextWrite | src/utils/utils.go:41-44 | the text written in one pass is a run of 'A' of the chunk size or of the remainder, whichever is smaller |
| Utils.ReportProgress | src/utils/utils.go:54-56 | a count is logged exactly when it is a multiple of the step or the total, and the log stays well formed |
| Utils.ReceiveChunk | src/utils/utils.go:38-56 | one pass of the loop receives at least one byte and keeps the loop's invariant: the file holds the bytes received as 'A's, the writes so far followed by the plan for the rest make up the whole plan, and the progress log is well formed and ends with the total once everything is written |
| Utils.SimulateFileStreaming | src/utils/utils.go:20-68 | the file holds exactly max(totalSize, 0) bytes of 'A'; the writes follow the chunk plan; progress is a well-formed log ending with the total, and empty when nothing is written |
| Utils.SeedIsBascomHunter | src/utils/utils.go:85-86 | the seed bytes are the ASCII text "BascomHunter" |
| Utils.LoadAndModify | src/utils/utils.go:82-116 | the buffer, or the seed when there is none, keeps its length and every byte except index 6, which becomes 'Z' |
| Utils.FreshLoadIsBascomZunter | src/utils/utils.go:83-103 | the first load shows "BascomZunter" |
| Utils.LoadAndModifyIdempotent | src/utils/utils.go:101-103 | a second edit leaves the buffer as the first one left it |
| Utils.Hex2 | src/utils/utils.go:96 | `%02X` of a byte is two characters |
| Utils.HexValue | src/utils/utils.go:96 | reading an upper-case hex digit is the inverse of writing it |
| Utils.Hex2RoundTrip | src/utils/utils.go:96 | the two hex digits shown for a byte read back as that byte |
| Utils.HexLine | src/utils/utils.go:95-97 | the hex display of n bytes is 3n characters long |
| Utils.HexLineAt | src/utils/utils.go:95-97 | byte i of the buffer is shown at characters 3i to 3i+2, followed by a space |
| Utils.HexDump | src/utils/utils.go:95-97 | the display loop produces the hex display of the whole buffer, in order |
| Utils.LoadAndModifyString | src/utils/utils.go:82-116 | a nil pointer gets a fresh seed buffer, any other keeps its array; the contents become the edited buffer; the two displays show the buffer before and after the edit |
| Handlers.JsonHandler | src/api/main.go:23-56 | 405 exactly for a method other than POST, with no effect; 400 exactly when the body does not decode, after only reading it; 500 exactly when creating or encoding fails; a decoded POST always tries to create data.json after reading the body, and encodes into it only when that succeeded, so a failed encode has still created or truncated the file; 200 exactly when the payload was written to data.json |
| Handlers.UploadDir | src/api/main.go:88-91 | the directory is the `destDir` value, or "." when it is empty |
| Handlers.UploadName | src/api/main.go:93-96 | the file name is the `destFilename` value, or the client's file name when it is empty |
| Handlers.DestinationPath | src/api/main.go:106 | the path is the directory without its run of trailing slashes, then one slash, then the file name |
| Handlers.DestinationDefaults | src/api/main.go:88-106 | with neither form value the upload goes to "./" followed by the client's file name |
| Handlers.DestinationJoin | src/api/main.go:106 | any number of trailing slashes on a directory collapses to a single separator |
| Handlers.DestinationAllSlashes | src/api/main.go:106 | a directory made only of slashes resolves to "/" followed by the name |
| Handlers.UploadHandler | src/api/main.go:66-126 | 405 exactly for a method other than POST; 400 exactly for a bad form or missing file, before the file system is touched; 500 exactly when making the directory, creating the file or copying the upload fails on a well-formed POST; 200 exactly when every step succeeds, with the path in the reply; on a well-formed POST the effects are, in order, reading the body, making the directory, creating the destination file and copying the upload into it, cut short right after the first of the last three that fails |
| Handlers.QueryValues | src/api/main.go:211 | every value returned was given for the key, there are none exactly when the key is absent, and the first one is the value of the key's first occurrence in the query |
| Handlers.SquareHandler | src/api/main.go:209-229 | every answer is 200 or 400; 200 exactly when the first `number` value parses as an integer, with the text naming the number and its square across the boundary |
| Handlers.SquareHandlerExact | src/api/main.go:218-228 | for a number whose square fits in 32 bits the reply states the number and its true square |
| Handlers.SquareHandlerFirstValueOnly | src/api/main.go:211-215 | an empty first value is reported as missing, whatever values follow |
| Menu.ChoiceNumber | src/api/main.go:168-185 | each entry is numbered from 1 to 5 |
| Menu.ParseChoice | src/api/main.go:159-168 | a selected entry is the one whose number the trimmed line parses to |
| Menu.ParseChoiceAccepts | src/api/main.go:159-165 | a line is accepted exactly when its trimmed text parses as an integer from 1 to 5 |
| Menu.ParseChoiceOfNumber | src/api/main.go:159-165 | an entry's number surrounded by any white space selects that entry |
| Menu.ParseChoiceRejects | src/api/main.go:161-165 | text, 0, 6 and the empty line are refused |
| Menu.Step | src/api/main.go:168-185 | a stopped loop never changes; the loop keeps running unless the exit entry is chosen; only entry 4 changes the buffer, to its edited form |
| Menu.ParseLines | src/api/main.go:159-160 | every input line yields exactly one parsed entry |
| Menu.ParseLinesAt | src/api/main.go:159-160 | each line is parsed on its own |
| Menu.ParseLinesPrefix | src/api/main.go:159-160 | parsing a prefix of the input gives a prefix of the parsed input |
| Menu.Run | src/api/main.go:145-186 | whatever the input, the buffer is still nil or holds the edited seed |
| Menu.RunLoadsBascomZunter | src/api/main.go:180-181 | once loaded, the buffer always reads "BascomZunter" |
| Menu.StoppedStaysStopped | src/api/main.go:182-184 | input after the exit entry changes nothing |
| Menu.StoppedIgnoresRest | src/api/main.go:182-184 | once the loop has stopped, the rest of the input is ignored |
| Menu.RunningPrefix | src/api/main.go:181-184 | a loop still running after some input was running after every shorter part of it, since it only stops by returning |
| Menu.RunStoppedIff | src/api/main.go:182-184 | the loop has stopped exactly when the exit entry has been chosen |
| Menu.RunLoadedIff | src/api/main.go:145-181 | the buffer is loaded exactly when entry 4 was chosen while the loop was running |
| Menu.FirstEditShowsBascomZunter | src/api/main.go:180-181 | entry 4 on a fresh start loads the seed and shows "BascomZunter" |
| Menu.ConsoleSquare | src/api/main.go:195-205 | the invalid-input message is printed exactly when the trimmed line does not parse as an integer; otherwise the line echoes the parsed value (in `%d` form, whatever sign or leading zeros were typed) and its square across the native boundary |
| Menu.ConsoleSquareOfPadded | src/api/main.go:190-206 | a number typed with surrounding white space is echoed with its square across the boundary, exactly so when the square fits in 32 bits |
| Menu.ConsoleSquareRefuses | src/api/main.go:196-201 | a word, an empty line and a number with an inner space are refused with the invalid-input message |
| Menu.RunSnoc | src/api/main.go:148-186 | one more line is one more step of the state machine |
| Menu.HandleNextLine | src/api/main.go:145-185 | the pass that reads line i, after lines that kept the loop running, advances the state machine by that line's entry and stops exactly when it is the exit entry |
| Menu.HandleLine | src/api/main.go:159-185 | one pass of the loop body changes the buffer and decides to stop exactly as one Step does; a loaded buffer is modified in place and kept, and a buffer appears only as a fresh allocation |
| Menu.MenuLoop | src/api/main.go:145-186 | the loop reads lines until the first one that selects the exit entry, that one included, or to the end of the input: every line before the last one read left the loop running; the lines it read lead to the same state as the whole input; the buffer it ends with is the one the state machine predicts |

## Left out

- Console and HTTP output text is left out: the menu, the prompts, the greeting, the progress lines and the messages printed around the buffer edit. The hex displays, the square text and the HTTP response bodies are modelled.
- I/O is left out, because it is outside the program: the operations' outcomes are parameters of the handlers. This covers reading standard input, the file system, JSON decoding and encoding, and multipart parsing.
- Utils.SimulateFileStreaming: failures of `os.Create`, `WriteString` and `Flush` are not modelled; the file is modelled as the text written to it, and the file path is not modelled.
- Utils.SimulateFileStreaming: its preconditions are the inputs on which the Go code fails.
  - A negative chunk size makes `strings.Repeat` panic.
  - A zero chunk size with a positive total never advances.
  - A total from 1 to 19 makes the progress test divide by zero.
- Utils.LoadAndModify: a buffer of 6 bytes or fewer makes Go panic on the index. The model requires a longer buffer; the menu only ever passes the 12-byte seed.
- Utils.ProgressStep: `int(float64(totalSize)*0.05)` is modelled as division by 20. The two agree below 2^52; for larger totals, rounding of the float conversion is not modelled.
- Menu.MenuLoop: the input is a finite list of lines.
  - At the end of input the Go loop ignores the read error and spins forever on "Invalid choice". The model stops when the lines run out.
  - Entry 2 reads its number through a second `bufio.Reader` on standard input. Which line that reader sees depends on the first reader's buffering, so the loop does not consume it. `Menu.ConsoleSquare` models that call on the line it reads.
  - Entries 1 and 3 act only on the console and the file system, so they do not change the modelled state. Entry 3 calls `SimulateFileStreaming(1024, 100*1024*1024, ...)`, which `Utils.SimulateFileStreaming` covers.
- The server's start-up is left out because it is process plumbing: `http.HandleFunc` registration, `ListenAndServe` in its goroutine, the PID line and the startup checks. Concurrency between the server goroutine and the menu is not modelled; the handlers share no state with the menu.
- NativeSquare.CSquare: the C library `c_sqr` is not part of this model. Its `square` is taken to compute n*n in C `int`, wrapping on overflow.
- Go's `int` is taken to be 64 bits wide.
- Strings are sequences of code points. `strings.TrimSpace` and `strconv.Atoi` work on UTF-8 bytes; the two agree on the ASCII text these routines accept.
- FibRust.RustFib: admits only n <= 46. Rust's `i32` addition panics on overflow in debug builds (release builds wrap), so larger arguments are excluded rather than given a value.
- Handlers.SquareHandler: the handler checks no method, so the model answers every method alike.
- cmd/fibgo/main.go, fibrust/src/main.rs and main.py are drivers that only print results; they are not part of this model.

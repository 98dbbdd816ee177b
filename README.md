# fishtest worker: configuration, integrity and retry logic in Dafny

This project models the decision logic of the fishtest worker client
(`worker/worker.py`). The worker is a long-running program. It reads and
repairs its configuration file, checks that its own files are unmodified,
and then fetches and runs test tasks in a loop. Most of the worker is
processes, HTTP, files and threads. The parts modelled here are the
sequential rules between those:

- the option value types `_bool`, `_alpha_numeric`, and the bound checks of
  `_concurrency` and `_memory` (`option_types.dfy`);
- `validate`, which reconciles the configuration table in place against
  the schema, and the schema `setup_parameters` passes it
  (`config.dfy`, class `Config`);
- the fix-ups of `setup_parameters`: the port that contradicts the
  protocol, and the memory-based concurrency cap (`setup.dfy`, class
  `Options`);
- `generate_sri`, `verify_sri` and `verify_remote_sri`, the comparisons of
  file-hash dictionaries (`integrity.dfy`);
- `utcoffset` and `get_exception` (`diagnostics.dfy`);
- the main loop of `worker()` with its exponential back-off
  (`main_loop.dfy`).

`text.dfy` holds the Python string primitives these rely on (`strip`,
ASCII `lower`, `in` on strings, `str(n)` and `f"{n:02d}"`), and
`wrappers.dfy` the `Option`/`Result` types for `None` returns and raised
`ValueError`s.

Inputs that come from outside the worker's own logic are parameters:

- the arithmetic expression parser's value for a text, as `Option<int>`;
- file hashes, the contents of sri.txt and the downloaded sri;
- the UTC offset in seconds;
- the traceback's frames;
- for each pass of the main loop, what the task returned and whether a
  "fish.exit" file or a signal appeared.

Each imperative part of the source is a method proved against a function:

- `Config.Validate` against `Validated`;
- `Options.FixUp` against `RewritePort` and `CapConcurrency`;
- `GenerateSri`, `VerifySri`, `VerifyRemoteSri` against `SriOf`,
  `SriMatches`, `SameVersion` and `Untainted`;
- `GetException` against `ReportedIndex`;
- `WorkerLoop` against `Run`.

The lemmas state the source's promises about those functions.

## Model

| member | source | states |
|---|---|---|
| `Text.Strip` | worker/worker.py:148 | `str.strip`: the result is no longer than the input, starts and ends with a non-whitespace character, and is empty exactly when the input is all whitespace |
| `Text.StripPadded` | worker/worker.py:148 | whitespace around a text that has none at its ends is removed exactly, leaving the text |
| `Text.StripIdempotent` | worker/worker.py:160 | stripping twice gives the same as stripping once |
| `Text.ReadDecimalOfDecimal` | worker/worker.py:1201 | the decimal digits written for a number read back as that number |
| `Text.Pad2` | worker/worker.py:1201 | `{n:02d}` is at least two digits, exactly two below 100, and reads back as `n` |
| `Text.Lower` | worker/worker.py:148 | `str.lower` on ASCII: same length, each character lower-cased on its own |
| `Text.Contains` | worker/worker.py:211 | `pat in s`: some window of `s` equals `pat` (with `ContainsAt` giving the witness position) |
| `Text.Decimal` | worker/worker.py:1150 | `str(n)` for a natural: non-empty, all digits, no leading zero, one digit exactly below 10 |
| `OptionTypes.ParseBool` | worker/worker.py:147-153 | after strip and lower, True exactly for "true"/"1", False exactly for "false"/"0", `ValueError` for everything else |
| `OptionTypes.ParseBoolText` | worker/worker.py:865 | `_bool` reads the `str(fleet)` the worker writes back as the same boolean |
| `OptionTypes.ParseBoolPadded` | worker/worker.py:147-153 | surrounding whitespace and upper case do not change what `_bool` reads |
| `OptionTypes.BoolText` | worker/worker.py:865 | `str(b)` of a boolean, "True" or "False", which `ParseBoolText` reads back |
| `OptionTypes.AlphaNumeric` | worker/worker.py:158-168 | accepted iff the stripped text is "_hw" or at least two ASCII letters/digits; the result is then the first min(8, length) characters of the stripped text, so a padded "_hw" gives "_hw" |
| `OptionTypes.AlphaNumericStable` | worker/worker.py:159-168 | an accepted prefix is accepted again unchanged, so writing it back is stable |
| `OptionTypes.HardwarePrefixAccepted` | worker/worker.py:159-161 | the default prefix "_hw" is accepted and kept as it is |
| `OptionTypes.Concurrency` | worker/worker.py:197-220 | an accepted value v satisfies 1 <= v <= MAX and v < MAX unless the text contains "MAX", and every such value is accepted; the text is returned unchanged |
| `OptionTypes.Memory` | worker/worker.py:179-189 | accepted iff the expression evaluates; the value is clamped into [0, MAX]: unchanged inside, 0 below, MAX above |
| `OptionTypes.IntTextOfDigits` | worker/worker.py:628 | a non-empty digit string is a valid `int` text, so the numeric defaults and written-back numbers pass |
| `OptionTypes.IsIntText` | worker/worker.py:628 | what Python's `int` accepts of a text: after strip, an optional sign and digits with single `_` separators |
| `ConfigValidation.Reconciled` | worker/worker.py:518-547 | the value one row leaves: the default when the option is missing; otherwise the preprocessed text if it passes, else the default |
| `ConfigValidation.ApplyEntry` | worker/worker.py:517-547 | one row of the first loop adds its section, sets its option to `Reconciled`, and changes no other option |
| `ConfigValidation.ApplyAll` | worker/worker.py:516-547 | the first loop of `validate`: the rows applied in schema order (properties in the `ApplyAll*` lemmas) |
| `ConfigValidation.Cleanup` | worker/worker.py:549-560 | the cleanup loop keeps exactly the sections and (section, option) pairs the schema names, with their values |
| `ConfigValidation.Validated` | worker/worker.py:515-560 | `validate` as a function: the first loop, then the cleanup (properties in the `Validated*` lemmas) |
| `ConfigValidation.ApplyAllGrows` | worker/worker.py:516-520 | the first loop of `validate` only adds sections and options, and adds every schema option |
| `ConfigValidation.ApplyAllElsewhere` | worker/worker.py:516-547 | options the schema does not name keep their value through the first loop |
| `ConfigValidation.ApplyAllAt` | worker/worker.py:516-547 | with unique keys, each schema option ends the first loop with the value its own row gives it |
| `ConfigValidation.ValidatedComplete` | worker/worker.py:516-520 | after `validate` every (section, option) of the schema is present |
| `ConfigValidation.ValidatedOnlySchema` | worker/worker.py:549-560 | after `validate` every section and option left is one the schema names |
| `ConfigValidation.ValidatedValue` | worker/worker.py:515-547 | a missing option gets the default; a value whose preprocessed text passes its type or choices is kept (preprocessed); one that fails is replaced by the default |
| `ConfigValidation.ValidatedConforms` | worker/worker.py:515-560 | with sound defaults and preprocessors, the table `validate` leaves has only schema options, each passing its check |
| `ConfigValidation.ConformingLookup` | worker/worker.py:515-560 | on a conforming table, `validate` gives every option the value it had |
| `ConfigValidation.ConformingSection` | worker/worker.py:552-556 | on a conforming table, `validate` keeps exactly the sections it had |
| `ConfigValidation.ValidatedKeepsConforming` | worker/worker.py:515-560 | `validate` leaves a conforming table unchanged |
| `ConfigValidation.ValidatedIdempotent` | worker/worker.py:515-560 | validating twice gives the same table as validating once |
| `ConfigValidation.Config.Validate` | worker/worker.py:515-560 | the table after the in-place updates is `Validated(old table, schema)` |
| `ConfigValidation.Config.ApplyRow` | worker/worker.py:517-547 | one row: add the section, set a missing option to the default, apply the preprocessor, replace a failing value by the default |
| `ConfigValidation.Config.RemoveUnknown` | worker/worker.py:549-560 | the cleanup loop removes every section outside the schema and cleans the others |
| `ConfigValidation.Config.RemoveUnknownOptions` | worker/worker.py:557-560 | the inner loop removes exactly the options of a section the schema does not name |
| `ConfigValidation.Config.constructor` | worker/worker.py:565 | a configuration holding a given table |
| `ConfigValidation.DefaultCompiler` | worker/worker.py:616-620 | the default compiler is one of the detected compilers: "g++" exactly when g++ was detected, otherwise the first detected compiler |
| `ConfigValidation.WorkerSchema` | worker/worker.py:622-649 | the worker's schema has 13 rows and no preprocessors |
| `ConfigValidation.WorkerSchemaUnique` | worker/worker.py:622-649 | no option is named twice in the worker's schema |
| `ConfigValidation.ConcurrencyDefaultPasses` | worker/worker.py:629-635 | when the expression evaluator gives "max(1,min(3,MAX-1))" its value, the default passes `_concurrency` on every machine with at least one core, 3-core machines included |
| `ConfigValidation.IntDefaultsPass` | worker/worker.py:628 | the `int` defaults "443", "1" and the random seed are `int` texts |
| `ConfigValidation.WorkerDefaultsConform` | worker/worker.py:622-649 | every default of the worker's schema passes its own check |
| `ConfigValidation.WorkerSchemaIntRows` | worker/worker.py:628-648 | rows 4, 8 and 12 of the schema are the `int` options port, min_threads and hw_seed with defaults "443", "1" and `str(seed)` |
| `ConfigValidation.WorkerSchemaOtherRows` | worker/worker.py:622-649 | the other rows of the schema: the free-text options, the protocol and compiler choices, and the concurrency, memory, prefix and fleet rows |
| `ConfigValidation.PrefixAndFleetDefaultsPass` | worker/worker.py:643-645 | the defaults "_hw" and "False" pass `_alpha_numeric` and `_bool` |
| `ConfigValidation.WorkerIntDefaultPasses` | worker/worker.py:628-648 | the defaults of the three `int` options (port "443", min_threads "1", the random hw_seed) pass `int` |
| `ConfigValidation.WorkerDefaultPasses` | worker/worker.py:622-649 | row by row, the default of each of the other ten schema options passes that option's own check |
| `ConfigValidation.WorkerValidateIdempotent` | worker/worker.py:651 | validating an already validated worker configuration changes nothing |
| `Setup.RewritePort` | worker/worker.py:789-796 | http on port 443 becomes port 80, https on port 80 becomes port 443, and any other port is unchanged; so http never ends on 443 and https never on 80 |
| `Setup.RewritePortIdempotent` | worker/worker.py:789-796 | rewriting a rewritten port changes nothing |
| `Setup.TruncDivStc` | worker/worker.py:805 | `int(a / 360)` rounds toward zero: 360*q is the multiple of 360 nearest `a` on the side of zero |
| `Setup.MaxConcurrency` | worker/worker.py:805 | `int((max_memory - 60) / 360)`, the number of STC game pairs that fit (properties in `MaxConcurrencyPositive` and `MaxConcurrencyLargest`) |
| `Setup.MaxConcurrencyPositive` | worker/worker.py:803-810 | setup gives up exactly when max_memory < 420 MiB |
| `Setup.MaxConcurrencyLargest` | worker/worker.py:798-805 | the cap is the largest number of STC game pairs (360 MiB each) that fit beside fastchess (60 MiB) |
| `Setup.CapConcurrency` | worker/worker.py:805-822 | fails iff memory < 420; else the final concurrency fits the memory, never exceeds the request, and is reduced exactly when it was lowered, to the cap |
| `Setup.CapIsMinimum` | worker/worker.py:811-822 | the final concurrency is min(requested, cap) |
| `Setup.Options.FixUp` | worker/worker.py:789-822 | the new port, concurrency and reduced flag are those of `RewritePort` and `CapConcurrency`; on failure only the port changes |
| `Setup.Options.constructor` | worker/worker.py:786-787 | options holding the parsed protocol, port, concurrency and memory |
| `Integrity.SriOf` | worker/worker.py:230-241 | `None` iff some listed file cannot be hashed; otherwise exactly the version and the three file hashes |
| `Integrity.GenerateSri` | worker/worker.py:230-241 | the loop builds `SriOf(hash)`, giving up at the first file that cannot be hashed |
| `Integrity.SriMatches` | worker/worker.py:270-278 | every computed entry except "__version" is in the stored sri with the same value |
| `Integrity.VerifySri` | worker/worker.py:253-280 | true iff hashing and reading succeeded and every computed entry except "__version" is stored with an equal value |
| `Integrity.SameVersion` | worker/worker.py:299-300 | the published "__version" (missing counts as -1) equals the worker version 286 |
| `Integrity.Untainted` | worker/worker.py:303-306 | every published entry is in the local sri with the same value |
| `Integrity.VerifyRemoteSri` | worker/worker.py:290-313 | `None` when the download failed; true when the published version differs; otherwise true iff every published entry is present locally with an equal value |
| `Integrity.ChecksAgree` | worker/worker.py:270-309 | for sris of this version with the same keys, the local and the published check agree |
| `Integrity.GeneratedSriPasses` | worker/worker.py:230-313 | a worker whose file hashes equal those recorded passes both checks: an sri.txt holding them matches whatever its version and extra entries, and a published sri of this version listing only them finds nothing tainted |
| `Integrity.ModifiedFileDetected` | worker/worker.py:270-309 | a changed hash of any listed file fails both checks |
| `Diagnostics.OffsetFields` | worker/worker.py:1196-1201 | the sign is '+' iff the offset is >= 0; hh*60 + mm = abs(offset // 60) with mm < 60 |
| `Diagnostics.Render` | worker/worker.py:1201 | sign, zero-padded hours, ':' and two minute digits |
| `Diagnostics.UtcOffset` | worker/worker.py:1196-1201 | `utcoffset`: at least six characters with a colon before the last two, starting with "+" exactly when the offset is not negative |
| `Diagnostics.ReadRender` | worker/worker.py:1201 | reading the rendered text gives back sign, hours and minutes |
| `Diagnostics.UtcOffsetRoundTrip` | worker/worker.py:1196-1201 | the `utcoffset` text reads back as the offset's sign and its whole minutes split into hours and minutes < 60 |
| `Diagnostics.UtcOffsetWidth` | worker/worker.py:1201 | offsets within a day are written in exactly six characters |
| `Diagnostics.OwnRun` | worker/worker.py:1151-1158 | the leading frames in the worker's files: all of them lie in the files, and the next frame does not |
| `Diagnostics.ReportedIndex` | worker/worker.py:1145-1159 | the reported frame is the last of the leading frames in the worker's files, or the first frame when it lies elsewhere |
| `Diagnostics.Message` | worker/worker.py:1150 | the one-line report "Exception T at F:L WorkerVersion: 286" for a frame |
| `Diagnostics.MessageNames` | worker/worker.py:1150 | the report contains the exception type, the file name and the line number |
| `Diagnostics.GetException` | worker/worker.py:1145-1159 | the loop's message describes frame `ReportedIndex` |
| `MainLoop.NextDelay` | worker/worker.py:1597 | `min(MAX_RETRY_TIME, delay * 2)` (its closed form is `NextDelayBackoff`) |
| `MainLoop.Run` | worker/worker.py:1569-1611 | the loop as a function of the attempts: why it stops, the back-off sleeps, the final delay and the passes (properties in the lemmas below) |
| `MainLoop.ExitCode` | worker/worker.py:1611 | the exit code is 0 exactly when the loop stopped on "fish.exit", 1 otherwise |
| `MainLoop.WorkerLoop` | worker/worker.py:1569-1611 | the loop's course is `Run(fleet, attempts, 15)`, the exit code is 0 only after "fish.exit", and the delay stays within [15, 900] |
| `MainLoop.SleepsBounded` | worker/worker.py:1594-1599 | every back-off sleep lies within [15, 900] seconds |
| `MainLoop.FleetNeverSleeps` | worker/worker.py:1589-1593 | in fleet mode the worker never sleeps, and a fleet stop comes right after a failed task |
| `MainLoop.NextDelayBackoff` | worker/worker.py:1597 | doubling with the cap moves the closed form min(900, 15*2^n) one step |
| `MainLoop.BackoffCapped` | worker/worker.py:1597 | the delay is 15*2^n below the cap for n < 6 and the cap 900 from the sixth failure on |
| `MainLoop.SleepsDouble` | worker/worker.py:1589-1597 | consecutive failures sleep min(900, 15*2^k) for k = 0, 1, 2, ... |
| `MainLoop.SuccessResets` | worker/worker.py:1598-1599 | after a success the loop's course no longer depends on the previous delay |

## Left out

- Subprocess work: compiler detection, `verify_toolchain`, building and running fastchess, machine-id probing. These are external processes.
- Network calls: `send_api_post_request`, the GitHub rate-limit query, `download_sri`, the credential checks and the request/upload parts of `fetch_and_handle_task`. Their outcomes are inputs (`Option` values, `Attempt` fields).
- File and OS I/O: reading and writing sri.txt and the configuration file, the lock file, the PGN files, `os.chdir`/`rmtree`. `safe_sleep` is a sleep whose interruption is the `signalledInSleep` field.
- The heartbeat thread and the signal handlers: they run in parallel with the main loop. A signal is modelled only by its effect on `current_state["alive"]`.
- The expression parser `Expression_Parser`: its result is an input, already rounded to an integer.
- OptionTypes.Memory: does not model the float MAX (`mem / 1024 / 1024`) or a fractional expression value, because MAX and the value are integers here; with a float MAX, `round` may give MAX rounded up.
- OptionTypes.IsIntText: Python's `int` also accepts non-ASCII Unicode digits; only ASCII digits (with `_` separators) are modelled.
- Text.Lower: lower-casing is ASCII only. No non-ASCII character lower-cases to a letter of "true" or "false", so `_bool` is unaffected.
- ConfigParser details: the DEFAULT section, option-name case folding and inline comments are not modelled. The configuration is a map of sections to maps of options, so section and option order is not modelled either.
- Integrity.VerifyRemoteSri: the locally computed sri is taken as given, never `None`. In the source, a failed local hash (`generate_sri` returning `None`) still gives `None` on a failed download and `True` on another version. Only after a successful download whose "__version" is 286 does the membership test `k not in sri` raise a `TypeError` (worker/worker.py:305); that raise is not modelled.
- Setup.MaxConcurrency: `(max_memory - 60) / 360` is computed exactly and truncated toward zero, as Python's float division does for memory sizes below 2^53 MiB.
- Diagnostics.GetException: frames are given by file base name (`Path(filename).name`) and line number; the exception type is given by its name.
- `fingerprint`, `hw_id`, `get_uuid`, `uuid4`, `random` and the hashing in `text_hash` are opaque; the random `hw_seed` is an input.
- Everything imported from `games.py` and `updater.py` is not part of this model.

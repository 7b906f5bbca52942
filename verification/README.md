# notifyd text-to-speech core, in Dafny

notifyd speaks short notification texts. The part modelled here is its
text-to-speech core in `src/main.rs`:

- choosing a TTS engine (`TTSEngine`, `_tts_to_bin_name`, `_look_for_candidate_engine`);
- the `TTS` object: it is built once with a private temporary directory and a `u64` counter starting at 0, and each `speak_to_file` call names one `<counter>.wav` file and runs the engine to write it; the path is added to the live files if the engine wrote it, and otherwise the live files are unchanged;
- the `TtsSentence` handle, whose `Drop` deletes the generated file and ignores any failure;
- `TTS::clear`, which closes the temporary directory.

Files:

- `decimal.dfy` (module `Decimal`) renders a `u64` in decimal, as `format!("{}", n)` does. It proves that the digits denote the number, so distinct numbers give distinct strings.
- `fs.dfy` (module `Fs`) models the filesystem as the set of paths of files that exist. It has `remove_file` and the recursive removal behind `TempDir::close`.
- `tts.dfy` (module `Tts`) holds the engine enum, engine resolution, the `Tts` class and the `TtsSentence` value with its `Drop`.

The calls into the outside world become parameters:

- `which` is a map from executable name to absolute path, holding every name found on PATH;
- `TempDir::new`, `TempDir::close` and `remove_file` are given as the `IoResult` the operating system would report;
- `Command::output` is a function `spawn(program, args)` that says whether the process was started, with what exit status, and whether it wrote its output file.

Because `spawn` receives the arguments, the contract of `SpeakToFile` fixes the argument vector exactly. A Rust panic is the `Panic` alternative of `Outcome`. `TtsSentence::new` (src/main.rs:31-37) is the datatype constructor `TtsSentence(text, path)`.

Some behaviour of the code is easy to misread:

- Engine resolution with `Auto` stops at the first candidate that is missing, so only `pico2wave` is ever looked up. With only espeak installed, the daemon panics instead of choosing espeak (`AutoWithOnlyEspeak`).
- Files are named by a counter (`1.wav`, `2.wav`, …).
- The engine's exit status is never inspected. A sentence is returned whenever the process could be started.
- The locale passed to the engine is always `fr-FR`; it is not read from the environment.
- The ESPEAKNG binary is looked up as `easpeak-ng`, spelt as in the source.

## Model

| member | source | states |
|---|---|---|
| `Tts.BinName` | src/main.rs:60-68 | defined only for concrete engines; pico2wave, espeak and ESPEAKNG map to "pico2wave", "espeak" and "easpeak-ng", each in both directions, so distinct engines get distinct executables |
| `Tts.LookForCandidateEngine` | src/main.rs:70-88 | never returns `Auto` and never returns an error; a concrete engine comes back unchanged without consulting PATH; `Auto` succeeds exactly when "pico2wave" is on PATH, and then yields `Pico2Wave`; otherwise it panics, so espeak and ESPEAKNG are never chosen by `Auto` |
| `Tts.AutoWithOnlyEspeak` | src/main.rs:77-87 | with espeak on PATH and pico2wave missing, resolving `Auto` panics |
| `Tts.Tts.New` | src/main.rs:106-128 | a temporary-directory failure is returned as an error before anything else; otherwise the result is a panic or a fresh valid object; it succeeds for `Auto` exactly when "pico2wave" is on PATH and for a concrete engine exactly when that engine's binary is on PATH; on success the engine is not `Auto`, the executable path is the one found on PATH, the counter is 0, no file has been named, and no file exists below the new temporary directory (which the operating system creates empty) |
| `Tts.Tts.constructor` | src/main.rs:124-127 | builds a valid object with counter 0, the given engine, executable path and directory, and no names issued |
| `Tts.Tts.SpeakToFile` | src/main.rs:90-103 | raises the counter by one (wrapping at 2^64) before use and names `<tmpdir>/<counter>.wav`; runs exactly `enginePath` with `["-w", path, "-l", "fr-FR", text]`; returns the error if the process cannot be started, otherwise a sentence holding exactly that path and the text, whatever the exit status; the path is added to the live files when the engine wrote it, and otherwise the live files are unchanged; the object stays valid |
| `Tts.Tts.Clear` | src/main.rs:130-134 | on success every file below the temporary directory is gone and every other file is untouched; a close failure is returned as an error |
| `Tts.TtsSentence.Drop` | src/main.rs:40-47 | when the operating system allows the removal, removes the sentence's own path from the live files and nothing else, whether or not the file still existed; when it refuses, the live files are unchanged and the failure is ignored |
| `Fs.FileSystem.RemoveFile` | src/main.rs:45 | succeeds exactly when the file existed and the operating system allowed the removal, and then removes exactly that path; on any failure no file changes |
| `Fs.FileSystem.RemoveDirAll` | src/main.rs:132 | on success removes exactly the files below the directory; on failure removes nothing and returns the failure |
| `Decimal.Format` | src/main.rs:93 | the decimal text of the counter is non-empty, all digits, has no leading zero (it starts with '0' only for 0), and has two or more digits exactly when the value is at least 10 |
| `Decimal.FormatValue` | src/main.rs:93 | the digits written for the counter denote the counter's value |
| `Decimal.FormatInjective` | src/main.rs:93 | distinct counter values render as distinct strings |
| `Tts.OutPath` | src/main.rs:93 | the output path lies inside the temporary directory and ends in ".wav" |
| `Tts.OutPathInjective` | src/main.rs:93 | distinct counter values give distinct output paths in the same directory |
| `Tts.IssuedPaths` | src/main.rs:92-93 | after n calls exactly n paths have been named, one per call |
| `Tts.IssuedPathsAt` | src/main.rs:92-93 | call k (counting from 0) names the file of counter value (k + 1) mod 2^64 |
| `Tts.FirstPathIsOne` | src/main.rs:92-93 | the first call of a fresh object names `<tmpdir>/1.wav` |
| `Tts.IssuedPathsDistinct` | src/main.rs:92-93 | any 2^64 or fewer calls name pairwise distinct paths |
| `Tts.Tts.IssuedDistinct` | src/main.rs:90-93 | on a valid object that has named at most 2^64 paths, all the paths it has named are pairwise distinct |
| `Tts.IssuedPathsWrap` | src/main.rs:92 | once the u64 counter wraps, call 2^64 + 1 names the same file as call 1 |

## Left out

- Command-line parsing (`Cli`) and `main` (src/main.rs:8-12, 140-154) are not modelled. They only parse arguments and run one hard-coded demonstration sentence.
- The `println!` logging is not modelled, because it is output only.
- The real PATH lookup, process spawning and temporary-directory creation and removal are not modelled. They are parameters instead: the `which` map, the `spawn` function and the `IoResult` outcomes. Both PATH lookups of `TTS::new` (src/main.rs:80 and src/main.rs:116) read the same `which` map, so PATH is taken not to change between them; the second-lookup panic at src/main.rs:119 therefore never happens for `Auto` in the model.
- The `expect` on converting the output path to UTF-8 (src/main.rs:94) is taken to succeed.
- Tts.Tts.SpeakToFile: the counter wraps at 2^64, as in a release build. The overflow panic of a debug build is not modelled.
- Tts.Tts.Clear: when closing the directory fails, the model keeps every file. The real recursive removal may have stopped part-way.
- Fs.FileSystem.RemoveDirAll: when the recursive removal fails, the model removes nothing. The real removal may already have deleted part of the tree.
- Tts.TtsSentence.Drop: Rust runs `drop` automatically, exactly once, when a sentence goes out of scope. In the model `Drop` is an explicit call on a copyable value, so nothing forces each sentence to be dropped, or to be dropped only once.
- `clear` takes `self` by value, so Rust forbids using the object afterwards. The model does not forbid calling `SpeakToFile` after `Clear`. Dropping a `TTS` without calling `clear` (the early return through `?` at src/main.rs:146, or a panic unwinding) is not modelled either; there `TempDir`'s own drop removes the directory and ignores any error.

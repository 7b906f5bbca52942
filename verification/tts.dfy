/**
 * The text-to-speech core of notifyd (src/main.rs): choosing a TTS engine,
 * naming and generating one audio file per sentence in a private temporary
 * directory, and deleting each file when its sentence handle is dropped.
 */
module Tts {
  import opened Decimal
  import opened Fs

  /** Number of values of a Rust `u64`; the file counter wraps modulo this. */
  const U64_MODULUS: nat := 0x1_0000_0000_0000_0000

  /** The engines the daemon can drive, plus `Auto`, which only asks for one to be chosen. */
  datatype TtsEngine = Pico2Wave | Espeak | EspeakNg | Auto

  /** How a call ends: a value, an error returned to the caller, or a panic. */
  datatype Outcome<T> = Ok(value: T) | Err(error: string) | Panic(message: string)

  /** What `Command::output` reports: the process ran (with some exit status,
      having written its output file or not), or it could not be spawned. */
  datatype SpawnOutcome = Exited(status: int, wroteOutput: bool) | SpawnFailed(error: string)

  /** A generated sentence: the text and the audio file that holds it. */
  datatype TtsSentence = TtsSentence(text: string, path: string)
  {
    /**
     * Dropping the handle deletes its file; a failure to delete is ignored.
     * `outcome` is what the operating system reports if the file exists.
     */
    method Drop(fs: FileSystem, outcome: IoResult<()>)
      modifies fs
      ensures outcome.Done? ==> fs.files == old(fs.files) - {path}
      ensures outcome.Failed? ==> fs.files == old(fs.files)
    {
      var ignored := fs.RemoveFile(path, outcome);
    }
  }

  /** The executable each concrete engine is run as (the ESPEAKNG entry is spelt as the source spells it). */
  function BinName(engine: TtsEngine): (name: string)
    requires engine != Auto
    ensures engine == Pico2Wave <==> name == "pico2wave"
    ensures engine == Espeak <==> name == "espeak"
    ensures engine == EspeakNg <==> name == "easpeak-ng"
  {
    match engine
    case Pico2Wave => "pico2wave"
    case Espeak => "espeak"
    case EspeakNg => "easpeak-ng"
  }

  /** The engines `Auto` is meant to choose among, in priority order. */
  const Candidates: seq<TtsEngine> := [Pico2Wave, Espeak, EspeakNg]

  /**
   * Resolves the requested engine. `which` maps every executable name found
   * on PATH to its absolute path. A concrete engine is returned as it is,
   * without looking at PATH. For `Auto` the candidates are probed in order,
   * but the probing loop leaves on the first candidate it does not find, so
   * only "pico2wave" is ever looked up: `Auto` resolves to `Pico2Wave` or
   * panics, whatever else is installed.
   */
  method LookForCandidateEngine(engine: TtsEngine, which: map<string, string>) returns (r: Outcome<TtsEngine>)
    ensures r.Ok? ==> r.value != Auto
    ensures !r.Err?
    ensures engine != Auto ==> r == Ok(engine)
    ensures engine == Auto ==> (r.Ok? <==> "pico2wave" in which)
    ensures engine == Auto && r.Ok? ==> r.value == Pico2Wave
  {
    if engine != Auto {
      return Ok(engine);
    }
    var engines := Candidates;
    // every iteration ends in `return` or `break`: only the first candidate is probed
    for i := 0 to |engines| {
      var e := engines[i];
      if BinName(e) in which {
        return Ok(e);
      } else {
        break;
      }
    }
    return Panic("Cannot find any binary for implementing TTS in PATH");
  }

  /** A client of the resolution: with espeak installed and pico2wave missing, `Auto` panics. */
  method AutoWithOnlyEspeak() returns (r: Outcome<TtsEngine>)
    ensures r.Panic?
  {
    r := LookForCandidateEngine(Auto, map["espeak" := "/usr/bin/espeak"]);
  }

  /** The file the `n`-th sentence is written to: `<dir>/<n>.wav`. */
  function OutPath(dir: string, n: nat): (p: string)
    ensures InDir(p, dir)
    ensures |p| >= |dir| + 6 && p[|p| - 4..] == ".wav"
  {
    dir + "/" + Format(n) + ".wav"
  }

  /** Different counter values give different file names in the same directory. */
  lemma OutPathInjective(dir: string, a: nat, b: nat)
    requires OutPath(dir, a) == OutPath(dir, b)
    ensures a == b
  {
    var p := OutPath(dir, a);
    assert Format(a) == p[|dir| + 1..|p| - 4];
    assert Format(b) == p[|dir| + 1..|p| - 4];
    FormatInjective(a, b);
  }

  /** The paths named by the first `calls` calls to `speak_to_file` of a fresh
      engine: the u64 counter is raised, wrapping at 2^64, before each use. */
  function IssuedPaths(dir: string, calls: nat): (ps: seq<string>)
    ensures |ps| == calls
  {
    if calls == 0 then [] else IssuedPaths(dir, calls - 1) + [OutPath(dir, calls % U64_MODULUS)]
  }

  /** The `k`-th call (counting from 0) names the file of counter value `k + 1`, modulo 2^64. */
  lemma {:induction false} IssuedPathsAt(dir: string, calls: nat, k: nat)
    requires k < calls
    ensures IssuedPaths(dir, calls)[k] == OutPath(dir, (k + 1) % U64_MODULUS)
    decreases calls
  {
    if k < calls - 1 {
      IssuedPathsAt(dir, calls - 1, k);
    }
  }

  /** The first call names `<dir>/1.wav`. */
  lemma FirstPathIsOne(dir: string, calls: nat)
    requires calls >= 1
    ensures IssuedPaths(dir, calls)[0] == dir + "/1.wav"
  {
    IssuedPathsAt(dir, calls, 0);
    assert Format(1) == "1";
  }

  /** Up to 2^64 calls name pairwise distinct files. */
  lemma IssuedPathsDistinct(dir: string, calls: nat, j: nat, k: nat)
    requires calls <= U64_MODULUS
    requires j < k < calls
    ensures IssuedPaths(dir, calls)[j] != IssuedPaths(dir, calls)[k]
  {
    IssuedPathsAt(dir, calls, j);
    IssuedPathsAt(dir, calls, k);
    if IssuedPaths(dir, calls)[j] == IssuedPaths(dir, calls)[k] {
      OutPathInjective(dir, (j + 1) % U64_MODULUS, (k + 1) % U64_MODULUS);
      assert false;
    }
  }

  /** Once the counter has wrapped, call 2^64 + 1 names the same file as call 1. */
  lemma IssuedPathsWrap(dir: string, calls: nat)
    requires calls > U64_MODULUS
    ensures IssuedPaths(dir, calls)[U64_MODULUS] == IssuedPaths(dir, calls)[0]
  {
    IssuedPathsAt(dir, calls, U64_MODULUS);
    IssuedPathsAt(dir, calls, 0);
  }

  /**
   * The `TTS` object: the engine in use, the absolute path of its executable,
   * its private temporary directory, and the counter that names generated
   * files. `issued` records every path a call has named so far.
   */
  class Tts {
    const engine: TtsEngine
    const enginePath: string
    const tmpdir: string
    const fs: FileSystem
    var counter: nat
    ghost var issued: seq<string>

    ghost predicate Valid()
      reads this
    {
      && engine != Auto
      && counter < U64_MODULUS
      && counter == |issued| % U64_MODULUS
      && issued == IssuedPaths(tmpdir, |issued|)
    }

    /** The struct literal at the end of `TTS::new`. */
    constructor (engine: TtsEngine, enginePath: string, tmpdir: string, fs: FileSystem)
      requires engine != Auto
      ensures Valid()
      ensures this.engine == engine && this.enginePath == enginePath
      ensures this.tmpdir == tmpdir && this.fs == fs
      ensures counter == 0 && issued == []
    {
      this.engine := engine;
      this.enginePath := enginePath;
      this.tmpdir := tmpdir;
      this.fs := fs;
      counter := 0;
      issued := [];
    }

    /**
     * `TTS::new`: creates the temporary directory (`tempDir` is what the
     * operating system reports: a new, empty directory, or an error),
     * resolves the engine, then looks its executable up on PATH again and
     * panics if it is not there.
     */
    static method New(engine: TtsEngine, tempDir: IoResult<string>, which: map<string, string>, fs: FileSystem)
      returns (r: Outcome<Tts>)
      requires tempDir.Done? ==> forall f | f in fs.files :: !InDir(f, tempDir.value)
      ensures tempDir.Failed? ==> r == Err(tempDir.error)
      ensures tempDir.Done? ==> !r.Err?
      ensures tempDir.Done? && engine == Auto ==> (r.Ok? <==> "pico2wave" in which)
      ensures tempDir.Done? && engine != Auto ==> (r.Ok? <==> BinName(engine) in which)
      ensures r.Ok? ==>
        && fresh(r.value)
        && r.value.Valid()
        && r.value.engine == (if engine == Auto then Pico2Wave else engine)
        && r.value.enginePath == which[BinName(r.value.engine)]
        && r.value.tmpdir == tempDir.value
        && r.value.fs == fs
        && r.value.counter == 0
        && r.value.issued == []
        && forall f | f in fs.files :: !InDir(f, r.value.tmpdir)
    {
      if tempDir.Failed? {
        return Err(tempDir.error);
      }
      var resolved := LookForCandidateEngine(engine, which);
      if !resolved.Ok? {
        return Panic(resolved.message);
      }
      var engineToUse := resolved.value;
      var binaryName := BinName(engineToUse);
      if binaryName !in which {
        return Panic("Cannot find TTS engine " + binaryName + " in PATH");
      }
      var tts := new Tts(engineToUse, which[binaryName], tempDir.value, fs);
      return Ok(tts);
    }

    /**
     * `TTS::speak_to_file`: raises the counter (wrapping like a release-build
     * u64), names the file `<tmpdir>/<counter>.wav`, runs the engine as
     * `enginePath -w <file> -l fr-FR <text>` through `spawn`, and hands back
     * the sentence as soon as the process could be started, whatever its
     * exit status.
     */
    method SpeakToFile(text: string, spawn: (string, seq<string>) -> SpawnOutcome) returns (r: Outcome<TtsSentence>)
      requires Valid()
      modifies this, fs
      ensures Valid()
      ensures counter == (old(counter) + 1) % U64_MODULUS
      ensures issued == old(issued) + [OutPath(tmpdir, counter)]
      ensures var outcome := spawn(enginePath, ["-w", OutPath(tmpdir, counter), "-l", "fr-FR", text]);
        && r == (if outcome.SpawnFailed? then Err(outcome.error) else Ok(TtsSentence(text, OutPath(tmpdir, counter))))
        && fs.files == (if outcome.Exited? && outcome.wroteOutput then old(fs.files) + {OutPath(tmpdir, counter)} else old(fs.files))
    {
      counter := if counter == U64_MODULUS - 1 then 0 else counter + 1;
      var outPath := OutPath(tmpdir, counter);
      issued := issued + [outPath];
      assert counter == |issued| % U64_MODULUS;

      var cmd := [enginePath, "-w", outPath, "-l", "fr-FR", text];
      var outcome := spawn(cmd[0], cmd[1..]);
      assert cmd[1..] == ["-w", outPath, "-l", "fr-FR", text];
      if outcome.SpawnFailed? {
        return Err(outcome.error);
      }
      if outcome.wroteOutput {
        fs.files := fs.files + {outPath};
      }
      return Ok(TtsSentence(text, outPath));
    }

    /** Up to 2^64 calls on one object name pairwise distinct files. */
    lemma IssuedDistinct()
      requires Valid()
      requires |issued| <= U64_MODULUS
      ensures forall j, k :: 0 <= j < k < |issued| ==> issued[j] != issued[k]
    {
      forall j, k | 0 <= j < k < |issued|
        ensures issued[j] != issued[k]
      {
        IssuedPathsDistinct(tmpdir, |issued|, j, k);
      }
    }

    /** `TTS::clear`: closes the temporary directory, deleting every file below it. */
    method Clear(close: IoResult<()>) returns (r: Outcome<()>)
      modifies fs
      ensures close.Done? ==> r == Ok(()) && fs.files == set f | f in old(fs.files) && !InDir(f, tmpdir)
      ensures close.Failed? ==> r == Err(close.error) && fs.files == old(fs.files)
    {
      var closed := fs.RemoveDirAll(tmpdir, close);
      if closed.Failed? {
        return Err(closed.error);
      }
      return Ok(());
    }
  }
}

/** `ExecutablesScanner`: following shebangs from a file to the ELF binary that
    finally runs it, at most five files deep. The file system is a parameter:
    the shebang reader, the file contents, the `_start` symbol probe (a
    `readelf` run), the AppDir lookup of `Finder.find_one` and `os.path.relpath`
    against the working directory. */
module ExecutablesScanner {
  import opened Wrappers
  import opened Bytes
  import opened Text
  import opened Paths
  import Elf

  /** What the scanner asks of the files it looks at. */
  datatype FileSystem = FileSystem(
    readShebang: string -> seq<string>,  // the shebang split in words; [] when there is none
    contents: string -> seq<byte>,
    hasStartSymbol: string -> bool,
    findOne: string -> Option<string>,   // an executable file of the AppDir with that name
    relPath: string -> string)

  datatype Kind = Interpreted(shebang: seq<string>) | Binary(arch: string)

  /** An executable found: a script with its shebang or a binary with its architecture. */
  datatype Step = Step(path: string, kind: Kind)

  /** `Executable`, linked to the executable that interprets it. */
  class Executable {
    const path: string
    const kind: Kind
    var interpreter: Executable?

    constructor (path: string, kind: Kind)
      ensures this.path == path && this.kind == kind && interpreter == null
    {
      this.path := path;
      this.kind := kind;
      interpreter := null;
    }
  }

  /** `MissingInterpreterError`, and the `IndexError` of a bare `#!/usr/bin/env`. */
  datatype ResolveError = MissingInterpreter(name: string) | ShebangIndexError

  /** The errors `scan_file` lets escape. */
  datatype ScanError = LoopFound(path: string) | InterpreterIndexError | ArchitectureError(error: Elf.ArchError)

  const Env: string := "/usr/bin/env"

  /** The program named by a shebang: the word after `/usr/bin/env`, or the first word. */
  function InterpreterWord(shebang: seq<string>): (w: Option<string>)
    requires shebang != []
    ensures w.None? <==> shebang[0] == Env && |shebang| == 1
    ensures w.Some? && shebang[0] == Env ==> w.value == shebang[1]
    ensures w.Some? && shebang[0] != Env ==> w.value == shebang[0]
  {
    if shebang[0] == Env then (if |shebang| > 1 then Some(shebang[1]) else None)
    else Some(shebang[0])
  }

  /** `_resolve_interpreter_path`: the AppDir file named like the interpreter
      (spaces stripped, directories dropped), relative to the working directory. */
  function ResolveInterpreterPath(fs: FileSystem, shebang: seq<string>): (r: Result<string, ResolveError>)
    requires shebang != []
    ensures r == Err(ShebangIndexError) <==> shebang[0] == Env && |shebang| == 1
    ensures r.Ok? ==> r.value != []
    ensures r.Ok? ==> var name := Basename(Strip(InterpreterWord(shebang).value, {' '}));
                      fs.findOne(name).Some? && fs.relPath(fs.findOne(name).value) == r.value
    ensures r.Err? && r.error.MissingInterpreter? ==>
              var name := Basename(Strip(InterpreterWord(shebang).value, {' '}));
              r.error.name == name && (fs.findOne(name).None? || fs.findOne(name).value == [] || fs.relPath(fs.findOne(name).value) == [])
  {
    match InterpreterWord(shebang)
    case None => Err(ShebangIndexError)
    case Some(word) =>
      var interpreter := Strip(word, {' '});
      var interpreterName := Basename(interpreter);
      var found := fs.findOne(interpreterName);
      if found.None? || found.value == [] then Err(MissingInterpreter(interpreterName))
      else
        var path := fs.relPath(found.value);
        if path != [] then Ok(path) else Err(MissingInterpreter(interpreterName))
  }

  /** `#!/usr/bin/env python3` resolves the same as `#!python3`. */
  lemma EnvResolvesItsArgument(fs: FileSystem, word: string, rest: seq<string>)
    requires word != Env
    ensures ResolveInterpreterPath(fs, [Env, word] + rest) == ResolveInterpreterPath(fs, [word])
  {
    assert ([Env, word] + rest)[0] == Env && ([Env, word] + rest)[1] == word;
  }

  /** Only the interpreter's file name counts: two words naming the same file
      name, wherever they place it, resolve alike. */
  lemma ResolutionByFileName(fs: FileSystem, a: string, b: string)
    requires a != Env && b != Env
    requires Basename(Strip(a, {' '})) == Basename(Strip(b, {' '}))
    ensures ResolveInterpreterPath(fs, [a]) == ResolveInterpreterPath(fs, [b])
  {
  }

  // ------------------------------------------------------------ the scan

  /** What `scan_file` returns or raises when the loop stands at `path` after
      `iterations` files. */
  function ScanFrom(fs: FileSystem, path: string, iterations: nat): Result<seq<Step>, ScanError>
    requires iterations <= 5
    decreases 5 - iterations
  {
    if iterations == 5 then Err(LoopFound(path))
    else
      var shebang := fs.readShebang(path);
      if shebang != [] then
        match ResolveInterpreterPath(fs, shebang)
        case Err(MissingInterpreter(_)) => Ok([])
        case Err(ShebangIndexError) => Err(InterpreterIndexError)
        case Ok(next) => Prepend([Step(path, Interpreted(shebang))], ScanFrom(fs, next, iterations + 1))
      else if Elf.HasMagicBytes(fs.contents(path)) && fs.hasStartSymbol(path) then
        match Elf.GetArch(fs.contents(path))
        case Err(e) => Err(ArchitectureError(e))
        case Ok(arch) => if iterations + 1 >= 5 then Err(LoopFound(path)) else Ok([Step(path, Binary(arch))])
      else Ok([])
  }

  function Prepend(pre: seq<Step>, r: Result<seq<Step>, ScanError>): (q: Result<seq<Step>, ScanError>)
    ensures q.Ok? <==> r.Ok?
    ensures q.Ok? ==> q.value == pre + r.value
    ensures q.Err? ==> q.error == r.error
  {
    match r
    case Ok(v) => Ok(pre + v)
    case Err(e) => Err(e)
  }

  lemma PrependTwice(a: seq<Step>, b: seq<Step>, r: Result<seq<Step>, ScanError>)
    ensures Prepend(a, Prepend(b, r)) == Prepend(a + b, r)
  {
    if r.Ok? {
      assert a + (b + r.value) == (a + b) + r.value;
    }
  }

  /** `scan_file`. */
  function Scan(fs: FileSystem, path: string): Result<seq<Step>, ScanError>
  {
    ScanFrom(fs, path, 0)
  }

  /** A successful scan gathers at most four files: a fifth raises "Loop found". */
  lemma ScanAtMostFour(fs: FileSystem, path: string)
    ensures Scan(fs, path).Ok? ==> |Scan(fs, path).value| <= 4
  {
    ScanFromBound(fs, path, 0);
  }

  lemma {:induction false} ScanFromBound(fs: FileSystem, path: string, iterations: nat)
    requires iterations <= 5
    ensures ScanFrom(fs, path, iterations).Ok? ==> iterations + |ScanFrom(fs, path, iterations).value| <= 4
    decreases 5 - iterations
  {
    if iterations < 5 {
      var shebang := fs.readShebang(path);
      if shebang != [] {
        var resolved := ResolveInterpreterPath(fs, shebang);
        if resolved.Ok? {
          ScanFromBound(fs, resolved.value, iterations + 1);
        }
      }
    }
  }

  /** The chain: the first file is the one scanned, every file but the last is a
      script whose interpreter resolves to the next, and only the last can be a binary. */
  lemma ScanIsChain(fs: FileSystem, path: string)
    ensures var r := Scan(fs, path);
      r.Ok? && r.value != [] ==> r.value[0].path == path
    ensures var r := Scan(fs, path);
      r.Ok? ==> forall k :: 0 <= k < |r.value| - 1 ==>
        r.value[k].kind.Interpreted? && r.value[k].kind.shebang == fs.readShebang(r.value[k].path) &&
        r.value[k].kind.shebang != [] && ResolveInterpreterPath(fs, r.value[k].kind.shebang) == Ok(r.value[k + 1].path)
  {
    ScanFromChain(fs, path, 0);
  }

  predicate Chained(fs: FileSystem, steps: seq<Step>)
  {
    forall k :: 0 <= k < |steps| - 1 ==>
      steps[k].kind.Interpreted? && steps[k].kind.shebang == fs.readShebang(steps[k].path) &&
      steps[k].kind.shebang != [] && ResolveInterpreterPath(fs, steps[k].kind.shebang) == Ok(steps[k + 1].path)
  }

  lemma {:induction false} ScanFromChain(fs: FileSystem, path: string, iterations: nat)
    requires iterations <= 5
    ensures var r := ScanFrom(fs, path, iterations);
      r.Ok? ==> (r.value != [] ==> r.value[0].path == path) && Chained(fs, r.value)
    decreases 5 - iterations
  {
    if iterations < 5 {
      var shebang := fs.readShebang(path);
      if shebang != [] {
        var resolved := ResolveInterpreterPath(fs, shebang);
        if resolved.Ok? {
          ScanFromChain(fs, resolved.value, iterations + 1);
          ScriptStep(fs, path, iterations);
          var rest := ScanFrom(fs, resolved.value, iterations + 1);
          if rest.Ok? {
            ChainedCons(fs, Step(path, Interpreted(shebang)), rest.value);
          }
        }
      }
    }
  }

  /** One step of the scan over a script whose interpreter resolves. */
  lemma ScriptStep(fs: FileSystem, path: string, iterations: nat)
    requires iterations < 5 && fs.readShebang(path) != []
    requires ResolveInterpreterPath(fs, fs.readShebang(path)).Ok?
    ensures ScanFrom(fs, path, iterations) ==
      Prepend([Step(path, Interpreted(fs.readShebang(path)))],
              ScanFrom(fs, ResolveInterpreterPath(fs, fs.readShebang(path)).value, iterations + 1))
  {
  }

  lemma ChainedCons(fs: FileSystem, s: Step, rest: seq<Step>)
    requires Chained(fs, rest)
    requires s.kind.Interpreted? && s.kind.shebang == fs.readShebang(s.path) && s.kind.shebang != []
    requires rest != [] ==> ResolveInterpreterPath(fs, s.kind.shebang) == Ok(rest[0].path)
    ensures Chained(fs, [s] + rest)
  {
    var all := [s] + rest;
    forall k | 0 <= k < |all| - 1
      ensures all[k].kind.Interpreted? && all[k].kind.shebang == fs.readShebang(all[k].path) &&
              all[k].kind.shebang != [] && ResolveInterpreterPath(fs, all[k].kind.shebang) == Ok(all[k + 1].path)
    {
      if k > 0 {
        assert all[k] == rest[k - 1] && all[k + 1] == rest[k];
      }
    }
  }

  /** Every file but the last of a successful scan is a script, and a binary ends it. */
  lemma ScanBinaryIsLast(fs: FileSystem, path: string, k: nat)
    requires Scan(fs, path).Ok? && k < |Scan(fs, path).value|
    requires Scan(fs, path).value[k].kind.Binary?
    ensures k == |Scan(fs, path).value| - 1
  {
    ScanFromChain(fs, path, 0);
  }

  /** A script that names itself as its own interpreter is a loop. */
  lemma SelfInterpretedLoops(fs: FileSystem, path: string)
    requires fs.readShebang(path) != []
    requires ResolveInterpreterPath(fs, fs.readShebang(path)) == Ok(path)
    ensures Scan(fs, path) == Err(LoopFound(path))
  {
    assert ScanFrom(fs, path, 4) == Prepend([Step(path, Interpreted(fs.readShebang(path)))], Err(LoopFound(path)));
    assert ScanFrom(fs, path, 3).Err?;
    assert ScanFrom(fs, path, 2).Err?;
    assert ScanFrom(fs, path, 1).Err?;
  }

  /** A file that is neither a script nor an ELF executable with `_start` ends
      the scan without being listed; so does a script whose interpreter is missing. */
  lemma ScanStopsUnlisted(fs: FileSystem, path: string)
    requires (fs.readShebang(path) == [] && !(Elf.HasMagicBytes(fs.contents(path)) && fs.hasStartSymbol(path)))
          || (fs.readShebang(path) != [] && ResolveInterpreterPath(fs, fs.readShebang(path)).Err?
              && ResolveInterpreterPath(fs, fs.readShebang(path)).error.MissingInterpreter?)
    ensures Scan(fs, path) == Ok([])
  {
  }

  /** An ELF executable is listed alone with its architecture. */
  lemma ScanOfBinary(fs: FileSystem, path: string)
    requires fs.readShebang(path) == [] && Elf.HasMagicBytes(fs.contents(path)) && fs.hasStartSymbol(path)
    requires Elf.GetArch(fs.contents(path)).Ok?
    ensures Scan(fs, path) == Ok([Step(path, Binary(Elf.GetArch(fs.contents(path)).value))])
  {
  }

  // ------------------------------------------------------------ the method

  /** The executables as the objects `scan_file` links: each one's interpreter is the next. */
  ghost predicate Linked(results: seq<Executable>)
    reads results
  {
    (forall k :: 0 <= k < |results| - 1 ==> results[k].interpreter == results[k + 1]) &&
    (results != [] ==> results[|results| - 1].interpreter == null)
  }

  ghost predicate Distinct(results: seq<Executable>)
  {
    forall i, j :: 0 <= i < j < |results| ==> results[i] != results[j]
  }

  /** `executable = ...Executable(path, kind)`, then
      `results[-1].interpreter = executable; results.append(executable)`. */
  method Append(results: seq<Executable>, path: string, kind: Kind) returns (linked: seq<Executable>)
    requires Linked(results) && Distinct(results)
    modifies if results != [] then {results[|results| - 1]} else {}
    ensures |linked| == |results| + 1 && linked[..|results|] == results && fresh(linked[|results|])
    ensures linked[|results|].path == path && linked[|results|].kind == kind
    ensures Linked(linked) && Distinct(linked)
    ensures StepsOf(linked) == StepsOf(results) + [Step(path, kind)]
  {
    var executable := new Executable(path, kind);
    if results != [] {
      results[|results| - 1].interpreter := executable;
    }
    linked := results + [executable];
  }

  function StepsOf(results: seq<Executable>): (steps: seq<Step>)
    ensures |steps| == |results|
    ensures forall k :: 0 <= k < |results| ==> steps[k] == Step(results[k].path, results[k].kind)
  {
    seq(|results|, k requires 0 <= k < |results| => Step(results[k].path, results[k].kind))
  }

  lemma ScriptMissingStep(fs: FileSystem, path: string, iterations: nat)
    requires iterations < 5 && fs.readShebang(path) != []
    requires ResolveInterpreterPath(fs, fs.readShebang(path)).Err?
    ensures ResolveInterpreterPath(fs, fs.readShebang(path)).error.ShebangIndexError? ==>
              ScanFrom(fs, path, iterations) == Err(InterpreterIndexError)
    ensures ResolveInterpreterPath(fs, fs.readShebang(path)).error.MissingInterpreter? ==>
              ScanFrom(fs, path, iterations) == Ok([])
  {
  }

  lemma BinaryStep(fs: FileSystem, path: string, iterations: nat)
    requires iterations < 5 && fs.readShebang(path) == []
    requires Elf.HasMagicBytes(fs.contents(path)) && fs.hasStartSymbol(path)
    ensures Elf.GetArch(fs.contents(path)).Err? ==>
              ScanFrom(fs, path, iterations) == Err(ArchitectureError(Elf.GetArch(fs.contents(path)).error))
    ensures Elf.GetArch(fs.contents(path)).Ok? ==>
              ScanFrom(fs, path, iterations) ==
                Prepend([Step(path, Binary(Elf.GetArch(fs.contents(path)).value))],
                        if iterations + 1 >= 5 then Err(LoopFound(path)) else Ok([]))
  {
    var arch := Elf.GetArch(fs.contents(path));
    if arch.Ok? {
      assert [Step(path, Binary(arch.value))] + [] == [Step(path, Binary(arch.value))];
    }
  }

  lemma PrependNothing(r: Result<seq<Step>, ScanError>)
    ensures Prepend([], r) == r
  {
    if r.Ok? {
      assert [] + r.value == r.value;
    }
  }

  lemma OtherStep(fs: FileSystem, path: string, iterations: nat)
    requires iterations < 5 && fs.readShebang(path) == []
    requires !(Elf.HasMagicBytes(fs.contents(path)) && fs.hasStartSymbol(path))
    ensures ScanFrom(fs, path, iterations) == Ok([])
  {
  }

  /** What one turn of `scan_file`'s loop makes of the file it stands at. */
  datatype Action =
    | Follow(kind: Kind, next: string)  // a script: list it, go on with its interpreter
    | Last(kind: Kind)                  // a binary: list it and leave the loop
    | Stop                              // leave the loop without listing the file
    | Raise(error: ScanError)           // an exception escapes

  /** The body of `scan_file`'s loop up to the linking: read the shebang,
      resolve the interpreter, or probe the ELF file. */
  method Inspect(fs: FileSystem, current: string, iterations: nat) returns (action: Action)
    requires iterations < 5
    ensures action.Follow? ==>
              action.kind == Interpreted(fs.readShebang(current)) &&
              ScanFrom(fs, current, iterations) ==
                Prepend([Step(current, action.kind)], ScanFrom(fs, action.next, iterations + 1))
    ensures action.Last? ==>
              action.kind.Binary? &&
              ScanFrom(fs, current, iterations) ==
                Prepend([Step(current, action.kind)], if iterations + 1 >= 5 then Err(LoopFound(current)) else Ok([]))
    ensures action.Stop? ==> ScanFrom(fs, current, iterations) == Ok([])
    ensures action.Raise? ==> ScanFrom(fs, current, iterations) == Err(action.error)
  {
    var shebang := fs.readShebang(current);
    if shebang != [] {
      var resolved := ResolveInterpreterPath(fs, shebang);
      if resolved.Err? {
        ScriptMissingStep(fs, current, iterations);
        if resolved.error.ShebangIndexError? {
          return Raise(InterpreterIndexError);
        }
        return Stop;
      }
      ScriptStep(fs, current, iterations);
      return Follow(Interpreted(shebang), resolved.value);
    } else if Elf.HasMagicBytes(fs.contents(current)) && fs.hasStartSymbol(current) {
      BinaryStep(fs, current, iterations);
      var arch := Elf.GetArch(fs.contents(current));
      if arch.Err? {
        return Raise(ArchitectureError(arch.error));
      }
      return Last(Binary(arch.value));
    } else {
      OtherStep(fs, current, iterations);
      return Stop;
    }
  }

  /** `scan_file`: the loop over the chain, building and linking the executables. */
  method ScanFile(fs: FileSystem, path: string) returns (r: Result<seq<Executable>, ScanError>)
    ensures r.Ok? <==> Scan(fs, path).Ok?
    ensures r.Ok? ==> StepsOf(r.value) == Scan(fs, path).value
    ensures r.Ok? ==> Linked(r.value)
    ensures r.Err? ==> r.error == Scan(fs, path).error
  {
    var results: seq<Executable> := [];
    var iterations := 0;
    var binaryFound := false;
    var current := path;
    ghost var rest := ScanFrom(fs, path, 0);
    assert StepsOf(results) == [];
    PrependNothing(rest);
    while iterations < 5 && !binaryFound
      invariant 0 <= iterations <= 5 && |results| == iterations
      invariant Scan(fs, path) == Prepend(StepsOf(results), rest)
      invariant !binaryFound ==> rest == ScanFrom(fs, current, iterations)
      invariant binaryFound ==> rest == if iterations >= 5 then Err(LoopFound(current)) else Ok([])
      invariant Linked(results)
      invariant forall k :: 0 <= k < |results| ==> fresh(results[k])
      invariant Distinct(results)
      decreases 5 - iterations
    {
      var action := Inspect(fs, current, iterations);
      if action.Stop? {
        rest := Ok([]);
        break;
      } else if action.Raise? {
        return Err(action.error);
      }
      var step := Step(current, action.kind);
      var after := if action.Follow? then ScanFrom(fs, action.next, iterations + 1)
                   else if iterations + 1 >= 5 then Err(LoopFound(current)) else Ok([]);
      PrependTwice(StepsOf(results), [step], after);
      results := Append(results, current, action.kind);
      if action.Follow? {
        current := action.next;
      } else {
        binaryFound := true;
      }
      rest := after;
      iterations := iterations + 1;
    }
    if iterations >= 5 {
      return Err(LoopFound(current));
    }
    assert StepsOf(results) + [] == StepsOf(results);
    return Ok(results);
  }
}

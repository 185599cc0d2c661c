/** The compile-job runner: the service's `POST /compile` handler and its `/status`
    endpoint. A request's source text is written into a fresh workspace directory,
    two external stages (compile, then codegen) run there, the files they produce
    are collected into an artifact record, a response envelope is sent and the
    workspace is removed.

    The filesystem is a value (`Fs`): files with their text and a set of
    directories, paths as lists of segments. Each external stage is an oracle
    (`StageRun`): its exit status, captured output and the files and
    directories it leaves in the workspace. The pure functions below give the
    meaning of every step; the class `CompileServer` performs the same steps on
    its own state and its methods are proved to agree with them. */
module TempleRunner {
  import opened Wrappers
  import opened Text

  /** A path as its segments: `path.join(a, b, c)` is `[a, b, c]`. */
  type Path = seq<string>

  /** Regular files (path to text) and directories. */
  datatype Fs = Fs(files: map<Path, string>, dirs: set<Path>)

  /** A value thrown inside the handler. Node filesystem errors carry only a
      message; a failed child process also carries its captured output. */
  datatype Thrown = Thrown(message: string, stdout: Option<string>, stderr: Option<string>)

  datatype StageName = CompileStage | CodegenStage

  /** The value of the request body's `code` field, as `express.json()` parses
      it. Numbers are integers here; an array's or an object's contents are
      never looked at. */
  datatype Json = JNull | JBool(b: bool) | JNumber(n: int) | JString(s: string) | JArray | JObject

  /** What one external stage did: its exit status, its captured output, and the
      files and directories (relative to the workspace) it created. */
  datatype StageRun = StageRun(exitCode: int, stdout: string, stderr: string,
                               outFiles: map<Path, string>, outDirs: set<Path>)

  /** What the try block hands to the success envelope. */
  datatype Success = Success(stdout: string, stderr: string, artifacts: map<string, string>)

  /** The JSON body sent back; an absent field is `None`. */
  datatype Body =
    | Rejected(error: string)
    | Succeeded(stdout: string, stderr: string, artifacts: map<string, string>)
    | Failed(error: string, errorStdout: Option<string>, errorStderr: Option<string>)

  datatype Response = Response(status: nat, body: Body)

  /** The fixed package manifest written next to the source. */
  const NargoToml: string := "[package]\nname = \"dynamic_contract\"\nauthors = [\"\"]\ncompiler_version = \">=0.25.0\"\ntype = \"contract\"\n\n[dependencies]\naztec = { git=\"https://github.com/AztecProtocol/aztec-packages/\", tag=\"v0.82.3\", directory=\"noir-projects/aztec-nr/aztec\" }\nvalue_note = { git=\"https://github.com/AztecProtocol/aztec-packages/\", tag=\"v0.82.3\", directory=\"noir-projects/aztec-nr/value-note\"}\neasy_private_state = { git=\"https://github.com/AztecProtocol/aztec-packages/\", tag=\"v0.82.3\", directory=\"noir-projects/aztec-nr/easy-private-state\"}\nuint_note = { git=\"https://github.com/AztecProtocol/aztec-packages/\", tag=\"v0.82.3\", directory=\"noir-projects/aztec-nr/uint-note\"}\ncompressed_string = { git=\"https://github.com/AztecProtocol/aztec-packages/\", tag=\"v0.82.3\", directory=\"noir-projects/aztec-nr/compressed-string\"}\nauthwit = { git=\"https://github.com/AztecProtocol/aztec-packages/\", tag=\"v0.82.3\", directory=\"noir-projects/aztec-nr/authwit\"}\n"

  const CompileCommand: string := "/usr/src/aztec-nargo/compile_then_postprocess.sh compile"
  const CodegenCommand: string :=
    "node --no-warnings /usr/src/yarn-project/aztec/dest/bin/index.js codegen target --outdir src/artifacts"
  const NoCodeMessage: string := "No code provided"
  /** The directory under the system temporary directory that holds every workspace. */
  const SharedParent: string := "texcoco-"
  /** Node's message when `readFile` is pointed at a directory. */
  const ReadDirectoryMessage: string := "EISDIR: illegal operation on a directory, read"
  /** The start of Node's `ERR_INVALID_ARG_TYPE` message for `writeFile` data. */
  const InvalidDataPrefix: string :=
    "The \"data\" argument must be of type string or an instance of Buffer, TypedArray, or DataView. Received "
  const SrcArtifactsPrefix: string := "src/artifacts/"
  const TargetPrefix: string := "target/"

  // ---------------------------------------------------------------------------
  // Filesystem operations

  function PathText(p: Path): string { "/" + Join(p, '/') }

  /** `p` is `root` or lies below it. */
  predicate Under(p: Path, root: Path) { |root| <= |p| && p[..|root|] == root }

  /** `fs.pathExists`. */
  predicate Exists(fs: Fs, p: Path) { p in fs.files || p in fs.dirs }

  function Prefixes(p: Path): set<Path> { set i | 1 <= i <= |p| :: p[..i] }

  /** `path.join(os.tmpdir(), 'texcoco-', uuidv4())`. */
  function Workspace(tmp: Path, uuid: string): Path { tmp + [SharedParent, uuid] }

  /** `fs.ensureDir` (mkdir -p): creates every missing ancestor; fails with
      `ENOTDIR` when one above `p` is a regular file, and with `EEXIST` when `p`
      itself is one. */
  function EnsureDir(fs: Fs, p: Path): Result<Fs, Thrown>
  {
    if exists i :: 1 <= i < |p| && p[..i] in fs.files then
      Err(Thrown("ENOTDIR: not a directory, mkdir '" + PathText(p) + "'", None, None))
    else if p in fs.files then
      Err(Thrown("EEXIST: file already exists, mkdir '" + PathText(p) + "'", None, None))
    else
      Ok(fs.(dirs := fs.dirs + Prefixes(p)))
  }

  /** `fs.writeFile`: fails on a directory, when a path above the file is a
      regular file, or when the parent directory is missing. */
  function WriteFile(fs: Fs, p: Path, content: string): Result<Fs, Thrown>
  {
    if p == [] || p in fs.dirs then
      Err(Thrown("EISDIR: illegal operation on a directory, open '" + PathText(p) + "'", None, None))
    else if exists i :: 1 <= i < |p| && p[..i] in fs.files then
      Err(Thrown("ENOTDIR: not a directory, open '" + PathText(p) + "'", None, None))
    else if |p| > 1 && p[..|p| - 1] !in fs.dirs then
      Err(Thrown("ENOENT: no such file or directory, open '" + PathText(p) + "'", None, None))
    else
      Ok(fs.(files := fs.files[p := content]))
  }

  /** `fs.readFile(p, 'utf-8')`. */
  function ReadFile(fs: Fs, p: Path): Result<string, Thrown>
  {
    if p in fs.dirs then Err(Thrown(ReadDirectoryMessage, None, None))
    else if p in fs.files then Ok(fs.files[p])
    else Err(Thrown("ENOENT: no such file or directory, open '" + PathText(p) + "'", None, None))
  }

  predicate IsChild(p: Path, d: Path) { |p| == |d| + 1 && p[..|d|] == d }

  /** The names `fs.readdir(d)` lists: the immediate children, files and directories. */
  function Entries(fs: Fs, d: Path): set<string>
  {
    (set p | p in fs.files && IsChild(p, d) :: p[|d|]) + (set p | p in fs.dirs && IsChild(p, d) :: p[|d|])
  }

  function NotADirectory(d: Path): Thrown
  {
    Thrown("ENOTDIR: not a directory, scandir '" + PathText(d) + "'", None, None)
  }

  /** `fs.rm(p, { recursive: true })`: fails when nothing is at `p`. */
  function Remove(fs: Fs, p: Path): Result<Fs, Thrown>
  {
    if !Exists(fs, p) then Err(Thrown("ENOENT: no such file or directory, lstat '" + PathText(p) + "'", None, None))
    else Ok(Fs(map q | q in fs.files && !Under(q, p) :: fs.files[q], set q | q in fs.dirs && !Under(q, p)))
  }

  /** The decimal digits of `n`. */
  function NatText(n: nat): string
  {
    if n < 10 then ["0123456789"[n]] else NatText(n / 10) + ["0123456789"[n % 10]]
  }

  /** How Node's argument check describes a received value. */
  function Received(data: Json): string
  {
    match data
    case JNull => "null"
    case JBool(b) => "type boolean (" + (if b then "true" else "false") + ")"
    case JNumber(n) => "type number (" + (if n < 0 then "-" + NatText(-n) else NatText(n)) + ")"
    case JString(_) => "type string"
    case JArray => "an instance of Array"
    case JObject => "an instance of Object"
  }

  /** The `ERR_INVALID_ARG_TYPE` message of `fs.writeFile` for data that is not text. */
  function InvalidDataMessage(data: Json): string
  {
    InvalidDataPrefix + Received(data)
  }

  /** `fs.writeFile(p, data)` for a parsed JSON value: anything but a string is
      refused before the file is touched. */
  function WriteData(fs: Fs, p: Path, data: Json): Result<Fs, Thrown>
  {
    if !data.JString? then Err(Thrown(InvalidDataMessage(data), None, None))
    else WriteFile(fs, p, data.s)
  }

  // ---------------------------------------------------------------------------
  // The handler, as functions

  /** The files and directories a stage leaves, placed inside the workspace. */
  function ApplyStage(fs: Fs, ws: Path, run: StageRun): Fs
  {
    PrependInjective(ws);
    Fs(fs.files + (map q | q in run.outFiles :: ws + q := run.outFiles[q]),
       fs.dirs + (set q | q in run.outDirs :: ws + q))
  }

  /** The error `exec` rejects with when a command exits with a non-zero status. */
  function StageError(command: string, run: StageRun): Thrown
  {
    Thrown("Command failed: " + command + "\n" + run.stderr, Some(run.stdout), Some(run.stderr))
  }

  datatype Setup = Setup(fs: Fs, error: Option<Thrown>)

  /** Creating `<ws>/src` and writing `src/main.nr` and `Nargo.toml`. The state is
      the one reached when a step throws. */
  function SetUp(fs: Fs, ws: Path, source: Json): Setup
  {
    match EnsureDir(fs, ws + ["src"])
    case Err(e) => Setup(fs, Some(e))
    case Ok(fs1) =>
      match WriteData(fs1, ws + ["src", "main.nr"], source)
      case Err(e) => Setup(fs1, Some(e))
      case Ok(fs2) =>
        match WriteFile(fs2, ws + ["Nargo.toml"], NargoToml)
        case Err(e) => Setup(fs2, Some(e))
        case Ok(fs3) => Setup(fs3, None)
  }

  /** One output root: nothing when it does not exist, otherwise `prefix + name`
      for each entry, failing when the root is a file or an entry a directory. */
  function RootArtifacts(fs: Fs, dir: Path, prefix: string): Result<map<string, string>, Thrown>
  {
    if !Exists(fs, dir) then Ok(map[])
    else if dir !in fs.dirs then Err(NotADirectory(dir))
    else if exists f :: f in Entries(fs, dir) && dir + [f] in fs.dirs then Err(Thrown(ReadDirectoryMessage, None, None))
    else
      EntriesAreFiles(fs, dir);
      Ok(PrefixedFiles(fs, dir, prefix, Entries(fs, dir)))
  }

  /** The record entries `prefix + f` to the text of file `dir/f`, for `f` in `names`. */
  function PrefixedFiles(fs: Fs, dir: Path, prefix: string, names: set<string>): map<string, string>
    requires forall f :: f in names ==> dir + [f] in fs.files
  {
    PrependInjective(prefix);
    map f | f in names :: prefix + f := fs.files[dir + [f]]
  }

  /** Both output roots, `src/artifacts` first. */
  function Artifacts(fs: Fs, ws: Path): Result<map<string, string>, Thrown>
  {
    match RootArtifacts(fs, ws + ["src", "artifacts"], SrcArtifactsPrefix)
    case Err(e) => Err(e)
    case Ok(a) =>
      match RootArtifacts(fs, ws + ["target"], TargetPrefix)
      case Err(e) => Err(e)
      case Ok(b) => Ok(a + b)
  }

  datatype Attempt = Attempt(fs: Fs, ran: seq<StageName>, outcome: Result<Success, Thrown>)

  /** The `try` block: set-up, compile, codegen, artifact collection. */
  function Try(fs: Fs, ws: Path, source: Json, compile: StageRun, codegen: StageRun): Attempt
  {
    var s := SetUp(fs, ws, source);
    if s.error.Some? then Attempt(s.fs, [], Err(s.error.value))
    else
      var fs1 := ApplyStage(s.fs, ws, compile);
      if compile.exitCode != 0 then Attempt(fs1, [CompileStage], Err(StageError(CompileCommand, compile)))
      else
        var fs2 := ApplyStage(fs1, ws, codegen);
        if codegen.exitCode != 0 then
          Attempt(fs2, [CompileStage, CodegenStage], Err(StageError(CodegenCommand, codegen)))
        else
          match Artifacts(fs2, ws)
          case Err(e) => Attempt(fs2, [CompileStage, CodegenStage], Err(e))
          case Ok(a) => Attempt(fs2, [CompileStage, CodegenStage], Ok(Success(compile.stdout, compile.stderr, a)))
  }

  /** The `res.json` of the try block and of the catch block. */
  function Envelope(outcome: Result<Success, Thrown>): Response
  {
    match outcome
    case Ok(s) => Response(200, Succeeded(s.stdout, s.stderr, s.artifacts))
    case Err(t) => Response(500, Failed(t.message, t.stdout, t.stderr))
  }

  /** The `finally` block: a failing `rm` (a fault of the filesystem, or nothing to
      remove) is only logged. */
  function Teardown(fs: Fs, ws: Path, rmFault: bool): Fs
  {
    if rmFault then fs
    else match Remove(fs, ws)
      case Ok(after) => after
      case Err(_) => fs
  }

  /** `!code`, where a missing field (`undefined`) is `None`. */
  predicate Falsy(code: Option<Json>)
  {
    code.None? || code.value == JNull || code.value == JBool(false) || code.value == JNumber(0)
    || code.value == JString("")
  }

  datatype Handled = Handled(response: Response, fs: Fs, ran: seq<StageName>)

  /** The whole `POST /compile` handler. */
  function Handle(fs: Fs, tmp: Path, uuid: string, code: Option<Json>,
                  compile: StageRun, codegen: StageRun, rmFault: bool): Handled
  {
    if Falsy(code) then Handled(Response(400, Rejected(NoCodeMessage)), fs, [])
    else
      var ws := Workspace(tmp, uuid);
      var a := Try(fs, ws, code.value, compile, codegen);
      Handled(Envelope(a.outcome), Teardown(a.fs, ws, rmFault), a.ran)
  }

  // ---------------------------------------------------------------------------
  // Reading the output roots

  /** `fs.readdir(d)`: every entry once, in an order the filesystem chooses. */
  method ListDir(fs: Fs, d: Path) returns (names: seq<string>)
    ensures forall f :: f in names <==> f in Entries(fs, d)
    ensures forall i, j :: 0 <= i < j < |names| ==> names[i] != names[j]
  {
    var left := Entries(fs, d);
    names := [];
    while left != {}
      invariant left <= Entries(fs, d)
      invariant forall f :: f in names ==> f in Entries(fs, d) && f !in left
      invariant forall f :: f in Entries(fs, d) ==> f in names || f in left
      invariant forall i, j :: 0 <= i < j < |names| ==> names[i] != names[j]
      decreases left
    {
      var f :| f in left;
      names := names + [f];
      left := left - {f};
    }
  }

  /** One `if (await fs.pathExists(dir)) { ... for (const file of files) ... }`
      block, adding `prefix + file` entries to the record `acc`. */
  method ReadRoot(fs: Fs, dir: Path, prefix: string, acc: map<string, string>) returns (r: Result<map<string, string>, Thrown>)
    ensures r == match RootArtifacts(fs, dir, prefix)
                 case Ok(m) => Ok(acc + m)
                 case Err(e) => Err(e)
  {
    if !Exists(fs, dir) {
      assert acc + map[] == acc;
      return Ok(acc);
    }
    if dir !in fs.dirs {
      return Err(NotADirectory(dir));
    }
    var names := ListDir(fs, dir);
    r := ReadEach(fs, dir, prefix, names, acc);
    if r.Ok? {
      EntriesAreFiles(fs, dir);
      PrependInjective(prefix);
      assert Listed(names) == Entries(fs, dir);
    }
  }

  /** The `for (const file of files)` loop: reads each listed file into the record. */
  method ReadEach(fs: Fs, dir: Path, prefix: string, names: seq<string>, acc: map<string, string>)
    returns (r: Result<map<string, string>, Thrown>)
    requires forall f :: f in names ==> f in Entries(fs, dir)
    ensures r.Ok? <==> forall f :: f in names ==> dir + [f] !in fs.dirs
    ensures r.Ok? ==> forall f :: f in names ==> dir + [f] in fs.files
    ensures r.Ok? ==> r.value == acc + PrefixedFiles(fs, dir, prefix, Listed(names))
    ensures r.Err? ==> r.error == Thrown(ReadDirectoryMessage, None, None)
  {
    var artifacts := acc;
    ghost var read: map<string, string> := map[];
    assert Listed(names[..0]) == {};
    for i := 0 to |names|
      invariant forall j :: 0 <= j < i ==> dir + [names[j]] in fs.files && dir + [names[j]] !in fs.dirs
      invariant ReadSoFar(fs, dir, names, i)
      invariant read == PrefixedFiles(fs, dir, prefix, Listed(names[..i]))
      invariant artifacts == acc + read
    {
      EntryIsFileOrDirectory(fs, dir, names[i]);
      var content := ReadFile(fs, dir + [names[i]]);
      if content.Err? {
        assert dir + [names[i]] in fs.dirs;
        return Err(content.error);
      }
      PrefixedFilesStep(fs, dir, prefix, names, i);
      UnionUpdate(acc, read, prefix + names[i], content.value);
      artifacts := artifacts[prefix + names[i] := content.value];
      read := read[prefix + names[i] := content.value];
    }
    assert names[..|names|] == names;
    return Ok(artifacts);
  }

  /** Both output roots into one record. */
  method CollectArtifacts(fs: Fs, ws: Path) returns (r: Result<map<string, string>, Thrown>)
    ensures r == Artifacts(fs, ws)
  {
    ghost var fromSrc := RootArtifacts(fs, ws + ["src", "artifacts"], SrcArtifactsPrefix);
    ghost var fromTarget := RootArtifacts(fs, ws + ["target"], TargetPrefix);
    r := ReadRoot(fs, ws + ["src", "artifacts"], SrcArtifactsPrefix, map[]);
    if r.Ok? {
      assert fromSrc.Ok? && r.value == map[] + fromSrc.value;
      assert map[] + fromSrc.value == fromSrc.value;
      r := ReadRoot(fs, ws + ["target"], TargetPrefix, r.value);
      assert r == match fromTarget case Ok(m) => Ok(fromSrc.value + m) case Err(e) => Err(e);
    }
  }

  // ---------------------------------------------------------------------------
  // The handler, as a server with state

  class CompileServer {
    var fs: Fs
    const tmp: Path
    /** The stages started so far, in order. */
    ghost var stagesRun: seq<StageName>

    constructor (fs0: Fs, tmp: Path)
      ensures fs == fs0 && this.tmp == tmp && stagesRun == []
    {
      fs := fs0;
      this.tmp := tmp;
      stagesRun := [];
    }

    /** `GET /status`. */
    method Status() returns (status: nat, body: string)
      ensures status == 200 && body == "OK"
    {
      status, body := 200, "OK";
    }

    /** `ensureDir(<ws>/src)` and the two `writeFile`s. */
    method CreateWorkspace(ws: Path, source: Json) returns (error: Option<Thrown>)
      modifies this`fs
      ensures Setup(fs, error) == SetUp(old(fs), ws, source)
    {
      var made := EnsureDir(fs, ws + ["src"]);
      if made.Err? {
        return Some(made.error);
      }
      fs := made.value;
      var wrote := WriteData(fs, ws + ["src", "main.nr"], source);
      if wrote.Err? {
        return Some(wrote.error);
      }
      fs := wrote.value;
      wrote := WriteFile(fs, ws + ["Nargo.toml"], NargoToml);
      if wrote.Err? {
        return Some(wrote.error);
      }
      fs := wrote.value;
      return None;
    }

    /** The `try` block. */
    method RunPipeline(ws: Path, source: Json, compile: StageRun, codegen: StageRun)
      returns (outcome: Result<Success, Thrown>)
      modifies this
      ensures var a := Try(old(fs), ws, source, compile, codegen);
        outcome == a.outcome && fs == a.fs && stagesRun == old(stagesRun) + a.ran
    {
      var error := CreateWorkspace(ws, source);
      if error.Some? {
        return Err(error.value);
      }
      ghost var ready := fs;

      stagesRun := stagesRun + [CompileStage];
      fs := ApplyStage(fs, ws, compile);
      if compile.exitCode != 0 {
        return Err(StageError(CompileCommand, compile));
      }
      stagesRun := stagesRun + [CodegenStage];
      fs := ApplyStage(fs, ws, codegen);
      if codegen.exitCode != 0 {
        return Err(StageError(CodegenCommand, codegen));
      }

      var artifacts := CollectArtifacts(fs, ws);
      if artifacts.Err? {
        return Err(artifacts.error);
      }
      return Ok(Success(compile.stdout, compile.stderr, artifacts.value));
    }

    /** `POST /compile` with body field `code`; `uuid` is the value `uuidv4()`
        returned and `rmFault` says whether `fs.rm` fails for a reason of its own. */
    method PostCompile(code: Option<Json>, uuid: string, compile: StageRun, codegen: StageRun, rmFault: bool)
      returns (resp: Response)
      modifies this
      ensures var h := Handle(old(fs), tmp, uuid, code, compile, codegen, rmFault);
        resp == h.response && fs == h.fs && stagesRun == old(stagesRun) + h.ran
    {
      if Falsy(code) {
        return Response(400, Rejected(NoCodeMessage));
      }
      var ws := Workspace(tmp, uuid);
      var outcome := RunPipeline(ws, code.value, compile, codegen);
      resp := Envelope(outcome);
      // finally
      if !rmFault {
        var removed := Remove(fs, ws);
        if removed.Ok? {
          fs := removed.value;
        }
      }
    }
  }

  // ---------------------------------------------------------------------------
  // Properties

  /** Putting the same prefix in front of two different values keeps them different. */
  lemma PrependInjective<T>(prefix: seq<T>)
    ensures forall x, y :: prefix + x == prefix + y ==> x == y
  {
    forall x, y | prefix + x == prefix + y ensures x == y {
      assert x == (prefix + x)[|prefix|..];
      assert y == (prefix + y)[|prefix|..];
    }
  }

  /** The names a listing holds, as a set. */
  function Listed(names: seq<string>): (r: set<string>)
    ensures forall f :: f in r <==> f in names
  {
    set f | f in names
  }

  /** The first `i` listed names are all files. */
  ghost predicate ReadSoFar(fs: Fs, dir: Path, names: seq<string>, i: nat)
    requires i <= |names|
  {
    forall f :: f in names[..i] ==> dir + [f] in fs.files
  }

  /** Reading one more file adds exactly its entry to the record. */
  lemma PrefixedFilesStep(fs: Fs, dir: Path, prefix: string, names: seq<string>, i: nat)
    requires i < |names| && ReadSoFar(fs, dir, names, i)
    requires dir + [names[i]] in fs.files
    ensures ReadSoFar(fs, dir, names, i + 1)
    ensures PrefixedFiles(fs, dir, prefix, Listed(names[..i + 1]))
         == PrefixedFiles(fs, dir, prefix, Listed(names[..i]))[prefix + names[i] := fs.files[dir + [names[i]]]]
  {
    assert names[..i + 1] == names[..i] + [names[i]];
    PrependInjective(prefix);
  }

  /** Updating a union updates its right operand. */
  lemma UnionUpdate<K, V>(a: map<K, V>, b: map<K, V>, k: K, v: V)
    ensures (a + b)[k := v] == a + b[k := v]
  {
  }

  /** Every name `readdir` lists is a file or a directory directly in `d`. */
  lemma EntryIsFileOrDirectory(fs: Fs, d: Path, f: string)
    requires f in Entries(fs, d)
    ensures d + [f] in fs.files || d + [f] in fs.dirs
  {
    if p :| p in fs.files && IsChild(p, d) && p[|d|] == f {
      assert p == d + [f];
    } else {
      var p :| p in fs.dirs && IsChild(p, d) && p[|d|] == f;
      assert p == d + [f];
    }
  }

  /** When no entry of `d` is a directory, every entry is a file. */
  lemma EntriesAreFiles(fs: Fs, d: Path)
    requires forall f :: f in Entries(fs, d) ==> d + [f] !in fs.dirs
    ensures forall f :: f in Entries(fs, d) ==> d + [f] in fs.files
  {
    forall f | f in Entries(fs, d) ensures d + [f] in fs.files {
      EntryIsFileOrDirectory(fs, d, f);
    }
  }

  // ---------------------------------------------------------------------------
  // What the handler promises

  /** The request is rejected with 400, and nothing runs, exactly when `code` is falsy. */
  lemma RejectsExactlyMissingCode(fs: Fs, tmp: Path, uuid: string, code: Option<Json>,
                                  compile: StageRun, codegen: StageRun, rmFault: bool)
    ensures var h := Handle(fs, tmp, uuid, code, compile, codegen, rmFault);
      (h.response.status == 400 <==> Falsy(code))
      && (Falsy(code) ==> h == Handled(Response(400, Rejected(NoCodeMessage)), fs, []))
  {
  }

  /** Status and body agree: 200 always carries the compile stage's output after
      both stages exited with 0, and 500 always carries an error. */
  lemma StatusMatchesBody(fs: Fs, tmp: Path, uuid: string, code: Option<Json>,
                          compile: StageRun, codegen: StageRun, rmFault: bool)
    ensures var h := Handle(fs, tmp, uuid, code, compile, codegen, rmFault);
      (h.response.status == 200 <==> h.response.body.Succeeded?)
      && (h.response.status == 500 <==> h.response.body.Failed?)
      && (h.response.status in {200, 400, 500})
      && (h.response.status == 200 ==>
            compile.exitCode == 0 && codegen.exitCode == 0
            && h.response.body.stdout == compile.stdout && h.response.body.stderr == compile.stderr)
  {
  }

  /** The stages run in order, codegen only after compile succeeded, and nothing
      runs unless the workspace was set up. */
  lemma StagesRunInOrder(fs: Fs, tmp: Path, uuid: string, code: Option<Json>,
                         compile: StageRun, codegen: StageRun, rmFault: bool)
    ensures var h := Handle(fs, tmp, uuid, code, compile, codegen, rmFault);
      (h.ran == [] || h.ran == [CompileStage] || h.ran == [CompileStage, CodegenStage])
      && (CodegenStage in h.ran ==> compile.exitCode == 0)
      && (h.ran != [] <==>
            !Falsy(code) && SetUp(fs, Workspace(tmp, uuid), code.value).error.None?)
  {
  }

  /** A failing compile stage answers 500 with `exec`'s message, which holds the
      stage's standard error, and with both captured streams. */
  lemma CompileFailureReported(fs: Fs, tmp: Path, uuid: string, code: Option<Json>,
                               compile: StageRun, codegen: StageRun, rmFault: bool)
    requires !Falsy(code) && SetUp(fs, Workspace(tmp, uuid), code.value).error.None?
    requires compile.exitCode != 0
    ensures var h := Handle(fs, tmp, uuid, code, compile, codegen, rmFault);
      h.ran == [CompileStage]
      && h.response == Response(500, Failed("Command failed: " + CompileCommand + "\n" + compile.stderr,
                                            Some(compile.stdout), Some(compile.stderr)))
      && Contains(h.response.body.error, compile.stderr)
  {
    var m := "Command failed: " + CompileCommand + "\n";
    assert IndexOf(compile.stderr, compile.stderr) == Some(0);
    ContainsInSuffix(m, compile.stderr, compile.stderr);
  }

  /** A truthy `code` that is not a string gets past the 400 check: `<ws>/src` is
      created, `writeFile` refuses the value, no stage runs and the answer is a
      500 carrying Node's argument error. */
  lemma NonStringCodeFails(fs: Fs, tmp: Path, uuid: string, code: Option<Json>,
                           compile: StageRun, codegen: StageRun, rmFault: bool)
    requires !Falsy(code) && !code.value.JString?
    ensures var h := Handle(fs, tmp, uuid, code, compile, codegen, rmFault);
      var made := EnsureDir(fs, Workspace(tmp, uuid) + ["src"]);
      h.ran == [] && h.response.status == 500
      && (made.Ok? ==> h.response == Response(500, Failed(InvalidDataMessage(code.value), None, None)))
      && (made.Err? ==> h.response == Response(500, Failed(made.error.message, None, None)))
  {
  }

  /** Nothing exists at or below `ws`. */
  ghost predicate Fresh(fs: Fs, ws: Path)
  {
    (forall p :: p in fs.files ==> !Under(p, ws)) && (forall p :: p in fs.dirs ==> !Under(p, ws))
  }

  /** Setting up fails exactly when an ancestor of `<ws>/src` is a file, the code
      is not a string, or a directory already stands where `src/main.nr` or
      `Nargo.toml` is written. */
  lemma SetUpFailsIff(fs: Fs, ws: Path, source: Json)
    ensures SetUp(fs, ws, source).error.Some? <==>
      (exists i :: 1 <= i <= |ws| + 1 && (ws + ["src"])[..i] in fs.files)
      || !source.JString?
      || ws + ["src", "main.nr"] in fs.dirs || ws + ["Nargo.toml"] in fs.dirs
  {
    var src := ws + ["src"];
    EnsureDirFailsIff(fs, src);
    assert src[..|src|] == src;
    var made := EnsureDir(fs, src);
    if made.Ok? {
      var fs1 := made.value;
      assert src[..|src|] == src;
      var main := ws + ["src", "main.nr"];
      assert main[..|main| - 1] == src;
      assert forall i :: 1 <= i < |main| ==> main[..i] == src[..i];
      WriteFileFailsIff(fs1, main, if source.JString? then source.s else "");
      var wrote := WriteData(fs1, main, source);
      if wrote.Ok? {
        var toml := ws + ["Nargo.toml"];
        if |ws| > 0 {
          assert src[..|ws|] == ws;
          assert toml[..|toml| - 1] == ws;
        }
        assert forall i :: 1 <= i < |toml| ==> toml[..i] == src[..i];
        forall i | 1 <= i < |toml| ensures toml[..i] !in wrote.value.files {
          assert |toml[..i]| < |main|;
        }
        WriteFileFailsIff(wrote.value, toml, NargoToml);
      }
    }
  }

  /** `ensureDir` fails exactly when `p` or a path above it is a file, and
      otherwise adds `p` and its ancestors as directories. */
  lemma EnsureDirFailsIff(fs: Fs, p: Path)
    ensures EnsureDir(fs, p).Err? <==> p in fs.files || exists i :: 1 <= i < |p| && p[..i] in fs.files
    ensures EnsureDir(fs, p).Ok? ==>
      EnsureDir(fs, p).value == fs.(dirs := fs.dirs + Prefixes(p))
      && forall i :: 1 <= i <= |p| ==> p[..i] !in fs.files && p[..i] in EnsureDir(fs, p).value.dirs
  {
    assert p[..|p|] == p;
    if EnsureDir(fs, p).Ok? {
      forall i | 1 <= i <= |p|
        ensures p[..i] !in fs.files && p[..i] in EnsureDir(fs, p).value.dirs
      {
        assert p[..i] in Prefixes(p);
      }
    }
  }

  /** `writeFile` fails exactly on a directory, under a file, or without its
      parent directory. */
  lemma WriteFileFailsIff(fs: Fs, p: Path, content: string)
    ensures WriteFile(fs, p, content).Err? <==>
      p == [] || p in fs.dirs || (exists i :: 1 <= i < |p| && p[..i] in fs.files)
      || (|p| > 1 && p[..|p| - 1] !in fs.dirs)
  {
  }

  /** In a fresh workspace set-up succeeds, leaves the source and the manifest in
      place and creates `<ws>/src` with all its ancestors. */
  lemma SetUpWritesSourceAndManifest(fs: Fs, ws: Path, source: Json)
    requires Fresh(fs, ws)
    requires forall i :: 1 <= i < |ws| ==> ws[..i] !in fs.files
    requires source.JString?
    ensures var s := SetUp(fs, ws, source);
      s.error.None?
      && s.fs.files == fs.files[ws + ["src", "main.nr"] := source.s][ws + ["Nargo.toml"] := NargoToml]
      && s.fs.dirs == fs.dirs + Prefixes(ws + ["src"])
  {
    var src := ws + ["src"];
    forall i | 1 <= i <= |src| ensures src[..i] !in fs.files {
      if i <= |ws| - 1 {
        assert src[..i] == ws[..i];
      } else {
        assert src[..i][..|ws|] == ws;
      }
    }
    assert ws + ["src", "main.nr"] !in fs.dirs by {
      assert (ws + ["src", "main.nr"])[..|ws|] == ws;
    }
    assert ws + ["Nargo.toml"] !in fs.dirs by {
      assert (ws + ["Nargo.toml"])[..|ws|] == ws;
    }
    SetUpFailsIff(fs, ws, source);
  }

  /** One root's record: empty when the root is missing; otherwise exactly one
      key `prefix + f` per file `f` directly in the root, holding that file's text. */
  lemma RootArtifactsExact(fs: Fs, dir: Path, prefix: string)
    requires RootArtifacts(fs, dir, prefix).Ok?
    ensures var m := RootArtifacts(fs, dir, prefix).value;
      (!Exists(fs, dir) ==> m == map[])
      && (forall k :: k in m ==> StartsWith(k, prefix))
      && (Exists(fs, dir) ==>
            forall f :: (prefix + f in m <==> dir + [f] in fs.files)
                        && (prefix + f in m ==> m[prefix + f] == fs.files[dir + [f]]))
  {
    var m := RootArtifacts(fs, dir, prefix).value;
    PrependInjective(prefix);
    if Exists(fs, dir) {
      EntriesAreFiles(fs, dir);
      assert m == PrefixedFiles(fs, dir, prefix, Entries(fs, dir));
      forall f ensures prefix + f in m <==> dir + [f] in fs.files {
        if dir + [f] in fs.files {
          var p := dir + [f];
          assert IsChild(p, dir) && p[|dir|] == f;
          assert f in Entries(fs, dir);
        }
        if prefix + f in m {
          var g :| g in Entries(fs, dir) && prefix + g == prefix + f;
          assert g == f;
        }
      }
    }
    forall k | k in m ensures StartsWith(k, prefix) {
      var g :| g in Entries(fs, dir) && k == prefix + g;
      assert k[..|prefix|] == prefix;
    }
  }

  /** The two roots' keys never clash (`src/...` against `target/...`), so the
      record holds every entry of both. */
  lemma ArtifactsFromBothRoots(fs: Fs, ws: Path)
    requires Artifacts(fs, ws).Ok?
    ensures var a := Artifacts(fs, ws).value;
      var s := RootArtifacts(fs, ws + ["src", "artifacts"], SrcArtifactsPrefix).value;
      var t := RootArtifacts(fs, ws + ["target"], TargetPrefix).value;
      s.Keys !! t.Keys && a.Keys == s.Keys + t.Keys
      && (forall k :: k in s ==> a[k] == s[k]) && (forall k :: k in t ==> a[k] == t[k])
  {
    var s := RootArtifacts(fs, ws + ["src", "artifacts"], SrcArtifactsPrefix).value;
    var t := RootArtifacts(fs, ws + ["target"], TargetPrefix).value;
    RootArtifactsExact(fs, ws + ["src", "artifacts"], SrcArtifactsPrefix);
    RootArtifactsExact(fs, ws + ["target"], TargetPrefix);
    forall k | k in s ensures k !in t {
      assert k[..|SrcArtifactsPrefix|] == SrcArtifactsPrefix;
      assert k[0] == 's';
    }
  }

  /** `after` differs from `before` only at or below `ws`, and in the ancestors of `ws`. */
  ghost predicate SameOutside(before: Fs, after: Fs, ws: Path)
  {
    (forall p :: !Under(p, ws) ==> (p in after.files <==> p in before.files))
    && (forall p :: !Under(p, ws) && p in before.files ==> after.files[p] == before.files[p])
    && (forall p :: !Under(p, ws) && p in after.dirs ==> p in before.dirs || p in Prefixes(ws))
    && (forall p :: !Under(p, ws) && p in before.dirs ==> p in after.dirs)
  }

  lemma SameOutsideTrans(a: Fs, b: Fs, c: Fs, ws: Path)
    requires SameOutside(a, b, ws) && SameOutside(b, c, ws)
    ensures SameOutside(a, c, ws)
  {
  }

  lemma SetUpStaysInWorkspace(fs: Fs, ws: Path, source: Json)
    ensures SameOutside(fs, SetUp(fs, ws, source).fs, ws)
  {
    var src := ws + ["src"];
    forall p | p in Prefixes(src) ensures Under(p, ws) || p in Prefixes(ws) {
      var i :| 1 <= i <= |src| && p == src[..i];
      if i > |ws| {
        assert p[..|ws|] == ws;
      } else {
        assert p == ws[..i];
      }
    }
    assert Under(ws + ["src", "main.nr"], ws) by {
      assert (ws + ["src", "main.nr"])[..|ws|] == ws;
    }
    assert Under(ws + ["Nargo.toml"], ws) by {
      assert (ws + ["Nargo.toml"])[..|ws|] == ws;
    }
  }

  lemma ApplyStageStaysInWorkspace(fs: Fs, ws: Path, run: StageRun)
    ensures SameOutside(fs, ApplyStage(fs, ws, run), ws)
    ensures fs.dirs <= ApplyStage(fs, ws, run).dirs
  {
    var after := ApplyStage(fs, ws, run);
    forall p | !Under(p, ws) ensures p in after.files <==> p in fs.files {
      forall q | q in run.outFiles ensures p != ws + q {
        assert (ws + q)[..|ws|] == ws;
      }
    }
    forall p | !Under(p, ws) && p in after.dirs ensures p in fs.dirs {
      forall q | q in run.outDirs ensures p != ws + q {
        assert (ws + q)[..|ws|] == ws;
      }
    }
  }

  /** Everything a stage or the set-up creates lies at or below `ws`, except the
      ancestors `ensureDir` makes. */
  lemma TryStaysInWorkspace(fs: Fs, ws: Path, source: Json, compile: StageRun, codegen: StageRun)
    ensures SameOutside(fs, Try(fs, ws, source, compile, codegen).fs, ws)
  {
    var st := SetUp(fs, ws, source);
    SetUpStaysInWorkspace(fs, ws, source);
    if st.error.None? {
      var fs1 := ApplyStage(st.fs, ws, compile);
      ApplyStageStaysInWorkspace(st.fs, ws, compile);
      SameOutsideTrans(fs, st.fs, fs1, ws);
      var fs2 := ApplyStage(fs1, ws, codegen);
      ApplyStageStaysInWorkspace(fs1, ws, codegen);
      SameOutsideTrans(fs, fs1, fs2, ws);
    }
  }

  /** The handler changes nothing outside the workspace but the workspace's
      ancestors, which `ensureDir` creates and which stay behind. */
  lemma OutsideWorkspaceUntouched(fs: Fs, tmp: Path, uuid: string, code: Option<Json>,
                                  compile: StageRun, codegen: StageRun, rmFault: bool)
    ensures SameOutside(fs, Handle(fs, tmp, uuid, code, compile, codegen, rmFault).fs, Workspace(tmp, uuid))
  {
    var ws := Workspace(tmp, uuid);
    if !Falsy(code) {
      var a := Try(fs, ws, code.value, compile, codegen);
      TryStaysInWorkspace(fs, ws, code.value, compile, codegen);
      SameOutsideTrans(fs, a.fs, Teardown(a.fs, ws, rmFault), ws);
    }
  }

  /** Unless `rm` itself fails, a request that started from a fresh workspace
      leaves nothing at or below it, whatever the stages did. */
  lemma NoWorkspaceLeft(fs: Fs, tmp: Path, uuid: string, code: Option<Json>,
                        compile: StageRun, codegen: StageRun)
    requires Fresh(fs, Workspace(tmp, uuid))
    ensures Fresh(Handle(fs, tmp, uuid, code, compile, codegen, false).fs, Workspace(tmp, uuid))
  {
    var ws := Workspace(tmp, uuid);
    if !Falsy(code) {
      var st := SetUp(fs, ws, code.value);
      TryState(fs, ws, code.value, compile, codegen);
      var a := Try(fs, ws, code.value, compile, codegen);
      if EnsureDir(fs, ws + ["src"]).Err? {
        assert a.fs == fs;
      } else {
        var fs1 := EnsureDir(fs, ws + ["src"]).value;
        assert (ws + ["src"])[..|ws|] == ws;
        assert ws in fs1.dirs;
        assert fs1.dirs <= st.fs.dirs;
        ApplyStageStaysInWorkspace(st.fs, ws, compile);
        ApplyStageStaysInWorkspace(ApplyStage(st.fs, ws, compile), ws, codegen);
        assert ws in a.fs.dirs;
      }
      TeardownFresh(a.fs, ws);
    }
  }

  /** A successful `rm` leaves nothing at or below the workspace. */
  lemma TeardownFresh(fs: Fs, ws: Path)
    requires Fresh(fs, ws) || ws in fs.dirs
    ensures Fresh(Teardown(fs, ws, false), ws)
  {
  }

  /** The shared parent `<tmp>/texcoco-` made for the first workspace is never removed. */
  lemma SharedParentSurvives(fs: Fs, tmp: Path, uuid: string, code: Option<Json>,
                             compile: StageRun, codegen: StageRun, rmFault: bool)
    requires !Falsy(code) && EnsureDir(fs, Workspace(tmp, uuid) + ["src"]).Ok?
    ensures tmp + [SharedParent] in Handle(fs, tmp, uuid, code, compile, codegen, rmFault).fs.dirs
  {
    var ws := Workspace(tmp, uuid);
    var parent := tmp + [SharedParent];
    var st := SetUp(fs, ws, code.value);
    assert parent in st.fs.dirs by {
      assert (ws + ["src"])[..|tmp| + 1] == parent;
      assert parent in EnsureDir(fs, ws + ["src"]).value.dirs;
    }
    assert !Under(parent, ws);
    TryState(fs, ws, code.value, compile, codegen);
    AfterSetUpStaysInWorkspace(st.fs, ws, st.error.None?, compile, codegen, rmFault);
    assert Handle(fs, tmp, uuid, code, compile, codegen, rmFault).fs
        == Teardown(Try(fs, ws, code.value, compile, codegen).fs, ws, rmFault);
  }

  /** The state the try block leaves: the one set-up reaches, after the stages
      that ran. */
  lemma TryState(fs: Fs, ws: Path, source: Json, compile: StageRun, codegen: StageRun)
    ensures var st := SetUp(fs, ws, source);
      Try(fs, ws, source, compile, codegen).fs ==
        if st.error.Some? then st.fs
        else if compile.exitCode != 0 then ApplyStage(st.fs, ws, compile)
        else ApplyStage(ApplyStage(st.fs, ws, compile), ws, codegen)
  {
  }

  /** The steps after set-up: the stages when it succeeded, then the clean-up. */
  lemma AfterSetUpStaysInWorkspace(fs: Fs, ws: Path, ready: bool, compile: StageRun, codegen: StageRun, rmFault: bool)
    ensures var fs2 := if !ready then fs
                       else if compile.exitCode != 0 then ApplyStage(fs, ws, compile)
                       else ApplyStage(ApplyStage(fs, ws, compile), ws, codegen);
      SameOutside(fs, Teardown(fs2, ws, rmFault), ws)
  {
    var fs1 := ApplyStage(fs, ws, compile);
    ApplyStageStaysInWorkspace(fs, ws, compile);
    ApplyStageStaysInWorkspace(fs1, ws, codegen);
    SameOutsideTrans(fs, fs1, ApplyStage(fs1, ws, codegen), ws);
    var fs2 := if !ready then fs
               else if compile.exitCode != 0 then fs1
               else ApplyStage(fs1, ws, codegen);
    TeardownStaysInWorkspace(fs2, ws, rmFault);
    SameOutsideTrans(fs, fs2, Teardown(fs2, ws, rmFault), ws);
  }

  lemma TeardownStaysInWorkspace(fs: Fs, ws: Path, rmFault: bool)
    ensures SameOutside(fs, Teardown(fs, ws, rmFault), ws)
  {
    if !rmFault && Exists(fs, ws) {
      var after := Remove(fs, ws).value;
      assert forall p :: !Under(p, ws) && p in fs.files ==> p in after.files && after.files[p] == fs.files[p];
    }
  }

  /** Whether `rm` fails changes the state left behind, never the response or the stages run. */
  lemma CleanupDoesNotAffectResponse(fs: Fs, tmp: Path, uuid: string, code: Option<Json>,
                                     compile: StageRun, codegen: StageRun)
    ensures var h1 := Handle(fs, tmp, uuid, code, compile, codegen, true);
      var h2 := Handle(fs, tmp, uuid, code, compile, codegen, false);
      h1.response == h2.response && h1.ran == h2.ran
  {
  }
}

/**
 * The desktop launcher (`src/utils/script_runner.py`): from a script's path and
 * a run/undo flag, the argument vector handed to the process spawner, or the
 * parameter string handed to the elevation call. The spawn and the elevation
 * themselves are effects outside the model; the model returns what would be
 * passed to them.
 */
module ScriptRunner {
  import opened Common

  /** What `subprocess.Popen` is called with. */
  datatype Launch = Launch(argv: seq<string>, shell: bool)

  /** A launch, or the `ValueError` raised before anything is spawned. */
  datatype Outcome = Spawn(launch: Launch) | Refused(message: string)

  /** `ShellExecuteW(None, "runas", file, params, None, 1)`. */
  datatype ShellCall = ShellCall(file: string, params: Option<string>)

  /** The arguments placed before the script path. */
  function Launcher(ext: string, interpreter: string): seq<string> {
    if ext == ".ps1" then ["powershell", "-ExecutionPolicy", "Bypass", "-File"]
    else if ext == ".py" then [interpreter]
    else []
  }

  /** The trailing argument that asks a script to undo its changes. */
  function UndoArg(ext: string): string {
    if ext == ".ps1" then "-Undo"
    else if ext == ".py" then "--undo"
    else "undo"
  }

  /**
   * `run_script` on a path whose lower-cased extension is `ext`; `interpreter`
   * stands for `sys.executable`. Batch files alone go through the shell; an
   * executable cannot be undone, and an unknown extension is refused.
   */
  function Command(ext: string, path: string, undo: bool, interpreter: string): (r: Outcome)
    ensures r.Spawn? <==> IsScriptExt(ext) && !(undo && ext == ".exe")
    ensures r.Spawn? ==>
              r.launch.argv == Launcher(ext, interpreter) + [path] + (if undo then [UndoArg(ext)] else [])
    ensures r.Spawn? ==> (r.launch.shell <==> ext in [".bat", ".cmd"])
    ensures r.Refused? && ext == ".exe" ==> r.message == "Undo operation not supported for EXE files"
    ensures r.Refused? && ext != ".exe" ==> r.message == "Unsupported script type: " + ext
  {
    if ext == ".ps1" then
      if undo then Spawn(Launch(["powershell", "-ExecutionPolicy", "Bypass", "-File", path, "-Undo"], false))
      else Spawn(Launch(["powershell", "-ExecutionPolicy", "Bypass", "-File", path], false))
    else if ext == ".py" then
      if undo then Spawn(Launch([interpreter, path, "--undo"], false))
      else Spawn(Launch([interpreter, path], false))
    else if ext in [".bat", ".cmd"] then
      if undo then Spawn(Launch([path, "undo"], true))
      else Spawn(Launch([path], true))
    else if ext == ".exe" then
      if undo then Refused("Undo operation not supported for EXE files")
      else Spawn(Launch([path], false))
    else Refused("Unsupported script type: " + ext)
  }

  /** `run_script(path, undo)`. */
  function RunScript(path: string, undo: bool, interpreter: string): Outcome {
    Command(LowerExt(path), path, undo, interpreter)
  }

  /** Undo runs the same command as a plain run, with exactly one argument more. */
  lemma UndoExtendsRun(ext: string, path: string, interpreter: string)
    requires Command(ext, path, true, interpreter).Spawn?
    ensures Command(ext, path, false, interpreter).Spawn?
    ensures Command(ext, path, true, interpreter).launch.argv ==
            Command(ext, path, false, interpreter).launch.argv + [UndoArg(ext)]
    ensures Command(ext, path, true, interpreter).launch.shell == Command(ext, path, false, interpreter).launch.shell
  {
  }

  lemma EndsWithTail(a: string, b: string)
    ensures EndsWith(a + b, b)
  {
    assert (a + b)[|a + b| - |b|..] == b;
  }

  /** A path in double quotes, as the elevated command line carries it. */
  function Quote(path: string): string { "\"" + path + "\"" }

  /**
   * The elevation request `run_script_as_admin` makes for a path whose
   * lower-cased extension is `ext`, or `None` when it makes none: an
   * executable cannot be undone, and an unknown extension is refused.
   */
  function AdminCall(ext: string, path: string, undo: bool, interpreter: string): (c: Option<ShellCall>)
    ensures c.Some? <==> IsScriptExt(ext) && !(undo && ext == ".exe")
    ensures c.Some? && ext in [".bat", ".cmd", ".exe"] ==> c.value.file == path && (c.value.params.Some? <==> undo)
    ensures c.Some? && ext in [".ps1", ".py"] ==>
              c.value.params.Some? && EndsWith(c.value.params.value, Quote(path) + (if undo then " " + UndoArg(ext) else ""))
    ensures c.Some? && ext == ".ps1" ==> c.value.file == "powershell"
    ensures c.Some? && ext == ".py" ==> c.value.file == interpreter
  {
    if ext == ".ps1" then
      var head := "-ExecutionPolicy Bypass -File ";
      var args := head + Quote(path);
      var params := if undo then args + " -Undo" else args;
      assert params == head + (Quote(path) + (if undo then " " + UndoArg(ext) else ""));
      EndsWithTail(head, Quote(path) + (if undo then " " + UndoArg(ext) else ""));
      Some(ShellCall("powershell", Some(params)))
    else if ext == ".py" then
      var params := if undo then Quote(path) + " --undo" else Quote(path);
      assert params == [] + (Quote(path) + (if undo then " " + UndoArg(ext) else ""));
      EndsWithTail([], Quote(path) + (if undo then " " + UndoArg(ext) else ""));
      Some(ShellCall(interpreter, Some(params)))
    else if ext in [".bat", ".cmd"] then
      Some(ShellCall(path, if undo then Some("undo") else None))
    else if ext == ".exe" then
      if undo then None else Some(ShellCall(path, None))
    else None
  }

  /**
   * `run_script_as_admin`: `callRaises` says whether `ShellExecuteW` raises.
   * Its return value is never looked at, so the result is true exactly when
   * the call is made and does not raise.
   */
  function RunScriptAsAdmin(path: string, undo: bool, interpreter: string, callRaises: bool): (ok: bool)
    ensures ok <==> IsScriptExt(LowerExt(path)) && !(undo && LowerExt(path) == ".exe") && !callRaises
  {
    match AdminCall(LowerExt(path), path, undo, interpreter)
    case None => false
    case Some(_) => !callRaises
  }

  /** The elevated undo request differs from the plain one only by its undo parameter. */
  lemma AdminUndoExtendsRun(ext: string, path: string, interpreter: string)
    requires AdminCall(ext, path, true, interpreter).Some?
    ensures AdminCall(ext, path, false, interpreter).Some?
    ensures AdminCall(ext, path, true, interpreter).value.file == AdminCall(ext, path, false, interpreter).value.file
    ensures ext in [".ps1", ".py"] ==>
              AdminCall(ext, path, true, interpreter).value.params ==
              Some(AdminCall(ext, path, false, interpreter).value.params.value + " " + UndoArg(ext))
    ensures ext in [".bat", ".cmd"] ==>
              AdminCall(ext, path, false, interpreter).value.params.None? &&
              AdminCall(ext, path, true, interpreter).value.params == Some("undo")
  {
    if ext == ".ps1" {
      var args := "-ExecutionPolicy Bypass -File " + Quote(path);
      assert AdminCall(ext, path, false, interpreter) == Some(ShellCall("powershell", Some(args)));
      assert AdminCall(ext, path, true, interpreter) == Some(ShellCall("powershell", Some(args + " -Undo")));
      assert UndoArg(ext) == "-Undo";
      assert args + " -Undo" == args + " " + "-Undo";
    } else if ext == ".py" {
      assert AdminCall(ext, path, false, interpreter) == Some(ShellCall(interpreter, Some(Quote(path))));
      assert AdminCall(ext, path, true, interpreter) == Some(ShellCall(interpreter, Some(Quote(path) + " --undo")));
      assert UndoArg(ext) == "--undo";
      assert Quote(path) + " --undo" == Quote(path) + " " + "--undo";
    } else if ext == ".bat" || ext == ".cmd" {
      assert AdminCall(ext, path, false, interpreter) == Some(ShellCall(path, None));
      assert AdminCall(ext, path, true, interpreter) == Some(ShellCall(path, Some("undo")));
    }
  }

  /** The arguments of a plain launch after the program, with the script path in quotes, as one command line. */
  function QuotedArgs(ext: string, path: string, undo: bool, interpreter: string): string
    requires ext in [".ps1", ".py"]
  {
    Join(Launcher(ext, interpreter)[1..] + [Quote(path)] + (if undo then [UndoArg(ext)] else []), ' ')
  }

  /**
   * Both launchers accept the same script types and refuse the same undo, and
   * elevate the program a plain run starts: PowerShell and Python get the
   * other arguments of the plain run as one line with the path quoted, batch
   * files and executables their only argument, if any.
   */
  lemma AdminAgreesWithRun(ext: string, path: string, undo: bool, interpreter: string)
    ensures AdminCall(ext, path, undo, interpreter).Some? <==> Command(ext, path, undo, interpreter).Spawn?
    ensures Command(ext, path, undo, interpreter).Spawn? ==>
              AdminCall(ext, path, undo, interpreter).value.file == Command(ext, path, undo, interpreter).launch.argv[0]
    ensures Command(ext, path, undo, interpreter).Spawn? && ext in [".ps1", ".py"] ==>
              AdminCall(ext, path, undo, interpreter).value.params == Some(QuotedArgs(ext, path, undo, interpreter))
    ensures Command(ext, path, undo, interpreter).Spawn? && ext !in [".ps1", ".py"] ==>
              AdminCall(ext, path, undo, interpreter).value.params ==
              (if undo then Some(Command(ext, path, undo, interpreter).launch.argv[1]) else None)
  {
    if ext == ".ps1" {
      PowerShellArgs(path, undo, interpreter);
      var args := "-ExecutionPolicy Bypass -File " + Quote(path);
      if undo {
        assert AdminCall(ext, path, undo, interpreter) == Some(ShellCall("powershell", Some(args + " -Undo")));
      } else {
        assert AdminCall(ext, path, undo, interpreter) == Some(ShellCall("powershell", Some(args)));
        assert args + "" == args;
      }
    } else if ext == ".py" {
      PythonArgs(path, undo, interpreter);
    }
  }

  /** The elevated PowerShell parameters are the plain run's arguments after `powershell`. */
  lemma PowerShellArgs(path: string, undo: bool, interpreter: string)
    ensures QuotedArgs(".ps1", path, undo, interpreter) ==
            "-ExecutionPolicy Bypass -File " + Quote(path) + (if undo then " -Undo" else "")
  {
    var tail := [Quote(path)] + (if undo then ["-Undo"] else []);
    assert Launcher(".ps1", interpreter)[1..] + [Quote(path)] + (if undo then [UndoArg(".ps1")] else []) ==
           ["-ExecutionPolicy"] + (["Bypass"] + (["-File"] + tail));
    JoinCons("-File", tail, ' ');
    JoinCons("Bypass", ["-File"] + tail, ' ');
    JoinCons("-ExecutionPolicy", ["Bypass"] + (["-File"] + tail), ' ');
    PowerShellHead(Join(tail, ' '));
    if undo {
      JoinCons(Quote(path), ["-Undo"], ' ');
    } else {
      assert Join(tail, ' ') == Quote(path);
    }
  }

  /** The three leading words, each followed by a space. */
  lemma PowerShellHead(x: string)
    ensures "-ExecutionPolicy" + [' '] + ("Bypass" + [' '] + ("-File" + [' '] + x)) == "-ExecutionPolicy Bypass -File " + x
  {
    assert "-ExecutionPolicy" + [' '] + "Bypass" + [' '] + "-File" + [' '] == "-ExecutionPolicy Bypass -File ";
  }

  /** The elevated Python parameters are the quoted path, then the undo flag. */
  lemma PythonArgs(path: string, undo: bool, interpreter: string)
    ensures QuotedArgs(".py", path, undo, interpreter) == Quote(path) + (if undo then " --undo" else "")
  {
    assert Launcher(".py", interpreter)[1..] == [];
    if undo {
      assert [] + [Quote(path)] + [UndoArg(".py")] == [Quote(path)] + ["--undo"];
      JoinCons(Quote(path), ["--undo"], ' ');
    } else {
      assert [] + [Quote(path)] + [] == [Quote(path)];
    }
  }
}

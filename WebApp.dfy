/**
 * The Flask application (`web_app/app.py`): the console buffer shown in the
 * browser, the message-handler overrides that feed it, the `run_script` and
 * `clear_console` endpoints, and the file-naming rule of `create_script`.
 *
 * The module-level list `console_output` is a `ConsoleBuffer` object whose
 * `entries` field the handlers update. Timestamps (`strftime("%H:%M:%S")`),
 * the file system and the script run are inputs.
 */
module WebApp {
  import opened Common
  import ScriptController

  // ---------------------------------------------------------------------
  // The console buffer

  /** At most this many entries are kept. */
  const BufferLimit := 500

  /** How many of the newest entries a `run_script` reply carries. */
  const ReplyLines := 10

  /** Python's `s[-n:]` for `n > 0`: the last `n` elements, or all when there are fewer. */
  function Tail<T>(s: seq<T>, n: nat): (r: seq<T>)
    requires n > 0
    ensures |r| == (if |s| < n then |s| else n)
    ensures r == s[|s| - |r|..]
  {
    if |s| <= n then s else s[|s| - n..]
  }

  /** One entry: `f"[{timestamp}] {message}"`. */
  function Stamped(stamp: string, message: string): (e: string)
    ensures StartsWith(e, "[" + stamp + "] ") && EndsWith(e, message)
  {
    "[" + stamp + "] " + message
  }

  /** The buffer after capturing each `(timestamp, message)` pair in turn, trimmed after each. */
  function CapturedAll(entries: seq<string>, msgs: seq<(string, string)>): (r: seq<string>)
    ensures msgs == [] ==> r == entries
    ensures msgs != [] ==> 0 < |r| <= BufferLimit && r[|r| - 1] == Stamped(msgs[|msgs| - 1].0, msgs[|msgs| - 1].1)
    decreases |msgs|
  {
    if msgs == [] then entries
    else CapturedAll(Tail(entries + [Stamped(msgs[0].0, msgs[0].1)], BufferLimit), msgs[1..])
  }

  /** Trimming after each append keeps the same entries as trimming once at the end. */
  lemma TailOfTail(s: seq<string>, x: string)
    ensures Tail(Tail(s, BufferLimit) + [x], BufferLimit) == Tail(s + [x], BufferLimit)
  {
    var t := Tail(s, BufferLimit);
    assert t + [x] == (s + [x])[|s| - |t|..];
  }

  /** Trimming a trimmed buffer changes nothing. */
  lemma TailIdempotent(s: seq<string>)
    ensures Tail(Tail(s, BufferLimit), BufferLimit) == Tail(s, BufferLimit)
  {
  }

  /** The stamped entries of a run of messages. */
  function StampedAll(msgs: seq<(string, string)>): (r: seq<string>)
    ensures |r| == |msgs|
    ensures forall i :: 0 <= i < |msgs| ==> r[i] == Stamped(msgs[i].0, msgs[i].1)
  {
    if msgs == [] then [] else [Stamped(msgs[0].0, msgs[0].1)] + StampedAll(msgs[1..])
  }

  lemma StampedCons(entries: seq<string>, msgs: seq<(string, string)>)
    requires msgs != []
    ensures entries + StampedAll(msgs) == (entries + [Stamped(msgs[0].0, msgs[0].1)]) + StampedAll(msgs[1..])
  {
    assert StampedAll(msgs) == [Stamped(msgs[0].0, msgs[0].1)] + StampedAll(msgs[1..]);
  }

  /**
   * Any number of captures leaves exactly the newest (at most 500) of all the
   * entries ever appended, in order: entries are only ever dropped from the front.
   */
  lemma {:induction false} CapturesKeepNewest(entries: seq<string>, msgs: seq<(string, string)>)
    ensures CapturedAll(Tail(entries, BufferLimit), msgs) == Tail(entries + StampedAll(msgs), BufferLimit)
    decreases |msgs|
  {
    if msgs == [] {
      assert entries + StampedAll(msgs) == entries;
      TailIdempotent(entries);
    } else {
      var x := Stamped(msgs[0].0, msgs[0].1);
      var e := entries + [x];
      var rest := msgs[1..];
      var t := Tail(entries, BufferLimit);
      calc {
        CapturedAll(t, msgs);
        CapturedAll(Tail(t + [x], BufferLimit), rest);
        { TailOfTail(entries, x); }
        CapturedAll(Tail(e, BufferLimit), rest);
        { CapturesKeepNewest(e, rest); }
        Tail(e + StampedAll(rest), BufferLimit);
        { StampedCons(entries, msgs); }
        Tail(entries + StampedAll(msgs), BufferLimit);
      }
    }
  }

  /** The prefixes `MessageHandler.info`, `.error` and `.warning` put before a message. */
  datatype Level = InfoLevel | ErrorLevel | WarningLevel

  function Prefix(level: Level): string {
    match level
    case InfoLevel => "INFO: "
    case ErrorLevel => "ERROR: "
    case WarningLevel => "WARNING: "
  }

  /** The flash category of each level. */
  function Category(level: Level): string {
    match level
    case InfoLevel => "info"
    case ErrorLevel => "error"
    case WarningLevel => "warning"
  }

  /** What `run_script` answers: the early "not found" reply, or the run's result with the newest console entries. */
  datatype RunReply = NotFound | Ran(success: bool, message: string, consoleOutput: seq<string>)

  /** `console_output`: the list of timestamped entries the browser polls. */
  class ConsoleBuffer {
    var entries: seq<string>

    /** The buffer never holds more than the limit. */
    predicate Valid()
      reads this
    {
      |entries| <= BufferLimit
    }

    /** `console_output = []` at start-up. */
    constructor()
      ensures Valid() && entries == []
    {
      entries := [];
    }

    /**
     * `capture_output`: the stamped message becomes the last entry, then the
     * oldest entries are popped until at most 500 remain. Returns whether the
     * message is also logged (it mentions `ERROR` or `WARNING`).
     */
    method Capture(stamp: string, message: string) returns (logged: bool)
      modifies this
      ensures entries == Tail(old(entries) + [Stamped(stamp, message)], BufferLimit)
      ensures Valid()
      ensures entries[|entries| - 1] == Stamped(stamp, message)
      ensures logged <==> Contains(message, "ERROR") || Contains(message, "WARNING")
    {
      ghost var all := entries + [Stamped(stamp, message)];
      entries := entries + [Stamped(stamp, message)];
      ghost var dropped := 0;
      while |entries| > BufferLimit
        invariant 0 <= dropped <= |all| - 1
        invariant entries == all[dropped..]
        invariant dropped > 0 ==> |entries| >= BufferLimit
        decreases |entries|
      {
        entries := entries[1..];
        dropped := dropped + 1;
      }
      assert entries[|entries| - 1] == all[|all| - 1];
      logged := Contains(message, "ERROR") || Contains(message, "WARNING");
    }

    /**
     * The `MessageHandler` overrides: the message goes to the buffer behind its
     * level's prefix, and is flashed with its level's category unless it is
     * console-only.
     */
    method Report(level: Level, stamp: string, message: string, consoleOnly: bool)
      returns (flashed: Option<(string, string)>)
      modifies this
      ensures entries == Tail(old(entries) + [Stamped(stamp, Prefix(level) + message)], BufferLimit)
      ensures flashed == (if consoleOnly then None else Some((message, Category(level))))
    {
      var logged := Capture(stamp, Prefix(level) + message);
      flashed := if consoleOnly then None else Some((message, Category(level)));
    }

    /** `clear_console`: the buffer is replaced by the single stamped `Console cleared.` entry. */
    method Clear(stamp: string)
      modifies this
      ensures Valid()
      ensures entries == [Stamped(stamp, "Console cleared.")]
    {
      entries := [];
      var logged := Capture(stamp, "Console cleared.");
    }

    /**
     * `run_script`. `pathField` and `undoField` are the form fields, `found`
     * is `os.path.exists`, and `run` gives, for the undo flag, what
     * `run_script_web` returns and the `(timestamp, message)` pairs it reports
     * through the output callback.
     */
    method RunScript(pathField: Option<string>, found: bool, undoField: Option<string>,
                     run: bool -> (ScriptController.WebResult, seq<(string, string)>))
      returns (reply: RunReply)
      modifies this
      ensures reply.NotFound? <==> pathField.None? || pathField.value == "" || !found
      ensures reply.NotFound? ==> entries == old(entries)
      ensures !reply.NotFound? ==>
                var (result, reported) := run(undoField == Some("true"));
                entries == CapturedAll(old(entries), reported) &&
                reply == Ran(result.success, result.message, Tail(entries, ReplyLines))
    {
      var undo := undoField == Some("true");
      if pathField.None? || pathField.value == "" || !found {
        return NotFound;
      }
      var (result, reported) := run(undo);
      var i := 0;
      while i < |reported|
        invariant 0 <= i <= |reported|
        invariant CapturedAll(entries, reported[i..]) == CapturedAll(old(entries), reported)
        decreases |reported| - i
      {
        assert reported[i..][1..] == reported[i + 1..];
        var logged := Capture(reported[i].0, reported[i].1);
        i := i + 1;
      }
      assert reported[i..] == [];
      reply := Ran(result.success, result.message, Tail(entries, ReplyLines));
    }
  }

  /** A buffer trimmed before capturing holds the newest entries of everything appended. */
  lemma RunKeepsNewest(entries: seq<string>, reported: seq<(string, string)>)
    requires |entries| <= BufferLimit
    ensures CapturedAll(entries, reported) == Tail(entries + StampedAll(reported), BufferLimit)
  {
    assert Tail(entries, BufferLimit) == entries;
    CapturesKeepNewest(entries, reported);
  }

  // ---------------------------------------------------------------------
  // Creating a script

  /** A form field that is present and not empty. */
  predicate Given(field: Option<string>) { field.Some? && field.value != "" }

  /** The new file's name: the type is appended unless the name already ends with it. */
  function ScriptFileName(name: string, scriptType: string): (f: string)
    ensures EndsWith(f, scriptType)
    ensures f == name || f == name + scriptType
  {
    if EndsWith(name, scriptType) then name else name + scriptType
  }

  /** Naming a file that already carries the type changes nothing more. */
  lemma FileNameIdempotent(name: string, scriptType: string)
    ensures ScriptFileName(ScriptFileName(name, scriptType), scriptType) == ScriptFileName(name, scriptType)
  {
    if !EndsWith(name, scriptType) {
      assert (name + scriptType)[|name + scriptType| - |scriptType|..] == scriptType;
    }
  }

  /**
   * What a POST to `create_script` does: the directory it creates (if any),
   * the file it leaves behind (path and content), the flashed message with
   * its category, and whether it redirects back to the form.
   */
  datatype Created = Created(madeDir: Option<string>, written: Option<(string, string)>,
                             flash: string, category: string, backToForm: bool)

  /** How `open(script_path, 'w')` and `f.write(content)` end: the message of the exception raised, if any. */
  datatype WriteOutcome = OpenFails(error: string) | WriteFails(error: string) | Writes

  /** The message of the `TypeError` that `f.write(None)` raises. */
  const NoneWriteError := "write() argument must be str, not None"

  /**
   * `create_script` on POST. Opening the file in mode `'w'` creates it, or
   * empties the script already there, before anything is written; so when
   * the content is missing (`write(None)` raises) or the write fails, an
   * empty file is left at the path.
   */
  function CreateScript(scriptsDir: string, category: Option<string>, name: Option<string>,
                        scriptType: Option<string>, content: Option<string>,
                        io: WriteOutcome): (c: Created)
    ensures !(Given(name) && Given(category) && Given(scriptType)) <==> c.madeDir.None?
    ensures c.madeDir.None? ==> c.written.None? && c.flash == "Missing required fields." && c.backToForm
    ensures c.written.Some? ==>
              c.written.value.0 == JoinPath(JoinPath(scriptsDir, category.value), ScriptFileName(name.value, scriptType.value)) &&
              EndsWith(c.written.value.0, scriptType.value)
    ensures c.madeDir.Some? ==> (c.written.Some? <==> !io.OpenFails?)
    ensures c.madeDir.Some? && io.OpenFails? ==> c.flash == "Failed to create script: " + io.error && c.backToForm
    ensures c.madeDir.Some? && io.Writes? && content.Some? ==>
              c.written.value.1 == content.value && !c.backToForm && c.category == "success" &&
              c.flash == "Script '" + name.value + "' created successfully!"
    ensures c.madeDir.Some? && io.Writes? && content.None? ==>
              c.written.value.1 == "" && c.backToForm && c.flash == "Failed to create script: " + NoneWriteError
    ensures c.madeDir.Some? && io.WriteFails? ==>
              c.written.value.1 == "" && c.backToForm && c.flash == "Failed to create script: " + io.error
    ensures c.backToForm <==> c.category == "error"
  {
    if !Given(name) || !Given(category) || !Given(scriptType) then
      Created(None, None, "Missing required fields.", "error", true)
    else
      var dir := JoinPath(scriptsDir, category.value);
      var path := JoinPath(dir, ScriptFileName(name.value, scriptType.value));
      match io
      case OpenFails(e) => Created(Some(dir), None, "Failed to create script: " + e, "error", true)
      case WriteFails(e) => Created(Some(dir), Some((path, "")), "Failed to create script: " + e, "error", true)
      case Writes =>
        if content.None? then
          Created(Some(dir), Some((path, "")), "Failed to create script: " + NoneWriteError, "error", true)
        else
          Created(Some(dir), Some((path, content.value)),
                  "Script '" + name.value + "' created successfully!", "success", false)
  }
}

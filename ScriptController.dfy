/**
 * The web application's script controller
 * (`web_app/controllers/script_controller.py`): listing the scripts of a
 * category, running one and classifying its result, and writing the template
 * of a new script, whose header the metadata parser reads back.
 */
module ScriptController {
  import opened Common
  import opened Sorting
  import opened ScriptMetadata
  import ScriptRunner
  import RatingSystem

  // ---------------------------------------------------------------------
  // Listing a category

  /** One name returned by `os.listdir`, with what the file system says about it. */
  datatype DirEntry = DirEntry(name: string, isFile: bool, file: FileRead)

  /**
   * What the rating system gives for a script's path and friendly name
   * (`get_average_rating`), or `None` when no rating system is passed.
   */
  type Ratings = Option<(string, string) -> RatingSystem.Average>

  /** One script as the web page shows it. */
  datatype ScriptInfo = ScriptInfo(fileName: string, filePath: string, scriptType: string,
                                   name: string, developer: string, description: string,
                                   rating: Option<RatingSystem.Average>, undoable: string, undoDesc: string, link: string)

  /** `s.lstrip(".")`. */
  function LStripDots(s: string): (r: string)
    ensures |r| <= |s| && r == s[|s| - |r|..]
    ensures forall i :: 0 <= i < |s| - |r| ==> s[i] == '.'
    ensures r == [] || r[0] != '.'
  {
    if s != [] && s[0] == '.' then
      var r := LStripDots(s[1..]);
      assert s[1..][|s| - 1 - |r|..] == s[|s| - |r|..];
      assert forall i :: 0 < i < |s| - |r| ==> s[i] == s[1..][i - 1];
      r
    else s
  }

  /** The type column: the extension without its dot, upper-cased. */
  function TypeName(ext: string): string { Upper(LStripDots(ext)) }

  /** The rating column: asked of the rating system by path and friendly name, when there is one. */
  function RatingFor(ratings: Ratings, path: string, name: string): Option<RatingSystem.Average> {
    match ratings
    case None => None
    case Some(average) => Some(average(path, name))
  }

  /** The listing entry for one script file. */
  function Info(dir: string, e: DirEntry, win32: Win32, ratings: Ratings): ScriptInfo {
    var path := JoinPath(dir, e.name);
    var m := ParseScriptMetadata(path, e.file, win32);
    ScriptInfo(e.name, path, TypeName(Ext(e.name)), m.name, m.developer, m.description,
               RatingFor(ratings, path, m.name), m.undoable, m.undoDesc, m.link)
  }

  /** A listed name that the page shows: a regular file with one of the five script extensions. */
  predicate Shown(e: DirEntry) { e.isFile && IsScriptExt(LowerExt(e.name)) }

  /** `Info` for a fixed directory, executable-resource lookup and rating system. */
  function InfoIn(dir: string, win32: Win32, ratings: Ratings): DirEntry -> ScriptInfo {
    (e: DirEntry) => Info(dir, e, win32, ratings)
  }

  /** The listing holds exactly one entry per shown file, and nothing else. */
  lemma ListingMembers(dir: string, listing: seq<DirEntry>, win32: Win32, ratings: Ratings, x: ScriptInfo)
    ensures x in FilterMap(listing, Shown, InfoIn(dir, win32, ratings)) <==>
            exists e :: e in listing && Shown(e) && x == Info(dir, e, win32, ratings)
  {
    FilterMapMembers(listing, Shown, InfoIn(dir, win32, ratings), x);
  }

  /** Each entry's rating column is the rating system's answer for its path and friendly name. */
  lemma RatingColumn(dir: string, listing: seq<DirEntry>, win32: Win32, ratings: Ratings, x: ScriptInfo)
    requires x in FilterMap(listing, Shown, InfoIn(dir, win32, ratings))
    ensures ratings.None? ==> x.rating == None
    ensures ratings.Some? ==> x.rating == Some(ratings.value(x.filePath, x.name))
  {
    ListingMembers(dir, listing, win32, ratings, x);
  }

  /** The key scripts are ordered by: the lower-cased friendly name. */
  function NameKey(s: ScriptInfo): string { Lower(s.name) }

  /**
   * `get_scripts_for_web`: the shown files of the listing (none when the
   * directory cannot be listed), sorted by lower-cased name; scripts whose
   * names are equal once lower-cased keep their listing order.
   */
  method GetScriptsForWeb(dir: string, listing: Option<seq<DirEntry>>, win32: Win32, ratings: Ratings)
    returns (scripts: seq<ScriptInfo>)
    ensures SortedBy(scripts, NameKey)
    ensures listing.Some? ==> multiset(scripts) == multiset(FilterMap(listing.value, Shown, InfoIn(dir, win32, ratings)))
    ensures listing.Some? ==> forall k :: WithKey(scripts, NameKey, k) ==
                                         WithKey(FilterMap(listing.value, Shown, InfoIn(dir, win32, ratings)), NameKey, k)
    ensures listing.None? ==> scripts == []
  {
    var found: seq<ScriptInfo> := [];
    if listing.Some? {
      found := ListShown(dir, listing.value, win32, ratings);
    }
    scripts := Sort(found, NameKey);
    forall k ensures WithKey(scripts, NameKey, k) == WithKey(found, NameKey, k) {
      SortStable(found, NameKey, k);
    }
  }

  /** The walk over the listing: one record per shown file, in listing order. */
  method ListShown(dir: string, entries: seq<DirEntry>, win32: Win32, ratings: Ratings) returns (found: seq<ScriptInfo>)
    ensures found == FilterMap(entries, Shown, InfoIn(dir, win32, ratings))
  {
    var info := InfoIn(dir, win32, ratings);
    found := [];
    var i := 0;
    while i < |entries|
      invariant 0 <= i <= |entries|
      invariant found == FilterMap(entries[..i], Shown, info)
    {
      var e := entries[i];
      FilterMapStep(entries, i, Shown, info);
      if Shown(e) {
        found := found + [info(e)];
      }
      i := i + 1;
    }
    assert entries[..i] == entries;
  }

  // ---------------------------------------------------------------------
  // Running a script

  /** Python truthiness of a string. */
  predicate Truthy(s: string) { s != [] }

  /** The parser always yields "Yes" or "No", both truthy: the undo guard of `run_script_web` never fires. */
  lemma UndoGuardNeverFires(path: string, file: FileRead, win32: Win32)
    ensures Truthy(ParseScriptMetadata(path, file, win32).undoable)
  {
  }

  /** The command `run_script_web` builds for a lower-cased extension, or `None` when it refuses the type. */
  function WebCommand(ext: string, path: string, undo: bool, interpreter: string): (cmd: Option<seq<string>>)
    ensures cmd.Some? <==> IsScriptExt(ext)
    ensures cmd.Some? && ext == ".exe" ==> cmd.value == [path] + (if undo then ["/undo"] else [])
  {
    if ext == ".py" then Some([interpreter, path] + (if undo then ["--undo"] else []))
    else if ext == ".ps1" then Some(["powershell", "-ExecutionPolicy", "Bypass", "-File", path] + (if undo then ["-Undo"] else []))
    else if ext in [".bat", ".cmd"] then Some([path] + (if undo then ["undo"] else []))
    else if ext == ".exe" then Some([path] + (if undo then ["/undo"] else []))
    else None
  }

  /** Wherever the desktop launcher starts a process, the web one builds the same arguments. */
  lemma WebAgreesWithDesktop(ext: string, path: string, undo: bool, interpreter: string)
    requires ScriptRunner.Command(ext, path, undo, interpreter).Spawn?
    ensures WebCommand(ext, path, undo, interpreter) == Some(ScriptRunner.Command(ext, path, undo, interpreter).launch.argv)
  {
    if ext == ".py" {
      assert [interpreter] + [path] == [interpreter, path];
    } else if ext == ".ps1" {
      assert ["powershell", "-ExecutionPolicy", "Bypass", "-File"] + [path] ==
             ["powershell", "-ExecutionPolicy", "Bypass", "-File", path];
    } else {
      assert [] + [path] == [path];
    }
  }

  /** The one place where the two launchers differ: the web one undoes an executable with `/undo`. */
  lemma WebUndoesExecutables(path: string, interpreter: string)
    ensures ScriptRunner.Command(".exe", path, true, interpreter).Refused?
    ensures WebCommand(".exe", path, true, interpreter) == Some([path, "/undo"])
  {
    assert [path] + ["/undo"] == [path, "/undo"];
  }

  /** What the spawned process does: the lines it prints and its exit code, or the exception raised. */
  datatype ProcessRun = Ran(lines: seq<string>, returnCode: int) | Raised(error: string)

  /** The dictionary `run_script_web` returns; `output` is absent on the early failures. */
  datatype WebResult = WebResult(success: bool, message: string, output: Option<seq<string>>)

  /** The loop over the process's standard output: each line stripped, in arrival order. */
  method CollectOutput(lines: seq<string>) returns (output: seq<string>)
    ensures |output| == |lines|
    ensures forall k :: 0 <= k < |lines| ==> output[k] == Strip(lines[k])
  {
    var strip := Strip;
    output := [];
    var i := 0;
    while i < |lines|
      invariant 0 <= i <= |lines|
      invariant output == Map(lines[..i], strip)
    {
      MapStep(lines, i, strip);
      output := output + [strip(lines[i])];
      i := i + 1;
    }
    assert lines[..i] == lines;
  }

  /**
   * `run_script_web`. `found` is `os.path.exists(path)`, `file` and `win32` feed
   * the metadata parser, `interpreter` is `sys.executable` and `run` is what the
   * spawned process does; `onWindows` is `os.name == 'nt'`. `spawned` is the
   * argument vector handed to `Popen` and its `shell` flag, if it is called at
   * all.
   */
  method RunScriptWeb(path: string, undo: bool, found: bool, file: FileRead, win32: Win32,
                      interpreter: string, onWindows: bool, run: ProcessRun)
    returns (r: WebResult, spawned: Option<ScriptRunner.Launch>)
    ensures !found ==> r == WebResult(false, "Script not found: " + path, None) && spawned.None?
    ensures found && !IsScriptExt(LowerExt(path)) ==>
              r == WebResult(false, "Unsupported script type: " + LowerExt(path), None) && spawned.None?
    ensures found && IsScriptExt(LowerExt(path)) ==>
              spawned.Some? && Some(spawned.value.argv) == WebCommand(LowerExt(path), path, undo, interpreter) &&
              spawned.value.shell == onWindows
    ensures spawned.Some? && run.Raised? ==> r == WebResult(false, "Error executing script: " + run.error, None)
    ensures spawned.Some? && run.Ran? ==>
              r.output.Some? && |r.output.value| == |run.lines| &&
              (forall i :: 0 <= i < |run.lines| ==> r.output.value[i] == Strip(run.lines[i])) &&
              (r.success <==> run.returnCode == 0) &&
              r.message == (if run.returnCode == 0 then "Script executed successfully"
                            else "Script failed with return code: " + IntToString(run.returnCode))
  {
    if !found {
      return WebResult(false, "Script not found: " + path, None), None;
    }
    var scriptType := LowerExt(path);
    var metadata := ParseScriptMetadata(path, file, win32);
    if undo && !Truthy(metadata.undoable) {
      assert false;
      return WebResult(false, "Script '" + metadata.name + "' does not support undo functionality", None), None;
    }
    var cmd := WebCommand(scriptType, path, undo, interpreter);
    if cmd.None? {
      return WebResult(false, "Unsupported script type: " + scriptType, None), None;
    }
    spawned := Some(ScriptRunner.Launch(cmd.value, onWindows));
    match run
    case Raised(error) =>
      r := WebResult(false, "Error executing script: " + error, None);
    case Ran(lines, returnCode) =>
      var output := CollectOutput(lines);
      if returnCode == 0 {
        r := WebResult(true, "Script executed successfully", Some(output));
      } else {
        r := WebResult(false, "Script failed with return code: " + IntToString(returnCode), Some(output));
      }
  }

  // ---------------------------------------------------------------------
  // Script templates

  function YesNo(b: bool): string { if b then "Yes" else "No" }

  /** The six header lines a template starts with, in front of `rest`. */
  function Header(marker: string, name: string, developer: string, link: string, description: string,
                  undoable: bool, undoDesc: string, rest: string): string
  {
    HeaderLine(marker, "NAME:", name) +
    (HeaderLine(marker, "DEVELOPER:", developer) +
     (HeaderLine(marker, "LINK:", link) +
      (HeaderLine(marker, "DESCRIPTION:", description) +
       (HeaderLine(marker, "UNDOABLE:", YesNo(undoable)) +
        (HeaderLine(marker, "UNDO_DESC:", undoDesc) + rest)))))
  }

  /** The text after the header of the Python template. */
  function PythonBody(description: string): string {
    "#\n# This is a Python script template with undo capability\n\nimport os\nimport sys\nimport argparse\n\n" +
    "def main():\n    parser = argparse.ArgumentParser(description='" + description + "')\n" +
    "    parser.add_argument('--undo', action='store_true', help='Undo the changes made by this script')\n" +
    "    args = parser.parse_args()\n    \n    if args.undo:\n        perform_undo()\n    else:\n        perform_action()\n\n" +
    "def perform_action():\n    print(\"Performing main action...\")\n    # Your main code here\n    \n" +
    "def perform_undo():\n    print(\"Performing undo action...\")\n    # Your undo code here\n\n" +
    "if __name__ == \"__main__\":\n    main()\n"
  }

  /** The text after the header of the PowerShell template. */
  const PowerShellBody: string :=
    "#\n# This is a PowerShell script template with undo capability\n\nparam (\n    [switch]$Undo\n)\n\n" +
    "function Perform-Action {\n    Write-Host \"Performing main action...\"\n    # Your main code here\n}\n\n" +
    "function Perform-Undo {\n    Write-Host \"Performing undo action...\"\n    # Your undo code here\n}\n\n" +
    "if ($Undo) {\n    Perform-Undo\n} else {\n    Perform-Action\n}\n"

  /** The text after the header of the batch template. */
  const BatchBody: string :=
    "::\n:: This is a Batch script template with undo capability\n\n@echo off\n\n" +
    "if \"%1\"==\"undo\" goto :undo\n\n:main\necho Performing main action...\n:: Your main code here\ngoto :end\n\n" +
    ":undo\necho Performing undo action...\n:: Your undo code here\ngoto :end\n\n:end\npause\n"

  /** The types `get_script_template` writes a template for. */
  predicate HasTemplate(scriptType: string) { scriptType in [".py", ".ps1", ".bat", ".cmd"] }

  /** `get_script_template`. */
  function GetScriptTemplate(scriptType: string, name: string, developer: string, link: string,
                             description: string, undoable: bool, undoDesc: string): (t: string)
  {
    if scriptType == ".py" then
      Header("#", name, developer, link, description, undoable, undoDesc, PythonBody(description))
    else if scriptType == ".ps1" then
      Header("#", name, developer, link, description, undoable, undoDesc, PowerShellBody)
    else if scriptType in [".bat", ".cmd"] then
      Header("::", name, developer, link, description, undoable, undoDesc, BatchBody)
    else "Unsupported script type"
  }

  // ---------------------------------------------------------------------
  // Reading a template back

  lemma TemplateKeys()
    ensures IsKey("NAME:") && IsKey("DEVELOPER:") && IsKey("LINK:") && IsKey("DESCRIPTION:")
    ensures IsKey("UNDOABLE:") && IsKey("UNDO_DESC:")
    ensures "DEVELOPER:"[2] != "DESCRIPTION:"[2] && "UNDOABLE:"[4] != "UNDO_DESC:"[4]
  {
    assert "NAME:"[4] == ':';
    assert "DEVELOPER:"[2] == 'V' && "DESCRIPTION:"[2] == 'S';
    assert "UNDOABLE:"[4] == 'A' && "UNDO_DESC:"[4] == '_';
  }

  /** The conditions under which a header line's value is read back: no line break, and no marker for later searches to trip on. */
  predicate Plain(v: string, marker: string) { NoLineBreak(v) && NoMarkerIn(v, marker) }

  lemma ReadName(marker: string, name: string, rest: string)
    requires marker != []
    requires NoLineBreak(name)
    ensures Search(HeaderLine(marker, "NAME:", name) + rest, marker, "NAME:") == Some(SkipBlanks(name))
  {
    TemplateKeys();
    SearchAtHeader(marker, "NAME:", name, rest);
  }

  lemma ReadDeveloper(marker: string, name: string, developer: string, rest: string)
    requires marker == "#" || marker == "::"
    requires Plain(name, marker) && NoLineBreak(developer)
    ensures Search(HeaderLine(marker, "NAME:", name) + (HeaderLine(marker, "DEVELOPER:", developer) + rest), marker, "DEVELOPER:")
            == Some(SkipBlanks(developer))
  {
    TemplateKeys();
    var r := HeaderLine(marker, "DEVELOPER:", developer) + rest;
    SearchPastHeader(marker, "NAME:", "DEVELOPER:", name, r, 0);
    SearchAtHeader(marker, "DEVELOPER:", developer, rest);
  }

  lemma ReadLink(marker: string, name: string, developer: string, link: string, rest: string)
    requires marker == "#" || marker == "::"
    requires Plain(name, marker) && Plain(developer, marker) && NoLineBreak(link)
    ensures Search(HeaderLine(marker, "NAME:", name) + (HeaderLine(marker, "DEVELOPER:", developer) +
                   (HeaderLine(marker, "LINK:", link) + rest)), marker, "LINK:")
            == Some(SkipBlanks(link))
  {
    TemplateKeys();
    var r3 := HeaderLine(marker, "LINK:", link) + rest;
    var r2 := HeaderLine(marker, "DEVELOPER:", developer) + r3;
    SearchPastHeader(marker, "NAME:", "LINK:", name, r2, 0);
    SearchPastHeader(marker, "DEVELOPER:", "LINK:", developer, r3, 0);
    SearchAtHeader(marker, "LINK:", link, rest);
  }

  lemma ReadDescription(marker: string, name: string, developer: string, link: string, description: string, rest: string)
    requires marker == "#" || marker == "::"
    requires Plain(name, marker) && Plain(developer, marker) && Plain(link, marker) && NoLineBreak(description)
    ensures Search(HeaderLine(marker, "NAME:", name) + (HeaderLine(marker, "DEVELOPER:", developer) +
                   (HeaderLine(marker, "LINK:", link) + (HeaderLine(marker, "DESCRIPTION:", description) + rest))),
                   marker, "DESCRIPTION:")
            == Some(SkipBlanks(description))
  {
    TemplateKeys();
    var r4 := HeaderLine(marker, "DESCRIPTION:", description) + rest;
    var r3 := HeaderLine(marker, "LINK:", link) + r4;
    var r2 := HeaderLine(marker, "DEVELOPER:", developer) + r3;
    SearchPastHeader(marker, "NAME:", "DESCRIPTION:", name, r2, 0);
    SearchPastHeader(marker, "DEVELOPER:", "DESCRIPTION:", developer, r3, 2);
    SearchPastHeader(marker, "LINK:", "DESCRIPTION:", link, r4, 0);
    SearchAtHeader(marker, "DESCRIPTION:", description, rest);
  }

  /** The four lines in front of the UNDOABLE line. */
  function FirstFour(marker: string, name: string, developer: string, link: string, description: string, rest: string): string {
    HeaderLine(marker, "NAME:", name) + (HeaderLine(marker, "DEVELOPER:", developer) +
    (HeaderLine(marker, "LINK:", link) + (HeaderLine(marker, "DESCRIPTION:", description) + rest)))
  }

  /** A search for a key other than the first four passes over the first four lines. */
  lemma PastFirstFour(marker: string, name: string, developer: string, link: string, description: string,
                      rest: string, key: string)
    requires marker == "#" || marker == "::"
    requires Plain(name, marker) && Plain(developer, marker) && Plain(link, marker) && Plain(description, marker)
    requires key == "UNDOABLE:" || key == "UNDO_DESC:"
    ensures Search(FirstFour(marker, name, developer, link, description, rest), marker, key) == Search(rest, marker, key)
  {
    TemplateKeys();
    var r4 := HeaderLine(marker, "DESCRIPTION:", description) + rest;
    var r3 := HeaderLine(marker, "LINK:", link) + r4;
    var r2 := HeaderLine(marker, "DEVELOPER:", developer) + r3;
    SearchPastHeader(marker, "NAME:", key, name, r2, 0);
    SearchPastHeader(marker, "DEVELOPER:", key, developer, r3, 0);
    SearchPastHeader(marker, "LINK:", key, link, r4, 0);
    SearchPastHeader(marker, "DESCRIPTION:", key, description, rest, 0);
  }

  lemma UndoableOf(content: string, marker: string, v: string)
    requires Search(content, marker, "UNDOABLE:") == Some(v)
    ensures Undoable(content, marker) == (if Lower(Strip(v)) in ["yes", "true", "1"] then "Yes" else "No")
  {
  }

  lemma NormaliseYes()
    ensures Lower(Strip("Yes")) == "yes"
  {
    StripFixed("Yes");
    var l := Lower("Yes");
    assert l[0] == 'y' && l[1] == 'e' && l[2] == 's';
  }

  lemma NormaliseNo()
    ensures Lower(Strip("No")) == "no"
  {
    StripFixed("No");
    var l := Lower("No");
    assert l[0] == 'n' && l[1] == 'o';
  }

  lemma NoIsNotAffirmative()
    ensures "no" !in ["yes", "true", "1"]
  {
  }

  lemma ReadUndoable(marker: string, undoable: bool, rest: string)
    requires marker == "#" || marker == "::"
    ensures Search(HeaderLine(marker, "UNDOABLE:", YesNo(undoable)) + rest, marker, "UNDOABLE:")
            == Some(YesNo(undoable))
  {
    TemplateKeys();
    var v := YesNo(undoable);
    assert NoLineBreak(v);
    SearchAtHeader(marker, "UNDOABLE:", v, rest);
    assert SkipBlanks(v) == v;
  }

  lemma ReadUndoDesc(marker: string, undoable: bool, undoDesc: string, rest: string)
    requires marker == "#" || marker == "::"
    requires NoLineBreak(undoDesc)
    ensures Search(HeaderLine(marker, "UNDOABLE:", YesNo(undoable)) + (HeaderLine(marker, "UNDO_DESC:", undoDesc) + rest),
                   marker, "UNDO_DESC:")
            == Some(SkipBlanks(undoDesc))
  {
    TemplateKeys();
    var v := YesNo(undoable);
    assert NoMarkerIn(v, marker) by {
      forall i | 0 <= i < |v| ensures !StartsWith(v[i..], marker) {
        assert v[i] != ':' && v[i] != '#';
      }
    }
    SearchPastHeader(marker, "UNDOABLE:", "UNDO_DESC:", v, HeaderLine(marker, "UNDO_DESC:", undoDesc) + rest, 4);
    SearchAtHeader(marker, "UNDO_DESC:", undoDesc, rest);
  }

  /**
   * The parser reads a template header back: each field is the stripped
   * value written into it, and UNDOABLE is "Yes" exactly when the flag was set.
   */
  lemma ParseHeader(path: string, name: string, developer: string, link: string, description: string,
                    undoable: bool, undoDesc: string, rest: string)
    requires Marker(LowerExt(path)) == "#" || Marker(LowerExt(path)) == "::"
    requires var m := Marker(LowerExt(path));
             Plain(name, m) && Plain(developer, m) && Plain(link, m) && Plain(description, m) && NoLineBreak(undoDesc)
    ensures ParseContent(path, Header(Marker(LowerExt(path)), name, developer, link, description, undoable, undoDesc, rest))
            == Metadata(Strip(name), Strip(description), YesNo(undoable), Strip(undoDesc), Strip(developer), Strip(link))
  {
    var m := Marker(LowerExt(path));
    var tail := HeaderLine(m, "UNDOABLE:", YesNo(undoable)) + (HeaderLine(m, "UNDO_DESC:", undoDesc) + rest);
    var h := Header(m, name, developer, link, description, undoable, undoDesc, rest);
    assert h == FirstFour(m, name, developer, link, description, tail);
    ReadName(m, name, HeaderLine(m, "DEVELOPER:", developer) + (HeaderLine(m, "LINK:", link) + (HeaderLine(m, "DESCRIPTION:", description) + tail)));
    ReadDeveloper(m, name, developer, HeaderLine(m, "LINK:", link) + (HeaderLine(m, "DESCRIPTION:", description) + tail));
    ReadLink(m, name, developer, link, HeaderLine(m, "DESCRIPTION:", description) + tail);
    ReadDescription(m, name, developer, link, description, tail);
    PastFirstFour(m, name, developer, link, description, tail, "UNDOABLE:");
    PastFirstFour(m, name, developer, link, description, tail, "UNDO_DESC:");
    ReadUndoable(m, undoable, HeaderLine(m, "UNDO_DESC:", undoDesc) + rest);
    UndoableOf(h, m, YesNo(undoable));
    if undoable {
      NormaliseYes();
    } else {
      NormaliseNo();
      NoIsNotAffirmative();
    }
    ReadUndoDesc(m, undoable, undoDesc, rest);
    StripSkipBlanks(name);
    StripSkipBlanks(developer);
    StripSkipBlanks(link);
    StripSkipBlanks(description);
    StripSkipBlanks(undoDesc);
  }

  /** The header is a prefix of the whole template. */
  lemma HeaderAppend(marker: string, name: string, developer: string, link: string, description: string,
                     undoable: bool, undoDesc: string, rest: string)
    ensures Header(marker, name, developer, link, description, undoable, undoDesc, rest) ==
            Header(marker, name, developer, link, description, undoable, undoDesc, "") + rest
  {
    var l1 := HeaderLine(marker, "NAME:", name);
    var l2 := HeaderLine(marker, "DEVELOPER:", developer);
    var l3 := HeaderLine(marker, "LINK:", link);
    var l4 := HeaderLine(marker, "DESCRIPTION:", description);
    var l5 := HeaderLine(marker, "UNDOABLE:", YesNo(undoable));
    var l6 := HeaderLine(marker, "UNDO_DESC:", undoDesc);
    assert l6 + rest == (l6 + "") + rest;
    assert l1 + (l2 + (l3 + (l4 + (l5 + (l6 + rest))))) == (l1 + (l2 + (l3 + (l4 + (l5 + (l6 + "")))))) + rest;
  }

  lemma HeaderLineNoCarriageReturn(marker: string, key: string, v: string)
    requires marker == "#" || marker == "::"
    requires IsKey(key) && NoLineBreak(v)
    ensures '\r' !in HeaderLine(marker, key, v)
  {
    assert '\r' !in v;
    assert '\r' !in key;
  }

  /** A template header whose values hold no line break holds no carriage return. */
  lemma HeaderNoCarriageReturn(marker: string, name: string, developer: string, link: string, description: string,
                               undoable: bool, undoDesc: string)
    requires marker == "#" || marker == "::"
    requires NoLineBreak(name) && NoLineBreak(developer) && NoLineBreak(link) && NoLineBreak(description)
    requires NoLineBreak(undoDesc)
    ensures '\r' !in Header(marker, name, developer, link, description, undoable, undoDesc, "")
  {
    TemplateKeys();
    HeaderLineNoCarriageReturn(marker, "NAME:", name);
    HeaderLineNoCarriageReturn(marker, "DEVELOPER:", developer);
    HeaderLineNoCarriageReturn(marker, "LINK:", link);
    HeaderLineNoCarriageReturn(marker, "DESCRIPTION:", description);
    assert NoLineBreak(YesNo(undoable));
    HeaderLineNoCarriageReturn(marker, "UNDOABLE:", YesNo(undoable));
    HeaderLineNoCarriageReturn(marker, "UNDO_DESC:", undoDesc);
  }

  /** The text of a template after its header. */
  function TemplateBody(scriptType: string, description: string): string {
    if scriptType == ".py" then PythonBody(description)
    else if scriptType == ".ps1" then PowerShellBody
    else BatchBody
  }

  lemma TemplateShape(scriptType: string, name: string, developer: string, link: string,
                      description: string, undoable: bool, undoDesc: string)
    requires HasTemplate(scriptType)
    ensures GetScriptTemplate(scriptType, name, developer, link, description, undoable, undoDesc) ==
            Header(Marker(scriptType), name, developer, link, description, undoable, undoDesc,
                   TemplateBody(scriptType, description))
  {
    var m := Marker(scriptType);
    if scriptType == ".py" || scriptType == ".ps1" {
      assert m == "#";
    } else {
      assert m == "::";
    }
  }

  /**
   * Template round trip: a script saved under a path with the template's
   * extension, holding the template, is read back with each value stripped
   * and UNDOABLE as "Yes" exactly when the flag was set, provided the values
   * hold no line break, the first four hold no comment marker, and the header
   * fits in the 2000 characters the parser reads.
   */
  lemma TemplateRoundTrip(path: string, scriptType: string, name: string, developer: string, link: string,
                          description: string, undoable: bool, undoDesc: string, win32: Win32)
    requires HasTemplate(scriptType) && LowerExt(path) == scriptType
    requires var m := Marker(scriptType);
             Plain(name, m) && Plain(developer, m) && Plain(link, m) && Plain(description, m) && NoLineBreak(undoDesc)
    requires |Header(Marker(scriptType), name, developer, link, description, undoable, undoDesc, "")| <= Window
    ensures ParseScriptMetadata(path, Contents(GetScriptTemplate(scriptType, name, developer, link, description, undoable, undoDesc)), win32)
            == Metadata(Strip(name), Strip(description), YesNo(undoable), Strip(undoDesc), Strip(developer), Strip(link))
  {
    var m := Marker(scriptType);
    var body := TemplateBody(scriptType, description);
    var h := Header(m, name, developer, link, description, undoable, undoDesc, "");
    var tail := Take(TranslateNewlines(body), Window - |h|);
    var t := GetScriptTemplate(scriptType, name, developer, link, description, undoable, undoDesc);
    TemplateShape(scriptType, name, developer, link, description, undoable, undoDesc);
    WindowOfHeader(m, name, developer, link, description, undoable, undoDesc, body);
    TemplateTypeNotExe(path, scriptType);
    assert ParseScriptMetadata(path, Contents(t), win32) == ParseContent(path, ReadWindow(t));
    ParseHeader(path, name, developer, link, description, undoable, undoDesc, tail);
  }

  /**
   * The 2000 characters read from a file that starts with a header that fits
   * are the header, followed by as much of the rest as still fits.
   */
  lemma WindowOfHeader(m: string, name: string, developer: string, link: string, description: string,
                       undoable: bool, undoDesc: string, body: string)
    requires m == "#" || m == "::"
    requires NoLineBreak(name) && NoLineBreak(developer) && NoLineBreak(link) && NoLineBreak(description)
    requires NoLineBreak(undoDesc)
    requires |Header(m, name, developer, link, description, undoable, undoDesc, "")| <= Window
    ensures ReadWindow(Header(m, name, developer, link, description, undoable, undoDesc, body))
            == Header(m, name, developer, link, description, undoable, undoDesc,
                      Take(TranslateNewlines(body), Window - |Header(m, name, developer, link, description, undoable, undoDesc, "")|))
  {
    var h := Header(m, name, developer, link, description, undoable, undoDesc, "");
    var tail := Take(TranslateNewlines(body), Window - |h|);
    assert ReadWindow(h + body) == h + tail by {
      HeaderNoCarriageReturn(m, name, developer, link, description, undoable, undoDesc);
      WindowKeepsPrefix(h, body);
    }
    HeaderAppend(m, name, developer, link, description, undoable, undoDesc, body);
    HeaderAppend(m, name, developer, link, description, undoable, undoDesc, tail);
  }

  /** A file of a type with a template is never read as an executable. */
  lemma TemplateTypeNotExe(path: string, scriptType: string)
    requires HasTemplate(scriptType) && LowerExt(path) == scriptType
    ensures !IsExe(path)
  {
    assert scriptType != ".exe" by {
      assert ".exe"[1] == 'e';
      assert ".py"[1] == 'p' && ".ps1"[1] == 'p' && ".bat"[1] == 'b' && ".cmd"[1] == 'c';
    }
  }

  /** Any other type gets no template, only a message. */
  lemma NoTemplateForOtherTypes(scriptType: string, name: string, developer: string, link: string,
                                description: string, undoable: bool, undoDesc: string)
    requires !HasTemplate(scriptType)
    ensures GetScriptTemplate(scriptType, name, developer, link, description, undoable, undoDesc) == "Unsupported script type"
  {
  }
}

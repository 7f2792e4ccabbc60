/**
 * The script header parser of src/utils/script_metadata.py.
 *
 * A script describes itself in comment lines such as `# NAME: Friendly Name` (`::` instead
 * of `#` for batch files). `parse_script_metadata` reads the first 2000 characters of the
 * file and runs six independent, case-insensitive searches of the form
 * `MARKER[ \t]*KEY:[ \t]*(.*?)[\r\n]`, one per field. Executables are never read as text:
 * `get_exe_metadata` answers for them from the optional win32api module.
 *
 * The file read and win32api are inputs here (`FileRead`, `Win32`).
 */
module ScriptMetadata {
  import opened Common

  /** The six values `parse_script_metadata` returns, in its order. */
  datatype Metadata = Metadata(name: string, description: string, undoable: string,
                               undoDesc: string, developer: string, link: string)

  /** Opening and reading the file: the decoded text, or the message of the exception raised. */
  datatype FileRead = Contents(raw: string) | ReadError(message: string)

  /** The win32api module: missing (ImportError), or present with the outcome of the two
      version-resource lookups (`None` when a lookup, or a step before it, raises). */
  datatype Win32 = Missing | Present(fileDescription: Option<string>, productName: Option<string>)

  /** `f.read(2000)` reads at most this many characters. */
  const Window: nat := 2000

  predicate IsExe(path: string) { LowerExt(path) == ".exe" }

  /** The comment marker that introduces header lines. */
  function Marker(ext: string): (m: string)
    ensures m == "::" || m == "#"
    ensures m == "::" <==> ext in [".bat", ".cmd"]
  {
    if ext == ".bat" || ext == ".cmd" then "::" else "#"
  }

  // ---------------------------------------------------------------------
  // The header regex, matched by hand

  predicate IsLineBreak(c: char) { c == '\r' || c == '\n' }

  predicate NoLineBreak(s: string) { forall i :: 0 <= i < |s| ==> !IsLineBreak(s[i]) }

  /** Index of the first CR or LF, or `|s|`. */
  function LineBreakIndex(s: string): (i: nat)
    ensures i <= |s|
    ensures i < |s| ==> IsLineBreak(s[i])
    ensures NoLineBreak(s[..i])
  {
    if s == [] then 0 else if IsLineBreak(s[0]) then 0 else 1 + LineBreakIndex(s[1..])
  }

  /** The group of `(.*?)[\r\n]` at the start of `v`: everything up to the first CR or LF;
      without one there is no match. */
  function Group(v: string): (r: Option<string>)
    ensures r.Some? ==> NoLineBreak(r.value) && !NoLineBreak(v)
    ensures r.None? <==> NoLineBreak(v)
  {
    var m := LineBreakIndex(v);
    if m == |v| then None else Some(v[..m])
  }

  /** The rest of the pattern once the marker and the blanks after it are consumed:
      `KEY[ \t]*(.*?)[\r\n]`, the key compared case-insensitively. */
  function AfterMarker(u: string, key: string): (r: Option<string>)
    ensures r.Some? ==> NoLineBreak(r.value)
  {
    if |u| < |key| || !CaseMatches(u[..|key|], key) then None else Group(SkipBlanks(u[|key|..]))
  }

  /** The group of `MARKER[ \t]*KEY[ \t]*(.*?)[\r\n]` when the pattern matches at the start of
      `t` (`key` includes its colon). Each greedy `[ \t]*` must take the whole run of blanks,
      since the next pattern item is not a blank; the lazy group stops at the first CR or LF. */
  function MatchHere(t: string, marker: string, key: string): (r: Option<string>)
    ensures r.Some? ==> NoLineBreak(r.value)
  {
    if !StartsWith(t, marker) then None else AfterMarker(SkipBlanks(t[|marker|..]), key)
  }

  /** `re.search`: the group of the match at the leftmost position where the pattern matches. */
  function Search(s: string, marker: string, key: string): (r: Option<string>)
    ensures r.Some? ==> NoLineBreak(r.value)
    decreases |s|
  {
    var here := MatchHere(s, marker, key);
    if here.Some? || s == [] then here else Search(s[1..], marker, key)
  }

  /** The search returns the match at the first position where one starts. */
  lemma {:induction false} SearchFindsFirst(s: string, marker: string, key: string, k: nat)
    requires k <= |s|
    requires MatchHere(s[k..], marker, key).Some?
    requires forall j :: 0 <= j < k ==> MatchHere(s[j..], marker, key).None?
    ensures Search(s, marker, key) == MatchHere(s[k..], marker, key)
    decreases k
  {
    if k > 0 {
      assert MatchHere(s[0..], marker, key).None?;
      assert s[0..] == s;
      forall j | 0 <= j < k - 1 ensures MatchHere(s[1..][j..], marker, key).None? {
        assert s[1..][j..] == s[j + 1..];
      }
      assert s[1..][k - 1..] == s[k..];
      SearchFindsFirst(s[1..], marker, key, k - 1);
    } else {
      assert s[0..] == s;
    }
  }

  /** The search finds nothing exactly when the pattern matches at no position. */
  lemma {:induction false} SearchFindsNothing(s: string, marker: string, key: string)
    ensures Search(s, marker, key).None? <==>
            forall j :: 0 <= j <= |s| ==> MatchHere(s[j..], marker, key).None?
    decreases |s|
  {
    assert s[0..] == s;
    if s != [] {
      SearchFindsNothing(s[1..], marker, key);
      forall j | 1 <= j <= |s| ensures s[1..][j - 1..] == s[j..] { }
    }
  }

  lemma NoLineBreakSuffix(s: string, k: nat)
    requires NoLineBreak(s) && k <= |s|
    ensures NoLineBreak(s[k..])
  {
    assert forall i :: 0 <= i < |s| - k ==> s[k..][i] == s[k + i];
  }

  /** A match needs a CR or LF after the header. */
  lemma MatchNeedsLineBreak(t: string, marker: string, key: string)
    requires NoLineBreak(t)
    ensures MatchHere(t, marker, key).None?
  {
    if StartsWith(t, marker) {
      NoLineBreakSuffix(t, |marker|);
      var w := t[|marker|..];
      var u := SkipBlanks(w);
      NoLineBreakSuffix(w, |w| - |u|);
      if |u| >= |key| {
        NoLineBreakSuffix(u, |key|);
        var x := u[|key|..];
        NoLineBreakSuffix(x, |x| - |SkipBlanks(x)|);
      }
    }
  }

  /** Text without a CR or LF matches no field. */
  lemma {:induction false} NoLineBreakNoMatch(s: string, marker: string, key: string)
    requires NoLineBreak(s)
    ensures Search(s, marker, key).None?
    decreases |s|
  {
    MatchNeedsLineBreak(s, marker, key);
    if s != [] {
      assert NoLineBreak(s[1..]);
      NoLineBreakNoMatch(s[1..], marker, key);
    }
  }

  // ---------------------------------------------------------------------
  // The parser

  /** A text field: the stripped group of the first match, or the default. */
  function Field(content: string, marker: string, key: string, default: string): string {
    match Search(content, marker, key)
    case Some(v) => Strip(v)
    case None => default
  }

  /** The UNDOABLE field: "Yes" when its stripped, lower-cased value is yes, true or 1. */
  function Undoable(content: string, marker: string): (u: string)
    ensures u == "Yes" || u == "No"
    ensures u == "Yes" <==> Search(content, marker, "UNDOABLE:").Some? &&
                            Lower(Strip(Search(content, marker, "UNDOABLE:").value)) in ["yes", "true", "1"]
  {
    match Search(content, marker, "UNDOABLE:")
    case Some(v) => if Lower(Strip(v)) in ["yes", "true", "1"] then "Yes" else "No"
    case None => "No"
  }

  /** The six searches over the text read from a script that is not an executable. */
  function ParseContent(path: string, content: string): Metadata {
    var marker := Marker(LowerExt(path));
    Metadata(Field(content, marker, "NAME:", Basename(path)),
             Field(content, marker, "DESCRIPTION:", ""),
             Undoable(content, marker),
             Field(content, marker, "UNDO_DESC:", ""),
             Field(content, marker, "DEVELOPER:", ""),
             Field(content, marker, "LINK:", ""))
  }

  /** The text `open(path, 'r').read(2000)` yields: newlines translated, then the first 2000 characters. */
  function ReadWindow(raw: string): string { Take(TranslateNewlines(raw), Window) }

  /** `get_exe_metadata`. */
  function ExeMetadata(path: string, win32: Win32): (m: Metadata)
    ensures m.undoable == "No" && m.undoDesc == "" && m.developer == "" && m.link == ""
    ensures win32.Missing? ==> m.name == Root(Basename(path)) && m.description == "Windows Executable"
    ensures win32.Present? && win32.fileDescription.None? ==>
              m.name == Basename(path) && m.description == "Executable file"
    ensures win32.Present? && win32.fileDescription.Some? ==>
              (m.description == win32.fileDescription.value <==> win32.fileDescription.value != "") &&
              (win32.fileDescription.value == "" ==> m.description == "Executable file")
    ensures win32.Present? && win32.fileDescription.Some? && win32.productName.Some? && win32.productName.value != "" ==>
              m.name == win32.productName.value
    ensures win32.Present? && win32.fileDescription.Some? && (win32.productName.None? || win32.productName == Some("")) ==>
              m.name == Basename(path)
    ensures m.name != Basename(path) ==>
              (win32.Missing? && m.name + Ext(Basename(path)) == Basename(path)) ||
              (win32.Present? && win32.productName == Some(m.name) && m.name != "")
  {
    match win32
    case Missing => Metadata(Root(Basename(path)), "Windows Executable", "No", "", "", "")
    case Present(desc, product) =>
      var description := if desc.Some? && desc.value != "" then desc.value else "Executable file";
      var name := if desc.Some? && product.Some? && product.value != "" then product.value else Basename(path);
      Metadata(name, description, "No", "", "", "")
  }

  /**
   * `parse_script_metadata`: never fails; a read error becomes the default tuple with the message.
   * For a readable script each field is searched for on its own in the first 2000 characters:
   * a match gives its stripped value, no match the field's default (the basename with its
   * extension for the name, "No" for undoable, "" for the others).
   */
  function ParseScriptMetadata(path: string, file: FileRead, win32: Win32): (m: Metadata)
    ensures m.undoable == "Yes" || m.undoable == "No"
    ensures IsExe(path) ==> m.undoable == "No" && m.undoDesc == "" && m.developer == "" && m.link == ""
    ensures IsExe(path) ==> m == ExeMetadata(path, win32)
    ensures !IsExe(path) && file.Contents? ==>
              var text, marker := ReadWindow(file.raw), Marker(LowerExt(path));
              var name, desc, undo := Search(text, marker, "NAME:"), Search(text, marker, "DESCRIPTION:"), Search(text, marker, "UNDOABLE:");
              var undoDesc, dev, link := Search(text, marker, "UNDO_DESC:"), Search(text, marker, "DEVELOPER:"), Search(text, marker, "LINK:");
              m.name == (if name.Some? then Strip(name.value) else Basename(path)) &&
              m.description == (if desc.Some? then Strip(desc.value) else "") &&
              (m.undoable == "Yes" <==> undo.Some? && Lower(Strip(undo.value)) in ["yes", "true", "1"]) &&
              m.undoDesc == (if undoDesc.Some? then Strip(undoDesc.value) else "") &&
              m.developer == (if dev.Some? then Strip(dev.value) else "") &&
              m.link == (if link.Some? then Strip(link.value) else "")
    ensures !IsExe(path) && file.ReadError? ==>
              m == Metadata(Basename(path), "Error reading metadata: " + file.message, "No", "", "", "")
  {
    if IsExe(path) then ExeMetadata(path, win32)
    else
      match file
      case ReadError(msg) => Metadata(Basename(path), "Error reading metadata: " + msg, "No", "", "", "")
      case Contents(raw) => ParseContent(path, ReadWindow(raw))
  }

  /** An executable is never read: the file's contents cannot affect its metadata. */
  lemma ExeIgnoresContents(path: string, f1: FileRead, f2: FileRead, win32: Win32)
    requires IsExe(path)
    ensures ParseScriptMetadata(path, f1, win32) == ParseScriptMetadata(path, f2, win32)
  {
  }

  /** Only the first 2000 characters are searched: whatever follows them is ignored. */
  lemma WindowIgnoresTail(path: string, a: string, b: string, win32: Win32)
    requires |a| >= Window && '\r' !in a
    ensures ParseScriptMetadata(path, Contents(a + b), win32) == ParseScriptMetadata(path, Contents(a), win32)
  {
    TranslateKeepsPrefix(a, b);
    TranslateKeepsPrefix(a, "");
    assert a + "" == a;
    assert (a + TranslateNewlines(b))[..Window] == a[..Window];
  }

  /** A prefix with no carriage return that fits in the window is read whole, followed by what still fits. */
  lemma WindowKeepsPrefix(a: string, b: string)
    requires '\r' !in a && |a| <= Window
    ensures ReadWindow(a + b) == a + Take(TranslateNewlines(b), Window - |a|)
  {
    TranslateKeepsPrefix(a, b);
    TakeAppend(a, TranslateNewlines(b), Window);
  }

  // ---------------------------------------------------------------------
  // Header lines as `get_script_template` writes them

  /** `MARKER KEY value` followed by a line feed. */
  function HeaderLine(marker: string, key: string, value: string): string {
    marker + " " + key + " " + value + "\n"
  }

  /** A field key: capitals and underscores followed by a colon. */
  predicate IsKey(key: string) {
    |key| >= 2 && key[|key| - 1] == ':' &&
    forall i :: 0 <= i < |key| - 1 ==> ('A' <= key[i] <= 'Z' || key[i] == '_')
  }

  predicate NoMarkerIn(v: string, marker: string) {
    forall i :: 0 <= i < |v| ==> !StartsWith(v[i..], marker)
  }

  lemma {:induction false} SkipBlanksAppend(a: string, y: string)
    requires y == [] || !IsBlank(y[0])
    ensures SkipBlanks(a + y) == SkipBlanks(a) + y
    decreases |a|
  {
    if a == [] {
      assert a + y == y;
    } else if IsBlank(a[0]) {
      assert (a + y)[1..] == a[1..] + y;
      SkipBlanksAppend(a[1..], y);
    }
  }

  /** Stripping after dropping leading blanks is stripping. */
  lemma StripSkipBlanks(v: string)
    ensures Strip(SkipBlanks(v)) == Strip(v)
  {
    var w := SkipBlanks(v);
    var a := v[..|v| - |w|];
    assert AllSpace(a) by {
      forall i | 0 <= i < |a| ensures IsSpace(a[i]) {
        assert a[i] == v[i] && IsBlank(v[i]);
      }
    }
    assert v == a + w;
    StripSkipsSpace(a, w);
  }

  /** After a header line's marker and its blank, the key and the rest follow. */
  lemma HeaderAfterMarker(marker: string, key: string, v: string, rest: string)
    requires marker != [] && IsKey(key)
    ensures StartsWith(HeaderLine(marker, key, v) + rest, marker)
    ensures SkipBlanks((HeaderLine(marker, key, v) + rest)[|marker|..]) == key + (" " + v + ("\n" + rest))
  {
    var tail := key + (" " + v + ("\n" + rest));
    var t := HeaderLine(marker, key, v) + rest;
    assert t == marker + (" " + tail) by {
      LineRegroup(marker, " ", key, " ", v, "\n", rest);
    }
    assert t[|marker|..] == " " + tail;
    assert t[..|marker|] == marker;
    assert !IsBlank(tail[0]) by {
      assert tail[0] == key[0];
    }
    SkipBlanksAppend(" ", tail);
    assert SkipBlanks(" ") == "" by {
      assert " "[1..] == "";
    }
  }

  /** The regrouping that exposes what follows a header line's marker. */
  lemma LineRegroup<T>(a: seq<T>, b: seq<T>, c: seq<T>, d: seq<T>, e: seq<T>, f: seq<T>, g: seq<T>)
    ensures a + b + c + d + e + f + g == a + (b + (c + (d + e + (f + g))))
  {
  }

  /** Once the key is consumed, the group is the value without its leading blanks. */
  lemma HeaderValue(key: string, v: string, rest: string)
    requires IsKey(key) && NoLineBreak(v)
    ensures AfterMarker(key + (" " + v + ("\n" + rest)), key) == Some(SkipBlanks(v))
  {
    var u := key + (" " + v + ("\n" + rest));
    assert u[..|key|] == key;
    assert CaseMatches(key, key);
    assert u[|key|..] == (" " + v) + ("\n" + rest);
    SkipBlanksAppend(" " + v, "\n" + rest);
    assert (" " + v)[1..] == v;
    var w := SkipBlanks(v);
    assert SkipBlanks(" " + v) == w;
    NoLineBreakSuffix(v, |v| - |w|);
    LineBreakAfter(w, rest);
  }

  /** A header line matches its own key, with the value as group (leading blanks removed). */
  lemma MatchHeaderLine(marker: string, key: string, v: string, rest: string)
    requires marker != [] && IsKey(key) && NoLineBreak(v)
    ensures MatchHere(HeaderLine(marker, key, v) + rest, marker, key) == Some(SkipBlanks(v))
  {
    HeaderAfterMarker(marker, key, v, rest);
    HeaderValue(key, v, rest);
  }

  lemma LineBreakAfter(w: string, rest: string)
    requires NoLineBreak(w)
    ensures Group(w + ("\n" + rest)) == Some(w)
  {
    var s := w + ("\n" + rest);
    assert forall i :: 0 <= i < |w| ==> s[i] == w[i];
    assert IsLineBreak(s[|w|]);
    assert s[..|w|] == w;
  }

  /** A header line does not match a key that differs from its own at some position. */
  lemma OtherKeyNoMatch(marker: string, key: string, other: string, v: string, rest: string, p: nat)
    requires marker != [] && IsKey(key) && IsKey(other)
    requires p < |key| && p < |other| && key[p] != other[p]
    ensures MatchHere(HeaderLine(marker, key, v) + rest, marker, other).None?
  {
    HeaderAfterMarker(marker, key, v, rest);
    var u := key + (" " + v + ("\n" + rest));
    if |u| >= |other| {
      assert u[..|other|][p] == key[p];
      assert !CaseMatch(key[p], other[p]);
    }
  }

  /** No `::` anywhere in `s`. */
  predicate NoColonPair(s: string) {
    forall i :: 0 <= i < |s| - 1 ==> !(s[i] == ':' && s[i + 1] == ':')
  }

  lemma NoColonPairConcat(a: string, b: string)
    requires NoColonPair(a) && NoColonPair(b)
    requires a == [] || b == [] || a[|a| - 1] != ':' || b[0] != ':'
    ensures NoColonPair(a + b)
  {
    var s := a + b;
    forall i | 0 <= i < |s| - 1 ensures !(s[i] == ':' && s[i + 1] == ':') {
      if i + 1 < |a| {
        assert s[i] == a[i] && s[i + 1] == a[i + 1];
      } else if i >= |a| {
        assert s[i] == b[i - |a|] && s[i + 1] == b[i - |a| + 1];
      }
    }
  }

  lemma KeyNoColonPair(key: string)
    requires IsKey(key)
    ensures NoColonPair(key) && '#' !in key
  {
  }

  lemma ValueNoColonPair(v: string)
    requires NoMarkerIn(v, "::")
    ensures NoColonPair(v)
  {
    forall i | 0 <= i < |v| - 1 ensures !(v[i] == ':' && v[i + 1] == ':') {
      assert !StartsWith(v[i..], "::");
      assert v[i..][..2] == [v[i], v[i + 1]];
    }
  }

  /** Inside a `#` header line whose value holds no `#`, no position after the first holds one. */
  lemma NoHashInsideLine(key: string, v: string, rest: string, j: nat)
    requires IsKey(key) && NoMarkerIn(v, "#")
    requires 0 < j < |HeaderLine("#", key, v)|
    ensures !StartsWith((HeaderLine("#", key, v) + rest)[j..], "#")
  {
    var line := HeaderLine("#", key, v);
    var x := " " + key + " " + v + "\n";
    assert line == "#" + x;
    KeyNoColonPair(key);
    assert '#' !in v by {
      forall i | 0 <= i < |v| ensures v[i] != '#' {
        assert !StartsWith(v[i..], "#");
      }
    }
    assert '#' !in x;
    assert (line + rest)[j] == x[j - 1];
  }

  /** Inside a `::` header line whose value holds no `::`, no position after the first starts one. */
  lemma NoPairInsideLine(key: string, v: string, rest: string, j: nat)
    requires IsKey(key) && NoMarkerIn(v, "::")
    requires 0 < j < |HeaderLine("::", key, v)|
    ensures !StartsWith((HeaderLine("::", key, v) + rest)[j..], "::")
  {
    var line := HeaderLine("::", key, v);
    var x := ": " + key + " " + v + "\n";
    assert line == ":" + x;
    KeyNoColonPair(key);
    ValueNoColonPair(v);
    NoColonPairConcat(": ", key);
    NoColonPairConcat(": " + key, " ");
    NoColonPairConcat(": " + key + " ", v);
    NoColonPairConcat(": " + key + " " + v, "\n");
    var t := line + rest;
    if j + 1 < |line| {
      assert t[j] == x[j - 1] && t[j + 1] == x[j];
    } else {
      assert t[j] == '\n';
    }
  }

  /** Inside a header line whose value holds no marker, no other position starts a marker. */
  lemma NoMarkerInsideLine(marker: string, key: string, v: string, rest: string, j: nat)
    requires marker == "#" || marker == "::"
    requires IsKey(key) && NoMarkerIn(v, marker)
    requires 0 < j < |HeaderLine(marker, key, v)|
    ensures !StartsWith((HeaderLine(marker, key, v) + rest)[j..], marker)
  {
    if marker == "#" {
      NoHashInsideLine(key, v, rest, j);
    } else {
      NoPairInsideLine(key, v, rest, j);
    }
  }

  /** Searching past a header line for a different key. */
  lemma {:induction false} SearchSkipsPrefix(pre: string, rest: string, marker: string, key: string)
    requires forall j :: 0 <= j < |pre| ==> MatchHere((pre + rest)[j..], marker, key).None?
    ensures Search(pre + rest, marker, key) == Search(rest, marker, key)
    decreases |pre|
  {
    if pre == [] {
      assert pre + rest == rest;
    } else {
      assert (pre + rest)[0..] == pre + rest;
      assert (pre + rest)[1..] == pre[1..] + rest;
      forall j | 0 <= j < |pre| - 1 ensures MatchHere((pre[1..] + rest)[j..], marker, key).None? {
        assert (pre[1..] + rest)[j..] == (pre + rest)[j + 1..];
      }
      SearchSkipsPrefix(pre[1..], rest, marker, key);
    }
  }

  /** The search for `other` passes over a header line written for `key`. */
  lemma SearchPastHeader(marker: string, key: string, other: string, v: string, rest: string, p: nat)
    requires marker == "#" || marker == "::"
    requires IsKey(key) && IsKey(other) && NoMarkerIn(v, marker)
    requires p < |key| && p < |other| && key[p] != other[p]
    ensures Search(HeaderLine(marker, key, v) + rest, marker, other) == Search(rest, marker, other)
  {
    var line := HeaderLine(marker, key, v);
    forall j | 0 <= j < |line| ensures MatchHere((line + rest)[j..], marker, other).None? {
      if j == 0 {
        assert (line + rest)[0..] == line + rest;
        OtherKeyNoMatch(marker, key, other, v, rest, p);
      } else {
        NoMarkerInsideLine(marker, key, v, rest, j);
      }
    }
    SearchSkipsPrefix(line, rest, marker, other);
  }

  /** The search for a key stops at the first header line written for it. */
  lemma SearchAtHeader(marker: string, key: string, v: string, rest: string)
    requires marker != [] && IsKey(key) && NoLineBreak(v)
    ensures Search(HeaderLine(marker, key, v) + rest, marker, key) == Some(SkipBlanks(v))
  {
    MatchHeaderLine(marker, key, v, rest);
  }
}

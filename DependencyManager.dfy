/**
 * Dependency detection for scripts (`src/utils/dependency_manager.py`).
 *
 * A Python script's imports are found by two multi-line regexes,
 * `^\s*import\s+([a-zA-Z0-9_.,\s]+)` and `^\s*from\s+([a-zA-Z0-9_.]+)\s+import`,
 * reduced to top-level package names, and every name that is not one of
 * sixteen built-ins and fails to import is reported. A PowerShell script's
 * dependencies are the names after `Import-Module`, matched without regard
 * to case. The regexes are matched here by hand, with the leftmost-first,
 * greedy-with-backtracking reading of Python's `re.findall`; the file's text
 * and the outcome of `__import__` are inputs.
 */
module DependencyManager {
  import opened Common

  // ---------------------------------------------------------------------
  // Regex building blocks

  /** The end of the longest run of `cls` characters from `i`: a greedy `[...]*`. */
  function RunEnd(s: string, i: nat, cls: char -> bool): (j: nat)
    requires i <= |s|
    ensures i <= j <= |s|
    ensures forall k :: i <= k < j ==> cls(s[k])
    ensures j < |s| ==> !cls(s[j])
    decreases |s| - i
  {
    if i < |s| && cls(s[i]) then RunEnd(s, i + 1, cls) else i
  }

  /** The last index in `[lo, hi)` holding a `cls` character, or -1. */
  function LastIn(s: string, lo: nat, hi: nat, cls: char -> bool): (t: int)
    requires lo <= hi <= |s|
    ensures t == -1 || (lo <= t < hi && cls(s[t]))
    ensures forall q :: t < q < hi && lo <= q ==> !cls(s[q])
    decreases hi
  {
    if hi <= lo then -1 else if cls(s[hi - 1]) then hi - 1 else LastIn(s, lo, hi - 1, cls)
  }

  /** `^` under `re.MULTILINE`: the start of the text or just after a `\n`. */
  predicate LineStart(s: string, p: nat) {
    p == 0 || (0 < p <= |s| && s[p - 1] == '\n')
  }

  /** `[a-zA-Z0-9_.]`. */
  predicate DottedChar(c: char) { IsAsciiLetter(c) || IsDigit(c) || c == '_' || c == '.' }

  /** `[a-zA-Z0-9_.,\s]`, the capture class of the `import` regex as written. */
  predicate ImportChar(c: char) { DottedChar(c) || c == ',' || IsSpace(c) }

  /** The same class without the line feed, so that a capture stays on its line. */
  predicate ImportCharOnLine(c: char) { ImportChar(c) && c != '\n' }

  // ---------------------------------------------------------------------
  // `^\s*import\s+(CLASS+)` and `^\s*from\s+([a-zA-Z0-9_.]+)\s+import`

  /**
   * The match of `\s*import\s+(CLASS+)` at `p`: the captured text and where
   * the match ends. When the character after the blanks is not in the class,
   * `\s+` gives back characters, so the capture starts at the last of them
   * that is in the class (keeping at least one for `\s+`).
   */
  function MatchImportAt(s: string, p: nat, cls: char -> bool): (r: Option<(string, nat)>)
    requires p <= |s|
    ensures r.Some? ==> p < r.value.1 <= |s| && r.value.0 != []
    ensures r.Some? ==> forall k :: 0 <= k < |r.value.0| ==> cls(r.value.0[k])
  {
    var j := RunEnd(s, p, IsSpace);
    if !StartsWith(s[j..], "import") then None
    else
      var k := j + 6;
      var m := RunEnd(s, k, IsSpace);
      if m == k then None
      else if m < |s| && cls(s[m]) then Some(CaptureFrom(s, m, cls))
      else
        var t := LastIn(s, k + 1, m, cls);
        if t < 0 then None else Some(CaptureFrom(s, t, cls))
  }

  /** The group `(CLASS+)` started at `t`: the whole run of class characters there, and where it ends. */
  function CaptureFrom(s: string, t: nat, cls: char -> bool): (r: (string, nat))
    requires t < |s| && cls(s[t])
    ensures t < r.1 <= |s| && r.0 == s[t..r.1] && r.0 != []
    ensures forall k :: 0 <= k < |r.0| ==> cls(r.0[k])
    ensures r.1 < |s| ==> !cls(s[r.1])
  {
    var e := RunEnd(s, t, cls);
    (s[t..e], e)
  }

  /** `re.findall` of `^\s*import\s+(CLASS+)` under `re.MULTILINE`, from position `p`. */
  function ImportCaptures(s: string, p: nat, cls: char -> bool): (caps: seq<string>)
    requires p <= |s|
    ensures forall i :: 0 <= i < |caps| ==> caps[i] != [] && forall k :: 0 <= k < |caps[i]| ==> cls(caps[i][k])
    decreases |s| - p
  {
    if p == |s| then []
    else
      var m := MatchImportAt(s, p, cls);
      if LineStart(s, p) && m.Some? then [m.value.0] + ImportCaptures(s, m.value.1, cls)
      else ImportCaptures(s, p + 1, cls)
  }

  /** The match of `\s*from\s+([a-zA-Z0-9_.]+)\s+import` at `p`. */
  function MatchFromAt(s: string, p: nat): (r: Option<(string, nat)>)
    requires p <= |s|
    ensures r.Some? ==> p < r.value.1 <= |s| && r.value.0 != []
    ensures r.Some? ==> forall k :: 0 <= k < |r.value.0| ==> DottedChar(r.value.0[k])
  {
    var j := RunEnd(s, p, IsSpace);
    if !StartsWith(s[j..], "from") then None
    else
      var k := j + 4;
      var m := RunEnd(s, k, IsSpace);
      var e := RunEnd(s, m, DottedChar);
      var f := RunEnd(s, e, IsSpace);
      if m == k || e == m || f == e || !StartsWith(s[f..], "import") then None
      else Some((s[m..e], f + 6))
  }

  /** `re.findall` of the `from` regex under `re.MULTILINE`, from position `p`. */
  function FromCaptures(s: string, p: nat): (caps: seq<string>)
    requires p <= |s|
    ensures forall i :: 0 <= i < |caps| ==> caps[i] != [] && forall k :: 0 <= k < |caps[i]| ==> DottedChar(caps[i][k])
    decreases |s| - p
  {
    if p == |s| then []
    else
      var m := MatchFromAt(s, p);
      if LineStart(s, p) && m.Some? then [m.value.0] + FromCaptures(s, m.value.1)
      else FromCaptures(s, p + 1)
  }

  // ---------------------------------------------------------------------
  // From captures to package names

  /** One comma-separated item of an `import` capture: stripped, its ` as ` alias dropped, stripped again, cut at the first `.`. */
  function TopName(item: string): (n: string)
    ensures '.' !in n
  {
    Split(Strip(BeforeFirst(Strip(item), " as ")), '.')[0]
  }

  /** The names one `import` capture contributes. */
  function CaptureNames(capture: string): (r: seq<string>)
    ensures |r| == |Split(capture, ',')|
    ensures forall k :: 0 <= k < |r| ==> '.' !in r[k]
  {
    Map(Split(capture, ','), TopName)
  }

  /** The name a `from` capture contributes: the part before the first `.`. */
  function FromName(capture: string): (n: string)
    ensures '.' !in n && StartsWith(capture, n)
    ensures '.' !in capture ==> n == capture
  {
    Split(capture, '.')[0]
  }

  /** The names of all `import` captures, in order, when item `x` of a capture names `name(x)`. */
  function ImportNames(captures: seq<string>, name: string -> string): (r: seq<string>)
    ensures forall x :: x in r ==> exists c :: c in captures && x in Map(Split(c, ','), name)
  {
    if captures == [] then []
    else
      var front, last := captures[..|captures| - 1], captures[|captures| - 1];
      var r := ImportNames(front, name) + Map(Split(last, ','), name);
      assert forall x :: x in r ==> x in ImportNames(front, name) || x in Map(Split(last, ','), name);
      assert forall c :: c in front ==> c in captures;
      assert last in captures;
      r
  }

  function Elems<T>(xs: seq<T>): set<T> {
    set x | x in xs
  }

  /** The package names a Python text names in its imports, with the given capture class for `import`. */
  function ModulesIn(source: string, cls: char -> bool): (r: set<string>)
    ensures forall x :: x in r ==> '.' !in x
  {
    Elems(ImportNames(ImportCaptures(source, 0, cls), TopName)) + Elems(Map(FromCaptures(source, 0), FromName))
  }

  /** The built-in names never reported. */
  const Builtins: seq<string> :=
    ["os", "sys", "io", "re", "time", "datetime", "math", "json", "random", "threading", "queue",
     "tkinter", "ctypes", "argparse", "subprocess", "traceback"]

  /** What `__import__(name)` does: succeeds, raises `ImportError`, or raises something else (such as `ValueError` for an empty name). */
  datatype Probe = Imports | ImportFails | Raises

  /** The names reported missing: those not built in whose import fails. */
  function MissingAmong(modules: set<string>, excluded: seq<string>, probe: string -> Probe): (r: set<string>)
    ensures r <= modules
    ensures forall m :: m in r ==> m !in excluded && probe(m) == ImportFails
  {
    set m | m in modules && m !in excluded && probe(m) == ImportFails
  }

  /** Whether some name that is checked makes `__import__` raise an error that is not caught. */
  predicate SomeImportRaises(modules: set<string>, excluded: seq<string>, probe: string -> Probe) {
    exists m :: m in modules && m !in excluded && probe(m) == Raises
  }

  predicate NoDuplicates<T(==)>(xs: seq<T>) {
    forall i, j :: 0 <= i < j < |xs| ==> xs[i] != xs[j]
  }

  /** The result of `detect_python_dependencies`: a list of missing packages, or an error it does not catch. */
  datatype Detected = Missing(modules: seq<string>) | Raised

  // ---------------------------------------------------------------------
  // `detect_python_dependencies`

  lemma ElemsAppend<T>(a: seq<T>, b: seq<T>)
    ensures Elems(a + b) == Elems(a) + Elems(b)
  {
    assert forall x :: x in a + b <==> x in a || x in b;
  }

  /**
   * Adds the name `name(x)` of every `x` in `items` to the set: the loop over
   * one capture's items (`src/utils/dependency_manager.py:48-54`) and the loop
   * over the `from` captures (`src/utils/dependency_manager.py:57-60`).
   */
  method AddNames(modules: set<string>, items: seq<string>, name: string -> string) returns (result: set<string>)
    ensures result == modules + Elems(Map(items, name))
  {
    result := modules;
    for j := 0 to |items|
      invariant result == modules + Elems(Map(items[..j], name))
    {
      assert items[..j + 1] == items[..j] + [items[j]];
      MapAppend(items[..j], [items[j]], name);
      ElemsAppend(Map(items[..j], name), [name(items[j])]);
      result := result + {name(items[j])};
    }
    assert items[..|items|] == items;
  }

  /**
   * The loops over the captures (`src/utils/dependency_manager.py:46-60`):
   * every name into one set. Item `x` of an `import` capture names
   * `itemName(x)` and a `from` capture `c` names `fromName(c)`.
   */
  method CollectModules(imports: seq<string>, fromImports: seq<string>,
                        itemName: string -> string, fromName: string -> string)
    returns (modules: set<string>)
    ensures modules == Elems(ImportNames(imports, itemName)) + Elems(Map(fromImports, fromName))
  {
    modules := {};
    for i := 0 to |imports|
      invariant modules == Elems(ImportNames(imports[..i], itemName))
    {
      assert imports[..i + 1][..i] == imports[..i];
      var modList := Split(imports[i], ',');
      ElemsAppend(ImportNames(imports[..i], itemName), Map(modList, itemName));
      modules := AddNames(modules, modList, itemName);
    }
    assert imports[..|imports|] == imports;
    modules := AddNames(modules, fromImports, fromName);
  }

  lemma NoDuplicatesSnoc<T>(xs: seq<T>, x: T)
    requires NoDuplicates(xs) && x !in xs
    ensures NoDuplicates(xs + [x])
  {
  }

  /** Checking one more name adds it to the reported set exactly when it is not built in and its import fails. */
  lemma MissingAmongAdd(done: set<string>, excluded: seq<string>, m: string, probe: string -> Probe)
    ensures MissingAmong(done + {m}, excluded, probe) ==
            MissingAmong(done, excluded, probe) + (if m !in excluded && probe(m) == ImportFails then {m} else {})
  {
  }

  /**
   * The loop over the set (`src/utils/dependency_manager.py:63-76`), skipping
   * the names in `excluded`. The order a set is walked in is not modelled,
   * only what the list holds.
   */
  method CheckModules(modules: set<string>, excluded: seq<string>, probe: string -> Probe) returns (r: Detected)
    ensures r.Raised? <==> SomeImportRaises(modules, excluded, probe)
    ensures r.Missing? ==> Elems(r.modules) == MissingAmong(modules, excluded, probe) && NoDuplicates(r.modules)
  {
    var rest := modules;
    var missing: seq<string> := [];
    ghost var done: set<string> := {};
    while rest != {}
      invariant done + rest == modules && done !! rest
      invariant Elems(missing) == MissingAmong(done, excluded, probe)
      invariant NoDuplicates(missing)
      invariant !SomeImportRaises(done, excluded, probe)
      decreases |rest|
    {
      var m :| m in rest;
      MissingStep(done, excluded, m, probe, missing);
      RaisesAdd(done, excluded, m, probe);
      rest := rest - {m};
      done := done + {m};
      if m in excluded {
        continue;
      }
      var outcome := probe(m);
      if outcome == Raises {
        RaisesAdd(modules - {m}, excluded, m, probe);
        assert modules - {m} + {m} == modules;
        return Raised;
      }
      if outcome == ImportFails {
        missing := missing + [m];
      }
    }
    assert done == modules;
    return Missing(missing);
  }

  /** The list after checking one more name still lists, once each, exactly the failing names checked. */
  lemma MissingStep(done: set<string>, excluded: seq<string>, m: string, probe: string -> Probe, missing: seq<string>)
    requires Elems(missing) == MissingAmong(done, excluded, probe) && NoDuplicates(missing) && m !in done
    ensures var next := if m !in excluded && probe(m) == ImportFails then missing + [m] else missing;
            Elems(next) == MissingAmong(done + {m}, excluded, probe) && NoDuplicates(next)
  {
    MissingAmongAdd(done, excluded, m, probe);
    if m !in excluded && probe(m) == ImportFails {
      assert m !in Elems(missing);
      ElemsSnoc(missing, m);
      NoDuplicatesSnoc(missing, m);
    }
  }

  lemma ElemsSnoc<T>(xs: seq<T>, x: T)
    ensures Elems(xs + [x]) == Elems(xs) + {x}
  {
    ElemsAppend(xs, [x]);
    assert Elems([x]) == {x};
  }

  /** Checking one more name raises exactly when it is not built in and its import raises. */
  lemma RaisesAdd(done: set<string>, excluded: seq<string>, m: string, probe: string -> Probe)
    ensures SomeImportRaises(done + {m}, excluded, probe) <==>
            SomeImportRaises(done, excluded, probe) || (m !in excluded && probe(m) == Raises)
  {
    if SomeImportRaises(done + {m}, excluded, probe) {
      var x :| x in done + {m} && x !in excluded && probe(x) == Raises;
      if x != m {
        assert x in done;
      }
    }
  }

  /**
   * `detect_python_dependencies` with the capture class `cls` for the
   * `import` regex. Not a `.py` path (in any case) or an unreadable file
   * (`source` is `None`) gives the empty list.
   */
  method DetectWithClass(path: string, source: Option<string>, probe: string -> Probe, cls: char -> bool)
    returns (r: Detected)
    ensures !EndsWith(Lower(path), ".py") || source.None? ==> r == Missing([])
    ensures EndsWith(Lower(path), ".py") && source.Some? ==>
              (r.Raised? <==> SomeImportRaises(ModulesIn(source.value, cls), Builtins, probe))
    ensures EndsWith(Lower(path), ".py") && source.Some? && r.Missing? ==>
              Elems(r.modules) == MissingAmong(ModulesIn(source.value, cls), Builtins, probe) &&
              NoDuplicates(r.modules)
  {
    if !EndsWith(Lower(path), ".py") || source.None? {
      return Missing([]);
    }
    var text := source.value;
    var imports := ImportCaptures(text, 0, cls);
    var fromImports := FromCaptures(text, 0);
    var modules := CollectModules(imports, fromImports, TopName, FromName);
    r := CheckModules(modules, Builtins, probe);
  }

  /**
   * `detect_python_dependencies` as written: the `import` capture class
   * includes the line feed, so a capture can run on into the next lines
   * (see `ReportedAcrossLines`).
   */
  method DetectPythonDependencies(path: string, source: Option<string>, probe: string -> Probe) returns (r: Detected)
    ensures !EndsWith(Lower(path), ".py") || source.None? ==> r == Missing([])
    ensures EndsWith(Lower(path), ".py") && source.Some? ==>
              (r.Raised? <==> SomeImportRaises(ModulesIn(source.value, ImportChar), Builtins, probe))
    ensures EndsWith(Lower(path), ".py") && source.Some? && r.Missing? ==>
              Elems(r.modules) == MissingAmong(ModulesIn(source.value, ImportChar), Builtins, probe) &&
              NoDuplicates(r.modules)
  {
    r := DetectWithClass(path, source, probe, ImportChar);
  }

  /** The same detection with each `import` capture kept on its line, so that no reported name spans lines (`NoNameSpansLines`). */
  method DetectPythonDependenciesFixed(path: string, source: Option<string>, probe: string -> Probe) returns (r: Detected)
    ensures !EndsWith(Lower(path), ".py") || source.None? ==> r == Missing([])
    ensures EndsWith(Lower(path), ".py") && source.Some? ==>
              (r.Raised? <==> SomeImportRaises(ModulesIn(source.value, ImportCharOnLine), Builtins, probe))
    ensures EndsWith(Lower(path), ".py") && source.Some? && r.Missing? ==>
              Elems(r.modules) == MissingAmong(ModulesIn(source.value, ImportCharOnLine), Builtins, probe) &&
              NoDuplicates(r.modules) && forall n :: n in r.modules ==> '\n' !in n
  {
    r := DetectWithClass(path, source, probe, ImportCharOnLine);
    if source.Some? && r.Missing? {
      NoNameSpansLines(source.value);
      forall n | n in r.modules ensures '\n' !in n {
        assert n in Elems(r.modules);
      }
    }
  }

  // ---------------------------------------------------------------------
  // Properties of the Python scan

  /** The first ` as ` in `x + rest` is where `rest` starts, when `x` has no blank and `rest` starts with ` as `. */
  lemma AsAfterWord(x: string, rest: string)
    requires ' ' !in x && StartsWith(rest, " as ")
    ensures BeforeFirst(x + rest, " as ") == x
  {
    var s := x + rest;
    assert s[|x|..] == rest;
    assert StartsWith(s[|x|..], " as ");
    forall j | 0 <= j < |x| ensures !StartsWith(s[j..], " as ") {
      assert s[j] == x[j];
    }
    assert s[..|x|] == x;
  }

  /** Text made of `[a-zA-Z0-9_.]` characters. */
  predicate Dotted(w: string) { forall k :: 0 <= k < |w| ==> DottedChar(w[k]) }

  lemma DottedHasNoSpace(w: string)
    requires Dotted(w)
    ensures ' ' !in w
    ensures w != [] ==> !IsSpace(w[0]) && !IsSpace(w[|w| - 1])
  {
    if w != [] {
      assert DottedChar(w[0]) && DottedChar(w[|w| - 1]);
    }
  }

  lemma DottedJoin(a: string, b: string)
    requires Dotted(a) && Dotted(b)
    ensures Dotted(a + "." + b)
  {
    var x := a + "." + b;
    forall k | 0 <= k < |x| ensures DottedChar(x[k]) {
      if k < |a| { assert x[k] == a[k]; } else if k > |a| { assert x[k] == b[k - |a| - 1]; }
    }
  }

  /** An item `a.b as c` contributes `a`: the alias and everything after the first dot are dropped. */
  lemma AliasAndSubmoduleDropped(a: string, b: string, c: string)
    requires a != [] && c != [] && '.' !in a
    requires Dotted(a) && Dotted(b) && Dotted(c)
    ensures TopName(a + "." + b + " as " + c) == a
  {
    var x := a + "." + b;
    var item := x + (" as " + c);
    assert item == a + "." + b + " as " + c;
    DottedJoin(a, b);
    DottedHasNoSpace(x);
    DottedHasNoSpace(c);
    assert item[0] == x[0] && item[|item| - 1] == c[|c| - 1];
    StripFixed(item);
    AsAfterWord(x, " as " + c);
    StripFixed(x);
    assert x == a + ['.'] + b;
    SplitAtFirst(a, b, '.');
  }

  /** A comma-separated capture contributes one name per item, in order. */
  lemma TwoItems(first: string, second: string)
    requires ',' !in first
    ensures CaptureNames(first + "," + second) == [TopName(first)] + CaptureNames(second)
  {
    assert first + "," + second == first + [','] + second;
    SplitAtFirst(first, second, ',');
  }

  /** `from x.y import ...` contributes the top-level name `x`. */
  lemma FromTopLevel(x: string, y: string)
    requires '.' !in x
    ensures FromName(x + "." + y) == x
  {
    assert x + "." + y == x + ['.'] + y;
    SplitAtFirst(x, y, '.');
  }

  /** An excluded (built-in) name is never reported, and never makes the check raise, whatever its import does. */
  lemma ExcludedNeverReported(modules: set<string>, excluded: seq<string>, probe: string -> Probe, name: string)
    requires name in excluded
    ensures name !in MissingAmong(modules, excluded, probe)
    ensures SomeImportRaises(modules, excluded, probe) <==> SomeImportRaises(modules - {name}, excluded, probe)
  {
    if SomeImportRaises(modules, excluded, probe) {
      var m :| m in modules && m !in excluded && probe(m) == Raises;
      assert m in modules - {name};
    }
  }

  /** Splitting text without `c` gives parts without `c`. */
  lemma {:induction false} SplitKeepsOut(s: string, sep: char, c: char)
    requires c !in s
    ensures forall k :: 0 <= k < |Split(s, sep)| ==> c !in Split(s, sep)[k]
    decreases |s|
  {
    var i := IndexOf(s, sep);
    if i < |s| {
      SliceKeepsOut(s, 0, i, c);
      SliceKeepsOut(s, i + 1, |s|, c);
      SplitKeepsOut(s[i + 1..], sep, c);
      var parts, rest := Split(s, sep), Split(s[i + 1..], sep);
      assert parts == [s[..i]] + rest;
      forall k | 0 <= k < |parts| ensures c !in parts[k] {
        if k > 0 {
          assert parts[k] == rest[k - 1];
        }
      }
    }
  }

  lemma SliceKeepsOut(s: string, i: nat, j: nat, c: char)
    requires i <= j <= |s| && c !in s
    ensures c !in s[i..j]
  {
  }

  lemma StripKeepsOut(s: string, c: char)
    requires c !in s
    ensures c !in Strip(s)
  {
    var l := LStrip(s);
    SliceKeepsOut(s, |s| - |l|, |s|, c);
    SliceKeepsOut(l, 0, |RStrip(l)|, c);
  }

  /** A name taken from text without a line feed has none. */
  lemma TopNameKeepsOut(item: string)
    requires '\n' !in item
    ensures '\n' !in TopName(item)
  {
    StripKeepsOut(item, '\n');
    var s1 := Strip(item);
    var s2 := BeforeFirst(s1, " as ");
    SliceKeepsOut(s1, 0, |s2|, '\n');
    StripKeepsOut(s2, '\n');
    SplitKeepsOut(Strip(s2), '.', '\n');
  }

  lemma CaptureNamesKeepOut(capture: string)
    requires '\n' !in capture
    ensures forall n :: n in CaptureNames(capture) ==> '\n' !in n
  {
    SplitKeepsOut(capture, ',', '\n');
    forall n | n in CaptureNames(capture) ensures '\n' !in n {
      var q :| 0 <= q < |CaptureNames(capture)| && CaptureNames(capture)[q] == n;
      TopNameKeepsOut(Split(capture, ',')[q]);
    }
  }

  lemma {:induction false} ImportNamesKeepOut(captures: seq<string>)
    requires forall i :: 0 <= i < |captures| ==> '\n' !in captures[i]
    ensures forall n :: n in ImportNames(captures, TopName) ==> '\n' !in n
  {
    if captures != [] {
      ImportNamesKeepOut(captures[..|captures| - 1]);
      CaptureNamesKeepOut(captures[|captures| - 1]);
    }
  }

  lemma FromNamesKeepOut(froms: seq<string>)
    requires forall i :: 0 <= i < |froms| ==> '\n' !in froms[i]
    ensures forall n :: n in Map(froms, FromName) ==> '\n' !in n
  {
    forall n | n in Map(froms, FromName) ensures '\n' !in n {
      var q := MapMember(froms, FromName, n);
      SplitKeepsOut(froms[q], '.', '\n');
    }
  }

  /** A text whose every character is in `cls` has no line feed when `cls` excludes it. */
  lemma ClassKeepsOut(s: string, cls: char -> bool)
    requires forall k :: 0 <= k < |s| ==> cls(s[k])
    requires !cls('\n')
    ensures '\n' !in s
  {
  }

  /** With the capture kept on its line, no reported name spans a line break. */
  lemma NoNameSpansLines(source: string)
    ensures forall n :: n in ModulesIn(source, ImportCharOnLine) ==> '\n' !in n
  {
    var imports := ImportCaptures(source, 0, ImportCharOnLine);
    forall i | 0 <= i < |imports| ensures '\n' !in imports[i] {
      ClassKeepsOut(imports[i], ImportCharOnLine);
    }
    ImportNamesKeepOut(imports);
    var froms := FromCaptures(source, 0);
    forall i | 0 <= i < |froms| ensures '\n' !in froms[i] {
      ClassKeepsOut(froms[i], DottedChar);
    }
    FromNamesKeepOut(froms);
  }

  /** A text without ` ` or `,` or `.` is one name, the whole of it. */
  lemma PlainCaptureName(capture: string)
    requires capture != [] && !IsSpace(capture[0]) && !IsSpace(capture[|capture| - 1])
    requires ' ' !in capture && ',' !in capture && '.' !in capture
    ensures CaptureNames(capture) == [capture]
  {
    SplitWithoutSeparator(capture, ',');
    MapSingle(capture, TopName);
    PlainTopName(capture);
  }

  /** Such a text is its own top-level name. */
  lemma PlainTopName(item: string)
    requires item != [] && !IsSpace(item[0]) && !IsSpace(item[|item| - 1])
    requires ' ' !in item && '.' !in item
    ensures TopName(item) == item
  {
    calc {
      TopName(item);
      == { StripFixed(item); }
      Split(Strip(BeforeFirst(item, " as ")), '.')[0];
      == { FindAbsent(item, " as "); assert item[..|item|] == item; }
      Split(Strip(item), '.')[0];
      == { StripFixed(item); }
      Split(item, '.')[0];
      == { SplitWithoutSeparator(item, '.'); }
      item;
    }
  }

  /**
   * As written, the capture of `import os` runs on into the next line: the
   * two-line text `import os` / `x` is reported as importing the one
   * package `os\nx`.
   */
  lemma ImportRunsAcrossLines()
    ensures ImportCaptures("import os\nx", 0, ImportChar) == ["os\nx"]
  {
    var s := "import os\nx";
    ImportScan(s);
    assert MatchImportAt(s, 0, ImportChar) == Some((s[7..11], 11));
    assert s[7..11] == "os\nx";
  }

  /** The runs a match of `import os\nx` is made of: no leading blank, one blank, then four capture characters. */
  lemma ImportScan(s: string)
    requires s == "import os\nx"
    ensures RunEnd(s, 0, IsSpace) == 0 && s[0..][..6] == "import"
    ensures RunEnd(s, 6, IsSpace) == 7 && RunEnd(s, 7, ImportChar) == 11
  {
    assert RunEnd(s, 10, ImportChar) == 11;
    assert RunEnd(s, 9, ImportChar) == 11;
    assert RunEnd(s, 8, ImportChar) == 11;
  }

  /** ... and so reports the package `os\nx`, whose import fails, where `os` was meant. */
  lemma ReportedAcrossLines()
    ensures ImportNames(ImportCaptures("import os\nx", 0, ImportChar), TopName) == ["os\nx"]
  {
    ImportRunsAcrossLines();
    JoinedName();
    var c := "os\nx";
    assert [c][..0] == [];
    assert ImportNames([c], TopName) == ImportNames([], TopName) + CaptureNames(c);
  }

  lemma JoinedName()
    ensures CaptureNames("os\nx") == ["os\nx"]
  {
    var c := "os\nx";
    assert !IsSpace(c[0]) && !IsSpace(c[3]);
    assert ' ' !in c && ',' !in c && '.' !in c;
    PlainCaptureName(c);
  }

  /** Kept on its line, the same text imports `os` only. */
  lemma ImportStaysOnLine()
    ensures ImportCaptures("import os\nx", 0, ImportCharOnLine) == ["os"]
  {
    var s := "import os\nx";
    OnLineMatchesOs();
    OnLineNothingAfterOs();
    assert LineStart(s, 0);
  }

  /** The match at the start of `import os\nx` stops at the line feed. */
  lemma OnLineMatchesOs()
    ensures MatchImportAt("import os\nx", 0, ImportCharOnLine) == Some(("os", 9))
  {
    var s := "import os\nx";
    assert RunEnd(s, 0, IsSpace) == 0;
    assert s[0..][..6] == "import";
    assert RunEnd(s, 6, IsSpace) == 7;
    assert RunEnd(s, 9, ImportCharOnLine) == 9;
    assert RunEnd(s, 8, ImportCharOnLine) == 9;
    assert RunEnd(s, 7, ImportCharOnLine) == 9;
    assert s[7..9] == "os";
  }

  /** After `os`, the rest of `import os\nx` holds no `import` line. */
  lemma OnLineNothingAfterOs()
    ensures ImportCaptures("import os\nx", 9, ImportCharOnLine) == []
  {
    var s := "import os\nx";
    assert !LineStart(s, 9);
    assert RunEnd(s, 10, IsSpace) == 10;
    assert MatchImportAt(s, 10, ImportCharOnLine) == None;
    assert ImportCaptures(s, 10, ImportCharOnLine) == [];
  }

  // ---------------------------------------------------------------------
  // `detect_powershell_dependencies`

  /** `[a-zA-Z0-9_.-]` under `re.IGNORECASE`, which lets the letter ranges also match U+0130, U+0131, U+017F and KELVIN SIGN. */
  predicate ModuleChar(c: char) {
    IsAsciiLetter(c) || IsDigit(c) || c == '_' || c == '.' || c == '-'
    || c as int == 0x130 || c as int == 0x131 || c as int == 0x17F || c == Kelvin
  }

  const ImportModule := "Import-Module"

  /** The match of `Import-Module\s+([a-zA-Z0-9_.-]+)` at `p`, without regard to case. */
  function MatchModuleAt(s: string, p: nat): (r: Option<(string, nat)>)
    requires p <= |s|
    ensures r.Some? ==> p < r.value.1 <= |s| && r.value.0 != []
    ensures r.Some? ==> p + |ImportModule| <= |s| && CaseMatches(s[p..p + |ImportModule|], ImportModule)
    ensures r.Some? ==> forall k :: 0 <= k < |r.value.0| ==> ModuleChar(r.value.0[k])
  {
    if p + |ImportModule| > |s| || !CaseMatches(s[p..p + |ImportModule|], ImportModule) then None
    else
      var k := p + |ImportModule|;
      var m := RunEnd(s, k, IsSpace);
      var e := RunEnd(s, m, ModuleChar);
      if m == k || e == m then None else Some((s[m..e], e))
  }

  /** `re.findall(..., re.IGNORECASE)` of the `Import-Module` regex from `p`: every match, in order, duplicates kept. */
  function ModuleCaptures(s: string, p: nat): (caps: seq<string>)
    requires p <= |s|
    ensures forall i :: 0 <= i < |caps| ==> caps[i] != [] && forall k :: 0 <= k < |caps[i]| ==> ModuleChar(caps[i][k])
    decreases |s| - p
  {
    if p == |s| then []
    else
      var m := MatchModuleAt(s, p);
      if m.Some? then [m.value.0] + ModuleCaptures(s, m.value.1)
      else ModuleCaptures(s, p + 1)
  }

  /**
   * `findall` takes the leftmost match from where it stands, then goes on
   * from that match's end: when nothing matches at `p`..`k - 1` and a match
   * of `name` ends at `e` starting at `k`, the captures from `p` are `name`
   * followed by the captures from `e`.
   */
  lemma {:induction false} ModuleCapturesNext(s: string, p: nat, k: nat)
    requires p <= k < |s|
    requires forall q :: p <= q < k ==> MatchModuleAt(s, q).None?
    requires MatchModuleAt(s, k).Some?
    ensures ModuleCaptures(s, p) == [MatchModuleAt(s, k).value.0] + ModuleCaptures(s, MatchModuleAt(s, k).value.1)
    decreases k - p
  {
    if p < k {
      ModuleCapturesNext(s, p + 1, k);
    }
  }

  /** No position from `p` on starts an `Import-Module` match. */
  predicate NoModuleFrom(s: string, p: nat) {
    forall q :: p <= q < |s| ==> MatchModuleAt(s, q).None?
  }

  /** No name is captured from `p` on exactly when no position from `p` on starts a match. */
  lemma {:induction false} ModuleCapturesNone(s: string, p: nat)
    requires p <= |s|
    ensures ModuleCaptures(s, p) == [] <==> NoModuleFrom(s, p)
    decreases |s| - p
  {
    if p < |s| {
      ModuleCapturesNone(s, p + 1);
      NoModuleStep(s, p);
      if MatchModuleAt(s, p).None? {
        assert ModuleCaptures(s, p) == ModuleCaptures(s, p + 1);
      }
    }
  }

  /** No match from `p` on is no match at `p` and none from `p + 1` on. */
  lemma NoModuleStep(s: string, p: nat)
    requires p < |s|
    ensures NoModuleFrom(s, p) <==> MatchModuleAt(s, p).None? && NoModuleFrom(s, p + 1)
  {
  }

  /** `detect_powershell_dependencies`: not a `.ps1` path or an unreadable file gives the empty list; otherwise every stripped capture. */
  function PowerShellDependencies(path: string, source: Option<string>): (mods: seq<string>)
    ensures !EndsWith(Lower(path), ".ps1") || source.None? ==> mods == []
  {
    if !EndsWith(Lower(path), ".ps1") || source.None? then []
    else Map(ModuleCaptures(source.value, 0), Strip)
  }

  /** A module name has no surrounding whitespace to strip. */
  lemma ModuleNameStripped(w: string)
    requires w != [] && forall k :: 0 <= k < |w| ==> ModuleChar(w[k])
    ensures Strip(w) == w
  {
    assert ModuleChar(w[0]) && ModuleChar(w[|w| - 1]);
    StripFixed(w);
  }

  /** Stripping changes no capture: the result is exactly the captured names, in source order. */
  lemma PowerShellNamesAsCaptured(path: string, source: string)
    requires EndsWith(Lower(path), ".ps1")
    ensures PowerShellDependencies(path, Some(source)) == ModuleCaptures(source, 0)
  {
    var caps := ModuleCaptures(source, 0);
    var stripped := Map(caps, Strip);
    forall i | 0 <= i < |caps| ensures stripped[i] == caps[i] {
      ModuleNameStripped(caps[i]);
    }
    assert stripped == caps;
  }

  /** A script importing the module `A` twice, with `Import-Module` written in two cases. */
  const TwiceImported := "Import-Module A\nimport-module A"

  lemma FirstImport()
    ensures MatchModuleAt(TwiceImported, 0) == Some(("A", 15))
  {
    var s := TwiceImported;
    assert CaseMatches(s[0..13], ImportModule);
    assert |s| == 31 && s[13] == ' ' && s[14] == 'A' && s[15] == '\n';
    assert !IsSpace(s[14]) && !ModuleChar(s[15]);
    assert RunEnd(s, 14, IsSpace) == 14;
    assert RunEnd(s, 13, IsSpace) == 14;
    assert RunEnd(s, 15, ModuleChar) == 15;
    assert RunEnd(s, 14, ModuleChar) == 15;
    assert s[14..15] == "A";
  }

  /** The line feed between the two lines starts no match. */
  lemma LineFeedNoMatch()
    ensures MatchModuleAt(TwiceImported, 15) == None
  {
    var s := TwiceImported;
    assert |s| == 31 && s[15] == '\n';
    assert !CaseMatch(s[15], 'I');
  }

  /** The lower-case spelling matches `Import-Module` when case is ignored. */
  lemma LowerCaseMatches()
    ensures CaseMatches("import-module", ImportModule)
  {
  }

  /** The second line of `TwiceImported` starts with the lower-case keyword. */
  lemma SecondLineHead()
    ensures TwiceImported[16..29] == "import-module"
  {
    var s := TwiceImported;
    assert s == "Import-Module A\n" + "import-module A";
    assert s[16..] == "import-module A";
    assert s[16..29] == s[16..][..13];
  }

  lemma SecondImport()
    ensures MatchModuleAt(TwiceImported, 16) == Some(("A", 31))
  {
    var s := TwiceImported;
    assert |s| == 31 && s[29] == ' ' && s[30] == 'A';
    SecondLineHead();
    LowerCaseMatches();
    assert !IsSpace(s[30]);
    assert RunEnd(s, 30, IsSpace) == 30;
    assert RunEnd(s, 29, IsSpace) == 30;
    assert RunEnd(s, 30, ModuleChar) == 31;
    assert s[30..31] == "A";
  }

  /** A module imported twice, in different cases of `Import-Module`, is listed twice. */
  lemma DuplicatesKept()
    ensures ModuleCaptures(TwiceImported, 0) == ["A", "A"]
  {
    FirstImport();
    LineFeedNoMatch();
    SecondImport();
    var s := TwiceImported;
    assert ModuleCaptures(s, 31) == [];
    assert ModuleCaptures(s, 16) == ["A"];
    assert ModuleCaptures(s, 15) == ModuleCaptures(s, 16);
  }
}

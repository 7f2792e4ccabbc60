/**
 * The web application's category controller
 * (`web_app/controllers/category_controller.py`): cleaning a user-supplied
 * category name, creating the category's directory, and listing the custom
 * categories and the script counts of all of them. The file system is given
 * as data: which paths exist, and what `os.listdir` returns for a directory.
 */
module CategoryController {
  import opened Common
  import opened Sorting

  // ---------------------------------------------------------------------
  // Sanitising a name

  /** `[a-zA-Z0-9_\-\s]`: the characters a category name may keep. */
  predicate Allowed(c: char) { IsAsciiLetter(c) || IsDigit(c) || c == '_' || c == '-' || IsSpace(c) }

  predicate AllAllowed(s: string) { forall i :: 0 <= i < |s| ==> Allowed(s[i]) }

  /**
   * `re.sub` of the negated class with `''`: deletes every character that is
   * not an ASCII letter, a digit, `_`, `-` or whitespace. The result is the
   * allowed characters of `s`, each kept once and in order.
   */
  function KeepAllowed(s: string): (r: string)
    ensures r == FilterMap(s, Allowed, Identity)
    ensures AllAllowed(r)
    ensures AllAllowed(s) ==> r == s
  {
    if s == [] then []
    else
      var r := (if Allowed(s[0]) then [s[0]] else []) + KeepAllowed(s[1..]);
      assert s == [s[0]] + s[1..];
      FilterMapCons(s[0], s[1..], Allowed, Identity);
      r
  }

  /** `_sanitize_category_name`: strip first, then delete the disallowed characters, keeping the others in order. */
  function Sanitize(name: string): (r: string)
    ensures r == FilterMap(Strip(name), Allowed, Identity)
    ensures AllAllowed(r)
    ensures |r| <= |name|
  {
    KeepAllowed(Strip(name))
  }

  /** A character survives sanitising exactly when it is allowed and lies inside the stripped name. */
  lemma SanitizeMembers(name: string, c: char)
    ensures c in Sanitize(name) <==> c in Strip(name) && Allowed(c)
  {
    FilterMapMembers(Strip(name), Allowed, Identity, c);
  }

  /** A name made only of allowed characters, with no surrounding whitespace, is left alone. */
  lemma SanitizeKeepsCleanNames(name: string)
    requires AllAllowed(name) && Strip(name) == name
    ensures Sanitize(name) == name
  {
  }

  /** Stripping keeps a contiguous part of the text, so it keeps allowed text allowed. */
  lemma StripKeepsAllowed(s: string)
    requires AllAllowed(s)
    ensures AllAllowed(Strip(s))
  {
    var l := LStrip(s);
    AllowedSlice(s, |s| - |l|, |s|);
    assert s[|s| - |l|..|s|] == l;
    AllowedSlice(l, 0, |RStrip(l)|);
    assert l[0..|RStrip(l)|] == RStrip(l);
  }

  /** Any slice of allowed text is allowed. */
  lemma AllowedSlice(s: string, lo: nat, hi: nat)
    requires AllAllowed(s) && lo <= hi <= |s|
    ensures AllAllowed(s[lo..hi])
  {
    forall i | 0 <= i < hi - lo ensures Allowed(s[lo..hi][i]) {
      assert s[lo..hi][i] == s[lo + i];
    }
  }

  /** Sanitising a sanitised name only strips it: the deletions of the first pass are final. */
  lemma SanitizeTwice(name: string)
    ensures Sanitize(Sanitize(name)) == Strip(Sanitize(name))
  {
    StripKeepsAllowed(Sanitize(name));
  }

  /** Stripping comes before filtering, so a second pass can still change the result. */
  lemma SanitizeNotIdempotent()
    ensures Sanitize("! a") == " a"
    ensures Sanitize(" a") == "a"
  {
    SanitizeBangA();
    SanitizeSpaceA();
  }

  lemma SanitizeBangA()
    ensures Sanitize("! a") == " a"
  {
    StripBangA();
    KeepBangA();
  }

  lemma SanitizeSpaceA()
    ensures Sanitize(" a") == "a"
  {
    StripSpaceA();
  }

  lemma StripBangA()
    ensures Strip("! a") == "! a"
  {
    StripFixed("! a");
  }

  lemma KeepBangA()
    ensures KeepAllowed("! a") == " a"
  {
    var s := "! a";
    assert !Allowed(s[0]);
    assert KeepAllowed(s) == KeepAllowed(s[1..]);
    assert s[1..] == " a";
    assert AllAllowed(" a");
  }

  lemma StripSpaceA()
    ensures Strip(" a") == "a"
    ensures KeepAllowed("a") == "a"
  {
    LStripSpaceA();
    assert RStrip("a") == "a" by {
      assert !IsSpace("a"[0]);
    }
    assert AllAllowed("a");
  }

  lemma LStripSpaceA()
    ensures LStrip(" a") == "a"
  {
    assert IsSpace(' ') && !IsSpace('a');
  }

  // ---------------------------------------------------------------------
  // Creating a category

  /** What `create_new_category` returns: `(success, sanitised name or message)`. */
  datatype Created = Created(success: bool, message: string)

  /**
   * `create_new_category`. `existing` is the set of paths that exist;
   * `makedirsError` is the message of the exception `os.makedirs` raises, if it
   * does. The second result is the new set of existing paths.
   */
  function CreateNewCategory(baseDir: string, name: string, existing: set<string>, makedirsError: Option<string>)
    : (r: (Created, set<string>))
    ensures Sanitize(name) == [] ==> r == (Created(false, "Invalid category name"), existing)
    ensures Sanitize(name) != [] && JoinPath(baseDir, Sanitize(name)) in existing ==>
              r == (Created(false, "Category already exists"), existing)
    ensures r.0.success <==> Sanitize(name) != [] && JoinPath(baseDir, Sanitize(name)) !in existing && makedirsError.None?
    ensures r.0.success ==> r.0.message == Sanitize(name) && r.1 == existing + {JoinPath(baseDir, Sanitize(name))}
    ensures !r.0.success ==> r.1 == existing
  {
    var sanitized := Sanitize(name);
    if sanitized == [] then (Created(false, "Invalid category name"), existing)
    else
      var path := JoinPath(baseDir, sanitized);
      if path in existing then (Created(false, "Category already exists"), existing)
      else match makedirsError
        case Some(e) => (Created(false, e), existing)
        case None => (Created(true, sanitized), existing + {path})
  }

  /** A category that was just created is reported as existing by a second attempt. */
  lemma CreateTwice(baseDir: string, name: string, existing: set<string>)
    requires CreateNewCategory(baseDir, name, existing, None).0.success
    ensures CreateNewCategory(baseDir, name, CreateNewCategory(baseDir, name, existing, None).1, None).0
            == Created(false, "Category already exists")
  {
  }

  // ---------------------------------------------------------------------
  // Listing categories

  /** One name returned by `os.listdir`, with whether it is a directory or a regular file. */
  datatype Item = Item(name: string, isDir: bool, isFile: bool)

  /** A directory that is not one of the default categories. */
  function IsCustomIn(defaults: seq<string>): Item -> bool {
    (it: Item) => it.isDir && it.name !in defaults
  }

  function NameOf(it: Item): string { it.name }

  /**
   * `detect_custom_categories`: the custom directories of the base directory,
   * sorted; none when the base directory is missing or cannot be listed.
   */
  method DetectCustomCategories(baseDir: string, defaults: seq<string>, baseExists: bool, listing: Option<seq<Item>>)
    returns (custom: seq<string>)
    ensures SortedBy(custom, Identity)
    ensures baseExists && listing.Some? ==> multiset(custom) == multiset(FilterMap(listing.value, IsCustomIn(defaults), NameOf))
    ensures !baseExists || listing.None? ==> custom == []
  {
    if !baseExists || listing.None? {
      return [];
    }
    var items := listing.value;
    var found: seq<string> := [];
    var i := 0;
    while i < |items|
      invariant 0 <= i <= |items|
      invariant found == FilterMap(items[..i], IsCustomIn(defaults), NameOf)
    {
      var item := items[i];
      FilterMapStep(items, i, IsCustomIn(defaults), NameOf);
      if item.isDir && item.name !in defaults {
        found := found + [item.name];
      }
      i := i + 1;
    }
    assert items[..i] == items;
    custom := Sort(found, Identity);
  }

  /** Exactly the directories outside the defaults are reported. */
  lemma CustomMembers(listing: seq<Item>, defaults: seq<string>, name: string)
    ensures name in FilterMap(listing, IsCustomIn(defaults), NameOf) <==>
            exists it :: it in listing && it.isDir && it.name !in defaults && name == it.name
  {
    FilterMapMembers(listing, IsCustomIn(defaults), NameOf, name);
  }

  /** A file with one of the five script extensions. */
  predicate IsScriptFile(it: Item) { it.isFile && IsScriptExt(LowerExt(it.name)) }

  /** The loop that counts a category's scripts. */
  method CountScripts(files: seq<Item>) returns (count: nat)
    ensures count == Count(files, IsScriptFile)
  {
    count := 0;
    var i := 0;
    while i < |files|
      invariant 0 <= i <= |files|
      invariant count == Count(files[..i], IsScriptFile)
    {
      CountStep(files, i, IsScriptFile);
      if files[i].isFile && IsScriptExt(LowerExt(files[i].name)) {
        count := count + 1;
      }
      i := i + 1;
    }
    assert files[..i] == files;
  }

  /** One row of `get_category_info`. */
  datatype CategoryInfo = CategoryInfo(name: string, path: string, scriptCount: nat, isCustom: bool)

  function InfoName(c: CategoryInfo): string { c.name }

  /** The row for one category: its path, its script count, and `is_custom` false. */
  function RowFor(baseDir: string, contents: string -> seq<Item>): string -> CategoryInfo {
    (c: string) => CategoryInfo(c, JoinPath(baseDir, c), Count(contents(JoinPath(baseDir, c)), IsScriptFile), false)
  }

  /**
   * `get_category_info`: for each category, its path and the number of script
   * files `contents` lists there, sorted by name. `contents` stands for
   * `os.listdir`; `failed` says that listing some directory raised, which
   * empties the result.
   */
  method GetCategoryInfo(baseDir: string, categories: seq<string>, contents: string -> seq<Item>, failed: bool)
    returns (info: seq<CategoryInfo>)
    ensures SortedBy(info, InfoName)
    ensures failed ==> info == []
    ensures !failed ==> multiset(info) == multiset(Map(categories, RowFor(baseDir, contents)))
  {
    if failed {
      return [];
    }
    var rows: seq<CategoryInfo> := [];
    var i := 0;
    while i < |categories|
      invariant 0 <= i <= |categories|
      invariant rows == Map(categories[..i], RowFor(baseDir, contents))
    {
      var category := categories[i];
      var path := JoinPath(baseDir, category);
      var count := CountScripts(contents(path));
      rows := rows + [CategoryInfo(category, path, count, category !in categories)];
      MapStep(categories, i, RowFor(baseDir, contents));
      i := i + 1;
    }
    assert categories[..i] == categories;
    info := Sort(rows, InfoName);
  }

  /** Each listed category appears once per occurrence, with its count, and none is ever marked custom. */
  lemma CategoryRows(baseDir: string, categories: seq<string>, contents: string -> seq<Item>, info: seq<CategoryInfo>)
    requires multiset(info) == multiset(Map(categories, RowFor(baseDir, contents)))
    ensures multiset(Map(info, InfoName)) == multiset(categories)
    ensures forall x :: x in info ==>
              !x.isCustom && x.path == JoinPath(baseDir, x.name) &&
              x.scriptCount == Count(contents(x.path), IsScriptFile)
  {
    var rows := Map(categories, RowFor(baseDir, contents));
    MapMultiset(info, rows, InfoName);
    assert Map(rows, InfoName) == categories;
    forall x | x in info
      ensures !x.isCustom && x.path == JoinPath(baseDir, x.name) && x.scriptCount == Count(contents(x.path), IsScriptFile)
    {
      assert x in multiset(rows);
      assert x in rows;
    }
  }
}

# WinPick-Client core, modelled in Dafny

WinPick-Client is a launcher for Windows maintenance scripts. It comes as a
Tk desktop application and as a Flask web application. This project models
the logic those front ends share, and proves properties of it:

- the script-metadata header parser: the comment marker, the 2000-character
  window, the six header fields and the executable fallback;
- the argument vectors the desktop and web launchers build, including the
  undo variants and the elevated launch;
- the script templates of the web controller, with a round-trip lemma that
  the metadata parser reads each template header back;
- category-name sanitising, creation, custom-category detection and per-category
  script counts;
- GitHub repository URL parsing, the file-name prefix for imported scripts,
  the extension filter of the copy routines, and the desktop downloader's
  overwrite/skip decision loop;
- the rating bookkeeping: script ids, the `"... - N/5"` issue titles and their
  decoding, latest-issue selection, the 1800-second cache, submissions and
  averages;
- the OAuth device-flow polling of both GitHub sign-in handlers (section 3.5
  of RFC 8628), with their token and status fields;
- the dependency scanners for Python imports and PowerShell `Import-Module`
  lines;
- the desktop console's output filter, highlighting tags and command-history
  cursor;
- the web application's bounded console buffer and its `run_script`,
  `clear_console` and `create_script` endpoints.

Each core file is one module. Pure code is written as functions and lemmas.
Loops become methods with invariants, proved against specification functions.
Objects whose fields the source updates become classes:

- `RatingStore`, for the rating caches;
- `GitHubAuthHandlerWeb` and `GitHubAuthHandler`;
- `ConsoleView` and `ConsoleBuffer`.

`Common` holds the Python string and path built-ins the code relies on:

- `str.isspace`, `strip`, `split`, `lower`;
- `ntpath.basename` and `splitext`;
- text-mode newline translation.

`Sorting` is Python's stable `sorted` on string keys.

Whatever the code takes from the outside world is a parameter of the model:

- file contents and read errors;
- directory listings and existence tests;
- HTTP status codes and JSON fields;
- clock readings and timestamps;
- `__import__` results;
- the win32api version lookup;
- dialog answers.

## Model

| member | source | states |
|---|---|---|
| Sorting.Sort | web_app/controllers/script_controller.py:59 | the result is ordered by the key and is a permutation of the input |
| Sorting.InsertStable | web_app/controllers/script_controller.py:59 | inserting into a sorted list puts the new element ahead of every element of its key, as prepending it would |
| Sorting.SortStable | web_app/controllers/script_controller.py:59 | the sort is stable: the elements of each key keep their input order |
| ScriptMetadata.Marker | src/utils/script_metadata.py:72-85 | the comment marker is `::` exactly for `.bat`/`.cmd` and `#` for every other extension |
| ScriptMetadata.Group | src/utils/script_metadata.py:73-85 | the lazy `(.*?)[\r\n]` group exists exactly when a CR or LF follows, and then holds no line break |
| ScriptMetadata.MatchHere | src/utils/script_metadata.py:73-85 | a header match at one position yields a value without line breaks |
| ScriptMetadata.Search | src/utils/script_metadata.py:87-107 | the value `re.search` returns never contains a line break |
| ScriptMetadata.SearchFindsFirst | src/utils/script_metadata.py:87-88 | the search returns the match at the leftmost position where the pattern matches |
| ScriptMetadata.SearchFindsNothing | src/utils/script_metadata.py:87-88 | the search finds nothing exactly when no position matches |
| ScriptMetadata.MatchNeedsLineBreak | src/utils/script_metadata.py:73-85 | a header line with no CR or LF after it does not match |
| ScriptMetadata.NoLineBreakNoMatch | src/utils/script_metadata.py:87-107 | a window with no CR or LF yields no field at all |
| ScriptMetadata.Undoable | src/utils/script_metadata.py:93-98 | UNDOABLE is always "Yes" or "No", and "Yes" exactly when the stripped, lower-cased value is yes, true or 1 |
| ScriptMetadata.ExeMetadata | src/utils/script_metadata.py:9-40 | the executable fallback: undoable "No" with empty undo description, developer and link; without win32api the stem and "Windows Executable"; with a failed description lookup the basename and "Executable file"; a non-empty FileDescription becomes the description (an empty one leaves "Executable file"); a non-empty ProductName becomes the name, otherwise the basename stays |
| ScriptMetadata.ParseScriptMetadata | src/utils/script_metadata.py:42-112 | an `.exe` gets exactly `ExeMetadata`; a read error gives the default tuple with "Error reading metadata: " and the message; otherwise each of the six fields is searched for on its own in the first 2000 characters, a match giving its stripped value and no match its default (the basename with its extension for the name, "No" for undoable, "" for the rest), and undoable is "Yes" exactly when the stripped, lower-cased match is yes, true or 1 |
| ScriptMetadata.ExeIgnoresContents | src/utils/script_metadata.py:63-67 | an executable is never read as text, so its contents cannot change its metadata |
| ScriptMetadata.WindowIgnoresTail | src/utils/script_metadata.py:69-70 | only the first 2000 characters are searched; text after them cannot change the result |
| ScriptMetadata.WindowKeepsPrefix | src/utils/script_metadata.py:69-70 | text with no carriage return that fits in the 2000 characters is read whole, followed by as much of the rest as fits |
| ScriptMetadata.MatchHeaderLine | src/utils/script_metadata.py:73-85 | a header line `marker KEY: value` matches its own key, with the value minus its leading blanks as the group |
| ScriptMetadata.OtherKeyNoMatch | src/utils/script_metadata.py:73-85 | a header line does not match a key that differs from its own |
| ScriptMetadata.NoMarkerInsideLine | src/utils/script_metadata.py:72-85 | inside a header line whose value holds no marker, no later position starts a marker |
| ScriptMetadata.SearchSkipsPrefix | src/utils/script_metadata.py:87-107 | a prefix where no position matches does not change what the search finds |
| ScriptMetadata.SearchPastHeader | src/utils/script_metadata.py:87-107 | the search for one key passes over a header line written for another |
| ScriptMetadata.SearchAtHeader | src/utils/script_metadata.py:87-107 | the search for a key stops at the first header line written for it |
| ScriptRunner.Command | src/utils/script_runner.py:11-57 | a process is spawned exactly for the five script types minus `.exe` undo; the vector is the launcher, the path and the type's undo argument when undoing; only batch files use the shell; the refusals carry their messages |
| ScriptRunner.UndoExtendsRun | src/utils/script_runner.py:14-32 | the undo vector is the run vector plus exactly one trailing argument, with the same shell flag |
| ScriptRunner.AdminCall | src/utils/script_runner.py:59-94 | the elevation request exists exactly when a plain launch would; `.ps1` elevates `powershell` and `.py` the interpreter; batch files and executables elevate the path with a parameter only for undo; `.ps1`/`.py` parameters end with the quoted path and the undo flag |
| ScriptRunner.RunScriptAsAdmin | src/utils/script_runner.py:96-110 | the result is true exactly when the type is launchable, it is not `.exe` undo, and `ShellExecuteW` does not raise |
| ScriptRunner.AdminUndoExtendsRun | src/utils/script_runner.py:69-94 | the elevated undo request differs from the plain one only by its undo parameter |
| ScriptRunner.AdminAgreesWithRun | src/utils/script_runner.py:41-105 | the elevated and the plain launcher accept exactly the same type and undo combinations, and elevate the program the plain run starts; the `.ps1`/`.py` parameters are the plain run's other arguments joined by spaces with the path quoted, and a batch file's or executable's parameter is its plain argument |
| ScriptRunner.PowerShellArgs | src/utils/script_runner.py:69-77 | the `.ps1` parameters are `-ExecutionPolicy Bypass -File`, the quoted path and `-Undo` when undoing |
| ScriptRunner.PythonArgs | src/utils/script_runner.py:78-86 | the `.py` parameters are the quoted path and `--undo` when undoing |
| ScriptController.LStripDots | web_app/controllers/script_controller.py:35 | `lstrip(".")` removes exactly the leading dots |
| ScriptController.ListingMembers | web_app/controllers/script_controller.py:25-57 | the listing holds exactly one entry per regular file with a script extension, and nothing else |
| ScriptController.GetScriptsForWeb | web_app/controllers/script_controller.py:22-59 | the scripts are sorted by lower-cased name, are a permutation of the shown files, and scripts of equal lower-cased name keep their listing order; a listing that fails gives none |
| ScriptController.ListShown | web_app/controllers/script_controller.py:30-54 | the walk yields one record per regular file with a script extension, in listing order, and nothing for any other entry |
| ScriptController.RatingColumn | web_app/controllers/script_controller.py:38-50 | each record's rating is none without a rating system, and otherwise the system's average for the record's path and name |
| ScriptController.UndoGuardNeverFires | web_app/controllers/script_controller.py:70-77 | the parsed undoable value is always a non-empty string, so the undo guard never rejects |
| ScriptController.WebCommand | web_app/controllers/script_controller.py:89-110 | a command exists exactly for the five script types; an executable gets `[path]` plus `/undo` when undoing |
| ScriptController.WebAgreesWithDesktop | web_app/controllers/script_controller.py:89-105 | wherever the desktop launcher spawns, the web one builds the same vector |
| ScriptController.WebUndoesExecutables | web_app/controllers/script_controller.py:101-105 | the launchers differ in one place: the desktop refuses `.exe` undo, the web appends `/undo` |
| ScriptController.CollectOutput | web_app/controllers/script_controller.py:125-130 | the output holds every line, stripped, in arrival order |
| ScriptController.RunScriptWeb | web_app/controllers/script_controller.py:61-150 | the results for a missing file and an unsupported type, with no spawn; otherwise the spawned vector, with the shell exactly on Windows, the stripped output, success exactly for return code 0, the matching message, and the message of an exception |
| ScriptController.UndoableOf | src/utils/script_metadata.py:93-98 | a found UNDOABLE value reads as "Yes" exactly when it normalises to yes, true or 1 |
| ScriptController.ParseHeader | web_app/controllers/script_controller.py:152-247 | the parser reads a template header back: each field is the stripped value written, and UNDOABLE is "Yes" exactly when the flag was set |
| ScriptController.TemplateShape | web_app/controllers/script_controller.py:152-247 | every template for `.py`, `.ps1`, `.bat` or `.cmd` is its header followed by the type's body |
| ScriptController.TemplateRoundTrip | web_app/controllers/script_controller.py:152-247 | a script holding the template is parsed back to the stripped name, description, undo description, developer and link, with "Yes"/"No" matching the flag |
| ScriptController.WindowOfHeader | src/utils/script_metadata.py:69-70 | the characters read from a file that starts with a header that fits are that header followed by as much of the rest as fits |
| ScriptController.TemplateTypeNotExe | src/utils/script_metadata.py:63-67 | a file of a type that has a template never takes the executable branch |
| ScriptController.NoTemplateForOtherTypes | web_app/controllers/script_controller.py:246-247 | any other type gets the text "Unsupported script type" |
| CategoryController.KeepAllowed | web_app/controllers/category_controller.py:123 | the result is the allowed characters of the input, each once and in order; it holds only allowed characters and an already clean input is unchanged |
| CategoryController.Sanitize | web_app/controllers/category_controller.py:116-125 | a sanitised name is the allowed characters of the stripped name, in order: letters, digits, `_`, `-` and whitespace only, never longer than the input |
| CategoryController.SanitizeMembers | web_app/controllers/category_controller.py:116-125 | a character survives sanitising exactly when it is allowed and lies inside the stripped name |
| CategoryController.SanitizeKeepsCleanNames | web_app/controllers/category_controller.py:116-125 | a clean name with no surrounding whitespace is left unchanged |
| CategoryController.SanitizeTwice | web_app/controllers/category_controller.py:119-123 | sanitising a sanitised name only strips it again |
| CategoryController.SanitizeNotIdempotent | web_app/controllers/category_controller.py:119-123 | `"! a"` becomes `" a"`, which a second pass turns into `"a"` |
| CategoryController.CreateNewCategory | web_app/controllers/category_controller.py:90-114 | an empty sanitised name gives "Invalid category name"; an existing path gives "Category already exists"; otherwise the folder is created and the sanitised name returned, unless `makedirs` raises |
| CategoryController.CreateTwice | web_app/controllers/category_controller.py:100-105 | creating the same category a second time reports that it already exists |
| CategoryController.DetectCustomCategories | web_app/controllers/category_controller.py:35-52 | the result is sorted and is a permutation of the listed directories outside the defaults; a missing or unreadable base gives none |
| CategoryController.CustomMembers | web_app/controllers/category_controller.py:43-46 | a name is reported exactly when it is a listed directory not among the defaults |
| CategoryController.CountScripts | web_app/controllers/category_controller.py:67-75 | the count is the number of regular files with a script extension, compared lower-cased |
| CategoryController.GetCategoryInfo | web_app/controllers/category_controller.py:54-88 | the rows are sorted by name and are a permutation of one row per category; an error gives none |
| CategoryController.CategoryRows | web_app/controllers/category_controller.py:59-82 | each category appears once per occurrence, with its path and script count, and none is ever marked custom |
| GitHubController.ParseRepoUrl | web_app/controllers/github_controller.py:40-62 | no `github.com` segment gives the format message; with the first one at index k, no segment after it gives "Username not found", one gives "Repository name not found", and otherwise the user and repository are segments k+1 and k+2 |
| GitHubController.Segments | web_app/controllers/github_controller.py:43 | `rstrip('/').split('/')` gives at least one segment, none holding a `/` |
| GitHubController.ParseCanonical | web_app/controllers/github_controller.py:43-62 | `https://github.com/<user>/<repo>[tail]` parses to that user and repository |
| GitHubController.TreeRefAsWritten | web_app/controllers/github_controller.py:64-75 | without `/tree/` the given branch and no directory; otherwise the text after the first `/tree/` anywhere in the URL is the branch alone when it holds no `/`, and branch, `/`, directory when it does |
| GitHubController.TreeRef | web_app/controllers/github_controller.py:66-75 | the branch is the default or a segment of the URL |
| GitHubController.TreeRefCanonical | web_app/controllers/github_controller.py:66-75 | for `.../<user>/<repo>/tree/<branch>[/<dir>]`, the corrected reading gives those branch and directory segments |
| GitHubController.TreeRefPlainUrl | web_app/controllers/github_controller.py:64-75 | a URL with nothing after the repository gives the default branch and no directory |
| GitHubController.TreeRefMisreadsTreeRepository | web_app/controllers/github_controller.py:67-75 | for a repository named `tree`, the code as written takes the repository name as the branch |
| GitHubController.ApiUrlSegments | web_app/controllers/github_controller.py:78 | the archive URL is `https://api.github.com/repos/<user>/<repo>/zipball/<branch>` |
| GitHubController.ApiUrl | web_app/controllers/github_controller.py:78 | the archive URL starts with the API host, `repos/` and the user, and ends with the repository, `zipball` and the branch |
| GitHubController.ValidUrlParses | web_app/controllers/github_controller.py:223-249 | every URL the validation pattern accepts parses to the user and repository segments it matched |
| GitHubController.ValidRepoUrl | web_app/controllers/github_controller.py:223-227 | only a URL that starts with `https://github.com/` or `http://github.com/` is accepted |
| GitHubController.RepoPrefix | web_app/controllers/github_controller.py:246-263 | the default repository has no prefix; any other prefix ends with `-` |
| GitHubController.PrefixOfParsed | web_app/controllers/github_controller.py:246-263 | the prefix is empty for `itsmikethetech/WinPick-Scripts` in any case, and otherwise `<user>-<repo>-` lower-cased |
| GitHubController.DefaultRepoAnyCase | web_app/controllers/github_controller.py:250-257 | the default repository is recognised whatever the case of its name |
| GitHubController.PrefixOfCanonical | web_app/controllers/github_controller.py:250-257 | a non-default repository gets the prefix `<user>-<repo>-` lower-cased |
| GitHubController.PrefixCollision | web_app/controllers/github_controller.py:257 | `a-b/c` and `a/b-c` get the same prefix |
| GitHubController.DestName | web_app/controllers/github_controller.py:337-341 | the destination name is the prefix followed by the file's name |
| GitHubController.DestNameKeepsType | web_app/controllers/github_controller.py:337-341 | prefixing a script's name keeps its extension |
| GitHubController.CopyScripts | web_app/controllers/github_controller.py:323-355 | the loop copies exactly the script files, in walk order, and counts them |
| GitHubController.CopyScriptsToCategory | web_app/controllers/github_controller.py:321-366 | the returned count equals the number of copies, one per script file of the tree |
| GitHubController.CopyWithStructure | web_app/controllers/github_controller.py:368-446 | as written: with no extracted entry nothing is copied; otherwise only the walk from the first entry is copied |
| GitHubController.FirstFolderOnly | web_app/controllers/github_controller.py:380-390 | when the first entry is a folder, a script outside it makes the copy miss at least one script |
| GitHubController.CopyTreeWithStructure | web_app/controllers/github_controller.py:368-446 | every script of the tree is copied under its relative directory, and the count equals the number of scripts |
| GitHubController.CopiedAreScripts | web_app/controllers/github_controller.py:370-435 | a destination is copied exactly when it comes from a script file of the tree |
| GitHubController.DownloadRepositoryWeb | web_app/controllers/github_controller.py:28-195 | as written, with the branch and directory of `TreeRefAsWritten`: an unparsable URL requests nothing; the archive URL uses that branch; success exactly for status 200 with extracted files; only the script files under that directory are copied |
| GitHubController.DownloadWithRef | web_app/controllers/github_controller.py:28-195 | for a given branch and directory: nothing requested for an unparsable URL; the archive URL of that branch; success exactly for status 200 with extracted files; the copies are the script files of the walk under the directory |
| GitHubController.DownloadRepositoryFixed | web_app/controllers/github_controller.py:28-195 | the same download with the branch and directory read by the corrected `TreeRef` |
| GitHubController.RepoRefusal | web_app/controllers/github_controller.py:219-279 | an empty URL, a URL the pattern rejects and a failed download give their messages, in that order; there is no refusal exactly for a valid URL that downloaded |
| GitHubController.DownloadScriptsFromRepoWeb | web_app/controllers/github_controller.py:205-319 | as written: the refusals of `RepoRefusal`; success exactly for a valid URL that downloaded, with the number copied in the message; with structure kept only the walk of the first extracted entry is copied, otherwise every script flat, with the repository's prefix |
| GitHubController.DownloadScriptsFromRepoFixed | web_app/controllers/github_controller.py:205-319 | with the whole tree walked: the same refusals, and on success every script of the tree copied, with or without its folders, and the message counting all of them |
| GitHubDownloader.Step | src/utils/github_downloader/github_downloader.py:125-155 | one file: nothing changes after a cancel; both flags are sticky; the dialog is asked only for an existing file with neither flag set; at most this file is copied |
| GitHubDownloader.Run | src/utils/github_downloader/github_downloader.py:110-153 | the loop over the destinations: nothing changes after a cancel; both flags are sticky; the copied list grows by at most one entry per destination |
| GitHubDownloader.RunExtendsCopied | src/utils/github_downloader/github_downloader.py:110-153 | the loop only appends to the copied list, and only destinations of the walk |
| GitHubDownloader.NewFileCopied | src/utils/github_downloader/github_downloader.py:150-155 | a destination that does not exist is always copied, whatever the flags |
| GitHubDownloader.DialogDecides | src/utils/github_downloader/github_downloader.py:125-144 | with neither flag set, an existing file is asked about; it is copied exactly for overwrite and overwrite-all, and the flags and cancel follow the answer |
| GitHubDownloader.OverwriteAllCopies | src/utils/github_downloader/github_downloader.py:145-149 | after overwrite-all every file is copied without asking |
| GitHubDownloader.SkipAllSkips | src/utils/github_downloader/github_downloader.py:150-153 | after skip-all an existing file is neither copied nor asked about |
| GitHubDownloader.CancelStops | src/utils/github_downloader/github_downloader.py:142-144 | after a cancel the remaining files are untouched |
| GitHubDownloader.FlagsSticky | src/utils/github_downloader/github_downloader.py:108-140 | neither flag is ever reset, and they never become true together |
| GitHubDownloader.FlagsExclusive | src/utils/github_downloader/github_downloader.py:108-140 | from the start state, at most one of overwrite-all and skip-all ever holds |
| GitHubDownloader.OverwriteAllCopiesRest | src/utils/github_downloader/github_downloader.py:145-149 | once overwrite-all is set, every later file is copied and no question is asked |
| GitHubDownloader.SkipAllCopiesOnlyNew | src/utils/github_downloader/github_downloader.py:150-153 | once skip-all is set, no question is asked and only files that did not exist are copied |
| GitHubDownloader.NoDialogWithoutClash | src/utils/github_downloader/github_downloader.py:125-155 | distinct new destinations are all copied without any question |
| GitHubDownloader.DownloadRepository | src/utils/github_downloader/github_downloader.py:35-168 | the messages for a bad URL, a failed request, an empty archive and a missing directory; otherwise the loop copies as the decision steps say, fails only on cancel, and reports the number copied |
| GitHubDownloader.CopyFiles | src/utils/github_downloader/github_downloader.py:110-153 | the files copied and whether the user cancelled are exactly those of running the decision steps over the destinations of the walk, from no flags and the existing files |
| GitHubDownloader.CopyOne | src/utils/github_downloader/github_downloader.py:121-153 | one destination moves the flags, dialog count, existing files, copied list and cancel flag exactly as the decision step `Step` says |
| RatingSystem.ScriptIdIgnoresFolder | src/utils/rating_system.py:59-63 | the script id depends on the name and the file name only, not on the folder |
| RatingSystem.ScriptId | src/utils/rating_system.py:59-63 | the id is the name, an underscore, then the base name of the path |
| RatingSystem.ScriptIdCollision | src/utils/rating_system.py:59-63 | name `a_b` with file `c` and name `a` with file `b_c` get the same id |
| RatingSystem.Title | src/utils/rating_system.py:183 | the title is `"Script Rating: <id> - "` followed by the rating text and `/5` |
| RatingSystem.DecodeRating | src/utils/rating_system.py:127-131 | a rating is decoded only from a title where some `/5` follows a digit |
| RatingSystem.DigitRun | src/utils/rating_system.py:127-131 | the greedy `\d+` run: every character in it is a digit and the next one is not |
| RatingSystem.DecodeFinds | src/utils/rating_system.py:127-131 | a rating is decoded exactly when some position holds `<digits>/5` |
| RatingSystem.TitleRoundTrip | src/utils/rating_system.py:127-133 | for an id without `/` and a whole rating 1 to 5, the title `"Script Rating: <id> - <n>/5"` decodes back to that rating |
| RatingSystem.FloatTitleReadsZero | web_app/controllers/rating_system_web.py:185 | a title written with `4.0/5` decodes as 0 |
| RatingSystem.LatestIsFirstNewest | src/utils/rating_system.py:117-120 | the selected issue has the greatest `created_at` and no earlier issue has it too |
| RatingSystem.FirstNewestUnique | src/utils/rating_system.py:117-120 | exactly one index is the first newest issue |
| RatingSystem.Latest | src/utils/rating_system.py:117-120 | the selection ends on an index of the list; `LatestIsFirstNewest` says which |
| RatingSystem.LatestIssue | src/utils/rating_system.py:117-120 | the loop returns the first issue with the greatest `created_at` |
| RatingSystem.Lookup | src/utils/rating_system.py:65-152 | `get_rating` touches no other script's cache entry, and either leaves the cache alone or stores the result with the current time |
| RatingSystem.NoIssuesCachesNone | src/utils/rating_system.py:108-113 | a search that finds no issue returns none and caches none for the script with the current time |
| RatingSystem.FreshHit | src/utils/rating_system.py:80-82 | a fresh, unforced cache entry is returned as it is, and nothing changes |
| RatingSystem.StoredStaysFresh | src/utils/rating_system.py:80-82 | a value stored less than 1800 seconds ago is returned by an unforced lookup |
| RatingSystem.OfflineReadsCache | src/utils/rating_system.py:85-104 | unauthenticated or after a failed search the cache is unchanged and the cached value (or none) is returned |
| RatingSystem.RefreshReadsNewest | src/utils/rating_system.py:109-131 | a refresh reads the newest issue's rating; with no rating in its title it returns none and leaves the cache unchanged |
| RatingSystem.IssueBody | web_app/controllers/rating_system_web.py:188-192 | the body starts with the comment or "No comment provided." and ends with the date line |
| RatingSystem.Submit | src/utils/rating_system.py:154-227 | success exactly when authenticated, the rating is from 1 to 5, GitHub created the issue and a login is known (or on the web handler); success stores the rating, comment, user, time, URL and number with the current time; no other script's entry changes |
| RatingSystem.PostedRequest | src/utils/rating_system.py:167-191 | an issue is posted exactly when the user is signed in and the rating is from 1 to 5 |
| RatingSystem.Recorded | src/utils/rating_system.py:202-220 | the cache is updated exactly for a posted request that GitHub created and a known user, and then holds the submitted rating for the script |
| RatingSystem.SubmitRejects | src/utils/rating_system.py:167-172 | unauthenticated or out-of-range submissions post nothing and change nothing |
| RatingSystem.SubmitThenGet | web_app/controllers/rating_system_web.py:211-226 | within 1800 seconds of a successful submission, a lookup returns its rating and comment, and the login or "Unknown" |
| RatingSystem.PostedTitleReadsBack | src/utils/rating_system.py:183 | the posted title decodes to the whole rating submitted, or 0 for a float rating |
| RatingSystem.CollectRatings | src/utils/rating_system.py:265-271 | the loop collects the decoded rating of every issue that has one, in order |
| RatingSystem.AverageOf | src/utils/rating_system.py:229-283 | without an account, the cached rating when one is cached and nothing otherwise; with one, nothing when the search fails, and a mean only over a successful search, of at least one and at most all issues' ratings |
| RatingSystem.MeanOfEveryRating | src/utils/rating_system.py:265-279 | the averaged ratings are exactly those decoded from the issue titles, each as many times as there are issues whose title gives it |
| RatingSystem.NoRatedIssueNoMean | src/utils/rating_system.py:265-283 | when no title found carries a rating, there is no average |
| RatingSystem.CachedNoneGivesNothing | web_app/controllers/rating_system_web.py:240-244 | offline, a cached none gives no average |
| RatingSystem.RatingStore.constructor | src/utils/rating_system.py:19-45 | the caches start as loaded from the cache file, or empty |
| RatingSystem.RatingStore.GetRating | src/utils/rating_system.py:65-152 | the result and the new caches are those of `Lookup` |
| RatingSystem.RatingStore.SubmitRating | src/utils/rating_system.py:154-227 | the result, the request and the new caches are those of `Submit` |
| RatingSystem.RatingStore.GetAverageRating | src/utils/rating_system.py:229-283 | the result is `AverageOf` the current caches |
| GitHubAuthWeb.PollFrom | web_app/controllers/github_auth_web.py:153-214 | the polling ends at the first round that is out of time, gets a token, or gets an error other than pending or slow_down; every earlier round was in time and kept polling |
| GitHubAuthWeb.AuthorizedIff | web_app/controllers/github_auth_web.py:171-189 | polling succeeds exactly when a token arrives in time after replies that all keep it going |
| GitHubAuthWeb.IntervalNeverDecreases | web_app/controllers/github_auth_web.py:190-192 | slow_down adds 5 and nothing else changes the interval, so it never decreases |
| GitHubAuthWeb.Slept | web_app/controllers/github_auth_web.py:206-210 | round `j` sleeps the interval as the first `j+1` replies left it |
| GitHubAuthWeb.SleepsGrowBySlowDown | web_app/controllers/github_auth_web.py:190-210 | consecutive sleeps grow by exactly 5 after a slow_down and stay equal otherwise |
| GitHubAuthWeb.IntervalOf | web_app/controllers/github_auth_web.py:143 | the polling interval is the reply's, or 5 seconds when it has none |
| GitHubAuthWeb.ExpiresOf | web_app/controllers/github_auth_web.py:144 | the code's lifetime is the reply's, or 900 seconds when it has none |
| GitHubAuthWeb.GitHubAuthHandlerWeb.constructor | web_app/controllers/github_auth_web.py:19-58 | a cached token is kept only when it is set and the account lookup succeeds |
| GitHubAuthWeb.GitHubAuthHandlerWeb.GetUserInfo | web_app/controllers/github_auth_web.py:75-95 | no lookup without a token; a successful lookup is remembered |
| GitHubAuthWeb.GitHubAuthHandlerWeb.IsAuthenticated | web_app/controllers/github_auth_web.py:108-110 | true exactly when a token is set and the lookup succeeds |
| GitHubAuthWeb.GitHubAuthHandlerWeb.PollForToken | web_app/controllers/github_auth_web.py:153-214 | success exactly when `PollFrom` authorizes, in which case the token is stored; the sleeps are `Slept`; otherwise the fields are unchanged |
| GitHubAuthWeb.GitHubAuthHandlerWeb.Authenticate | web_app/controllers/github_auth_web.py:112-151 | true at once, with no sleep, when signed in; false when the device request fails; otherwise the poll's outcome, sleeping the `Slept` intervals from the reply's interval; on success the token is the polled one and the account details are looked up with it, on failure token and account details are unchanged |
| GitHubAuthWeb.GitHubAuthHandlerWeb.Logout | web_app/controllers/github_auth_web.py:216-229 | the token and the account details are cleared, and the result is true |
| GitHubAuth.RoundStatus | src/utils/github_auth.py:303-343 | a round changes the status only while the dialog shows one, and a reply with no verdict leaves it alone |
| GitHubAuth.StatusAfter | src/utils/github_auth.py:300-343 | without a dialog the rounds never set a status |
| GitHubAuth.MessageNamesOutcome | src/utils/github_auth.py:297-351 | equal final messages mean the same kind of outcome |
| GitHubAuth.KindsDiffer | src/utils/github_auth.py:297-351 | success, refusal and time-out messages can be told apart by their first characters |
| GitHubAuth.RefusalInjective | src/utils/github_auth.py:315-338 | different refusing errors give different messages |
| GitHubAuth.RefusalHead | src/utils/github_auth.py:315-338 | a refusal message starts with `E` exactly for errors other than expired_token and access_denied |
| GitHubAuth.EndStatus | src/utils/github_auth.py:267-354 | without a dialog there is no status; the success flag is set only by an authorization |
| GitHubAuth.GitHubAuthHandler.constructor | src/utils/github_auth.py:19-59 | a cached token is kept only when it is set and the lookup succeeds |
| GitHubAuth.GitHubAuthHandler.GetUserInfo | src/utils/github_auth.py:77-97 | no lookup without a token; a successful lookup is remembered; the dialog state is untouched |
| GitHubAuth.GitHubAuthHandler.IsAuthenticated | src/utils/github_auth.py:99-101 | true exactly when a token is set and the lookup succeeds |
| GitHubAuth.GitHubAuthHandler.ShowDeviceCodeDialog | src/utils/github_auth.py:183-265 | the dialog opens with "Waiting for authentication..." and the success flag cleared |
| GitHubAuth.GitHubAuthHandler.PollForToken | src/utils/github_auth.py:267-354 | the same outcome and sleeps as the web handler's polling, plus the status text and success flag given by `EndStatus` |
| GitHubAuth.GitHubAuthHandler.PollRounds | src/utils/github_auth.py:280-347 | the rounds end as `PollFrom` says, sleeping the `Slept` intervals, with the status line updated after each round that keeps polling and the other fields unchanged |
| GitHubAuth.GitHubAuthHandler.ShowWelcome | src/utils/github_auth.py:296-298 | the status becomes "Authentication successful! Welcome, <login>." and the success flag is set |
| GitHubAuth.GitHubAuthHandler.ShowRound | src/utils/github_auth.py:303-343 | the status after one round is `RoundStatus` |
| GitHubAuth.GitHubAuthHandler.ShowEnd | src/utils/github_auth.py:315-351 | a refusal or time-out message replaces a shown status |
| GitHubAuth.GitHubAuthHandler.Authenticate | src/utils/github_auth.py:103-181 | true at once when signed in; false when the prompt is declined or the device request fails; with a parent window true once polling starts; without one the poll's outcome and the `Slept` intervals from the reply's interval, the polled token on success, token and account details unchanged on failure, and the final status and success flag given by `EndStatus`; no sleep in any other case |
| GitHubAuth.GitHubAuthHandler.Logout | src/utils/github_auth.py:356-369 | the token and account details are cleared, and the result is true |
| DependencyManager.RunEnd | src/utils/dependency_manager.py:42-43 | a greedy run of a character class: all of it is in the class and the next character is not |
| DependencyManager.LastIn | src/utils/dependency_manager.py:42 | backtracking into `\s+`: the last class character before a bound, or none |
| DependencyManager.MatchImportAt | src/utils/dependency_manager.py:42 | an `import` match consumes input and captures a non-empty run of the class |
| DependencyManager.ImportCaptures | src/utils/dependency_manager.py:42 | every `findall` capture is non-empty and made of class characters |
| DependencyManager.MatchFromAt | src/utils/dependency_manager.py:43 | a `from ... import` match captures a non-empty dotted name |
| DependencyManager.FromCaptures | src/utils/dependency_manager.py:43 | every `from` capture is a non-empty dotted name |
| DependencyManager.MissingAmong | src/utils/dependency_manager.py:62-76 | the reported modules are collected, not built in, and fail to import |
| DependencyManager.AddNames | src/utils/dependency_manager.py:47-60 | the loop adds exactly the top-level names of the items to the set |
| DependencyManager.TopName | src/utils/dependency_manager.py:48-54 | an `import` item contributes a name with no `.` |
| DependencyManager.CaptureNames | src/utils/dependency_manager.py:48-54 | a capture contributes one name per comma-separated item, none holding a `.` |
| DependencyManager.FromName | src/utils/dependency_manager.py:57-60 | a `from` capture contributes its leading part before any `.`, or itself when it has none |
| DependencyManager.ImportNames | src/utils/dependency_manager.py:45-54 | every name collected from `import` lines comes from an item of one of the captures |
| DependencyManager.ModulesIn | src/utils/dependency_manager.py:45-60 | every module collected from a source is a top-level name, with no `.` |
| DependencyManager.CollectModules | src/utils/dependency_manager.py:45-60 | the set is the names from `import` captures plus those from `from` captures |
| DependencyManager.CheckModules | src/utils/dependency_manager.py:62-76 | an import that raises anything other than ImportError propagates; otherwise each missing, non-built-in module is listed exactly once |
| DependencyManager.DetectPythonDependencies | src/utils/dependency_manager.py:26-76 | as written, with the line feed in the `import` class: a non-`.py` path or unreadable file gives nothing; otherwise the check of the modules the source names |
| DependencyManager.DetectWithClass | src/utils/dependency_manager.py:26-76 | for a given `import` capture class: a non-`.py` path or unreadable file gives nothing; an import raising something else propagates exactly when some such module exists; otherwise each missing, non-built-in module of the source once |
| DependencyManager.DetectPythonDependenciesFixed | src/utils/dependency_manager.py:26-76 | the same detection with the class kept off the line feed, so that no reported name spans two lines |
| DependencyManager.AliasAndSubmoduleDropped | src/utils/dependency_manager.py:48-54 | `a.b as c` contributes just `a` |
| DependencyManager.TwoItems | src/utils/dependency_manager.py:48 | a capture is split on commas, each item giving its own name |
| DependencyManager.FromTopLevel | src/utils/dependency_manager.py:57-60 | `from x.y import` contributes `x` |
| DependencyManager.ExcludedNeverReported | src/utils/dependency_manager.py:66-69 | the 16 built-in names are never reported or probed |
| DependencyManager.NoNameSpansLines | src/utils/dependency_manager.py:42 | with the class kept off the newline, no reported name spans two lines |
| DependencyManager.PlainCaptureName | src/utils/dependency_manager.py:48-54 | a plain module name is reported as itself |
| DependencyManager.ImportRunsAcrossLines | src/utils/dependency_manager.py:42 | as written, `import os\nx` captures `os\nx` |
| DependencyManager.ReportedAcrossLines | src/utils/dependency_manager.py:42-54 | as written, `import os\nx` yields the single name `os\nx` instead of `os` |
| DependencyManager.ImportStaysOnLine | src/utils/dependency_manager.py:42 | with the class kept off the newline, `import os\nx` captures `os` |
| DependencyManager.MatchModuleAt | src/utils/dependency_manager.py:94 | an `Import-Module` match, case-insensitive, captures a non-empty module name |
| DependencyManager.ModuleCaptures | src/utils/dependency_manager.py:94 | every capture is a non-empty run of module-name characters |
| DependencyManager.ModuleCapturesNext | src/utils/dependency_manager.py:94 | `findall` from a position: the first capture comes from the leftmost match, and the rest from where that match ends |
| DependencyManager.ModuleCapturesNone | src/utils/dependency_manager.py:94 | there is no capture exactly when no position starts a match |
| DependencyManager.PowerShellDependencies | src/utils/dependency_manager.py:78-95 | a non-`.ps1` path or an unreadable file gives nothing |
| DependencyManager.ModuleNameStripped | src/utils/dependency_manager.py:95 | stripping a captured module name changes nothing |
| DependencyManager.PowerShellNamesAsCaptured | src/utils/dependency_manager.py:83-95 | the result is every capture, in source order |
| DependencyManager.DuplicatesKept | src/utils/dependency_manager.py:94-95 | a module imported twice, in different case, is listed twice |
| ConsoleView.TagOf | src/ui/ui_components/console_view.py:201-212 | a line's tag is the first in the order error, warning, success, info, cmd, header whose condition holds, and none when none holds |
| ConsoleView.Keeps | src/ui/ui_components/console_view.py:159-171 | only "Errors", "Warnings" and "Info" keep a line |
| ConsoleView.Kept | src/ui/ui_components/console_view.py:159-171 | the kept lines are no more than the lines, and each passes the filter |
| ConsoleView.Shown | src/ui/ui_components/console_view.py:159-171 | the text written back is empty exactly when no line is kept, and otherwise ends with a newline |
| ConsoleView.Filtered | src/ui/ui_components/console_view.py:156-171 | "All" leaves the text unchanged; any other filter leaves text that is empty or ends with a newline |
| ConsoleView.ShownSnoc | src/ui/ui_components/console_view.py:159-171 | each line adds its own text and a newline when kept, and nothing otherwise |
| ConsoleView.KeptExactly | src/ui/ui_components/console_view.py:159-171 | a line is kept exactly when it is among the lines and the filter accepts it |
| ConsoleView.ShownLines | src/ui/ui_components/console_view.py:159-171 | the filtered text splits back into exactly the kept lines, in order, then the empty rest |
| ConsoleView.FilteredLines | src/ui/ui_components/console_view.py:156-171 | for every filter but "All", the new console lines are the kept lines of the old content |
| ConsoleView.InfoIsTheRest | src/ui/ui_components/console_view.py:163-168 | "Info" keeps exactly the lines that neither "Errors" nor "Warnings" keeps |
| ConsoleView.ErrorsAreErrorTagged | src/ui/ui_components/console_view.py:163-202 | "Errors" keeps exactly the lines highlighted as errors |
| ConsoleView.PrevPosition | src/ui/ui_components/console_view.py:458-462 | Up moves one step back while older entries remain, and stays within the history |
| ConsoleView.NextPosition | src/ui/ui_components/console_view.py:471-478 | Down moves one step forward, down to -1 |
| ConsoleView.NextUndoesPrev | src/ui/ui_components/console_view.py:461-479 | Down undoes the move of an Up that moved |
| ConsoleView.EntryAt | src/ui/ui_components/console_view.py:456-481 | position -1 shows an empty entry, position 0 the newest command, and any other position a command of the history |
| ConsoleView.UpWalksBackInTime | src/ui/ui_components/console_view.py:461-464 | pressing Up `k` times from the empty entry reaches position `k-1`, and stops at the oldest entry |
| ConsoleView.ConsoleView.constructor | src/ui/ui_components/console_view.py:357-358 | the history is empty and the position is -1 |
| ConsoleView.ConsoleView.Highlight | src/ui/ui_components/console_view.py:191-212 | every line of the text gets `TagOf` that line |
| ConsoleView.ConsoleView.ApplyConsoleFilter | src/ui/ui_components/console_view.py:145-174 | the text becomes `Filtered` of the old text, and is unchanged for "All"; the lines are tagged again |
| ConsoleView.FilterLines | src/ui/ui_components/console_view.py:159-171 | the text written back is `Shown`: exactly the kept lines, in order, each followed by a newline |
| ConsoleView.ShowLine | src/ui/ui_components/console_view.py:161-168 | a line is written back exactly when the filter `Keeps` it |
| ConsoleView.ConsoleView.HistoryPrev | src/ui/ui_components/console_view.py:456-467 | the position moves by `PrevPosition`, and the entry shows that history entry, newest first |
| ConsoleView.ConsoleView.HistoryNext | src/ui/ui_components/console_view.py:469-481 | the position moves by `NextPosition`; the entry shows that history entry, or is cleared at -1 |
| WebApp.Tail | web_app/app.py:200 | `s[-n:]`: the last `n` elements, or all when there are fewer |
| WebApp.Stamped | web_app/app.py:87-90 | an entry is `[<timestamp>] ` followed by the message |
| WebApp.CapturedAll | web_app/app.py:87-92 | after at least one capture the buffer is non-empty, within 500 entries, and ends with the last message stamped |
| WebApp.TailOfTail | web_app/app.py:87-92 | trimming after each append keeps the same entries as trimming once |
| WebApp.CapturesKeepNewest | web_app/app.py:87-92 | any number of captures leaves exactly the newest 500 stamped entries of everything appended, in order |
| WebApp.RunKeepsNewest | web_app/app.py:87-92 | a buffer within the bound, after the run's captures, holds the newest entries of everything appended |
| WebApp.ConsoleBuffer.constructor | web_app/app.py:84 | the buffer starts empty |
| WebApp.ConsoleBuffer.Capture | web_app/app.py:87-94 | `"[<timestamp>] <message>"` becomes the last entry; the oldest are dropped down to 500; the message is logged exactly when it mentions ERROR or WARNING |
| WebApp.ConsoleBuffer.Report | web_app/app.py:97-99 | the message is captured behind its level's prefix, and flashed with its category unless it is console-only |
| WebApp.ConsoleBuffer.Clear | web_app/app.py:362-367 | the buffer holds exactly the stamped "Console cleared." |
| WebApp.ConsoleBuffer.RunScript | web_app/app.py:186-202 | "not found" exactly for a missing path; otherwise the undo flag is `undo == 'true'`, the run's messages are captured, and the reply carries the run's result and the last 10 entries |
| WebApp.ScriptFileName | web_app/app.py:224 | the file name ends with the type, and is the name itself or the name plus the type |
| WebApp.FileNameIdempotent | web_app/app.py:224 | naming a file that already carries the type changes nothing |
| WebApp.CreateScript | web_app/app.py:204-240 | a missing name, category or type makes no folder and writes nothing; a failing `open` writes nothing; a failing write leaves an empty file; missing content writes an empty file and flashes the `write()` error; otherwise the content is written at category/file name with the success flash; the form is shown again exactly for an error |

## Left out

- File, network and process effects are inputs or results of the model: reads, directory walks, copies, `makedirs`, HTTP requests, `Popen`, `ShellExecuteW` and the JSON cache and token files.
- Threads and the Tk/Flask presentation: the polling thread, the output-reader threads, dialogs, widgets, the 2-second dialog close after sign-in and the rendering of routes.
- Text-mode decoding with `errors='ignore'` is not modelled; the source text is given as characters.
- Unicode in regular expressions: `\d` and `\w` are taken as ASCII. `lower()` is exact on ASCII and on the Kelvin sign, and the identity elsewhere. IGNORECASE matching does include the special case-folding pairs of `i`, `s` and `k`.
- Python `set` iteration order: DependencyManager.CheckModules may list the missing modules in any order. The model states the set they form and that none repeats.
- Floating point: the average is stated as the list of ratings it is taken over; `round(..., 1)`, star rendering and progress percentages are not modelled. A float rating is modelled only in its whole-number form (`4.0`); the model assumes the rating reaches `submit_rating` as a whole number of stars, which the web form template (not part of this model) would have to ensure.
- The desktop handler's "User" fallback login in the welcome message is not modelled; the login is an input.
- The path highlighting of the console (two `finditer` patterns per line) is not modelled; only the line tags are.
- Tk's implicit trailing newline in the console text is not modelled: `ConsoleView.text` is what `get(1.0, END)` returns.
- `clear_history` in the console view is not modelled. It empties the history without resetting the position. Nothing in the source appends to the history.
- `check_and_create_directories`, `get_username` and the token-cache writes are thin wrappers over the file system and are not modelled.
- The `run_script_web` messages sent through the output callback are an input of WebApp.ConsoleBuffer.RunScript; their exact text is not modelled.
- The `rate_script` route's float parsing and range check are not modelled; RatingSystem.Submit states the range check.
- Common.JoinPath: `os.path.join` is modelled for a second argument that is a plain relative name. An absolute or drive-qualified second argument, which makes `os.path.join` discard the first, is not modelled.
- WebApp.CreateScript: an absolute or drive-qualified category or file name from the form would, in the source, put the file outside the scripts folder. The model always puts it under the scripts folder, because of the JoinPath limit above.
- GitHubAuthWeb.GitHubAuthHandlerWeb.PollForToken and GitHubAuth.GitHubAuthHandler.PollForToken require the clock readings to run past the deadline. This stands in for real time always advancing.

## Findings

| source | as written | input that shows it | evidently intended | confidence | as-written member | corrected member |
|---|---|---|---|---|---|---|
| web_app/controllers/github_controller.py:67-75 | the branch is read after the first `/tree/` anywhere in the URL | `https://github.com/u/tree/tree/main` gives branch `tree` and directory `main` | the branch is the segment after the `tree` segment that follows user and repository | not executed | GitHubController.TreeRefMisreadsTreeRepository | GitHubController.TreeRefCanonical |
| web_app/controllers/github_controller.py:380-390 | `_copy_with_structure` walks only the first listed entry of the temporary directory, which already holds the repository's folders | a tree with a script outside the first folder loses that script | every script of the temporary directory is copied with its folders | not executed | GitHubController.FirstFolderOnly | GitHubController.CopyTreeWithStructure |
| src/utils/dependency_manager.py:42 | the `import` capture class includes `\s`, so a capture runs over the newline into the next line | `import os\nx` reports the single module `os\nx` | each capture stays on its own line, giving `os` | not executed | DependencyManager.ReportedAcrossLines | DependencyManager.NoNameSpansLines |

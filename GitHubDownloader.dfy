/**
 * The desktop downloader (`src/utils/github_downloader/github_downloader.py`):
 * `download_repository` reads the owner and repository out of the URL,
 * requests the archive, and copies every file of the extracted tree into the
 * scripts directory. When a destination already exists it shows a dialog
 * whose answer decides that file; two answers also stick for the rest of the
 * download (`overwrite_all`, `skip_all`), and one stops it (`cancel`).
 *
 * The network, the archive and the file system are data: the status code
 * and text of the response, the names `os.listdir` returns for the
 * extraction directory, whether the requested directory exists, the files
 * `os.walk` visits, and the set of paths that exist before the copy. The
 * dialog is a function from the number of dialogs shown so far to the
 * button pressed (closing the window counts as `Cancel`).
 */
module GitHubDownloader {
  import opened Common
  import opened GitHubController

  /** The five buttons of `show_overwrite_dialog`; closing the window leaves the default, cancel. */
  datatype Answer = Overwrite | OverwriteAll | Skip | SkipAll | Cancel

  /**
   * Where the copy loop stands: the two sticky flags, how many dialogs were
   * shown, which paths exist, the destinations copied so far (so
   * `file_count` is their number), and whether the user cancelled.
   */
  datatype Progress = Progress(overwriteAll: bool, skipAll: bool, asked: nat,
                               existing: set<string>, copied: seq<string>, cancelled: bool)

  /** The state before the first file. */
  function Start(existing: set<string>): Progress {
    Progress(false, false, 0, existing, [], false)
  }

  /** `shutil.copy2(src_file, dest_file)` and `file_count += 1`. */
  function Copy(p: Progress, dest: string): Progress {
    p.(existing := p.existing + {dest}, copied := p.copied + [dest])
  }

  /**
   * One file of the loop. An existing destination with neither flag set
   * brings up the dialog; with `overwrite_all` it is copied; with `skip_all`
   * it is passed over; a destination that does not exist is copied. Nothing
   * happens once the user has cancelled.
   */
  function Step(p: Progress, dest: string, dialog: nat -> Answer): (q: Progress)
    ensures p.cancelled ==> q == p
    ensures p.overwriteAll ==> q.overwriteAll
    ensures p.skipAll ==> q.skipAll
    ensures q.asked == p.asked || (q.asked == p.asked + 1 && dest in p.existing && !p.overwriteAll && !p.skipAll)
    ensures q.copied == p.copied || q.copied == p.copied + [dest]
  {
    if p.cancelled then p
    else
      var clash := dest in p.existing;
      if clash && !p.overwriteAll && !p.skipAll then
        var shown := p.(asked := p.asked + 1);
        match dialog(p.asked)
        case Overwrite => Copy(shown, dest)
        case OverwriteAll => Copy(shown.(overwriteAll := true), dest)
        case Skip => shown
        case SkipAll => shown.(skipAll := true)
        case Cancel => shown.(cancelled := true)
      else if clash && p.overwriteAll then Copy(p, dest)
      else if !clash || p.skipAll then
        if !p.skipAll || !clash then Copy(p, dest) else p
      else p
  }

  /** The loop over the destinations of the walk, from state `p`. */
  function Run(dests: seq<string>, p: Progress, dialog: nat -> Answer): (q: Progress)
    ensures p.cancelled ==> q == p
    ensures p.overwriteAll ==> q.overwriteAll
    ensures p.skipAll ==> q.skipAll
    ensures |p.copied| <= |q.copied| <= |p.copied| + |dests|
    decreases |dests|
  {
    if dests == [] then p else Run(dests[1..], Step(p, dests[0], dialog), dialog)
  }

  /** The loop only appends to the copied list, and only destinations of the walk. */
  lemma {:induction false} RunExtendsCopied(dests: seq<string>, p: Progress, dialog: nat -> Answer)
    ensures var q := Run(dests, p, dialog);
            q.copied[..|p.copied|] == p.copied &&
            forall i :: |p.copied| <= i < |q.copied| ==> q.copied[i] in dests
    decreases |dests|
  {
    if dests != [] {
      var q := Step(p, dests[0], dialog);
      var r := Run(dests[1..], q, dialog);
      RunExtendsCopied(dests[1..], q, dialog);
      assert r.copied[..|p.copied|] == r.copied[..|q.copied|][..|p.copied|];
      forall i | |p.copied| <= i < |r.copied| ensures r.copied[i] in dests {
        if i < |q.copied| {
          assert r.copied[i] == q.copied[i] == dests[0];
        } else {
          assert r.copied[i] in dests[1..];
        }
      }
    }
  }

  // ---------------------------------------------------------------------
  // One file

  /** A destination that does not exist is copied, whatever the flags, and no dialog is shown. */
  lemma NewFileCopied(p: Progress, dest: string, dialog: nat -> Answer)
    requires !p.cancelled && dest !in p.existing
    ensures Step(p, dest, dialog) == Copy(p, dest)
  {
  }

  /** The dialog's answer for an existing destination when neither flag is set. */
  lemma DialogDecides(p: Progress, dest: string, dialog: nat -> Answer)
    requires !p.cancelled && dest in p.existing && !p.overwriteAll && !p.skipAll
    ensures var q := Step(p, dest, dialog);
            q.asked == p.asked + 1 &&
            (q.copied == p.copied + [dest] <==> dialog(p.asked) in {Overwrite, OverwriteAll}) &&
            (q.copied == p.copied <==> dialog(p.asked) in {Skip, SkipAll, Cancel}) &&
            (q.overwriteAll <==> dialog(p.asked) == OverwriteAll) &&
            (q.skipAll <==> dialog(p.asked) == SkipAll) &&
            (q.cancelled <==> dialog(p.asked) == Cancel)
  {
  }

  /** With `overwrite_all` set, an existing destination is copied without asking. */
  lemma OverwriteAllCopies(p: Progress, dest: string, dialog: nat -> Answer)
    requires !p.cancelled && p.overwriteAll
    ensures Step(p, dest, dialog) == Copy(p, dest)
  {
  }

  /** With `skip_all` set, an existing destination is neither copied nor asked about. */
  lemma SkipAllSkips(p: Progress, dest: string, dialog: nat -> Answer)
    requires !p.cancelled && p.skipAll && !p.overwriteAll && dest in p.existing
    ensures Step(p, dest, dialog) == p
  {
  }

  // ---------------------------------------------------------------------
  // The whole loop

  /** Once cancelled, the remaining files are left alone. */
  lemma {:induction false} CancelStops(dests: seq<string>, p: Progress, dialog: nat -> Answer)
    requires p.cancelled
    ensures Run(dests, p, dialog) == p
    decreases |dests|
  {
    if dests != [] {
      CancelStops(dests[1..], Step(p, dests[0], dialog), dialog);
    }
  }

  /** Neither flag is ever reset, and at most one of them is ever set. */
  lemma {:induction false} FlagsSticky(dests: seq<string>, p: Progress, dialog: nat -> Answer)
    ensures var q := Run(dests, p, dialog);
            (p.overwriteAll ==> q.overwriteAll) && (p.skipAll ==> q.skipAll) &&
            (!(p.overwriteAll && p.skipAll) ==> !(q.overwriteAll && q.skipAll))
    decreases |dests|
  {
    if dests != [] {
      FlagsSticky(dests[1..], Step(p, dests[0], dialog), dialog);
    }
  }

  /** The flags are never both set, starting from the initial state. */
  lemma FlagsExclusive(dests: seq<string>, existing: set<string>, dialog: nat -> Answer)
    ensures !(Run(dests, Start(existing), dialog).overwriteAll && Run(dests, Start(existing), dialog).skipAll)
  {
    FlagsSticky(dests, Start(existing), dialog);
  }

  /** After `overwrite_all`, every remaining file is copied, in order, and no dialog is shown. */
  lemma {:induction false} OverwriteAllCopiesRest(dests: seq<string>, p: Progress, dialog: nat -> Answer)
    requires p.overwriteAll && !p.cancelled
    ensures Run(dests, p, dialog).copied == p.copied + dests
    ensures Run(dests, p, dialog).asked == p.asked
    ensures !Run(dests, p, dialog).cancelled
    decreases |dests|
  {
    if dests != [] {
      var q := Step(p, dests[0], dialog);
      OverwriteAllCopiesRest(dests[1..], q, dialog);
      assert p.copied + dests == q.copied + dests[1..];
    }
  }

  /**
   * After `skip_all`, no dialog is shown and the download is not cancelled;
   * only files that did not exist are copied.
   */
  lemma {:induction false} SkipAllCopiesOnlyNew(dests: seq<string>, p: Progress, dialog: nat -> Answer)
    requires p.skipAll && !p.overwriteAll && !p.cancelled
    ensures var q := Run(dests, p, dialog);
            q.asked == p.asked && !q.cancelled &&
            |p.copied| <= |q.copied| && q.copied[..|p.copied|] == p.copied &&
            forall d :: d in q.copied[|p.copied|..] ==> d !in p.existing
    decreases |dests|
  {
    if dests != [] {
      var q := Step(p, dests[0], dialog);
      SkipAllCopiesOnlyNew(dests[1..], q, dialog);
      var r := Run(dests[1..], q, dialog);
      assert r == Run(dests, p, dialog);
      if q.copied != p.copied {
        assert dests[0] !in p.existing;
        assert q.existing == p.existing + {dests[0]};
      }
      forall d | d in r.copied[|p.copied|..] ensures d !in p.existing {
        var k :| |p.copied| <= k < |r.copied| && r.copied[k] == d;
        if k >= |q.copied| {
          assert d in r.copied[|q.copied|..];
        } else {
          assert q.copied == p.copied + [dests[0]] && k == |p.copied|;
        }
      }
    }
  }

  /** Every dialog shown concerns a file that existed at that point, so a download into empty ground asks nothing. */
  lemma {:induction false} NoDialogWithoutClash(dests: seq<string>, p: Progress, dialog: nat -> Answer)
    requires forall i, j :: 0 <= i < j < |dests| ==> dests[i] != dests[j]
    requires forall d :: d in dests ==> d !in p.existing
    ensures Run(dests, p, dialog).asked == p.asked
    ensures !p.cancelled ==> Run(dests, p, dialog).copied == p.copied + dests
    decreases |dests|
  {
    if dests != [] {
      var q := Step(p, dests[0], dialog);
      forall d | d in dests[1..] ensures d !in q.existing {
        var j :| 0 <= j < |dests[1..]| && dests[1..][j] == d;
        assert dests[0] != dests[j + 1];
      }
      NoDialogWithoutClash(dests[1..], q, dialog);
      assert p.copied + dests == (p.copied + [dests[0]]) + dests[1..];
    }
  }

  // ---------------------------------------------------------------------
  // download_repository

  const Cancelled := "Download cancelled by user."
  const NoFiles := "Extraction failed: No files found in the downloaded repository."

  /** Where a visited file goes: under its relative directory in the scripts directory, under its own name. */
  function Dest(baseDir: string): WalkFile -> string { StructuredDest(baseDir, "") }

  /** The folder that is walked: the first extracted entry, or the requested directory inside it. */
  function SourceFolder(extractDir: string, first: string, directory: string): string {
    var root := JoinPath(extractDir, first);
    if directory != "" then JoinPath(root, directory) else root
  }

  /**
   * `download_repository`. `directory` is `directory_path`, empty for none;
   * `status` and `text` describe the archive response; `dirExists` whether
   * the requested directory is in the archive; `walk` what `os.walk` visits
   * from a folder; `existing` which paths exist before the copy. Returns the
   * success flag, the message, the archive URL requested and the
   * destinations written.
   */
  method DownloadRepository(baseDir: string, url: string, directory: string, branch: string,
                            status: int, text: string, extractDir: string, extracted: seq<string>,
                            dirExists: bool, walk: string -> seq<WalkFile>,
                            existing: set<string>, dialog: nat -> Answer)
    returns (ok: bool, message: string, request: Option<string>, copied: seq<string>)
    ensures ParseRepoUrl(url).Invalid? ==>
              !ok && message == ParseRepoUrl(url).message && request == None && copied == []
    ensures ParseRepoUrl(url).Parsed? ==>
              request == Some(ApiUrl(ParseRepoUrl(url).user, ParseRepoUrl(url).repo, branch))
    ensures ParseRepoUrl(url).Parsed? && status != 200 ==>
              !ok && copied == [] &&
              message == "Failed to download from GitHub. Status code: " + IntToString(status) + ", Message: " + text
    ensures ParseRepoUrl(url).Parsed? && status == 200 && extracted == [] ==>
              !ok && copied == [] && message == NoFiles
    ensures ParseRepoUrl(url).Parsed? && status == 200 && extracted != [] && directory != "" && !dirExists ==>
              !ok && copied == [] && message == "Directory '" + directory + "' not found in the repository."
    ensures ParseRepoUrl(url).Parsed? && status == 200 && extracted != [] && (directory == "" || dirExists) ==>
              var final := Run(Map(walk(SourceFolder(extractDir, extracted[0], directory)), Dest(baseDir)),
                               Start(existing), dialog);
              copied == final.copied &&
              (ok <==> !final.cancelled) &&
              message == if final.cancelled then Cancelled
                         else "Successfully downloaded " + NatToString(|final.copied|) + " files from GitHub."
  {
    var parsed := ParseRepoUrl(url);
    if parsed.Invalid? {
      return false, parsed.message, None, [];
    }
    request := Some(ApiUrl(parsed.user, parsed.repo, branch));
    if status != 200 {
      return false, "Failed to download from GitHub. Status code: " + IntToString(status) + ", Message: " + text, request, [];
    }
    if extracted == [] {
      return false, NoFiles, request, [];
    }
    if directory != "" && !dirExists {
      return false, "Directory '" + directory + "' not found in the repository.", request, [];
    }
    var files := walk(SourceFolder(extractDir, extracted[0], directory));
    var cancelled;
    copied, cancelled := CopyFiles(baseDir, files, existing, dialog);
    if cancelled {
      return false, Cancelled, request, copied;
    }
    return true, "Successfully downloaded " + NatToString(|copied|) + " files from GitHub.", request, copied;
  }

  /**
   * The copy loop of `download_repository`: each file goes to its destination
   * unless it clashes with an existing one and the dialog (or an earlier
   * "skip all") says to skip it; "cancel" stops the copy.
   */
  method CopyFiles(baseDir: string, files: seq<WalkFile>, existing: set<string>, dialog: nat -> Answer)
    returns (copied: seq<string>, cancelled: bool)
    ensures var final := Run(Map(files, Dest(baseDir)), Start(existing), dialog);
            copied == final.copied && cancelled == final.cancelled
  {
    ghost var dests := Map(files, Dest(baseDir));
    var overwriteAll, skipAll := false, false;
    var asked, present := 0, existing;
    copied := [];
    var i := 0;
    while i < |files|
      invariant 0 <= i <= |files|
      invariant Run(dests[i..], Progress(overwriteAll, skipAll, asked, present, copied, false), dialog) ==
                Run(dests, Start(existing), dialog)
    {
      var destFile := Dest(baseDir)(files[i]);
      ghost var before := Progress(overwriteAll, skipAll, asked, present, copied, false);
      assert dests[i..][0] == destFile && dests[i..][1..] == dests[i + 1..];
      assert Run(dests[i..], before, dialog) == Run(dests[i + 1..], Step(before, destFile, dialog), dialog);
      var stop;
      overwriteAll, skipAll, asked, present, copied, stop := CopyOne(overwriteAll, skipAll, asked, present, copied, destFile, dialog);
      if stop {
        CancelStops(dests[i + 1..], Step(before, destFile, dialog), dialog);
        return copied, true;
      }
      i := i + 1;
    }
    cancelled := false;
  }

  /** The body of the copy loop for one destination, as `Step` describes it. */
  method CopyOne(overwriteAll: bool, skipAll: bool, asked: nat, present: set<string>, copied: seq<string>,
                 destFile: string, dialog: nat -> Answer)
    returns (overwriteAll': bool, skipAll': bool, asked': nat, present': set<string>, copied': seq<string>, cancelled: bool)
    ensures Progress(overwriteAll', skipAll', asked', present', copied', cancelled)
            == Step(Progress(overwriteAll, skipAll, asked, present, copied, false), destFile, dialog)
  {
    overwriteAll', skipAll', asked', present', copied', cancelled := overwriteAll, skipAll, asked, present, copied, false;
    var clash := destFile in present;
    if clash && !overwriteAll && !skipAll {
      var result := dialog(asked);
      asked' := asked + 1;
      if result == Overwrite {
        copied', present' := copied + [destFile], present + {destFile};
      } else if result == OverwriteAll {
        overwriteAll' := true;
        copied', present' := copied + [destFile], present + {destFile};
      } else if result == SkipAll {
        skipAll' := true;
      } else if result == Cancel {
        cancelled := true;
      }
    } else if clash && overwriteAll {
      copied', present' := copied + [destFile], present + {destFile};
    } else if !clash || skipAll {
      if !skipAll || !clash {
        copied', present' := copied + [destFile], present + {destFile};
      }
    }
  }
}

/**
 * The desktop console (`src/ui/ui_components/console_view.py`): the output
 * filter, the per-line highlighting tags and the command-history navigation
 * of the command entry.
 *
 * The Tk text widget is modelled by the string its `get(1.0, END)` returns
 * and by the tag given to each of its lines; the command entry by its text.
 */
module ConsoleView {
  import opened Common

  // ---------------------------------------------------------------------
  // Line classification

  /** A line with `ERROR:` or `Error:` in it. */
  predicate ErrorLine(line: string) { Contains(line, "ERROR:") || Contains(line, "Error:") }

  /** A line with `WARNING:` or `Warning:` in it. */
  predicate WarningLine(line: string) { Contains(line, "WARNING:") || Contains(line, "Warning:") }

  /** The highlighting tags, in the order they are tried. */
  datatype Tag = ErrorTag | WarningTag | SuccessTag | InfoTag | CmdTag | HeaderTag

  /** The position of a tag in the order of the checks. */
  function Rank(t: Tag): nat {
    match t
    case ErrorTag => 0
    case WarningTag => 1
    case SuccessTag => 2
    case InfoTag => 3
    case CmdTag => 4
    case HeaderTag => 5
  }

  /** The condition under which a line qualifies for a tag, taken alone. */
  predicate Marks(t: Tag, line: string) {
    match t
    case ErrorTag => ErrorLine(line)
    case WarningTag => WarningLine(line)
    case SuccessTag => Contains(line, "SUCCESS:") || Contains(line, "Success:")
    case InfoTag => Contains(line, "INFO:") || Contains(line, "Info:")
    case CmdTag => StartsWith(line, ">") || StartsWith(line, "$")
    case HeaderTag => Contains(line, "===")
  }

  /**
   * The tag `_apply_syntax_highlighting` gives a line: the first tag in the
   * order error, warning, success, info, cmd, header whose condition holds,
   * and none when none does.
   */
  function TagOf(line: string): (t: Option<Tag>)
    ensures t.None? ==> forall u :: !Marks(u, line)
    ensures t.Some? ==> Marks(t.value, line) && forall u :: Rank(u) < Rank(t.value) ==> !Marks(u, line)
  {
    if ErrorLine(line) then Some(ErrorTag)
    else if WarningLine(line) then Some(WarningTag)
    else if Contains(line, "SUCCESS:") || Contains(line, "Success:") then Some(SuccessTag)
    else if Contains(line, "INFO:") || Contains(line, "Info:") then Some(InfoTag)
    else if StartsWith(line, ">") || StartsWith(line, "$") then Some(CmdTag)
    else if Contains(line, "===") then Some(HeaderTag)
    else None
  }

  // ---------------------------------------------------------------------
  // The output filter

  /** Whether a filter other than `"All"` keeps a line; a filter value outside the four choices keeps none. */
  predicate Keeps(filter: string, line: string)
    ensures Keeps(filter, line) ==> filter == "Errors" || filter == "Warnings" || filter == "Info"
  {
    (filter == "Errors" && ErrorLine(line)) ||
    (filter == "Warnings" && WarningLine(line)) ||
    (filter == "Info" && !(ErrorLine(line) || WarningLine(line)))
  }

  /** The lines a filter keeps, in their order. */
  function Kept(filter: string, lines: seq<string>): (r: seq<string>)
    ensures |r| <= |lines|
    ensures forall k :: 0 <= k < |r| ==> Keeps(filter, r[k])
  {
    if lines == [] then []
    else (if Keeps(filter, lines[0]) then [lines[0]] else []) + Kept(filter, lines[1..])
  }

  /** The text a filter other than `"All"` writes back: each kept line followed by a newline. */
  function Shown(filter: string, lines: seq<string>): (t: string)
    ensures t == "" || t[|t| - 1] == '\n'
    ensures t == "" <==> Kept(filter, lines) == []
  {
    if lines == [] then ""
    else (if Keeps(filter, lines[0]) then lines[0] + "\n" else "") + Shown(filter, lines[1..])
  }

  /** The console text after `apply_console_filter`. */
  function Filtered(filter: string, content: string): (t: string)
    ensures filter == "All" ==> t == content
    ensures filter != "All" ==> t == "" || t[|t| - 1] == '\n'
  {
    if filter == "All" then content else Shown(filter, Split(content, '\n'))
  }

  /** Writing one more line extends the text by that line's piece. */
  lemma {:induction false} ShownSnoc(filter: string, lines: seq<string>, line: string)
    ensures Shown(filter, lines + [line]) ==
            Shown(filter, lines) + (if Keeps(filter, line) then line + "\n" else "")
    decreases |lines|
  {
    if lines == [] {
      assert [line][1..] == [];
    } else {
      assert (lines + [line])[1..] == lines[1..] + [line];
      ShownSnoc(filter, lines[1..], line);
    }
  }

  /** One more line of a list extends the text by that line's piece. */
  lemma ShownStep(filter: string, lines: seq<string>, i: nat)
    requires i < |lines|
    ensures Shown(filter, lines[..i + 1]) == Shown(filter, lines[..i]) + (if Keeps(filter, lines[i]) then lines[i] + "\n" else "")
  {
    assert lines[..i + 1] == lines[..i] + [lines[i]];
    ShownSnoc(filter, lines[..i], lines[i]);
  }

  /** A line is kept exactly when it is among the lines and the filter keeps it. */
  lemma {:induction false} KeptExactly(filter: string, lines: seq<string>, x: string)
    ensures x in Kept(filter, lines) <==> x in lines && Keeps(filter, x)
    decreases |lines|
  {
    if lines != [] {
      KeptExactly(filter, lines[1..], x);
      assert lines == [lines[0]] + lines[1..];
    }
  }

  /**
   * Splitting the filtered text on newlines gives back exactly the kept
   * lines, in order, followed by the empty remainder after the last newline.
   */
  lemma {:induction false} ShownLines(filter: string, lines: seq<string>)
    requires forall i :: 0 <= i < |lines| ==> '\n' !in lines[i]
    ensures Split(Shown(filter, lines), '\n') == Kept(filter, lines) + [""]
    decreases |lines|
  {
    if lines == [] {
      assert Split("", '\n') == [""];
    } else {
      var rest := Shown(filter, lines[1..]);
      var kept := Kept(filter, lines[1..]);
      if Keeps(filter, lines[0]) {
        assert '\n' !in lines[0];
        calc {
          Split(Shown(filter, lines), '\n');
          { assert Shown(filter, lines) == lines[0] + ['\n'] + rest; }
          Split(lines[0] + ['\n'] + rest, '\n');
          { SplitAtFirst(lines[0], rest, '\n'); }
          [lines[0]] + Split(rest, '\n');
          { ShownLines(filter, lines[1..]); }
          [lines[0]] + (kept + [""]);
          { AppendAssoc([lines[0]], kept, [""]); }
          ([lines[0]] + kept) + [""];
          Kept(filter, lines) + [""];
        }
      } else {
        calc {
          Split(Shown(filter, lines), '\n');
          { assert Shown(filter, lines) == "" + rest == rest; }
          Split(rest, '\n');
          { ShownLines(filter, lines[1..]); }
          kept + [""];
          { assert Kept(filter, lines) == [] + kept == kept; }
          Kept(filter, lines) + [""];
        }
      }
    }
  }

  /** Whether `apply_console_filter` writes a line back, tested in the order the source tests. */
  method ShowLine(filter: string, line: string) returns (show: bool)
    ensures show == Keeps(filter, line)
  {
    show := false;
    if filter == "Errors" && (Contains(line, "ERROR:") || Contains(line, "Error:")) {
      show := true;
    } else if filter == "Warnings" && (Contains(line, "WARNING:") || Contains(line, "Warning:")) {
      show := true;
    } else if filter == "Info" && !(Contains(line, "ERROR:") || Contains(line, "Error:") ||
                                    Contains(line, "WARNING:") || Contains(line, "Warning:")) {
      show := true;
    }
  }

  /** The loop of `apply_console_filter`: the lines the filter keeps, each followed by a newline. */
  method FilterLines(filter: string, lines: seq<string>) returns (out: string)
    ensures out == Shown(filter, lines)
  {
    out := "";
    for i := 0 to |lines|
      invariant out == Shown(filter, lines[..i])
    {
      var show := ShowLine(filter, lines[i]);
      ShownStep(filter, lines, i);
      if show {
        out := out + (lines[i] + "\n");
      }
    }
    assert lines[..|lines|] == lines;
  }

  /** For every filter but `"All"`, the new lines of the console are exactly the kept lines of the old one. */
  lemma FilteredLines(filter: string, content: string)
    requires filter != "All"
    ensures Split(Filtered(filter, content), '\n') == Kept(filter, Split(content, '\n')) + [""]
  {
    ShownLines(filter, Split(content, '\n'));
  }

  /** `"Info"` keeps exactly the lines that neither `"Errors"` nor `"Warnings"` keeps. */
  lemma InfoIsTheRest(line: string)
    ensures Keeps("Info", line) <==> !Keeps("Errors", line) && !Keeps("Warnings", line)
  {
  }

  /** `"Errors"` keeps exactly the lines highlighted as errors. */
  lemma ErrorsAreErrorTagged(line: string)
    ensures Keeps("Errors", line) <==> TagOf(line) == Some(ErrorTag)
  {
  }

  // ---------------------------------------------------------------------
  // Command-history navigation

  /** What the entry shows at a history position: nothing at -1, otherwise the entries newest first. */
  function EntryAt(history: seq<string>, pos: int): (e: string)
    requires -1 <= pos < |history|
    ensures pos == -1 ==> e == ""
    ensures pos >= 0 ==> e in history
    ensures pos == 0 ==> e == history[|history| - 1]
  {
    if pos == -1 then "" else history[|history| - 1 - pos]
  }

  /** `history_prev`'s new position: one step back while older entries remain. */
  function PrevPosition(n: nat, pos: int): (p: int)
    requires -1 <= pos < n || n == 0
    ensures n == 0 ==> p == pos
    ensures n > 0 ==> -1 <= p < n && pos <= p <= pos + 1
  {
    if n > 0 && pos < n - 1 then pos + 1 else pos
  }

  /** `history_next`'s new position: one step forward, down to -1 (the empty entry). */
  function NextPosition(pos: int): (p: int)
    requires -1 <= pos
    ensures -1 <= p <= pos && (pos > -1 ==> p == pos - 1)
  {
    if pos > 0 then pos - 1 else if pos == 0 then -1 else pos
  }

  /** `history_next` undoes the move of a `history_prev` that moved. */
  lemma NextUndoesPrev(n: nat, pos: int)
    requires -1 <= pos < n - 1
    ensures NextPosition(PrevPosition(n, pos)) == pos
  {
  }

  /** `k` presses of Up from the empty entry. */
  function PrevTimes(n: nat, pos: int, k: nat): (p: int)
    requires -1 <= pos < n
  {
    if k == 0 then pos else PrevPosition(n, PrevTimes(n, pos, k - 1))
  }

  /** Pressing Up `k` times from -1 walks to position `k - 1`, and stops at the oldest entry. */
  lemma {:induction false} UpWalksBackInTime(n: nat, k: nat)
    requires n > 0
    ensures PrevTimes(n, -1, k) == (if k < n then k else n) - 1
  {
    if k > 0 {
      UpWalksBackInTime(n, k - 1);
    }
  }

  // ---------------------------------------------------------------------
  // The view

  /** `ConsoleView`: the console text, its line tags, the command history and the command entry. */
  class ConsoleView {
    var text: string
    var tags: seq<Option<Tag>>
    var history: seq<string>
    var position: int
    var entry: string

    /** The history position stays within the history, or at -1. */
    predicate Valid()
      reads this
    {
      -1 <= position < |history|
    }

    /** `create_command_input`: an empty history at position -1. */
    constructor()
      ensures Valid()
      ensures text == "" && tags == [] && history == [] && position == -1 && entry == ""
    {
      text, tags, history, position, entry := "", [], [], -1, "";
    }

    /** `_apply_syntax_highlighting`: each line of the text gets its tag. */
    method Highlight()
      modifies this
      ensures |tags| == |Split(text, '\n')|
      ensures forall i :: 0 <= i < |tags| ==> tags[i] == TagOf(Split(text, '\n')[i])
      ensures text == old(text) && history == old(history) && position == old(position) && entry == old(entry)
    {
      var lines := Split(text, '\n');
      var result := [];
      for i := 0 to |lines|
        invariant |result| == i
        invariant forall j :: 0 <= j < i ==> result[j] == TagOf(lines[j])
        invariant text == old(text) && history == old(history) && position == old(position) && entry == old(entry)
      {
        result := result + [TagOf(lines[i])];
      }
      tags := result;
    }

    /** `apply_console_filter`: the text is rewritten through the filter and highlighted again. */
    method ApplyConsoleFilter(filter: string)
      modifies this
      ensures text == Filtered(filter, old(text))
      ensures filter == "All" ==> text == old(text)
      ensures |tags| == |Split(text, '\n')|
      ensures forall i :: 0 <= i < |tags| ==> tags[i] == TagOf(Split(text, '\n')[i])
      ensures history == old(history) && position == old(position) && entry == old(entry)
    {
      var content := text;
      if filter == "All" {
        text := content;
      } else {
        text := FilterLines(filter, Split(content, '\n'));
      }
      Highlight();
    }

    /** `history_prev` (Up): one entry further back, shown in the entry, while older ones remain. */
    method HistoryPrev()
      requires Valid()
      modifies this
      ensures history == old(history) && text == old(text) && tags == old(tags)
      ensures Valid()
      ensures position == PrevPosition(|history|, old(position))
      ensures entry == (if position != old(position) then EntryAt(history, position) else old(entry))
    {
      if history == [] {
        return;
      }
      if position < |history| - 1 {
        position := position + 1;
        entry := history[|history| - (position + 1)];
      }
    }

    /** `history_next` (Down): one entry forward, or the empty entry after the newest. */
    method HistoryNext()
      requires Valid()
      modifies this
      ensures history == old(history) && text == old(text) && tags == old(tags)
      ensures Valid()
      ensures position == NextPosition(old(position))
      ensures entry == (if position != old(position) then EntryAt(history, position) else old(entry))
    {
      if position > 0 {
        position := position - 1;
        entry := history[|history| - (position + 1)];
      } else if position == 0 {
        position := -1;
        entry := "";
      }
    }
  }
}

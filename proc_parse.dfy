/**
 * Parsers for what the scanner reads under /proc and from a repository's
 * `.git/HEAD`: the command line (crab.py `_read_cmdline`), the `PPid:` line of
 * `/proc/<pid>/status` (`_read_ppid`), the utime and stime fields of
 * `/proc/<pid>/stat` (inside `_measure_cpu`) and the branch label of a HEAD
 * file (inside `_read_branch`). Each is a function of the text that was read.
 */
module ProcParse {
  import opened Wrappers
  import opened Text

  // ---------------------------------------------------------------------
  // /proc/<pid>/cmdline
  // ---------------------------------------------------------------------

  /** Every NUL character replaced by a space. */
  function NulToSpace(s: string): (r: string)
    ensures |r| == |s|
    ensures forall i | 0 <= i < |s| :: r[i] == (if s[i] == '\0' then ' ' else s[i])
  {
    if s == [] then [] else [if s[0] == '\0' then ' ' else s[0]] + NulToSpace(s[1..])
  }

  /** The command line as `_read_cmdline` returns it: NULs become spaces, then the text is stripped. */
  function CmdlineText(raw: string): (cmd: string)
    ensures '\0' !in cmd
  {
    var r := NulToSpace(raw);
    StripSlice(r);
    Strip(r)
  }

  lemma StripSlice(s: string)
    ensures forall c | c in Strip(s) :: c in s
  {
    var l := TrimLeft(s);
    assert forall c | c in l :: c in s;
  }

  lemma {:induction false} NulToSpaceAppend(a: string, b: string)
    ensures NulToSpace(a + b) == NulToSpace(a) + NulToSpace(b)
  {
    var l, r := NulToSpace(a + b), NulToSpace(a) + NulToSpace(b);
    assert forall i | 0 <= i < |l| :: l[i] == r[i];
  }

  lemma {:induction false} NulToSpaceJoin(args: seq<string>)
    requires forall k | 0 <= k < |args| :: '\0' !in args[k]
    ensures NulToSpace(Join(args, '\0')) == Join(args, ' ')
  {
    if |args| == 1 {
      var a := args[0];
      assert forall i | 0 <= i < |a| :: a[i] in a;
      assert NulToSpace(a) == a;
    } else if |args| > 1 {
      var a := args[0];
      assert forall i | 0 <= i < |a| :: a[i] in a;
      NulToSpaceJoin(args[1..]);
      NulToSpaceAppend(a + ['\0'], Join(args[1..], '\0'));
      NulToSpaceAppend(a, ['\0']);
    }
  }

  lemma JoinFirst(parts: seq<string>, sep: char)
    requires |parts| >= 1 && parts[0] != []
    ensures var j := Join(parts, sep); j != [] && j[0] == parts[0][0]
  {
  }

  lemma {:induction false} JoinLast(parts: seq<string>, sep: char)
    requires |parts| >= 1 && parts[|parts| - 1] != []
    ensures var j := Join(parts, sep); j != [] && j[|j| - 1] == parts[|parts| - 1][|parts[|parts| - 1]| - 1]
  {
    if |parts| > 1 {
      JoinLast(parts[1..], sep);
    }
  }

  /**
   * The kernel ends every argument with a NUL; what `_read_cmdline` returns
   * is then the arguments joined by single spaces, provided the command line
   * neither starts nor ends with whitespace.
   */
  lemma CmdlineOfArgv(args: seq<string>)
    requires |args| >= 1 && args[0] != [] && args[|args| - 1] != []
    requires forall k | 0 <= k < |args| :: '\0' !in args[k]
    requires !IsSpace(args[0][0]) && !IsSpace(args[|args| - 1][|args[|args| - 1]| - 1])
    ensures CmdlineText(Join(args, '\0') + "\0") == Join(args, ' ')
  {
    var j := Join(args, ' ');
    var raw := Join(args, '\0') + "\0";
    assert NulToSpace(raw) == j + " " by {
      NulToSpaceJoin(args);
      NulToSpaceAppend(Join(args, '\0'), "\0");
      assert NulToSpace("\0") == " ";
    }
    assert j != [] && !IsSpace(j[0]) && !IsSpace(j[|j| - 1]) by {
      JoinFirst(args, ' ');
      JoinLast(args, ' ');
    }
    assert AllSpace(" ") by {
    }
    StripTrailing(j, " ");
  }

  // ---------------------------------------------------------------------
  // /proc/<pid>/status
  // ---------------------------------------------------------------------

  /** The characters that end a line when a text file is read line by line (universal newlines). */
  predicate IsLineBreak(c: char) {
    c == '\n' || c == '\r'
  }

  /**
   * The lines of a text file without their terminators. A `\r\n` pair yields
   * an extra empty line here, which neither starts with `PPid:` nor changes
   * the words of any other line, so the parser below reads the same lines.
   */
  function Lines(content: string): (ls: seq<string>)
    ensures forall k | 0 <= k < |ls| :: NoneOf(ls[k], IsLineBreak)
  {
    SplitOn(content, IsLineBreak)
  }

  /**
   * The value on the first line that starts with `PPid:`: the second word
   * as an integer. No such line, a missing second word or one that is not
   * an integer all give 0, as `_read_ppid` does.
   */
  function PpidFromLines(lines: seq<string>): (ppid: int)
    ensures (forall k | 0 <= k < |lines| :: !StartsWith(lines[k], "PPid:")) ==> ppid == 0
  {
    if lines == [] then 0
    else if StartsWith(lines[0], "PPid:") then
      var ws := Words(lines[0]);
      if |ws| < 2 then 0 else ParseInt(ws[1]).GetOr(0)
    else PpidFromLines(lines[1..])
  }

  /** `_read_ppid` on the text of a status file that was read. */
  function PpidOfStatus(content: string): int {
    PpidFromLines(Lines(content))
  }

  lemma {:induction false} PpidFromLinesSkip(lines: seq<string>, k: nat)
    requires k <= |lines|
    requires forall j | 0 <= j < k :: !StartsWith(lines[j], "PPid:")
    ensures PpidFromLines(lines) == PpidFromLines(lines[k..])
  {
    if k > 0 {
      PpidFromLinesSkip(lines[1..], k - 1);
      assert lines[1..][k - 1..] == lines[k..];
    }
  }

  lemma DigitsNoSpace(d: string)
    requires IsDigits(d)
    ensures NoneOf(d, IsSpace)
  {
    forall c | c in d ensures !IsSpace(c) {
      DigitNotSpace(c);
    }
  }

  /**
   * A status file whose first `PPid:` line is `PPid:<TAB><n>`, as the kernel
   * writes it, yields `n`.
   */
  lemma PpidOfStatusLine(lines: seq<string>, k: nat, n: nat)
    requires k < |lines|
    requires forall j | 0 <= j < |lines| :: NoneOf(lines[j], IsLineBreak)
    requires lines[k] == "PPid:\t" + NatToString(n)
    requires forall j | 0 <= j < k :: !StartsWith(lines[j], "PPid:")
    ensures PpidOfStatus(Join(lines, '\n')) == n
  {
    assert Lines(Join(lines, '\n')) == lines by {
      SplitOnJoin(lines, '\n', IsLineBreak);
    }
    PpidFromLinesSkip(lines, k);
    PpidLineWords(lines[k], n);
    ParseIntNatToString(n);
    PpidFromFirstLine(lines[k..], NatToString(n), n);
  }

  /** The line `PPid:<TAB><n>` starts with `PPid:` and splits into that label and `n`. */
  lemma PpidLineWords(line: string, n: nat)
    requires line == "PPid:\t" + NatToString(n)
    ensures StartsWith(line, "PPid:") && Words(line) == ["PPid:", NatToString(n)]
  {
    var d := NatToString(n);
    DigitsNoSpace(d);
    VisibleText("PPid:");
    assert Join(["PPid:", d], '\t') == line;
    WordsJoin(["PPid:", d], '\t');
  }

  /** A first line `PPid:` followed by a word that parses as `n` gives `n`. */
  lemma PpidFromFirstLine(lines: seq<string>, d: string, n: int)
    requires lines != [] && StartsWith(lines[0], "PPid:")
    requires Words(lines[0]) == ["PPid:", d] && ParseInt(d) == Some(n)
    ensures PpidFromLines(lines) == n
  {
  }

  // ---------------------------------------------------------------------
  // /proc/<pid>/stat
  // ---------------------------------------------------------------------

  /**
   * utime + stime from the text of `/proc/<pid>/stat`: the words after the
   * last `)` (which closes the command name, itself free to hold spaces and
   * parentheses), of which the 12th and 13th are fields 14 and 15 of the
   * proc(5) layout. Too few words or a non-integer gives `None`, the
   * IndexError and ValueError `_measure_cpu` catches.
   */
  function StatTicks(raw: string): Option<int> {
    TicksOfFields(StatFields(raw))
  }

  /** The words after the last `)` of a stat line (the kernel puts a space after it). */
  function StatFields(raw: string): seq<string> {
    Words(Drop(raw, LastIndexOf(raw, ')') + 2))
  }

  /** utime + stime from the fields after the command name, fields 14 and 15 of the line. */
  function TicksOfFields(fields: seq<string>): (ticks: Option<int>)
    ensures ticks.Some? <==> |fields| >= 13 && ParseInt(fields[11]).Some? && ParseInt(fields[12]).Some?
    ensures ticks.Some? ==> ticks.value == ParseInt(fields[11]).value + ParseInt(fields[12]).value
  {
    if |fields| < 13 then None
    else
      var utime, stime := ParseInt(fields[11]), ParseInt(fields[12]);
      if utime.Some? && stime.Some? then Some(utime.value + stime.value) else None
  }

  lemma {:induction false} JoinAvoids(parts: seq<string>, sep: char, c: char)
    requires c != sep
    requires forall k | 0 <= k < |parts| :: c !in parts[k]
    ensures c !in Join(parts, sep)
  {
    if |parts| > 1 {
      JoinAvoids(parts[1..], sep, c);
    }
  }

  /** The text after the last `)` and the space that follows it. */
  lemma StatTail(head: string, tail: string)
    requires ')' !in tail
    ensures Drop(head + ") " + tail, LastIndexOf(head + ") " + tail, ')') + 2) == tail
  {
    var raw := head + ") " + tail;
    assert raw == head + [')'] + (" " + tail);
    assert ')' !in " " + tail;
    LastIndexOfAfter(head, ')', " " + tail);
  }

  lemma StatFieldsAfterParen(head: string, tail: string, fields: seq<string>)
    requires ')' !in tail && Words(tail) == fields
    ensures StatFields(head + ") " + tail) == fields
  {
    StatTail(head, tail);
  }

  /** Fields 14 and 15 written in decimal are summed. */
  lemma TicksOfDecimalFields(fields: seq<string>, utime: nat, stime: nat)
    requires |fields| >= 13
    requires fields[11] == NatToString(utime) && fields[12] == NatToString(stime)
    ensures TicksOfFields(fields) == Some(utime + stime)
  {
    ParseIntNatToString(utime);
    ParseIntNatToString(stime);
    TicksOfParsedFields(fields, utime, stime);
  }

  /** Fields 14 and 15 that parse as integers give their sum. */
  lemma TicksOfParsedFields(fields: seq<string>, utime: int, stime: int)
    requires |fields| >= 13 && ParseInt(fields[11]) == Some(utime) && ParseInt(fields[12]) == Some(stime)
    ensures TicksOfFields(fields) == Some(utime + stime)
  {
    var ticks := TicksOfFields(fields);
    assert ticks.Some? && ticks.value == utime + stime;
    assert ticks == Some(ticks.value);
  }

  /**
   * For a stat line `<pid> (<comm>) <field 3> ... <field 52>` whose fields
   * 14 and 15 are the decimal numbers `utime` and `stime`, the parser yields
   * their sum, whatever `comm` holds. `head` is the text before the closing
   * parenthesis of the command name.
   */
  lemma StatTicksFields(head: string, fields: seq<string>, utime: nat, stime: nat)
    requires |fields| >= 13
    requires forall k | 0 <= k < |fields| :: fields[k] != [] && NoneOf(fields[k], IsSpace)
    requires forall k | 0 <= k < |fields| :: ')' !in fields[k]
    requires fields[11] == NatToString(utime) && fields[12] == NatToString(stime)
    ensures StatTicks(head + ") " + Join(fields, ' ')) == Some(utime + stime)
  {
    var j := Join(fields, ' ');
    WordsJoin(fields, ' ');
    JoinAvoids(fields, ' ', ')');
    StatFieldsAfterParen(head, j, fields);
    TicksOfDecimalFields(fields, utime, stime);
  }

  // ---------------------------------------------------------------------
  // .git/HEAD
  // ---------------------------------------------------------------------

  /** What a HEAD file holds when a branch is checked out. */
  const RefPrefix: string := "ref: refs/heads/"

  /**
   * The branch label of a HEAD file's text: after stripping, the text after
   * `ref: refs/heads/` for a symbolic reference, otherwise its first twelve
   * characters (a detached commit, shortened).
   */
  function HeadLabel(raw: string): (name: string)
    ensures |name| <= |raw|
  {
    var content := Strip(raw);
    if StartsWith(content, RefPrefix) then content[|RefPrefix|..] else Take(content, 12)
  }

  lemma RefEnds(branch: string)
    requires branch == [] || !IsSpace(branch[|branch| - 1])
    ensures var t := RefPrefix + branch; t != [] && !IsSpace(t[0]) && !IsSpace(t[|t| - 1])
  {
    var t := RefPrefix + branch;
    assert t[0] == 'r';
    assert t[|t| - 1] == if branch == [] then '/' else branch[|branch| - 1];
  }

  lemma RefBranch(branch: string)
    ensures var t := RefPrefix + branch; StartsWith(t, RefPrefix) && t[|RefPrefix|..] == branch
  {
  }

  /** A checked-out branch `refs/heads/<branch>` is labelled `<branch>`. */
  lemma HeadLabelBranch(branch: string, trailer: string)
    requires AllSpace(trailer)
    requires branch == [] || !IsSpace(branch[|branch| - 1])
    ensures HeadLabel(RefPrefix + branch + trailer) == branch
  {
    RefEnds(branch);
    StripTrailing(RefPrefix + branch, trailer);
    RefBranch(branch);
  }

  predicate IsHexDigit(c: char) {
    IsDigit(c) || 'a' <= c <= 'f'
  }

  /** A detached HEAD holding a commit hash is labelled with the hash's first twelve characters. */
  lemma HeadLabelDetached(hash: string, trailer: string)
    requires |hash| >= 12 && forall i | 0 <= i < |hash| :: IsHexDigit(hash[i])
    requires AllSpace(trailer)
    ensures HeadLabel(hash + trailer) == hash[..12]
  {
    assert Strip(hash + trailer) == hash by {
      StripTrailing(hash, trailer);
    }
    NotRefPrefix(hash);
  }

  /** Text that does not start with 'r' is not a symbolic reference. */
  lemma NotRefPrefix(s: string)
    requires s != [] && s[0] != 'r'
    ensures !StartsWith(s, RefPrefix)
  {
    assert RefPrefix[0] == 'r';
  }
}

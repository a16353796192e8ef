/**
 * Which processes the tracker follows and of which kind (crab.py
 * `_classify`). A command line is looked at in a fixed order: an empty one
 * is ignored, the VS Code extension marker wins, then the pattern
 * `(^|/)claude(\s|$)` must match and none of the tracker's own or search
 * tools may be named. A match is a runner instance when its ancestry says
 * so (see `Scanner.RunnerParent`), a plain CLI instance otherwise.
 */
module Classifier {
  import opened Wrappers
  import opened Text

  /** The `type` of a `ProcessInfo`: `"cli"`, `"vs"` or `"runner"`. */
  datatype Kind = Cli | Vs | Runner

  /** The path fragment of the VS Code extension that hosts an instance. */
  const VsMarker: string := ".vscode-server/extensions/anthropic.claude-code"

  /** The command names whose presence rejects a match: searches for the CLI, and the tracker itself. */
  const Denylist: seq<string> := ["pgrep", "grep", "crab_tracker", "crab-tracker", "crab_canvas", "crab.py"]

  /**
   * The pattern `(^|/)claude(\s|$)` matches with `claude` starting at `i`:
   * at the start of the line or right after a slash, and followed by a
   * whitespace character or the end of the line.
   */
  predicate ClaudeAt(s: string, i: nat) {
    i + 6 <= |s| && s[i..i + 6] == "claude"
    && (i == 0 || s[i - 1] == '/')
    && (i + 6 == |s| || IsSpace(s[i + 6]))
  }

  /** `re.search(r"(^|/)claude(\s|$)", s)` succeeds. */
  predicate MatchesClaude(s: string) {
    exists i: nat | i <= |s| :: ClaudeAt(s, i)
  }

  /** A line the pattern matches holds the word `claude`. */
  lemma MatchesClaudeContains(s: string)
    requires MatchesClaude(s)
    ensures Contains(s, "claude")
  {
    var i: nat :| i <= |s| && ClaudeAt(s, i);
    ContainsAt(s, "claude", i);
  }

  /** Some name from the denylist occurs in `s`. */
  predicate Denied(s: string) {
    exists k | 0 <= k < |Denylist| :: Contains(s, Denylist[k])
  }

  /**
   * `_classify(cmdline, pid)`, where `runnerParent` is what
   * `_is_runner_parent(pid)` would answer; it is consulted only for a
   * non-zero pid whose line matched and passed the denylist.
   */
  function Classify(cmdline: string, pid: int, runnerParent: bool): (kind: Option<Kind>)
    ensures cmdline == [] ==> kind == None
    ensures kind == Some(Runner) ==> pid != 0 && runnerParent
    ensures pid == 0 ==> kind != Some(Runner)
  {
    if cmdline == [] then None
    else if Contains(cmdline, VsMarker) then Some(Vs)
    else if MatchesClaude(cmdline) then
      if Denied(cmdline) then None
      else if pid != 0 && runnerParent then Some(Runner)
      else Some(Cli)
    else None
  }

  /**
   * The rules in their order: the marker decides first, then a match is
   * rejected by the denylist, and only an accepted match is an instance of
   * the other two kinds.
   */
  lemma ClassifyRules(cmdline: string, pid: int, runnerParent: bool)
    ensures var kind := Classify(cmdline, pid, runnerParent);
      && (kind == Some(Vs) <==> Contains(cmdline, VsMarker))
      && (!Contains(cmdline, VsMarker) && MatchesClaude(cmdline) && Denied(cmdline) ==> kind == None)
      && (kind.Some? && kind != Some(Vs) ==> MatchesClaude(cmdline) && !Denied(cmdline))
  {
  }

  /**
   * The ancestry answer matters only for a line that would otherwise be a
   * CLI instance with a non-zero pid; everywhere else both answers agree.
   */
  lemma ClassifyAncestryOnlyForCli(cmdline: string, pid: int)
    ensures Classify(cmdline, pid, false) != Some(Cli) || pid == 0 ==> Classify(cmdline, pid, true) == Classify(cmdline, pid, false)
    ensures Classify(cmdline, pid, false) == Some(Cli) && pid != 0 ==> Classify(cmdline, pid, true) == Some(Runner)
  {
  }

  /** A match of the pattern is either accepted or rejected by the denylist, never ignored otherwise. */
  lemma ClassifyMatch(cmdline: string, pid: int, runnerParent: bool)
    requires MatchesClaude(cmdline) && !Contains(cmdline, VsMarker)
    ensures Classify(cmdline, pid, runnerParent).Some? <==> !Denied(cmdline)
  {
    var i: nat :| i <= |cmdline| && ClaudeAt(cmdline, i);
  }

  /** A line that shows none of the denylisted names, checked one character per name. */
  lemma NotDenied(s: string, ks: seq<nat>)
    requires |ks| == |Denylist|
    requires forall k | 0 <= k < |Denylist| :: ks[k] < |Denylist[k]| && Denylist[k][ks[k]] !in s
    ensures !Denied(s)
  {
    forall k | 0 <= k < |Denylist| ensures !Contains(s, Denylist[k]) {
      MissingChar(s, Denylist[k], ks[k]);
    }
  }

  /** No `p` means no VS Code marker. */
  lemma NoMarker(s: string)
    requires 'p' !in s
    ensures !Contains(s, VsMarker)
  {
    assert VsMarker[32] == 'p';
    MissingChar(s, VsMarker, 32);
  }

  /** The CLI run by its bare name is a CLI instance when its ancestry does not say runner. */
  lemma ClassifyBareName(pid: int)
    ensures Classify("claude", pid, false) == Some(Cli)
  {
    assert ClaudeAt("claude", 0);
    NoMarker("claude");
    NotDenied("claude", [0, 0, 4, 4, 4, 4]);
  }

  /**
   * `claude` run from a directory or by its bare name, with or without
   * arguments, is an instance whenever no denylisted name and no VS Code
   * marker occur in the line.
   */
  lemma ClassifyInvocation(dir: string, args: string, pid: int, runnerParent: bool)
    requires dir == [] || dir[|dir| - 1] == '/'
    requires args == [] || IsSpace(args[0])
    requires !Contains(dir + "claude" + args, VsMarker) && !Denied(dir + "claude" + args)
    ensures Classify(dir + "claude" + args, pid, runnerParent) == if pid != 0 && runnerParent then Some(Runner) else Some(Cli)
  {
    var s := dir + "claude" + args;
    assert s[|dir|..|dir| + 6] == "claude";
    assert |dir| + 6 < |s| ==> s[|dir| + 6] == args[0];
    assert |dir| > 0 ==> s[|dir| - 1] == dir[|dir| - 1];
    assert ClaudeAt(s, |dir|);
  }

  /** A path to the CLI followed by arguments is a runner instance when its ancestry says so. */
  lemma ClassifyPathWithArgs(pid: int)
    requires pid != 0
    ensures Classify("/usr/local/bin/" + "claude" + " --resume", pid, true) == Some(Runner)
  {
    var s := "/usr/local/bin/" + "claude" + " --resume";
    assert !Contains(s, VsMarker) by {
      NoMarker(s);
    }
    assert !Denied(s) by {
      NotDenied(s, [0, 0, 4, 5, 4, 4]);
    }
    ClassifyInvocation("/usr/local/bin/", " --resume", pid, true);
  }

  /**
   * A word that merely starts with `claude` (`claude-code`, `claudette`) is
   * not the CLI: the pattern needs whitespace or the end of the line right
   * after `claude`.
   */
  lemma ClassifyLongerWord(w: string, pid: int, runnerParent: bool)
    requires w != [] && !IsSpace(w[0]) && !Contains(w, "claude")
    requires !Contains("claude" + w, VsMarker)
    ensures Classify("claude" + w, pid, runnerParent) == None
  {
    var s := "claude" + w;
    assert !MatchesClaude(s) by {
      forall i: nat | i <= |s| ensures !ClaudeAt(s, i) {
        if i == 0 {
          assert s[6] == w[0];
        } else if i < 6 && i + 6 <= |s| {
          assert s[i..i + 6][0] == s[i] == "claude"[i];
        } else if i + 6 <= |s| {
          assert s[i..i + 6] == w[i - 6..i];
          if s[i..i + 6] == "claude" {
            ContainsAt(w, "claude", i - 6);
          }
        }
      }
    }
  }

  /** `claude-code`, the package name, is not a CLI invocation. */
  lemma ClassifyPackageName(pid: int, runnerParent: bool)
    ensures Classify("claude-code", pid, runnerParent) == None
  {
    assert "claude-code" == "claude" + "-code";
    NoMarker("claude-code");
    ClassifyLongerWord("-code", pid, runnerParent);
  }

  /** The VS Code marker is recognised wherever it occurs. */
  lemma ClassifyExtensionHost(prefix: string, suffix: string, pid: int, runnerParent: bool)
    ensures Classify(prefix + VsMarker + suffix, pid, runnerParent) == Some(Vs)
  {
    var s := prefix + VsMarker + suffix;
    assert s[|prefix|..|prefix| + |VsMarker|] == VsMarker;
    ContainsAt(s, VsMarker, |prefix|);
  }
}

/**
 * The process scanner of crab.py (`ProcessScanner`): it lists /proc, keeps
 * the processes whose command line classifies as an instance, and for each
 * measures CPU use from the tick counters, reads the working directory and
 * the git branch checked out there. The CPU sampler keeps, per pid, the
 * last tick count and the time it was taken, and forgets pids that a scan
 * no longer reports.
 *
 * Everything the scanner reads of the system is a `ProcFs` value; a read
 * that fails (a vanished process, a permission error, a missing file) is
 * `None`. Each specification function below is what one method of the
 * source computes from such reads; the class methods carry the source's
 * loops and state and are proved against them.
 */
module Scanner {
  import opened Wrappers
  import opened Text
  import opened ProcParse
  import opened Classifier

  /**
   * The reads the scanner makes: the names listed in /proc, the text of
   * `/proc/<pid>/cmdline` (decoded as UTF-8 with replacement, NULs kept),
   * `/proc/<pid>/status` and `/proc/<pid>/stat`, the target of the
   * `/proc/<pid>/cwd` link, whether a path exists, and the text of a file.
   */
  datatype ProcFs = ProcFs(
    entries: Option<seq<string>>,
    cmdline: int -> Option<string>,
    status: int -> Option<string>,
    stat: int -> Option<string>,
    cwd: int -> Option<string>,
    pathExists: string -> bool,
    readFile: string -> Option<string>)

  /** One instance found by a scan. */
  datatype ProcessInfo = ProcessInfo(pid: int, kind: Kind, cpuPct: real, cwd: string, branch: string)

  /** A CPU sample: the cumulative utime + stime and the clock reading it was taken at. */
  type Sample = (int, real)

  /** What `_read_cwd` answers when the link cannot be read. */
  const UnknownCwd: string := "?"

  /** The file whose presence in a process's working directory marks a runner. */
  const RunnerMarkerFile: string := ".runner-marker"

  /** How many parents `_is_runner_parent` looks at. */
  const AncestorHops: nat := 5

  /** How many directories `_read_branch` looks at, the working directory included. */
  const BranchSearchDepth: nat := 20

  // ---------------------------------------------------------------------
  // Reads
  // ---------------------------------------------------------------------

  /** `_read_cmdline(pid)`, or `None` where it raises. */
  function ReadCmdline(fs: ProcFs, pid: int): (cmd: Option<string>)
    ensures cmd.None? <==> fs.cmdline(pid).None?
    ensures cmd.Some? ==> '\0' !in cmd.value && |cmd.value| <= |fs.cmdline(pid).value|
  {
    match fs.cmdline(pid)
    case None => None
    case Some(raw) => Some(CmdlineText(raw))
  }

  /** `_read_ppid(pid)`: 0 when the status file cannot be read or holds no usable `PPid:` line. */
  function ReadPpid(fs: ProcFs, pid: int): (ppid: int)
    ensures fs.status(pid).None? ==> ppid == 0
  {
    match fs.status(pid)
    case None => 0
    case Some(content) => PpidOfStatus(content)
  }

  /** `_read_cwd(pid)`: the link target, or `?`. */
  function ReadCwd(fs: ProcFs, pid: int): (cwd: string)
    ensures fs.cwd(pid).None? ==> cwd == UnknownCwd
    ensures cwd != UnknownCwd ==> fs.cwd(pid) == Some(cwd)
  {
    fs.cwd(pid).GetOr(UnknownCwd)
  }

  // ---------------------------------------------------------------------
  // _is_runner_parent
  // ---------------------------------------------------------------------

  /** A parent's command line names a job runner's work directory, or tmux. */
  predicate HasRunnerMarker(cmd: string) {
    (Contains(cmd, "runner") && Contains(cmd, "work")) || Contains(cmd, "tmux")
  }

  /** The parent of each pid, as `_read_ppid` reads it. */
  function ParentOf(fs: ProcFs): int -> int {
    (pid: int) => ReadPpid(fs, pid)
  }

  /** The command line of each pid, as `_read_cmdline` reads it. */
  function CmdOf(fs: ProcFs): int -> Option<string> {
    (pid: int) => ReadCmdline(fs, pid)
  }

  /**
   * The ancestor walk of `_is_runner_parent` from `current` with `hops`
   * steps left, over the parent and command-line reads: it stops at a
   * parent pid of 0 or 1 and at a parent whose command line cannot be
   * read, and answers true at the first parent whose command line carries
   * a runner marker.
   */
  function AncestorMarked(parentOf: int -> int, cmdOf: int -> Option<string>, current: int, hops: nat): bool
    decreases hops
  {
    if hops == 0 then false
    else
      var ppid := parentOf(current);
      if ppid <= 1 then false
      else match cmdOf(ppid)
        case None => false
        case Some(cmd) => HasRunnerMarker(cmd) || AncestorMarked(parentOf, cmdOf, ppid, hops - 1)
  }

  /** The working directory of `pid` is known and holds the runner marker file. */
  predicate MarkerFileAt(fs: ProcFs, pid: int) {
    var cwd := ReadCwd(fs, pid);
    cwd != UnknownCwd && fs.pathExists(PathJoin(cwd, RunnerMarkerFile))
  }

  /** `_is_runner_parent(pid)`. */
  predicate RunnerParent(fs: ProcFs, pid: int) {
    AncestorMarked(ParentOf(fs), CmdOf(fs), pid, AncestorHops) || MarkerFileAt(fs, pid)
  }

  /**
   * The parents the walk can visit from `current`, nearest first: each is
   * the parent of the one before, is above 1 and has a readable command
   * line, and there are at most `hops` of them.
   */
  function Ancestry(parentOf: int -> int, cmdOf: int -> Option<string>, current: int, hops: nat): (chain: seq<int>)
    ensures |chain| <= hops
    ensures forall k | 0 <= k < |chain| :: chain[k] > 1 && cmdOf(chain[k]).Some?
    ensures chain != [] ==> chain[0] == parentOf(current)
    ensures forall k | 0 < k < |chain| :: chain[k] == parentOf(chain[k - 1])
    decreases hops
  {
    if hops == 0 then []
    else
      var ppid := parentOf(current);
      if ppid <= 1 || cmdOf(ppid).None? then []
      else [ppid] + Ancestry(parentOf, cmdOf, ppid, hops - 1)
  }

  /** The walk answers true exactly when some parent it can visit carries a runner marker. */
  lemma {:induction false} AncestorMarkedIffChain(parentOf: int -> int, cmdOf: int -> Option<string>, current: int, hops: nat)
    ensures var chain := Ancestry(parentOf, cmdOf, current, hops);
      AncestorMarked(parentOf, cmdOf, current, hops)
      <==> exists k | 0 <= k < |chain| :: HasRunnerMarker(cmdOf(chain[k]).value)
    decreases hops
  {
    var chain := Ancestry(parentOf, cmdOf, current, hops);
    if hops > 0 {
      var ppid := parentOf(current);
      if ppid > 1 && cmdOf(ppid).Some? {
        var rest := Ancestry(parentOf, cmdOf, ppid, hops - 1);
        AncestorMarkedIffChain(parentOf, cmdOf, ppid, hops - 1);
        assert chain == [ppid] + rest;
        assert AncestorMarked(parentOf, cmdOf, current, hops)
          == (HasRunnerMarker(cmdOf(ppid).value) || AncestorMarked(parentOf, cmdOf, ppid, hops - 1));
        MarkedCons(cmdOf, ppid, rest);
      }
    }
  }

  /** A marked command line occurs in a chain with a first element exactly when it is the first one's or occurs in the rest. */
  lemma MarkedCons(cmdOf: int -> Option<string>, first: int, rest: seq<int>)
    requires cmdOf(first).Some? && forall k | 0 <= k < |rest| :: cmdOf(rest[k]).Some?
    ensures var chain := [first] + rest;
      (exists k | 0 <= k < |chain| :: HasRunnerMarker(cmdOf(chain[k]).value))
      <==> HasRunnerMarker(cmdOf(first).value) || exists k | 0 <= k < |rest| :: HasRunnerMarker(cmdOf(rest[k]).value)
  {
    var chain := [first] + rest;
    assert chain[0] == first;
    assert forall k | 0 < k < |chain| :: chain[k] == rest[k - 1];
    if exists k | 0 <= k < |rest| :: HasRunnerMarker(cmdOf(rest[k]).value) {
      var k :| 0 <= k < |rest| && HasRunnerMarker(cmdOf(rest[k]).value);
      assert chain[k + 1] == rest[k];
    }
    if exists k | 0 <= k < |chain| :: HasRunnerMarker(cmdOf(chain[k]).value) {
      var k :| 0 <= k < |chain| && HasRunnerMarker(cmdOf(chain[k]).value);
      if k > 0 {
        assert rest[k - 1] == chain[k];
      }
    }
  }


  // ---------------------------------------------------------------------
  // _read_branch
  // ---------------------------------------------------------------------

  /** `os.path.join(dir, ".git", "HEAD")`. */
  function HeadPath(dir: string): string {
    PathJoin(PathJoin(dir, ".git"), "HEAD")
  }

  /** Reading the HEAD file of a directory. */
  function HeadProbe(readFile: string -> Option<string>): string -> Option<string> {
    (dir: string) => readFile(HeadPath(dir))
  }

  /**
   * The upward search of `_read_branch` from `path` with `fuel` directories
   * left, going to the parent with `up` and looking with `probe`: what the
   * first successful probe finds, or nothing once `up` no longer changes
   * the directory (the root) or the directories run out.
   */
  function FirstFound(path: string, fuel: nat, up: string -> string, probe: string -> Option<string>): Option<string>
    decreases fuel
  {
    if fuel == 0 then None
    else match probe(path)
      case Some(content) => Some(content)
      case None =>
        var parent := up(path);
        if parent == path then None else FirstFound(parent, fuel - 1, up, probe)
  }

  /** `_read_branch`'s search: the first HEAD file in `path` or one of its parents, at most `fuel` of them. */
  function FoundHead(path: string, fuel: nat, readFile: string -> Option<string>): Option<string> {
    FirstFound(path, fuel, Dirname, HeadProbe(readFile))
  }

  /**
   * `_read_branch(cwd)`: the label of the first HEAD file found from `cwd`
   * upwards within twenty directories, and "" for an unknown directory or
   * when none is found.
   */
  function BranchOf(cwd: string, readFile: string -> Option<string>): (branch: string)
    ensures cwd == UnknownCwd ==> branch == ""
  {
    if cwd == UnknownCwd then ""
    else match FoundHead(cwd, BranchSearchDepth, readFile)
      case None => ""
      case Some(content) => HeadLabel(content)
  }

  /**
   * The directories the search looks in when it finds nothing: `path` and
   * its parents by `up`, up to the root or `fuel` of them.
   */
  function Climb(path: string, fuel: nat, up: string -> string): (dirs: seq<string>)
    ensures |dirs| <= fuel
    ensures fuel > 0 ==> dirs != [] && dirs[0] == path
    decreases fuel
  {
    if fuel == 0 then []
    else
      var parent := up(path);
      if parent == path then [path] else [path] + Climb(parent, fuel - 1, up)
  }

  /**
   * When `up` yields a prefix of its argument (as `os.path.dirname` does),
   * the searched directories go up one level at a time, never repeat a
   * directory in a row, and are all prefixes of the starting path.
   */
  lemma {:induction false} ClimbAncestors(path: string, fuel: nat, up: string -> string)
    requires forall p :: StartsWith(p, up(p))
    ensures forall k | 0 <= k < |Climb(path, fuel, up)| :: StartsWith(path, Climb(path, fuel, up)[k])
    ensures forall k | 0 < k < |Climb(path, fuel, up)| ::
      Climb(path, fuel, up)[k] == up(Climb(path, fuel, up)[k - 1])
      && Climb(path, fuel, up)[k] != Climb(path, fuel, up)[k - 1]
    decreases fuel
  {
    if fuel > 0 {
      var parent := up(path);
      if parent != path {
        var rest := Climb(parent, fuel - 1, up);
        ClimbAncestors(parent, fuel - 1, up);
        StartsWithTrans(path, parent, rest);
        var dirs := Climb(path, fuel, up);
        assert dirs == [path] + rest;
        assert forall k | 0 < k < |dirs| :: dirs[k] == rest[k - 1];
      }
    }
  }

  /** Prefixes compose: a prefix of a prefix of `path` is a prefix of `path`. */
  lemma StartsWithTrans(path: string, parent: string, rest: seq<string>)
    requires StartsWith(path, parent)
    requires forall k | 0 <= k < |rest| :: StartsWith(parent, rest[k])
    ensures forall k | 0 <= k < |rest| :: StartsWith(path, rest[k])
  {
    forall k | 0 <= k < |rest| ensures StartsWith(path, rest[k]) {
      assert path[..|parent|][..|rest[k]|] == path[..|rest[k]|];
    }
  }

  /**
   * The search answers with the `k`-th searched directory when that is the
   * first one whose probe finds something.
   */
  lemma {:induction false} FirstFoundAt(path: string, fuel: nat, up: string -> string, probe: string -> Option<string>, k: nat)
    requires var dirs := Climb(path, fuel, up);
      k < |dirs| && probe(dirs[k]).Some?
      && forall j | 0 <= j < k :: probe(dirs[j]).None?
    ensures FirstFound(path, fuel, up, probe) == probe(Climb(path, fuel, up)[k])
    decreases fuel
  {
    var dirs := Climb(path, fuel, up);
    if k > 0 {
      var parent := up(path);
      assert probe(dirs[0]).None?;
      var rest := Climb(parent, fuel - 1, up);
      assert dirs == [path] + rest;
      forall j | 0 <= j < k - 1 ensures probe(rest[j]).None? {
        assert rest[j] == dirs[j + 1];
      }
      FirstFoundAt(parent, fuel - 1, up, probe, k - 1);
    }
  }

  /** The search finds nothing when no probe of a searched directory finds anything. */
  lemma {:induction false} FirstFoundNone(path: string, fuel: nat, up: string -> string, probe: string -> Option<string>)
    requires forall d | d in Climb(path, fuel, up) :: probe(d).None?
    ensures FirstFound(path, fuel, up, probe) == None
    decreases fuel
  {
    if fuel > 0 {
      var dirs := Climb(path, fuel, up);
      assert path in dirs;
      var parent := up(path);
      if parent != path {
        var rest := Climb(parent, fuel - 1, up);
        assert dirs == [path] + rest;
        forall d | d in rest ensures probe(d).None? {
          assert d in dirs;
        }
        FirstFoundNone(parent, fuel - 1, up, probe);
      }
    }
  }

  /**
   * A working directory one level below a repository's top directory
   * gets the repository's branch when it has no `.git` of its own.
   */
  lemma BranchOfSubdirectory(repo: string, sub: string, readFile: string -> Option<string>)
    requires repo != [] && repo[|repo| - 1] != '/' && repo != UnknownCwd
    requires sub != [] && '/' !in sub
    requires readFile(HeadPath(PathJoin(repo, sub))).None?
    requires readFile(HeadPath(repo)).Some?
    ensures BranchOf(PathJoin(repo, sub), readFile) == HeadLabel(readFile(HeadPath(repo)).value)
  {
    var cwd := PathJoin(repo, sub);
    assert Dirname(cwd) == repo by {
      assert !StartsWith(sub, "/") by {
        assert sub[0] in sub;
      }
      DirnameOfJoin(repo, sub);
    }
    assert cwd != UnknownCwd && cwd != repo by {
      assert |cwd| > |repo|;
    }
    FirstFoundInParent(cwd, BranchSearchDepth, Dirname, HeadProbe(readFile));
  }

  /** Nothing found in `path` itself, the search answers with what its parent holds. */
  lemma FirstFoundInParent(path: string, fuel: nat, up: string -> string, probe: string -> Option<string>)
    requires fuel >= 2 && probe(path).None? && up(path) != path && probe(up(path)).Some?
    ensures FirstFound(path, fuel, up, probe) == probe(up(path))
  {
  }

  // ---------------------------------------------------------------------
  // _measure_cpu
  // ---------------------------------------------------------------------

  /**
   * The CPU percentage from the previous sample of a pid and the current
   * tick count: 0 for a first sample and for a clock that did not advance,
   * otherwise the tick rate per second over the clock-tick rate, in percent.
   */
  function CpuPercent(prev: Option<Sample>, ticks: int, now: real, clkTck: nat): (pct: real)
    requires clkTck > 0
    ensures prev.None? ==> pct == 0.0
    ensures prev.Some? && now - prev.value.1 <= 0.0 ==> pct == 0.0
  {
    if prev.None? then 0.0
    else
      var dt := now - prev.value.1;
      if dt <= 0.0 then 0.0
      else ((ticks - prev.value.0) as real) / (clkTck as real) / dt * 100.0
  }

  /**
   * Over an interval in which the clock advanced, the percentage times the
   * interval in seconds times the clock-tick rate is a hundred times the
   * ticks used: it is the share of one CPU, in percent.
   */
  lemma CpuPercentRate(prev: Sample, ticks: int, now: real, clkTck: nat)
    requires clkTck > 0 && now - prev.1 > 0.0
    ensures CpuPercent(Some(prev), ticks, now, clkTck) * (now - prev.1) * (clkTck as real)
      == 100.0 * ((ticks - prev.0) as real)
  {
    RateTimesInterval((ticks - prev.0) as real, clkTck as real, now - prev.1);
  }

  lemma RateTimesInterval(d: real, c: real, dt: real)
    requires c > 0.0 && dt > 0.0
    ensures d / c / dt * 100.0 * dt * c == 100.0 * d
  {
    var q := d / c;
    assert q * c == d;
    assert q / dt * dt == q;
  }

  /** 50 ticks over 2 seconds at 100 ticks per second is a quarter of a CPU. */
  lemma CpuPercentExample(t: real)
    ensures CpuPercent(Some((100, t)), 150, t + 2.0, 100) == 25.0
  {
  }

  /** A positive percentage means the clock advanced and the process used CPU since the last sample. */
  lemma CpuPercentPositive(prev: Option<Sample>, ticks: int, now: real, clkTck: nat)
    requires clkTck > 0
    ensures CpuPercent(prev, ticks, now, clkTck) > 0.0
      <==> prev.Some? && now - prev.value.1 > 0.0 && ticks > prev.value.0
  {
    if prev.Some? && now - prev.value.1 > 0.0 {
      var d := (ticks - prev.value.0) as real;
      var q := d / (clkTck as real);
      assert d > 0.0 <==> q > 0.0;
      assert q > 0.0 <==> q / (now - prev.value.1) > 0.0;
    }
  }

  /** The `utime + stime` that `_measure_cpu` reads, or `None` where the read or the parse raises. */
  function ReadTicks(fs: ProcFs, pid: int): Option<int> {
    match fs.stat(pid)
    case None => None
    case Some(raw) => StatTicks(raw)
  }

  /**
   * `_measure_cpu(pid)` at clock reading `now`, from the sample map
   * `samples` and the tick count it read: the percentage it returns and
   * the sample map afterwards.
   */
  function MeasureSpec(samples: map<int, Sample>, clkTck: nat, ticks: Option<int>, pid: int, now: real): (r: (real, map<int, Sample>))
    requires clkTck > 0
    ensures ticks.None? ==> r == (0.0, samples)
    ensures ticks.Some? ==> r.1 == samples[pid := (ticks.value, now)]
    ensures pid !in samples ==> r.0 == 0.0
  {
    match ticks
    case None => (0.0, samples)
    case Some(t) =>
      var prev := if pid in samples then Some(samples[pid]) else None;
      (CpuPercent(prev, t, now, clkTck), samples[pid := (t, now)])
  }

  /**
   * A measurement only adds or replaces the sample of `pid`: every other
   * pid keeps its sample, and the keys grow by at most `pid`.
   */
  lemma MeasureKeepsOthers(samples: map<int, Sample>, clkTck: nat, ticks: Option<int>, pid: int, now: real)
    requires clkTck > 0
    ensures var after := MeasureSpec(samples, clkTck, ticks, pid, now).1;
      && samples.Keys <= after.Keys <= samples.Keys + {pid}
      && forall q | q in samples && q != pid :: after[q] == samples[q]
  {
  }

  // ---------------------------------------------------------------------
  // scan
  // ---------------------------------------------------------------------

  /** What a scan has built after some entries: the results, the pids seen and the sample map. */
  datatype ScanState = ScanState(results: seq<ProcessInfo>, seen: set<int>, samples: map<int, Sample>)

  /**
   * What `scan()` leaves from the samples `samples0`: no results and the
   * samples untouched when `/proc` cannot be listed, otherwise the results
   * of visiting every listed entry, the `k`-th at `clock(k)`, and the
   * samples of the pids found.
   */
  function ScanOutcome(fs: ProcFs, ownPid: int, clkTck: nat, samples0: map<int, Sample>, clock: nat -> real)
    : (seq<ProcessInfo>, map<int, Sample>)
    requires clkTck > 0
  {
    if fs.entries.None? then ([], samples0)
    else
      var st := VisitPrefix(fs, ownPid, clkTck, samples0, fs.entries.value, clock, |fs.entries.value|);
      (st.results, Restrict(st.samples, st.seen))
  }

  /** The set of pids in a result list. */
  function PidsOf(results: seq<ProcessInfo>): (pids: set<int>)
    ensures forall k | 0 <= k < |results| :: results[k].pid in pids
    ensures forall p | p in pids :: exists k | 0 <= k < |results| :: results[k].pid == p
  {
    set k | 0 <= k < |results| :: results[k].pid
  }

  /** The body of the entry loop of `scan` for one name listed in /proc, measured at clock reading `now`. */
  function VisitEntry(fs: ProcFs, ownPid: int, clkTck: nat, st: ScanState, entry: string, now: real): ScanState
    requires clkTck > 0
  {
    if !IsDigits(entry) then st
    else
      var pid := DigitsValue(entry);
      if pid == ownPid then st
      else match ReadCmdline(fs, pid)
        case None => st
        case Some(cmd) =>
          match Classify(cmd, pid, RunnerParent(fs, pid))
          case None => st
          case Some(kind) =>
            var (pct, samples) := MeasureSpec(st.samples, clkTck, ReadTicks(fs, pid), pid, now);
            var cwd := ReadCwd(fs, pid);
            var info := ProcessInfo(pid, kind, pct, cwd, BranchOf(cwd, fs.readFile));
            ScanState(st.results + [info], st.seen + {pid}, samples)
  }

  /** The state after the first `n` entries, the `k`-th measured at `clock(k)`. */
  function VisitPrefix(fs: ProcFs, ownPid: int, clkTck: nat, samples0: map<int, Sample>,
                       entries: seq<string>, clock: nat -> real, n: nat): ScanState
    requires clkTck > 0 && n <= |entries|
  {
    if n == 0 then ScanState([], {}, samples0)
    else VisitEntry(fs, ownPid, clkTck, VisitPrefix(fs, ownPid, clkTck, samples0, entries, clock, n - 1), entries[n - 1], clock(n - 1))
  }

  /** `m` without the keys outside `keep`. */
  function Restrict(m: map<int, Sample>, keep: set<int>): (r: map<int, Sample>)
    ensures r.Keys == m.Keys * keep
    ensures forall k | k in r :: r[k] == m[k]
  {
    map k | k in m && k in keep :: m[k]
  }

  /** A pid listed in /proc as a decimal name among the first `n` entries. */
  predicate ListedPid(entries: seq<string>, n: nat, pid: int)
    requires n <= |entries|
  {
    exists k | 0 <= k < n :: IsDigits(entries[k]) && DigitsValue(entries[k]) == pid
  }

  /** A result is an instance: its command line is readable and classifies as its kind. */
  predicate Classified(fs: ProcFs, info: ProcessInfo) {
    var cmd := ReadCmdline(fs, info.pid);
    cmd.Some? && Classify(cmd.value, info.pid, RunnerParent(fs, info.pid)) == Some(info.kind)
  }

  /**
   * A result as the entry loop builds it: not the scanner itself,
   * classified as reported, with its working directory and branch.
   */
  predicate Found(fs: ProcFs, ownPid: int, info: ProcessInfo) {
    && info.pid != ownPid
    && Classified(fs, info)
    && info.cwd == ReadCwd(fs, info.pid)
    && info.branch == BranchOf(info.cwd, fs.readFile)
  }

  /**
   * One entry either leaves the state alone or appends one result, for
   * the pid the entry names, adds that pid to the seen set and changes the
   * sample map only at that pid.
   */
  lemma VisitEntryStep(fs: ProcFs, ownPid: int, clkTck: nat, st: ScanState, entry: string, now: real)
    requires clkTck > 0
    ensures var next := VisitEntry(fs, ownPid, clkTck, st, entry, now);
      next == st
      || exists info: ProcessInfo ::
           && IsDigits(entry) && info.pid == DigitsValue(entry) && Found(fs, ownPid, info)
           && next.results == st.results + [info]
           && next.seen == st.seen + {info.pid}
           && next.samples.Keys <= st.samples.Keys + {info.pid}
  {
    var next := VisitEntry(fs, ownPid, clkTck, st, entry, now);
    if IsDigits(entry) {
      var pid := DigitsValue(entry);
      var cmd := ReadCmdline(fs, pid);
      if pid != ownPid && cmd.Some? {
        var kind := Classify(cmd.value, pid, RunnerParent(fs, pid));
        if kind.Some? {
          var m := MeasureSpec(st.samples, clkTck, ReadTicks(fs, pid), pid, now);
          var cwd := ReadCwd(fs, pid);
          var info := ProcessInfo(pid, kind.value, m.0, cwd, BranchOf(cwd, fs.readFile));
          assert next == ScanState(st.results + [info], st.seen + {pid}, m.1);
          MeasureKeepsOthers(st.samples, clkTck, ReadTicks(fs, pid), pid, now);
          assert Found(fs, ownPid, info);
        }
      }
    }
  }

  /** Appending a result adds its pid to the pid set. */
  lemma PidsOfAppend(results: seq<ProcessInfo>, info: ProcessInfo)
    ensures PidsOf(results + [info]) == PidsOf(results) + {info.pid}
  {
    var all := results + [info];
    assert all[|results|] == info;
    forall p | p in PidsOf(results) ensures p in PidsOf(all) {
      var k :| 0 <= k < |results| && results[k].pid == p;
      assert all[k] == results[k];
    }
  }

  /**
   * What the entry loop keeps true after the first `n` entries: the seen
   * set is the set of result pids, the sample map only gained keys of
   * results, and every result is a pid listed among the entries visited
   * and was found as described.
   */
  predicate LoopFacts(fs: ProcFs, ownPid: int, samples0: map<int, Sample>, entries: seq<string>, n: nat, st: ScanState)
    requires n <= |entries|
  {
    && st.seen == PidsOf(st.results)
    && st.samples.Keys <= samples0.Keys + st.seen
    && AllListed(entries, n, st.results)
    && AllFound(fs, ownPid, st.results)
  }

  /** Every result names a pid listed among the first `n` entries. */
  predicate AllListed(entries: seq<string>, n: nat, results: seq<ProcessInfo>)
    requires n <= |entries|
  {
    forall k | 0 <= k < |results| :: ListedPid(entries, n, results[k].pid)
  }

  /** Every result is one the entry loop would build. */
  predicate AllFound(fs: ProcFs, ownPid: int, results: seq<ProcessInfo>) {
    forall k | 0 <= k < |results| :: Found(fs, ownPid, results[k])
  }

  /** A pid named among the first entries is named among more of them. */
  lemma ListedPidMore(entries: seq<string>, n: nat, pid: int)
    requires 0 < n <= |entries| && ListedPid(entries, n - 1, pid)
    ensures ListedPid(entries, n, pid)
  {
    var j :| 0 <= j < n - 1 && IsDigits(entries[j]) && DigitsValue(entries[j]) == pid;
  }

  /** Results listed among the first entries are listed among more of them. */
  lemma AllListedMore(entries: seq<string>, n: nat, results: seq<ProcessInfo>)
    requires 0 < n <= |entries| && AllListed(entries, n - 1, results)
    ensures AllListed(entries, n, results)
  {
    forall k | 0 <= k < |results| ensures ListedPid(entries, n, results[k].pid) {
      ListedPidMore(entries, n, results[k].pid);
    }
  }

  /** Appending a listed result keeps every result listed. */
  lemma AllListedAppend(entries: seq<string>, n: nat, results: seq<ProcessInfo>, info: ProcessInfo)
    requires n <= |entries| && AllListed(entries, n, results) && ListedPid(entries, n, info.pid)
    ensures AllListed(entries, n, results + [info])
  {
    forall k | 0 <= k < |results + [info]| ensures ListedPid(entries, n, (results + [info])[k].pid) {
      if k < |results| {
        assert (results + [info])[k] == results[k];
      }
    }
  }

  /** Appending a found result keeps every result found. */
  lemma AllFoundAppend(fs: ProcFs, ownPid: int, results: seq<ProcessInfo>, info: ProcessInfo)
    requires AllFound(fs, ownPid, results) && Found(fs, ownPid, info)
    ensures AllFound(fs, ownPid, results + [info])
  {
    forall k | 0 <= k < |results + [info]| ensures Found(fs, ownPid, (results + [info])[k]) {
      if k < |results| {
        assert (results + [info])[k] == results[k];
      }
    }
  }

  /** The loop facts survive an entry that appends a result found for the pid it names. */
  lemma LoopFactsAppend(fs: ProcFs, ownPid: int, samples0: map<int, Sample>, entries: seq<string>, n: nat,
                        prev: ScanState, info: ProcessInfo, st: ScanState)
    requires 0 < n <= |entries|
    requires LoopFacts(fs, ownPid, samples0, entries, n - 1, prev)
    requires IsDigits(entries[n - 1]) && info.pid == DigitsValue(entries[n - 1]) && Found(fs, ownPid, info)
    requires st.results == prev.results + [info] && st.seen == prev.seen + {info.pid}
    requires st.samples.Keys <= prev.samples.Keys + {info.pid}
    ensures LoopFacts(fs, ownPid, samples0, entries, n, st)
  {
    PidsOfAppend(prev.results, info);
    AllListedMore(entries, n, prev.results);
    assert ListedPid(entries, n, info.pid);
    AllListedAppend(entries, n, prev.results, info);
    AllFoundAppend(fs, ownPid, prev.results, info);
  }

  /** The loop facts survive an entry that appends a result, and one that changes nothing. */
  lemma LoopFactsStep(fs: ProcFs, ownPid: int, samples0: map<int, Sample>, entries: seq<string>, n: nat,
                      prev: ScanState, st: ScanState)
    requires 0 < n <= |entries|
    requires LoopFacts(fs, ownPid, samples0, entries, n - 1, prev)
    requires st == prev
      || exists info: ProcessInfo ::
           && IsDigits(entries[n - 1]) && info.pid == DigitsValue(entries[n - 1]) && Found(fs, ownPid, info)
           && st.results == prev.results + [info]
           && st.seen == prev.seen + {info.pid}
           && st.samples.Keys <= prev.samples.Keys + {info.pid}
    ensures LoopFacts(fs, ownPid, samples0, entries, n, st)
  {
    if st == prev {
      AllListedMore(entries, n, prev.results);
    } else {
      var info: ProcessInfo :| && IsDigits(entries[n - 1]) && info.pid == DigitsValue(entries[n - 1])
        && Found(fs, ownPid, info)
        && st.results == prev.results + [info]
        && st.seen == prev.seen + {info.pid}
        && st.samples.Keys <= prev.samples.Keys + {info.pid};
      LoopFactsAppend(fs, ownPid, samples0, entries, n, prev, info, st);
    }
  }

  /** The loop facts hold after every prefix of the entries. */
  lemma {:induction false} VisitPrefixFacts(fs: ProcFs, ownPid: int, clkTck: nat, samples0: map<int, Sample>,
                                             entries: seq<string>, clock: nat -> real, n: nat)
    requires clkTck > 0 && n <= |entries|
    ensures LoopFacts(fs, ownPid, samples0, entries, n, VisitPrefix(fs, ownPid, clkTck, samples0, entries, clock, n))
  {
    if n > 0 {
      VisitPrefixFacts(fs, ownPid, clkTck, samples0, entries, clock, n - 1);
      var prev := VisitPrefix(fs, ownPid, clkTck, samples0, entries, clock, n - 1);
      VisitEntryStep(fs, ownPid, clkTck, prev, entries[n - 1], clock(n - 1));
      LoopFactsStep(fs, ownPid, samples0, entries, n, prev, VisitPrefix(fs, ownPid, clkTck, samples0, entries, clock, n));
    }
  }

  /**
   * After a scan the sample map holds samples only of pids it reported:
   * the purge leaves no stale entry behind.
   */
  lemma ScanSamplesReported(fs: ProcFs, ownPid: int, clkTck: nat, samples0: map<int, Sample>,
                            entries: seq<string>, clock: nat -> real)
    requires clkTck > 0
    ensures var st := VisitPrefix(fs, ownPid, clkTck, samples0, entries, clock, |entries|);
      Restrict(st.samples, st.seen).Keys <= PidsOf(st.results)
  {
    VisitPrefixFacts(fs, ownPid, clkTck, samples0, entries, clock, |entries|);
  }

  // ---------------------------------------------------------------------
  // The scanner
  // ---------------------------------------------------------------------

  /** `ProcessScanner`: its own pid, the clock-tick rate and the CPU sample map. */
  class ProcessScanner {
    const ownPid: int
    const clkTck: nat
    var prevSamples: map<int, Sample>

    predicate Valid() {
      clkTck > 0
    }

    /** `ProcessScanner()`, given the pid and the `SC_CLK_TCK` value the system reports. */
    constructor(ownPid: int, clkTck: nat)
      requires clkTck > 0
      ensures Valid()
      ensures this.ownPid == ownPid && this.clkTck == clkTck && prevSamples == map[]
    {
      this.ownPid := ownPid;
      this.clkTck := clkTck;
      prevSamples := map[];
    }

    /** `_measure_cpu(pid)` with the clock reading `now`: the stat read and parse, then the sample. */
    method MeasureCpu(fs: ProcFs, pid: int, now: real) returns (pct: real)
      requires Valid()
      modifies this
      ensures pct == MeasureSpec(old(prevSamples), clkTck, ReadTicks(fs, pid), pid, now).0
      ensures prevSamples == MeasureSpec(old(prevSamples), clkTck, ReadTicks(fs, pid), pid, now).1
    {
      var ticks := ReadTicks(fs, pid);
      pct := RecordSample(ticks, pid, now);
    }

    /** The part of `_measure_cpu` after the parse: record the sample and compute the percentage. */
    method RecordSample(ticks: Option<int>, pid: int, now: real) returns (pct: real)
      requires Valid()
      modifies this
      ensures pct == MeasureSpec(old(prevSamples), clkTck, ticks, pid, now).0
      ensures prevSamples == MeasureSpec(old(prevSamples), clkTck, ticks, pid, now).1
    {
      if ticks.None? {
        return 0.0;
      }
      var prev: Option<Sample> := None;
      if pid in prevSamples {
        prev := Some(prevSamples[pid]);
      }
      prevSamples := prevSamples[pid := (ticks.value, now)];
      if prev.None? {
        return 0.0;
      }
      var dt := now - prev.value.1;
      if dt <= 0.0 {
        return 0.0;
      }
      pct := ((ticks.value - prev.value.0) as real) / (clkTck as real) / dt * 100.0;
    }

    /** `_is_runner_parent(pid)`: at most five parents, then the marker file. */
    method IsRunnerParent(fs: ProcFs, pid: int) returns (marked: bool)
      ensures marked == RunnerParent(fs, pid)
    {
      marked := WalkAncestors(ParentOf(fs), CmdOf(fs), pid);
      if marked {
        return;
      }
      var cwd := ReadCwd(fs, pid);
      if cwd != UnknownCwd && fs.pathExists(PathJoin(cwd, RunnerMarkerFile)) {
        return true;
      }
      return false;
    }

    /** The loop of `_is_runner_parent` over the parent and command-line reads. */
    method WalkAncestors(parentOf: int -> int, cmdOf: int -> Option<string>, pid: int) returns (marked: bool)
      ensures marked == AncestorMarked(parentOf, cmdOf, pid, AncestorHops)
    {
      var current := pid;
      var i := 0;
      var stopped := false;
      while i < AncestorHops && !stopped
        invariant 0 <= i <= AncestorHops
        invariant !stopped ==> AncestorMarked(parentOf, cmdOf, pid, AncestorHops) == AncestorMarked(parentOf, cmdOf, current, AncestorHops - i)
        invariant stopped ==> !AncestorMarked(parentOf, cmdOf, pid, AncestorHops)
        decreases AncestorHops - i, if stopped then 0 else 1
      {
        var ppid := parentOf(current);
        if ppid <= 1 {
          stopped := true;
        } else {
          var parentCmd := cmdOf(ppid);
          if parentCmd.None? {
            stopped := true;
          } else {
            if Contains(parentCmd.value, "runner") && Contains(parentCmd.value, "work") {
              return true;
            }
            if Contains(parentCmd.value, "tmux") {
              return true;
            }
            current := ppid;
            i := i + 1;
          }
        }
      }
      return false;
    }

    /** `_read_branch(cwd)`: at most twenty directories, going up. */
    method ReadBranch(cwd: string, readFile: string -> Option<string>) returns (branch: string)
      ensures branch == BranchOf(cwd, readFile)
    {
      if cwd == UnknownCwd {
        return "";
      }
      var path := cwd;
      var i := 0;
      while i < BranchSearchDepth
        invariant 0 <= i <= BranchSearchDepth
        invariant FoundHead(cwd, BranchSearchDepth, readFile) == FoundHead(path, BranchSearchDepth - i, readFile)
        decreases BranchSearchDepth - i
      {
        var content := readFile(HeadPath(path));
        if content.Some? {
          return HeadLabel(content.value);
        }
        var parent := Dirname(path);
        if parent == path {
          break;
        }
        path := parent;
        i := i + 1;
      }
      return "";
    }

    /** `_classify(cmdline, pid)`: the ancestry is walked only for a non-zero pid that matched as a CLI. */
    method ClassifyProcess(fs: ProcFs, cmdline: string, pid: int) returns (kind: Option<Kind>)
      ensures kind == Classify(cmdline, pid, RunnerParent(fs, pid))
    {
      ClassifyAncestryOnlyForCli(cmdline, pid);
      kind := Classify(cmdline, pid, false);
      if kind == Some(Cli) && pid != 0 {
        var runner := IsRunnerParent(fs, pid);
        if runner {
          kind := Some(Runner);
        }
      }
    }

    /**
     * `scan()`, the measurement of the `k`-th listed entry taken at clock
     * reading `clock(k)`: the instances found, in listing order, and the
     * sample map purged of every pid not found.
     */
    method Scan(fs: ProcFs, clock: nat -> real) returns (results: seq<ProcessInfo>)
      requires Valid()
      modifies this
      ensures (results, prevSamples) == ScanOutcome(fs, ownPid, clkTck, old(prevSamples), clock)
    {
      results := [];
      var seen: set<int> := {};
      if fs.entries.None? {
        return;
      }
      var entries := fs.entries.value;
      var i := 0;
      while i < |entries|
        invariant 0 <= i <= |entries|
        invariant ScanState(results, seen, prevSamples) == VisitPrefix(fs, ownPid, clkTck, old(prevSamples), entries, clock, i)
      {
        results, seen := VisitOne(fs, results, seen, entries[i], clock(i));
        i := i + 1;
      }
      PurgeSamples(seen);
    }

    /**
     * The body of the entry loop of `scan` for one name listed in /proc,
     * at clock reading `now`: a process of our own kind other than this one
     * is measured, located and appended to the results.
     */
    method VisitOne(fs: ProcFs, results: seq<ProcessInfo>, seen: set<int>, entry: string, now: real)
      returns (results': seq<ProcessInfo>, seen': set<int>)
      requires Valid()
      modifies this
      ensures ScanState(results', seen', prevSamples) ==
        VisitEntry(fs, ownPid, clkTck, ScanState(results, seen, old(prevSamples)), entry, now)
    {
      results', seen' := results, seen;
      if IsDigits(entry) {
        var pid := DigitsValue(entry);
        if pid != ownPid {
          var cmdline := ReadCmdline(fs, pid);
          if cmdline.Some? {
            var kind := ClassifyProcess(fs, cmdline.value, pid);
            if kind.Some? {
              var pct := MeasureCpu(fs, pid, now);
              var cwd := ReadCwd(fs, pid);
              var branch := ReadBranch(cwd, fs.readFile);
              results' := results + [ProcessInfo(pid, kind.value, pct, cwd, branch)];
              seen' := seen + {pid};
            }
          }
        }
      }
    }

    /** The purge at the end of `scan`: the samples of pids not seen in this scan are dropped. */
    method PurgeSamples(seen: set<int>)
      modifies this`prevSamples
      ensures prevSamples == Restrict(old(prevSamples), seen)
    {
      var unpurged := prevSamples;
      var keys := prevSamples.Keys;
      while keys != {}
        invariant keys <= unpurged.Keys
        invariant prevSamples == map k | k in unpurged && (k in seen || k in keys) :: unpurged[k]
        decreases |keys|
      {
        assert exists q :: q in keys by {
          if forall q :: q !in keys {
            assert false;
          }
        }
        var pid :| pid in keys;
        if pid !in seen {
          prevSamples := prevSamples - {pid};
        }
        keys := keys - {pid};
      }
    }
  }
}

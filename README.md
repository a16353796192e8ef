# crab.py in Dafny

A model of the core of `crab.py`, a terminal tracker that shows one animated
crab per running Claude Code instance. The model covers five parts.

- **The process scanner** (`ProcessScanner`). It lists `/proc` and keeps each
  process whose command line classifies as an instance. The kinds are a
  plain CLI, a VS Code extension host, or a runner, and a runner is
  recognised from its ancestry or a marker file. For each instance the
  scanner measures CPU use from the `utime`/`stime` tick counters, reads
  the working directory, and reads the git branch checked out there.
- **The CPU sampler's state.** Per pid it keeps the last tick count and the
  time it was taken. A scan purges the pids it no longer reports.
- **The crab** (`CrabEntity`). It holds its activity flag, its animation
  counters, and its position and velocity. Walking bounces off the screen
  edges and jitters the heading. Sleeping advances the snore frame.
- **The main loop's registry** (`_main`). It holds the map from pid to crab,
  the colour counter and the time of the last scan. Every `SCAN_INTERVAL`
  seconds it reconciles a scan into the crabs, handing colours out in turn
  and dropping vanished pids. On every frame it steps each crab and counts
  the active and idle ones.
- **The Python built-ins the parsers rely on.** These are `str.isspace`,
  `strip`, `split`, `int`, `rfind`, `os.path.dirname` and `os.path.join`,
  in `Text`.

Modules and files:

- `wrappers.dfy`: `Option`.
- `text.dfy`: the string built-ins.
- `proc_parse.dfy`: the parsers for `/proc/<pid>/cmdline`, `status` and
  `stat`, and for `.git/HEAD`.
- `classifier.dfy`: `_classify`.
- `scanner.dfy`: the `/proc` reads as a `ProcFs` value, one specification
  function per scanner method, and the class `ProcessScanner`.
- `crab.dfy`: the class `CrabEntity`.
- `registry.dfy`: the class `CrabRegistry`, which holds the state of
  `_main`'s loop.

The world outside the program is passed in as parameters:

- **What the scanner reads.** Each `/proc` file, the cwd link, file
  existence and file contents form one `ProcFs` value. A read that raises
  is `None`.
- **The monotonic clock.** The scan's `k`-th entry is measured at
  `clock(k)`.
- **The random draws.** Each is a `Unit` in [0, 1), and
  `random.uniform(a, b)` is `a + (b - a) * u`.
- **The trigonometry.** A `Trig` record stands for `math.cos`, `sin`,
  `atan2` and `hypot`.

The scanner's methods return or store what a specification function of
the inputs prescribes (`MeasureSpec`, `ScanOutcome`, `AncestorMarked`,
`BranchOf`, `Classify`). Each crab method gives the crab's whole new state
as a function of the old one (`SetActiveState`, `UpdateState`, `WalkState`,
`BoundsState`). The registry keeps a ghost map from pid to crab state that
mirrors its crabs; its methods give the new map through `Reconciled` and
`StepState`. The properties the source promises are proved as lemmas about
these functions, and some are stated directly in the methods' contracts.

## Model

| member | source | states |
|---|---|---|
| Text.VisibleText | crab.py:171 | a string of non-blank characters contains no `str.isspace` character |
| Text.LastIndexOf | crab.py:229 | `rfind`: -1 or an index holding the character, with no occurrence after it |
| Text.LastIndexOfAfter | crab.py:229-230 | `rfind(")")` on `a + ")" + b` with no `)` in `b` finds the index just after `a` |
| Text.Drop | crab.py:230 | `s[k:]`: a suffix of `s`, `k` characters shorter, and empty once `k` passes the end |
| Text.Take | crab.py:217 | `s[:k]`: a prefix of `s` of length `min(k, len(s))` |
| Text.TakeDrop | crab.py:217 | `s[:k] + s[k:] == s`: the two slices at one index split the string |
| Text.TrimLeft | crab.py:151 | the result is a suffix, what it drops is all whitespace, and it starts with a non-space |
| Text.TrimRight | crab.py:151 | the result is a prefix, what it drops is all whitespace, and it ends with a non-space |
| Text.Strip | crab.py:151 | `str.strip()`: no longer than the input, with no whitespace at either end |
| Text.TrimLeftPadded | crab.py:214 | leading blanks are removed exactly, up to the first non-space |
| Text.TrimRightPadded | crab.py:214 | trailing blanks are removed exactly, back to the last non-space |
| Text.StripPadded | crab.py:214 | stripping blank padding from both ends of a trimmed text gives that text back |
| Text.StripTrailing | crab.py:214 | stripping a trimmed text followed by blanks gives the text |
| Text.StripIdempotent | crab.py:151 | stripping twice is stripping once |
| Text.StripTrimmed | crab.py:151 | a text with no whitespace at either end is unchanged by `strip` |
| Text.SplitOn | crab.py:169 | splitting at separators gives at least one piece, and no piece holds a separator |
| Text.NonEmpty | crab.py:171 | the non-empty pieces, each one of the input pieces |
| Text.Words | crab.py:171 | `str.split()`: non-empty words with no whitespace in them |
| Text.SplitOnPrefix | crab.py:169 | splitting text after a separator-free prefix glues that prefix to the first piece |
| Text.SplitOnJoin | crab.py:169 | splitting a join of separator-free pieces at the separator recovers the pieces (round trip) |
| Text.NonEmptyKeeps | crab.py:171 | dropping empty pieces keeps a list that has none |
| Text.WordsJoin | crab.py:171 | `split()` of non-blank words joined by one space character recovers the words (round trip) |
| Text.DigitValue | crab.py:120 | a decimal digit's value is below ten |
| Text.DigitChar | crab.py:120 | the digit for a value below ten is a digit with that value (inverse of DigitValue) |
| Text.NatToString | crab.py:120 | the decimal text of a number is all digits |
| Text.NatToStringValue | crab.py:120 | reading back the decimal text of a number gives the number (round trip) |
| Text.RemoveUnderscores | crab.py:171 | `int()` accepts single underscores between digit groups; without them only digits remain |
| Text.RemoveUnderscoresDigits | crab.py:171 | a string of plain digits has no underscores to remove |
| Text.ParseUnsignedDigits | crab.py:231-232 | unsigned digits parse to their decimal value |
| Text.DigitNotSpace | crab.py:171 | a digit is not whitespace |
| Text.StripDigits | crab.py:171 | `strip` leaves a digit string unchanged |
| Text.ParseIntDigits | crab.py:231-232 | `int()` of a digit string is its decimal value |
| Text.ParseIntNatToString | crab.py:171 | `int(str(n)) == n` for every natural number (round trip) |
| Text.ParseIntShape | crab.py:171 | `int()` of a blank string fails, and a negative result comes from text starting with `-` |
| Text.TrimRightChar | crab.py:219 | removes exactly the trailing run of one character |
| Text.Dirname | crab.py:219 | `os.path.dirname`: the result is a prefix of the path |
| Text.DirnameFixpoint | crab.py:219-221 | `dirname(p) == p` exactly when `p` is empty or all slashes (the root), which is where the upward search stops |
| Text.DirnameOfJoin | crab.py:211-219 | the parent of `join(a, b)` is `a`, for a non-empty `a` not ending in a slash and a name `b` without slashes |
| Text.TrimOneSlash | crab.py:219 | trimming trailing slashes from `a + "/"` gives `a` when `a` does not end in a slash |
| ProcParse.NulToSpace | crab.py:151 | replaces every NUL by a space and changes nothing else |
| ProcParse.CmdlineText | crab.py:148-151 | `_read_cmdline` holds no NUL |
| ProcParse.NulToSpaceAppend | crab.py:151 | the NUL replacement distributes over concatenation |
| ProcParse.NulToSpaceJoin | crab.py:151 | NUL-separated arguments become space-separated |
| ProcParse.CmdlineOfArgv | crab.py:148-151 | the cmdline file of non-blank arguments reads as the arguments joined by spaces |
| ProcParse.Lines | crab.py:169 | the lines of a file hold no line breaks |
| ProcParse.PpidFromLines | crab.py:169-175 | no line starting with `PPid:` gives 0 |
| ProcParse.PpidFromLinesSkip | crab.py:169-170 | lines before the first `PPid:` line do not affect the answer |
| ProcParse.PpidOfStatusLine | crab.py:166-175 | a status file whose first `PPid:` line is `PPid:\t<n>` gives `n` |
| ProcParse.PpidLineWords | crab.py:171 | `PPid:\t<n>` starts with `PPid:` and splits into `PPid:` and the digits of `n` |
| ProcParse.PpidFromFirstLine | crab.py:170-171 | a first line starting with `PPid:` whose second word parses decides the answer |
| ProcParse.JoinAvoids | crab.py:229-230 | joining pieces free of a character by another one yields none of it |
| ProcParse.StatTail | crab.py:229-230 | cutting after the last `)` plus one character yields the text after `) ` |
| ProcParse.StatFieldsAfterParen | crab.py:229-230 | the fields after the last `)` are the space-separated tail fields, whatever the command name holds |
| ProcParse.TicksOfDecimalFields | crab.py:231-237 | decimal `utime` and `stime` in fields 11 and 12 give their sum |
| ProcParse.TicksOfParsedFields | crab.py:231-237 | fields 11 and 12 parsing to `u` and `s` give `u + s` |
| ProcParse.StatTicksFields | crab.py:226-237 | a stat line `... ) f0 f1 ...` with decimal fields 11 and 12 gives their sum |
| ProcParse.HeadLabel | crab.py:214-217 | the label is no longer than the HEAD file |
| ProcParse.RefEnds | crab.py:214-216 | a `ref: refs/heads/<branch>` text has no whitespace at either end |
| ProcParse.RefBranch | crab.py:215-216 | the text after the 16-character prefix is the branch |
| ProcParse.HeadLabelBranch | crab.py:214-216 | a HEAD file holding a ref line and trailing blanks gives the branch name |
| ProcParse.HeadLabelDetached | crab.py:214-217 | a detached HEAD holding a hash gives the hash's first twelve characters |
| ProcParse.NotRefPrefix | crab.py:215 | a text starting with a hex digit is not a ref line |
| Classifier.Classify | crab.py:153-164 | an empty line is not an instance, and a runner needs a non-zero pid and a runner ancestry |
| Classifier.ClassifyRules | crab.py:156-163 | the VS Code marker decides first and alone; a match naming a denylisted tool is rejected; any other instance matched the pattern and passed the denylist |
| Classifier.ClassifyAncestryOnlyForCli | crab.py:161-163 | the ancestry answer changes the kind only of a would-be CLI instance with a non-zero pid, turning it into a runner |
| Classifier.ClassifyMatch | crab.py:158-163 | for a line that matches the pattern without the marker, it is an instance exactly when it passes the denylist |
| Classifier.NotDenied | crab.py:159 | a line missing one character of each denylisted name is not denied |
| Classifier.NoMarker | crab.py:156 | a line without a `p` does not contain the marker |
| Classifier.ClassifyBareName | crab.py:158-163 | `claude` alone is a CLI instance |
| Classifier.ClassifyInvocation | crab.py:158-163 | `<dir>/claude <args>` without the marker or a denylisted name is a runner when the pid is non-zero and the ancestry says so, a CLI instance otherwise |
| Classifier.ClassifyPathWithArgs | crab.py:158-162 | `/usr/local/bin/claude --resume` with a runner ancestry is a runner |
| Classifier.ClassifyLongerWord | crab.py:156-163 | `claude` followed directly by a non-blank character, with no later `claude` and no VS Code marker, does not match the pattern, so the line is not an instance |
| Classifier.ClassifyPackageName | crab.py:158 | `claude-code` is not an instance |
| Classifier.MatchesClaudeContains | crab.py:158 | a line the pattern matches contains `claude` |
| Classifier.ClassifyExtensionHost | crab.py:156-157 | any line containing the extension marker is a VS Code instance |
| Scanner.ReadPpid | crab.py:166-175 | an unreadable status file gives 0 |
| Scanner.ReadCmdline | crab.py:148-151 | no command line exactly when the file cannot be read; one that is read holds no NUL and is no longer than the file |
| Scanner.ReadCwd | crab.py:200-204 | an unreadable link gives `?`; any other answer is exactly the link target |
| Scanner.Ancestry | crab.py:178-191 | the parents the walk visits: at most five, each the parent of the one before, each above 1 and readable |
| Scanner.AncestorMarkedIffChain | crab.py:179-191 | the ancestor walk answers true exactly when some parent it visits has `runner` and `work`, or `tmux`, in its command line |
| Scanner.MarkedCons | crab.py:179-191 | a chain is marked exactly when its first parent or the rest is |
| Scanner.BranchOf | crab.py:206-223 | the unknown directory `?` has no branch |
| Scanner.Climb | crab.py:209-222 | the directories searched start at the working directory, at most twenty of them |
| Scanner.ClimbAncestors | crab.py:209-222 | every directory searched is a prefix of the working directory and the parent of the one before |
| Scanner.StartsWithTrans | crab.py:219 | prefixes of prefixes are prefixes |
| Scanner.FirstFoundAt | crab.py:210-222 | the search answers with the first directory that has a HEAD file |
| Scanner.FirstFoundNone | crab.py:210-223 | with no HEAD file in any directory searched, the search finds nothing |
| Scanner.FirstFoundInParent | crab.py:210-222 | with no HEAD here but one in the parent, the search answers the parent's |
| Scanner.BranchOfSubdirectory | crab.py:206-222 | a working directory one level inside a repository shows the repository's branch |
| Scanner.CpuPercent | crab.py:239-250 | 0 for a first sample and for a clock that did not advance |
| Scanner.CpuPercentRate | crab.py:246-250 | percent × interval × tick rate = 100 × ticks used: the share of one CPU |
| Scanner.RateTimesInterval | crab.py:250 | the division chain of the rate is undone by multiplying back |
| Scanner.CpuPercentExample | crab.py:250 | 50 ticks over 2 seconds at 100 ticks per second is 25 percent |
| Scanner.CpuPercentPositive | crab.py:242-250 | a positive percentage exactly when there was a sample, the clock advanced, and ticks grew |
| Scanner.MeasureSpec | crab.py:225-250 | a failed read returns 0 and leaves the samples alone; otherwise the pid's sample becomes (ticks, now), and a pid without a sample gets 0 |
| Scanner.MeasureKeepsOthers | crab.py:239-240 | a measurement changes the sample map only at its pid |
| Scanner.PidsOf | crab.py:139 | the set of pids of the results, no more and no less |
| Scanner.Restrict | crab.py:141-144 | the purge keeps exactly the sampled pids in the keep set, with their samples |
| Scanner.VisitEntryStep | crab.py:117-139 | one `/proc` entry changes nothing, or appends one instance for the pid it names, found as the loop describes, adding that pid to the seen set |
| Scanner.PidsOfAppend | crab.py:136-139 | appending a result adds its pid |
| Scanner.LoopFactsStep | crab.py:117-139 | the loop facts survive one entry |
| Scanner.LoopFactsAppend | crab.py:128-139 | an entry that appends a result found for the pid it names keeps the loop facts |
| Scanner.VisitPrefixFacts | crab.py:117-139 | after any prefix of entries: seen pids are the result pids, new samples belong to results, and each result is a listed pid, not the scanner, classified, with its cwd and branch |
| Scanner.ScanSamplesReported | crab.py:141-146 | after a scan, the sample map holds only pids the scan reported |
| Scanner.ProcessScanner.constructor | crab.py:103-106 | own pid and tick rate given, no samples |
| Scanner.ProcessScanner.MeasureCpu | crab.py:225-250 | returns and stores what MeasureSpec prescribes for the ticks read from `stat` |
| Scanner.ProcessScanner.RecordSample | crab.py:237-250 | the sampling half of `_measure_cpu`, as MeasureSpec prescribes |
| Scanner.ProcessScanner.IsRunnerParent | crab.py:177-198 | the answer is the ancestor walk or the marker file in the working directory |
| Scanner.ProcessScanner.WalkAncestors | crab.py:178-191 | the loop over at most five parents answers AncestorMarked |
| Scanner.ProcessScanner.ReadBranch | crab.py:206-223 | the loop over up to twenty directories answers BranchOf |
| Scanner.ProcessScanner.ClassifyProcess | crab.py:153-164 | `_classify` with the runner-parent reads, as Classify prescribes |
| Scanner.ProcessScanner.Scan | crab.py:108-146 | an unlistable `/proc` gives no results and keeps the samples; otherwise the results of VisitPrefix over all entries, and the samples purged to the pids seen |
| Scanner.ProcessScanner.VisitOne | crab.py:117-139 | one pass of the entry loop is VisitEntry |
| Scanner.ProcessScanner.PurgeSamples | crab.py:141-144 | the sample map becomes its restriction to the pids seen |
| Crab.Colour.Name | crab.py:74 | every colour's name is in `COLOR_NAMES` |
| Crab.Colour.Pair | crab.py:76-84 | the curses pair is 1 to 7 and names the colour at that position of `COLOR_NAMES` |
| Crab.ColorFor | crab.py:500 | the `n`-th crab's colour is `COLOR_NAMES[n % 7]` |
| Crab.Uniform | crab.py:282-285 | `random.uniform(a, b)` lies in [a, b) |
| Crab.ScaledDraw | crab.py:282-285 | a draw scaled by a positive width stays below it |
| Crab.VelocitySpeed | crab.py:286-287 | a velocity from a point on the unit circle has the given speed |
| Crab.RerollSpeed | crab.py:304-305 | the speed drawn lies in [0.3, 0.7) |
| Crab.JitterSpeed | crab.py:354 | the speed kept is clamped into [0.3, 0.7], unchanged when already inside |
| Crab.JitterTurn | crab.py:355 | the turn lies in [-0.4, 0.4) |
| Crab.JitteredSpeed | crab.py:353-357 | after a jitter the speed is between 0.3 and 0.7 |
| Crab.Abs | crab.py:332 | `abs`: non-negative, and the value or its negation |
| Crab.Max | crab.py:343 | `max`: at least both, and one of them |
| Crab.Clamp | crab.py:364-365 | `max(lo, min(v, hi))`: at least `lo`, at most `hi` when `lo <= hi`, unchanged inside, the nearer bound outside |
| Crab.ClampIdempotent | crab.py:364-365 | clamping twice is clamping once |
| Crab.BounceX | crab.py:330-337 | the side walls: `y` is kept; a crab between the walls is unchanged; otherwise `x` is put on the wall it passed, and it ends between the walls when there is room |
| Crab.BounceY | crab.py:338-345 | the top and bottom walls: `x` is kept; a crab between them is unchanged; otherwise `y` is put on the header row or on `max(header, max y)`, and it ends between them |
| Crab.WalkMotion | crab.py:323-347 | after a walk the crab lies between the walls, and a crab whose step stays clear of the walls and draws no turn moves by its velocity and keeps it |
| Crab.WalkMotionWalls | crab.py:323-345 | each coordinate after a walk is the moved one when that lies between its walls, and the wall it went past otherwise |
| Crab.WalkMotionSteps | crab.py:323-347 | the walk is the step by the velocity, then the side walls, then the top and bottom walls, then with chance 0.02 a jitter |
| Crab.NextFrame | crab.py:322-323 | the next frame index is still a frame |
| Crab.SpawnState | crab.py:281-287 | a new crab is idle, at tick 0, on the given screen, with valid frames |
| Crab.SetActiveState | crab.py:289-312 | position, counters and screen kept; activity set; `just_slept` exactly on active to idle; the velocity kept unless waking up |
| Crab.UpdateStateFacts | crab.py:314-351 | `update`: tick + 1 and figures kept; an active crab takes the next walk frame every third tick, keeps its sleep frame and moves as `WalkMotion` inside the walls; an idle one takes the next sleep frame every fifth tick and keeps its walk frame, position and velocity |
| Crab.StepStateFacts | crab.py:314-365 | `update` then `update_bounds`: figures and activity kept, tick + 1, inside the screen; an active crab's position is its walk clamped to the screen; an idle one keeps its walk frame and velocity and is only clamped |
| Crab.AbbreviateHomeAgrees | crab.py:376-381 | the corrected rule agrees with the code as written except on a sibling of home, which it leaves unabbreviated |
| Crab.AbbreviateHomeAsWritten | crab.py:376-381 | `dir_label` as written: `~` replaces the home text whenever the path starts with it |
| Crab.AsWrittenSiblingDirectory | crab.py:379-380 | `/home/bobby` with home `/home/bob` is shown as `~by` |
| Crab.AbbreviateHome | crab.py:376-381 | `dir_label` as intended: unchanged, or `~` followed by what follows the home directory |
| Crab.AbbreviateHomeRoundTrip | crab.py:376-381 | an abbreviated label names home or a path under it, and expanding `~` recovers the directory; home itself is `~` and `home/rest` is `~/rest` |
| Crab.CrabEntity.constructor | crab.py:258-287 | idle, 0 % CPU, cwd `?`, no branch, counters 0; x between 1 and the play width, y between the first row below the header and the bottom of the play height, velocity along the drawn heading at the drawn speed |
| Crab.CrabEntity.SetActive | crab.py:289-312 | sets activity and CPU, takes cwd and branch when given, draws a new velocity on waking, and `just_slept` is exactly "was active, now idle" |
| Crab.CrabEntity.Update | crab.py:314-319 | the whole new state is `UpdateState` of the old one: tick + 1; an active crab takes the next walk frame every third tick and stays inside the walls; an idle one takes the next sleep frame every fifth tick and stays put |
| Crab.CrabEntity.Walk | crab.py:321-347 | the whole new state is `WalkState` of the old one: the next walk frame every third tick, and position and velocity as `WalkMotion` prescribes |
| Crab.CrabEntity.Move | crab.py:324-347 | position and velocity become `WalkMotion` of the old ones |
| Crab.CrabEntity.WallX | crab.py:330-337 | inside the columns nothing changes; past an edge x is set to it and dx points back inwards, jittered |
| Crab.CrabEntity.WallY | crab.py:338-345 | inside the rows nothing changes; above the header `y` is set to the header row and `dy` points down, jittered; below the bottom `y` is set to `max(header, max y)` and `dy` points up, jittered |
| Crab.CrabEntity.Sleep | crab.py:349-351 | the sleep frame advances every fifth tick |
| Crab.CrabEntity.Jitter | crab.py:353-357 | the velocity becomes Jittered of the old one |
| Crab.CrabEntity.UpdateBounds | crab.py:359-365 | records the screen size and clamps x into [0, w - 10] and y into [3, h - 7] |
| Crab.CrabEntity.GetLines | crab.py:367-370 | the current walk frame (three lines) or sleep frame (five lines), every line ten columns wide |
| Crab.CrabEntity.DirLabel | crab.py:376-381 | the working directory abbreviated under home: as written, except that a sibling of home is left unabbreviated; an abbreviated label expands back to the directory |
| Crab.FrameShapes | crab.py:28-66 | four walk frames of three lines, two sleep frames of five, every line ten columns |
| Registry.SeenPidsArePids | crab.py:491-494 | the pids collected in `current` are the pids of the results |
| Registry.PidsOfFront | crab.py:494 | the pids of a list are those of its front plus the last one's |
| Registry.LastIndex | crab.py:493-498 | the last result for a pid, with no later one for it |
| Registry.NewPidsExactlyOnce | crab.py:497-501 | the pids given a new crab are the result pids not already tracked, each exactly once |
| Registry.ReconcileStep | crab.py:493-498 | one more result adds its pid and becomes that pid's last result |
| Registry.NewPidsStep | crab.py:497-501 | one more result extends the new pids exactly when its pid is new |
| Registry.ColouredKept | crab.py:497-510 | colours survive a step that keeps the coloured crabs |
| Registry.ColouredAppend | crab.py:500-510 | a crab in the next colour extends the coloured pids |
| Registry.ColouredStep | crab.py:497-510 | one loop step keeps colours handed out in turn |
| Registry.ColouredNext | crab.py:497-510 | after the next result, the new pids still have consecutive colours, and the counter moves exactly when the pid is new |
| Registry.Activate | crab.py:495-509 | `set_active` for a result: the crab shows it and keeps its place and counters; the velocity is redrawn exactly on waking up, and `just_slept` is exactly active to idle |
| Registry.Admitted | crab.py:497-509 | the body of the results loop on one pid: the crab shows the result; a known crab keeps its place and counters; a new one is spawned on the screen and has not just slept |
| Registry.Reconciled | crab.py:493-510 | after the results loop a pid has a crab exactly when it had one or has a result, and a pid without results keeps its state |
| Registry.ReconciledLast | crab.py:493-510 | a pid's crab ends in the state its last result leaves |
| Registry.ReconciledReflects | crab.py:493-510 | a pid with results ends showing its last result |
| Registry.ReconciledPlaceKept | crab.py:493-510 | a known crab keeps its position, counters and screen through the whole loop |
| Registry.ReconciledOnce | crab.py:493-510 | a pid with one result ends in the state that result leaves |
| Registry.ReconciledStep | crab.py:493-510 | one more result changes only its own pid's state |
| Registry.ReconciledStatesFacts | crab.py:493-510 | after the loop every crab is well formed and shows its pid's last result, and a known crab keeps its place and counters |
| Registry.PurgedStates | crab.py:512-514 | the purge leaves exactly the result pids, each with its crab |
| Registry.StepCrab | crab.py:518-520 | the whole new state is `StepState` of the old one: figures kept, tick + 1, inside the screen |
| Registry.PidOrder | crab.py:518 | an order of the crabs' pids: each exactly once |
| Registry.ActiveCount | crab.py:516-524 | the active count is at most the number counted |
| Registry.ActiveCountCard | crab.py:516-524 | counting through a list of distinct pids gives the number of active ones |
| Registry.StepAt | crab.py:518-524 | one step of the frame loop extends the stepped prefix and the counts by one crab |
| Registry.SteppedAll | crab.py:516-524 | once every pid is stepped: the counts sum to the number of crabs, the active count is the number active, and each crab is placed and ticked once |
| Registry.StepAll | crab.py:518-524 | the loop over the crabs steps each one once |
| Registry.SteppedNone | crab.py:516-517 | before the loop nothing is stepped and both counts are 0 |
| Registry.SteppedMapIs | crab.py:518-520 | a map holding each crab's stepped state is the stepped map |
| Registry.ActiveCountAll | crab.py:521-524 | counting over an order of all the pids counts the active crabs |
| Registry.SteppedFacts | crab.py:518-524 | after the step every crab is inside the screen with its figures kept, and as many crabs are active as before |
| Registry.CrabRegistry.constructor | crab.py:471-474 | a fresh scanner, no crabs, colour counter 0, last scan at 0 |
| Registry.CrabRegistry.Admit | crab.py:497-510 | the pid joins the map, and its state becomes `Admitted`: it shows the result; a known crab keeps its place and counters and colour; a new one is created in the next colour; other crabs and states are kept |
| Registry.CrabRegistry.Reconcile | crab.py:491-514 | the crabs are exactly the result pids; known crabs are kept and new ones fresh; each state is `Reconciled` from the old one: it shows its pid's last result, and a known crab keeps its place and counters; the counter advances by the number of new pids, coloured in turn; the samples and the last-scan time are kept |
| Registry.CrabRegistry.ReconcileCrabs | crab.py:493-514 | the results loop and the purge: the crabs mirror the reconciled states, are exactly the result pids, and are coloured in turn |
| Registry.CrabRegistry.AdmitNext | crab.py:493-510 | one pass of the results loop extends the reconciliation invariant by one result |
| Registry.CrabRegistry.AdmitProgress | crab.py:493-510 | the effect of one `Admit` extends the reconciliation invariant by one result |
| Registry.CrabRegistry.AdmitResults | crab.py:493-510 | the results loop establishes the reconciliation invariant over all results |
| Registry.CrabRegistry.Tick | crab.py:516-524 | each crab's new state is `StepState` of its old one: it ticks once, keeps its figures and lies inside the screen; the crabs, the colour counter and the last-scan time are kept; the counts sum to the crabs and count the active ones |
| Registry.CrabRegistry.Frame | crab.py:485-524 | scans exactly when `SCAN_INTERVAL` has passed; then the results and the samples are `ScanOutcome` of the old samples, the crabs are the result pids, each shows its pid's last result and a known one keeps its place; otherwise the crabs, counter, samples and last-scan time are kept; then every crab is stepped as `StepState` and counted |
| Registry.CrabRegistry.Rescan | crab.py:488-514 | the scan half of `Frame`: scans exactly when `SCAN_INTERVAL` has passed, with the results of `ScanOutcome` reconciled as `Reconcile` states |
| Registry.CrabRegistry.StateOf | crab.py:497 | the state of the crab of a pid exactly when there is one |
| Registry.CrabRegistry.Purge | crab.py:511-514 | the crabs become those whose pid is kept |

## Left out

- Curses is left out: `_init_colors`, `_safe_addstr`, `_draw_header`, `_draw_waiting` and `_draw_crab`. So are `label()` (a formatted float), key handling and the quit keys, `FRAME_INTERVAL`, and the timeout between frames. These are all terminal output and input.
- The `math` functions are the `Trig` oracle. Where a speed bound depends on them, the lemmas assume that cosine and sine lie on the unit circle.
- The random draws are parameters. The model does not capture the order in which the source consumes the random stream. Spawn draws are indexed by result position and walk draws by pid.
- Python dict iteration order is not modelled. `Registry.PidOrder` picks some order of the crabs. The results do not depend on the order, because each crab is stepped independently.
- `os.listdir` order is the order of the `entries` sequence in `ProcFs`.
- Exceptions are `None` results in `ProcFs` and in the parsers. The kind of exception is not distinguished, since the source handles them all alike.
- `Scanner.ReadCmdline`: UTF-8 decoding with `errors="replace"` is not modelled. The cmdline is already text. A HEAD file that is not UTF-8 is not modelled either.
- `Text.ParseInt`: Unicode digits other than ASCII, which `int()` also accepts, are left out.
- `Text.ParseInt` strips with the `str.isspace` set. On an ASCII string CPython's `int()` skips only space and `\t` to `\r`, so `int("\x1c5")` raises where the model reads 5. Only words from `split()` reach `int()` in the source, and they hold no whitespace, so the difference cannot show.
- `Crab.CrabEntity.DirLabel` applies the corrected home rule `AbbreviateHome`, not the code as written. The rule as written is `Crab.AbbreviateHomeAsWritten`, and `DirLabel`'s contract says where the two differ: a sibling of home such as `/home/bobby` under `/home/bob`. See "## Findings".
- Floats are reals. IEEE rounding, infinities and NaN are not modelled.
- Colours are an enumeration whose names are the `COLOR_NAMES` strings.
- Classification of `/usr/bin/grep claude`: the pattern `(^|/)claude(\s|$)` already fails there, because `claude` follows a space. So the denylist is not what rejects it. The model follows the code.
- `Crab.CrabEntity.Walk` and `Crab.CrabEntity.UpdateBounds` are modelled as written, with different bottom limits. `_walk` clamps y to `h - 6`, while `update_bounds` clamps it to `h - 7`.
- `Crab.JitteredSpeed` and `Crab.VelocitySpeed` hold only where the `Trig` oracle's cosine and sine lie on the unit circle. Floating-point `cos`/`sin` only approximate this.
- `Scanner.ProcessScanner.constructor` takes the pid and `SC_CLK_TCK` as parameters instead of reading them from the system. It requires a positive tick rate.

## Findings

| source | as written | input that shows it | evidently intended | confidence | as-written member | corrected member |
|---|---|---|---|---|---|---|
| crab.py:376-381 | `dir_label` abbreviates whenever `cwd.startswith(home)`, with no check for a path separator | cwd `/home/bobby` with home `/home/bob` is shown as `~by` | abbreviate only the home directory itself or a path below it (`home + "/"`) | not executed | Crab.AbbreviateHomeAsWritten, Crab.AsWrittenSiblingDirectory | Crab.AbbreviateHome, Crab.AbbreviateHomeRoundTrip |

/** Installing and restoring the kernel's `core_pattern` and `core_pipe_limit`. */
module CorePattern {
  import opened Text
  import opened Keys

  const KERNEL_DEFAULT := "core"

  function BuildPattern(handler: string): string {
    "|" + handler + " capture %P %s %t %E"
  }

  predicate IsSpace(c: char) {
    c == ' ' || '\t' <= c <= '\r'
  }

  function TrimEnd(s: string): string {
    if s != [] && IsSpace(s[|s| - 1]) then TrimEnd(s[..|s| - 1]) else s
  }

  /** The pattern routes cores to the handler. */
  predicate Ours(handler: string, pattern: string) {
    TrimEnd(pattern) == BuildPattern(handler)
  }

  /** What a guard remembers. */
  datatype Saved = Saved(pattern: string, pipeLimit: string)

  function SavedFrom(handler: string, pattern: string, pipeLimit: string): Saved {
    Saved(if Ours(handler, pattern) then KERNEL_DEFAULT else pattern, pipeLimit)
  }

  // ----- the files and the guard -----

  class Sysctls {
    var pattern: string
    var pipeLimit: string
  }

  /** Which of the file operations succeed. */
  datatype FileIo = FileIo(patternRead: bool, pipeRead: bool, patternWrite: bool, pipeWrite: bool)

  class CorePatternGuard {
    const files: Sysctls
    const saved: Saved

    constructor (files: Sysctls, saved: Saved)
      ensures this.files == files && this.saved == saved
    {
      this.files, this.saved := files, saved;
    }

    /** Nothing is written unless the previous pattern was read. */
    static method InstallAt(files: Sysctls, handler: string, pipeLimit: nat, io: FileIo)
      returns (guard: Option<CorePatternGuard>)
      modifies files
      ensures guard.Some? <==> io.patternRead && io.patternWrite
      ensures guard.None? ==> files.pattern == old(files.pattern) && files.pipeLimit == old(files.pipeLimit)
      ensures guard.Some? ==>
                && fresh(guard.value) && guard.value.files == files
                && guard.value.saved == SavedFrom(handler, old(files.pattern),
                                                  if io.pipeRead then old(files.pipeLimit) else "")
                && files.pattern == BuildPattern(handler)
                && files.pipeLimit == if io.pipeWrite then Decimal(pipeLimit) else old(files.pipeLimit)
    {
      if !io.patternRead {
        return None;
      }
      var prevPattern := files.pattern;
      if TrimEnd(prevPattern) == BuildPattern(handler) {
        prevPattern := KERNEL_DEFAULT;
      }
      var prevPipeLimit := if io.pipeRead then files.pipeLimit else "";
      if !io.patternWrite {
        return None;
      }
      files.pattern := BuildPattern(handler);
      if io.pipeWrite {
        files.pipeLimit := Decimal(pipeLimit);
      }
      var g := new CorePatternGuard(files, Saved(prevPattern, prevPipeLimit));
      guard := Some(g);
    }

    method Restore(io: FileIo)
      modifies files
      ensures files.pattern == if io.patternWrite then saved.pattern else old(files.pattern)
      ensures files.pipeLimit == if saved.pipeLimit != "" && io.pipeWrite then saved.pipeLimit else old(files.pipeLimit)
    {
      if io.patternWrite {
        files.pattern := saved.pattern;
      }
      if saved.pipeLimit != "" && io.pipeWrite {
        files.pipeLimit := saved.pipeLimit;
      }
    }
  }

  // ----- histories of daemons, with every file operation succeeding -----

  /** `Stop(i)` drops the `i`-th live guard, which restores; `Kill(i)` loses it without. */
  datatype Op = Install | Stop(i: nat) | Kill(i: nat)

  datatype State = State(pattern: string, pipeLimit: string, guards: seq<Saved>)

  datatype Config = Config(handler: string, limit: nat)

  predicate Effective(s: State, op: Op) {
    op.Install? || op.i < |s.guards|
  }

  function Apply(c: Config, s: State, op: Op): State {
    if !Effective(s, op) then s
    else match op
      case Install =>
        State(BuildPattern(c.handler), Decimal(c.limit), s.guards + [SavedFrom(c.handler, s.pattern, s.pipeLimit)])
      case Stop(i) =>
        var g := s.guards[i];
        State(g.pattern, if g.pipeLimit != "" then g.pipeLimit else s.pipeLimit, s.guards[..i] + s.guards[i + 1..])
      case Kill(i) => s.(guards := s.guards[..i] + s.guards[i + 1..])
  }

  function Run(c: Config, start: State, ops: seq<Op>): State {
    if ops == [] then start
    else Apply(c, Run(c, start, ops[..|ops| - 1]), ops[|ops| - 1])
  }

  // ----- what is ours -----

  lemma TrimEndAll(s: string, white: string)
    requires forall c :: c in white ==> c == ' ' || c == '\t' || c == '\n' || c == '\r'
    ensures TrimEnd(s + white) == TrimEnd(s)
    decreases |white|
  {
    if white == "" {
      assert s + white == s;
    } else {
      var n := |white| - 1;
      assert white[n] in white && forall c :: c in white[..n] ==> c in white;
      TrimEndAll(s, white[..n]);
      assert (s + white)[..|s| + n] == s + white[..n];
    }
  }

  lemma {:induction false} TrimEndCuts(s: string)
    ensures TrimEnd(s) <= s && forall i :: |TrimEnd(s)| <= i < |s| ==> IsSpace(s[i])
  {
    if s != [] && IsSpace(s[|s| - 1]) {
      TrimEndCuts(s[..|s| - 1]);
    }
  }

  /** The words of the pattern, in the order in which the kernel fills them in: pid, signal, time and executable. */
  lemma PatternReads(handler: string)
    requires ' ' !in handler
    ensures Split(BuildPattern(handler), ' ') == ["|" + handler, "capture", "%P", "%s", "%t", "%E"]
  {
    var words := ["|" + handler, "capture", "%P", "%s", "%t", "%E"];
    PatternJoins(handler);
    assert ' ' !in words[0] && ' ' !in "capture" && ' ' !in "%P" && ' ' !in "%s" && ' ' !in "%t" && ' ' !in "%E";
    SplitJoin(words, ' ');
  }

  lemma PatternJoins(handler: string)
    ensures BuildPattern(handler) == Join(["|" + handler, "capture", "%P", "%s", "%t", "%E"], ' ')
  {
    var h := "|" + handler;
    assert ["%t", "%E"][1..] == ["%E"];
    assert ["%s", "%t", "%E"][1..] == ["%t", "%E"];
    assert ["%P", "%s", "%t", "%E"][1..] == ["%s", "%t", "%E"];
    assert ["capture", "%P", "%s", "%t", "%E"][1..] == ["%P", "%s", "%t", "%E"];
    assert [h, "capture", "%P", "%s", "%t", "%E"][1..] == ["capture", "%P", "%s", "%t", "%E"];
    assert Join(["%t", "%E"], ' ') == "%t %E";
    assert Join(["%s", "%t", "%E"], ' ') == "%s %t %E";
    assert Join(["%P", "%s", "%t", "%E"], ' ') == "%P %s %t %E";
    assert Join(["capture", "%P", "%s", "%t", "%E"], ' ') == "capture %P %s %t %E";
  }

  /**
   A guard installed over our own pattern, with whatever white space the file ends in, saves `core`;
   over any other pattern it saves that pattern as it is.
   */
  lemma OwnPatternIsRecognized(handler: string, white: string, pipeLimit: string)
    requires forall c :: c in white ==> c == ' ' || c == '\t' || c == '\n' || c == '\r'
    ensures SavedFrom(handler, "|" + handler + " capture %P %s %t %E" + white, pipeLimit) == Saved("core", pipeLimit)
  {
    OurPatternIsOurs(handler);
    TrimEndAll(BuildPattern(handler), white);
  }

  lemma OtherPatternsAreKept(handler: string, pattern: string, pipeLimit: string)
    requires !("|" + handler + " capture %P %s %t %E" <= pattern)
    ensures SavedFrom(handler, pattern, pipeLimit) == Saved(pattern, pipeLimit)
  {
    TrimEndCuts(pattern);
  }

  // ----- what a stop leaves, with daemons overlapping in any way -----

  lemma OurPatternIsOurs(handler: string)
    ensures Ours(handler, BuildPattern(handler)) && !Ours(handler, KERNEL_DEFAULT)
  {
    var p := BuildPattern(handler);
    assert p[|p| - 1] == 'E';
    assert TrimEnd(p) == p && p[0] == '|';
    assert TrimEnd(KERNEL_DEFAULT) == KERNEL_DEFAULT && KERNEL_DEFAULT[0] == 'c';
  }

  /** For each live guard, the position of its install in the history. */
  function InstalledAt(ops: seq<Op>): seq<nat> {
    if ops == [] then []
    else
      var n := |ops| - 1;
      var before := InstalledAt(ops[..n]);
      if ops[n].Install? then before + [n]
      else if ops[n].i < |before| then before[..ops[n].i] + before[ops[n].i + 1..]
      else before
  }

  /** The guard was made from what the files held just before the `k`-th operation, an install. */
  ghost predicate Remembers(c: Config, start: State, ops: seq<Op>, k: nat, saved: Saved) {
    && k < |ops| && ops[k].Install?
    && var found := Run(c, start, ops[..k]);
       saved == SavedFrom(c.handler, found.pattern, found.pipeLimit)
  }

  /** Position `at` is still remembered by `saved` in a longer history. */
  lemma StillRemembers(c: Config, start: State, ops: seq<Op>, k: nat, saved: Saved)
    requires ops != [] && Remembers(c, start, ops[..|ops| - 1], k, saved)
    ensures Remembers(c, start, ops, k, saved)
  {
    assert ops[..|ops| - 1][..k] == ops[..k];
  }

  ghost predicate AllRemember(c: Config, start: State, ops: seq<Op>, at: seq<nat>, guards: seq<Saved>) {
    |at| == |guards| && forall i :: 0 <= i < |at| ==> Remembers(c, start, ops, at[i], guards[i])
  }

  lemma {:induction false} GuardsRemember(c: Config, start: State, ops: seq<Op>)
    requires start.guards == []
    ensures AllRemember(c, start, ops, InstalledAt(ops), Run(c, start, ops).guards)
    decreases |ops|
  {
    if ops != [] {
      var n := |ops| - 1;
      GuardsRemember(c, start, ops[..n]);
      var before, s := InstalledAt(ops[..n]), Run(c, start, ops[..n]);
      forall i | 0 <= i < |before|
        ensures Remembers(c, start, ops, before[i], s.guards[i])
      {
        StillRemembers(c, start, ops, before[i], s.guards[i]);
      }
      GuardsStep(c, start, ops, before, s);
    }
  }

  lemma GuardsStep(c: Config, start: State, ops: seq<Op>, before: seq<nat>, s: State)
    requires ops != [] && s == Run(c, start, ops[..|ops| - 1]) && before == InstalledAt(ops[..|ops| - 1])
    requires AllRemember(c, start, ops, before, s.guards)
    ensures AllRemember(c, start, ops, InstalledAt(ops), Run(c, start, ops).guards)
  {
    var n := |ops| - 1;
    var s' := Apply(c, s, ops[n]);
    assert Run(c, start, ops) == s';
    match ops[n]
    case Install =>
      assert s'.guards == s.guards + [SavedFrom(c.handler, s.pattern, s.pipeLimit)];
      assert Remembers(c, start, ops, n, s'.guards[|before|]);
    case _ =>
  }

  /** Whatever the history, the pattern file holds the original, `core` or our own pattern. */
  lemma {:induction false} PatternIsOneOfThree(c: Config, start: State, ops: seq<Op>)
    requires start.guards == []
    ensures var s := Run(c, start, ops);
            && s.pattern in {start.pattern, KERNEL_DEFAULT, BuildPattern(c.handler)}
            && (forall i :: 0 <= i < |s.guards| ==> s.guards[i].pattern in {start.pattern, KERNEL_DEFAULT})
    decreases |ops|
  {
    if ops != [] {
      PatternIsOneOfThree(c, start, ops[..|ops| - 1]);
      OurPatternIsOurs(c.handler);
    }
  }

  /**
   After any history of installs, stops and kills, in any overlap, a stop puts back what its own
   guard found when it was installed, or `core` if that was our pattern. So it never leaves our
   pattern, and it leaves the original or `core`; it is the original if and only if the file still
   held the original, not our own pattern, when the stopping daemon was installed (or the original
   was `core` anyway). The pipe limit is put back as it was found, if it was not empty.
   */
  lemma StopPutsBack(c: Config, start: State, ops: seq<Op>, i: nat)
    requires start.guards == [] && i < |Run(c, start, ops).guards|
    ensures |InstalledAt(ops)| == |Run(c, start, ops).guards| && InstalledAt(ops)[i] < |ops|
    ensures var found, left := Run(c, start, ops[..InstalledAt(ops)[i]]), Run(c, start, ops + [Stop(i)]);
            && left.pattern == (if Ours(c.handler, found.pattern) then "core" else found.pattern)
            && !Ours(c.handler, left.pattern)
            && (left.pattern == start.pattern || left.pattern == "core")
            && (left.pattern == start.pattern
                <==> start.pattern == "core"
                     || (found.pattern == start.pattern && !Ours(c.handler, start.pattern)))
            && left.pipeLimit == (if found.pipeLimit != "" then found.pipeLimit else Run(c, start, ops).pipeLimit)
  {
    GuardsRemember(c, start, ops);
    assert Remembers(c, start, ops, InstalledAt(ops)[i], Run(c, start, ops).guards[i]);
    PatternIsOneOfThree(c, start, ops);
    OurPatternIsOurs(c.handler);
    assert (ops + [Stop(i)])[..|ops|] == ops;
  }

  // ----- one daemon at a time: exactly what a stop leaves -----

  /** Daemons do not overlap: an install happens only when no guard is live. */
  ghost predicate OneAtATime(c: Config, start: State, ops: seq<Op>) {
    forall n :: 0 <= n < |ops| && ops[n].Install? ==> Run(c, start, ops[..n]).guards == []
  }

  /** Some daemon was killed. */
  predicate AnyKill(c: Config, start: State, ops: seq<Op>) {
    ops != [] &&
    (var n := |ops| - 1;
     AnyKill(c, start, ops[..n]) || (ops[n].Kill? && Effective(Run(c, start, ops[..n]), ops[n])))
  }

  /** The pattern a stop restores. */
  function Base(c: Config, start: State, killed: bool): string {
    if killed || Ours(c.handler, start.pattern) then KERNEL_DEFAULT else start.pattern
  }

  ghost predicate PipeBase(c: Config, start: State, killed: bool, pipe: string) {
    if killed then pipe == Decimal(c.limit)
    else if start.pipeLimit != "" then pipe == start.pipeLimit
    else pipe == "" || pipe == Decimal(c.limit)
  }

  ghost predicate Lifecycle(c: Config, start: State, s: State, killed: bool) {
    && |s.guards| <= 1
    && (s.guards == [] ==>
          && PipeBase(c, start, killed, s.pipeLimit)
          && (s.pattern == Base(c, start, killed)
              || (Ours(c.handler, s.pattern) && Base(c, start, killed) == KERNEL_DEFAULT)))
    && (|s.guards| == 1 ==>
          && s.pattern == BuildPattern(c.handler) && s.pipeLimit == Decimal(c.limit)
          && s.guards[0].pattern == Base(c, start, killed) && PipeBase(c, start, killed, s.guards[0].pipeLimit))
  }

  lemma {:induction false} LifecycleHolds(c: Config, start: State, ops: seq<Op>)
    requires start.guards == [] && OneAtATime(c, start, ops)
    ensures Lifecycle(c, start, Run(c, start, ops), AnyKill(c, start, ops))
    decreases |ops|
  {
    if ops != [] {
      var n := |ops| - 1;
      assert forall k :: 0 <= k < n ==> ops[..n][..k] == ops[..k];
      LifecycleHolds(c, start, ops[..n]);
      OurPatternIsOurs(c.handler);
      LifecycleStep(c, start, Run(c, start, ops[..n]), ops[n], AnyKill(c, start, ops[..n]));
    }
  }

  lemma LifecycleStep(c: Config, start: State, s: State, op: Op, killed: bool)
    requires Lifecycle(c, start, s, killed)
    requires op.Install? ==> s.guards == []
    ensures Lifecycle(c, start, Apply(c, s, op), killed || (op.Kill? && Effective(s, op)))
  {
    OurPatternIsOurs(c.handler);
    if op.Install? {
      assert [] + [SavedFrom(c.handler, s.pattern, s.pipeLimit)] == [SavedFrom(c.handler, s.pattern, s.pipeLimit)];
    } else if op.i < |s.guards| {
      assert s.guards[..op.i] + s.guards[op.i + 1..] == [];
    }
  }

  /**
   What a clean stop leaves, exactly: the original pattern, byte for byte, unless some daemon was
   killed before (in this history, or leaving our pattern at its start), and then the kernel's default.
   */
  lemma StopRestores(c: Config, start: State, ops: seq<Op>, i: nat)
    requires start.guards == [] && OneAtATime(c, start, ops)
    requires i < |Run(c, start, ops).guards|
    ensures var s := Run(c, start, ops + [Stop(i)]);
            s.pattern == if AnyKill(c, start, ops) || Ours(c.handler, start.pattern) then "core"
                         else start.pattern
  {
    LifecycleHolds(c, start, ops);
    assert (ops + [Stop(i)])[..|ops|] == ops;
  }

  /**
   The pipe limit has no such safeguard: a stop restores the original if and only if no daemon was
   killed before and the original was readable, or the original was our own limit anyway.
   */
  lemma PipeLimitRestoredIff(c: Config, start: State, ops: seq<Op>, i: nat)
    requires start.guards == [] && OneAtATime(c, start, ops)
    requires i < |Run(c, start, ops).guards|
    ensures Run(c, start, ops + [Stop(i)]).pipeLimit == start.pipeLimit
            <==> (!AnyKill(c, start, ops) && start.pipeLimit != "") || start.pipeLimit == Decimal(c.limit)
  {
    LifecycleHolds(c, start, ops);
    assert (ops + [Stop(i)])[..|ops|] == ops;
  }

  /** With overlapping daemons the original is lost without any kill, whatever it was. */
  lemma OverlapLosesTheOriginal(c: Config, start: State)
    requires start.guards == []
    ensures Run(c, start, [Install, Install, Stop(0), Stop(0)]).pattern == "core"
  {
    var ops := [Install, Install, Stop(0), Stop(0)];
    OurPatternIsOurs(c.handler);
    assert ops[..3][..2] == [Install, Install] && ops[..3] == [Install, Install, Stop(0)];
    assert [Install, Install][..1] == [Install] && [Install][..0] == [];
    var s1 := Apply(c, start, Install);
    var s2 := Apply(c, s1, Install);
    var s3 := Apply(c, s2, Stop(0));
    assert Run(c, start, []) == start && Run(c, start, [Install]) == s1 && Run(c, start, [Install, Install]) == s2;
    assert Run(c, start, ops[..3]) == s3;
    assert |s2.guards| == 2 && s2.guards[1].pattern == KERNEL_DEFAULT;
    assert s3.guards == [s2.guards[1]];
  }
}

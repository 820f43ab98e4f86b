/** The execution engine of the shell, over an abstract descriptor table.

    A process is a `Process` object whose `fds` map descriptor numbers to
    the open files they refer to. The system calls the engine uses (open,
    pipe, dup, dup2, close, fork, waitpid, exit) are methods that change
    that table; whether a call that can fail succeeds is an oracle argument.
    `fork` creates a second `Process` with a copy of the table; the child
    runs its set-up code (redirection, then the pipe endpoints) and the
    shell records a snapshot of the child's table at the moment it would
    replace its image with the requested program. */
module Shell {
  import opened Wrappers
  import opened Builtins

  const STDIN_FILENO: int := 0
  const STDOUT_FILENO: int := 1

  /** Permission bits for a file created by output redirection: octal 0644. */
  const OUTPUT_PERM: int := 0x1A4

  /** O_RDONLY, or O_WRONLY | O_CREAT | O_TRUNC with permission bits. */
  datatype OpenMode = ReadOnly | WriteCreateTrunc(perm: int)

  /** What a descriptor refers to. */
  datatype FileObj =
    | Terminal(stream: int)                   // a stream the shell inherited
    | DiskFile(path: string, mode: OpenMode)  // a file opened for redirection
    | PipeEnd(pipe: nat, writeEnd: bool)      // one end of the pipe numbered `pipe`

  type FdTable = map<int, FileObj>

  /** One command of a pipeline (a `cmd_node`): its arguments, its optional
      redirection files, and the descriptors it reads from and writes to. */
  datatype Stage = Stage(args: seq<string>, inFile: Option<string>, outFile: Option<string>, inFd: int, outFd: int)

  /** Which of the calls made on behalf of one stage succeed: `fork` in the
      shell, and the `open` of each redirection file in the child. */
  datatype SpawnOracle = SpawnOracle(forkOk: bool, inOpenOk: bool, outOpenOk: bool)

  /** What became of one call of `spawn_proc`: no child, or a child with
      its pid, the stage it ran, its table when set-up was done, and its
      exit status if set-up made it exit. */
  datatype Spawn =
    | ForkFailed(stage: Stage)
    | Forked(pid: int, stage: Stage, fds: FdTable, exitCode: Option<int>)

  /** A pipe created by the shell: its number and its two descriptors. */
  datatype PipeRec = PipeRec(id: nat, readFd: int, writeFd: int)

  /** Text written to standard output and the file it went to. */
  datatype Write = Write(target: Option<FileObj>, text: string)

  /** What a process has done: pipes created, descriptors passed to `close`
      (and how many of those were not open), processes spawned, pids
      waited for, and output written. */
  datatype Trace = Trace(pipes: seq<PipeRec>, closes: seq<int>, badCloses: nat,
                         spawns: seq<Spawn>, waits: seq<int>, writes: seq<Write>)

  const EmptyTrace := Trace([], [], 0, [], [], [])

  function Lookup(m: FdTable, fd: int): Option<FileObj> {
    if fd in m then Some(m[fd]) else None
  }

  /** `dup2(from, to)` on a table: nothing changes when `from` is not open. */
  function DupTo(m: FdTable, from: int, to: int): FdTable {
    if from in m then m[to := m[from]] else m
  }

  // ---------------------------------------------------------------------
  // The set-up code of a child, as functions on tables
  // ---------------------------------------------------------------------

  /** The table after `redirection` succeeded: the input file on stdin,
      the output file on stdout (the temporary descriptors are closed). */
  function RedirectTable(m: FdTable, p: Stage): FdTable {
    var m1 := if p.inFile.Some? then m[STDIN_FILENO := DiskFile(p.inFile.value, ReadOnly)] else m;
    if p.outFile.Some? then m1[STDOUT_FILENO := DiskFile(p.outFile.value, WriteCreateTrunc(OUTPUT_PERM))]
    else m1
  }

  /** The temporary descriptors `redirection` opens and closes again when
      the next fresh descriptor is `fd0`. */
  function RedirectTemps(fd0: int, p: Stage): (r: seq<int>)
    ensures |r| <= 2 && forall k :: 0 <= k < |r| ==> r[k] == fd0 + k
  {
    (if p.inFile.Some? then [fd0] else []) +
    (if p.outFile.Some? then [if p.inFile.Some? then fd0 + 1 else fd0] else [])
  }

  /** `redirection` exits with status 1 when a file it must open cannot be. */
  predicate RedirectFails(p: Stage, inOk: bool, outOk: bool) {
    (p.inFile.Some? && !inOk) || (p.outFile.Some? && !outOk)
  }

  /** Moving the stage's pipe descriptors onto stdin and stdout. */
  function WirePipesTable(m: FdTable, p: Stage): FdTable {
    var m1 := if p.inFd != STDIN_FILENO then DupTo(m, p.inFd, STDIN_FILENO) - {p.inFd} else m;
    if p.outFd != STDOUT_FILENO then DupTo(m1, p.outFd, STDOUT_FILENO) - {p.outFd} else m1
  }

  /** A child's table when its set-up succeeded: redirection first, then
      the pipe endpoints. */
  function ChildTable(m: FdTable, p: Stage): FdTable {
    WirePipesTable(RedirectTable(m, p), p)
  }

  /** The record of spawning `p` from a shell whose table is `m`. A child
      that exits holds no descriptors. */
  function SpawnOf(pid: int, m: FdTable, p: Stage, o: SpawnOracle): Spawn {
    if !o.forkOk then ForkFailed(p)
    else if RedirectFails(p, o.inOpenOk, o.outOpenOk) then Forked(pid, p, map[], Some(1))
    else Forked(pid, p, ChildTable(m, p), None)
  }

  /** The child's stdin: a pipe descriptor overrides an input file, which
      overrides the inherited stdin; the pipe descriptor itself is closed. */
  lemma ChildStdin(m: FdTable, p: Stage)
    requires p.inFd != STDOUT_FILENO && p.outFd != STDIN_FILENO
    requires p.inFd != STDIN_FILENO ==> p.inFd in m
    ensures Lookup(ChildTable(m, p), STDIN_FILENO) ==
              if p.inFd != STDIN_FILENO then Some(m[p.inFd])
              else if p.inFile.Some? then Some(DiskFile(p.inFile.value, ReadOnly))
              else Lookup(m, STDIN_FILENO)
    ensures p.inFd != STDIN_FILENO ==> p.inFd !in ChildTable(m, p)
  {
  }

  /** The child's stdout, symmetrically: the pipe descriptor wins over the
      output file, which wins over the inherited stdout. */
  lemma ChildStdout(m: FdTable, p: Stage)
    requires p.inFd != STDOUT_FILENO && p.outFd != STDIN_FILENO
    requires p.outFd != STDOUT_FILENO ==> p.outFd in m && p.outFd != p.inFd
    ensures Lookup(ChildTable(m, p), STDOUT_FILENO) ==
              if p.outFd != STDOUT_FILENO then Some(m[p.outFd])
              else if p.outFile.Some? then Some(DiskFile(p.outFile.value, WriteCreateTrunc(OUTPUT_PERM)))
              else Lookup(m, STDOUT_FILENO)
    ensures p.outFd != STDOUT_FILENO ==> p.outFd !in ChildTable(m, p)
  {
  }

  /** Every other descriptor is inherited unchanged. */
  lemma ChildOtherDescriptors(m: FdTable, p: Stage, fd: int)
    requires p.inFd != STDOUT_FILENO && p.outFd != STDIN_FILENO
    requires fd != STDIN_FILENO && fd != STDOUT_FILENO && fd != p.inFd && fd != p.outFd
    ensures Lookup(ChildTable(m, p), fd) == Lookup(m, fd)
  {
  }

  // ---------------------------------------------------------------------
  // The wiring of a pipeline, as functions of the pipes created
  // ---------------------------------------------------------------------

  /** Stage k as `fork_cmd_node` hands it to `spawn_proc`: every stage but
      the first reads the previous pipe, every stage but the last writes
      into its own pipe; the first stage's input and the last stage's
      output are left as they were. */
  function Wired(stages: seq<Stage>, pipes: seq<PipeRec>, k: int): Stage
    requires 0 <= k < |stages| && |pipes| == |stages| - 1
  {
    stages[k].(inFd := if k == 0 then stages[k].inFd else pipes[k - 1].readFd,
               outFd := if k == |stages| - 1 then stages[k].outFd else pipes[k].writeFd)
  }

  /** The shell's table while stage k is forked: its own descriptors, the
      read end of the previous stage's pipe, and both ends of stage k's. */
  function TableAtFork(base: FdTable, stages: seq<Stage>, pipes: seq<PipeRec>, k: int): FdTable
    requires 0 <= k < |stages| && |pipes| == |stages| - 1
  {
    var m := if k > 0 then base[pipes[k - 1].readFd := PipeEnd(pipes[k - 1].id, false)] else base;
    if k < |stages| - 1 then
      m[pipes[k].readFd := PipeEnd(pipes[k].id, false)][pipes[k].writeFd := PipeEnd(pipes[k].id, true)]
    else m
  }

  /** What the shell closes after forking stage k: the write end of the
      pipe it just made, then the read end of the previous one. */
  function ClosedAfter(stages: seq<Stage>, pipes: seq<PipeRec>, k: int): seq<int>
    requires 0 <= k < |stages| && |pipes| == |stages| - 1
  {
    (if k < |stages| - 1 then [pipes[k].writeFd] else []) + (if k > 0 then [pipes[k - 1].readFd] else [])
  }

  /** Everything the shell closes while forking stages 0..i-1. */
  function ClosedUpTo(stages: seq<Stage>, pipes: seq<PipeRec>, i: int): seq<int>
    requires 0 <= i <= |stages| && |pipes| == |stages| - 1
  {
    if i == 0 then [] else ClosedUpTo(stages, pipes, i - 1) + ClosedAfter(stages, pipes, i - 1)
  }

  /** All descriptors of `pipes`: read end, write end, pipe by pipe. */
  function Ends(pipes: seq<PipeRec>): (r: seq<int>)
    ensures |r| == 2 * |pipes|
  {
    if |pipes| == 0 then []
    else Ends(pipes[..|pipes| - 1]) + [pipes[|pipes| - 1].readFd, pipes[|pipes| - 1].writeFd]
  }

  /** How many pipes exist after forking stages 0..i-1 of n. */
  function PipesBy(i: int, n: int): int {
    if i < n then i else n - 1
  }

  /** What holds of the pipes a pipeline created, relative to the shell's
      table `base` before it: they are numbered from `firstId` on, every
      pipe the shell already had has a smaller number, and their
      descriptors are all different, were not open before, and are not
      stdin or stdout. */
  ghost predicate FreshPipes(base: FdTable, n: int, pipes: seq<PipeRec>, firstId: nat) {
    n >= 1 && |pipes| == n - 1 &&
    (forall k :: 0 <= k < |pipes| ==> pipes[k].id == firstId + k) &&
    (forall fd :: fd in base && base[fd].PipeEnd? ==> base[fd].pipe < firstId) &&
    Distinct(Ends(pipes)) &&
    (forall e :: e in Ends(pipes) ==> e !in base && e != STDIN_FILENO && e != STDOUT_FILENO)
  }

  /** The first stage reads stdin or a descriptor the shell has open, and
      the last stage writes stdout or a descriptor the shell has open. */
  predicate EndsAttached(stages: seq<Stage>, base: FdTable)
    requires |stages| >= 1
  {
    var head := stages[0];
    var tail := stages[|stages| - 1];
    head.inFd != STDOUT_FILENO && (head.inFd == STDIN_FILENO || head.inFd in base) &&
    tail.outFd != STDIN_FILENO && (tail.outFd == STDOUT_FILENO || tail.outFd in base)
  }

  lemma EndsAt(pipes: seq<PipeRec>, k: int)
    requires 0 <= k < |pipes|
    ensures Ends(pipes)[2 * k] == pipes[k].readFd && Ends(pipes)[2 * k + 1] == pipes[k].writeFd
    decreases |pipes|
  {
    if k < |pipes| - 1 {
      EndsAt(pipes[..|pipes| - 1], k);
    }
  }

  /** The read end the shell still holds after forking stages 0..i-1. */
  function Pending(stages: seq<Stage>, pipes: seq<PipeRec>, i: int): multiset<int>
    requires 0 <= i <= |stages| && |pipes| == |stages| - 1
  {
    if 0 < i < |stages| then multiset{pipes[i - 1].readFd} else multiset{}
  }

  /** Every pipe end the shell creates is closed by the shell exactly once:
      what it closes while forking stages 0..i-1, with the read end it
      still holds, is a permutation of the ends of the pipes made so far. */
  lemma {:induction false} ClosedUpToIsEnds(stages: seq<Stage>, pipes: seq<PipeRec>, i: int)
    requires 0 <= i <= |stages| && |pipes| == |stages| - 1
    ensures multiset(ClosedUpTo(stages, pipes, i)) + Pending(stages, pipes, i)
            == multiset(Ends(pipes[..PipesBy(i, |stages|)]))
  {
    if i > 0 {
      ClosedUpToIsEnds(stages, pipes, i - 1);
      ClosedStep(stages, pipes, i - 1);
    }
  }

  /** Induction step of `ClosedUpToIsEnds`. */
  lemma ClosedStep(stages: seq<Stage>, pipes: seq<PipeRec>, k: int)
    requires 0 <= k < |stages| && |pipes| == |stages| - 1
    requires multiset(ClosedUpTo(stages, pipes, k)) + Pending(stages, pipes, k)
             == multiset(Ends(pipes[..PipesBy(k, |stages|)]))
    ensures multiset(ClosedUpTo(stages, pipes, k + 1)) + Pending(stages, pipes, k + 1)
            == multiset(Ends(pipes[..PipesBy(k + 1, |stages|)]))
  {
    if k < |stages| - 1 {
      ClosedStepOpen(stages, pipes, k);
    } else {
      ClosedStepLast(stages, pipes, k);
    }
  }

  /** Induction step for a stage that makes a pipe. */
  lemma ClosedStepOpen(stages: seq<Stage>, pipes: seq<PipeRec>, k: int)
    requires 0 <= k < |stages| - 1 && |pipes| == |stages| - 1
    requires multiset(ClosedUpTo(stages, pipes, k)) + Pending(stages, pipes, k)
             == multiset(Ends(pipes[..k]))
    ensures multiset(ClosedUpTo(stages, pipes, k + 1)) + Pending(stages, pipes, k + 1)
            == multiset(Ends(pipes[..k + 1]))
  {
    var r, w := pipes[k].readFd, pipes[k].writeFd;
    ClosedAfterOpen(stages, pipes, k);
    ClosedUpToStep(stages, pipes, k);
    EndsPrefixGrows(pipes, k);
    PendingOpen(stages, pipes, k);
    MultisetStep(multiset(ClosedUpTo(stages, pipes, k)), Pending(stages, pipes, k),
                 multiset(Ends(pipes[..k])), r, w);
  }

  lemma PendingOpen(stages: seq<Stage>, pipes: seq<PipeRec>, k: int)
    requires 0 <= k < |stages| - 1 && |pipes| == |stages| - 1
    ensures Pending(stages, pipes, k + 1) == multiset{pipes[k].readFd}
  {
  }

  lemma ClosedAfterOpen(stages: seq<Stage>, pipes: seq<PipeRec>, k: int)
    requires 0 <= k < |stages| - 1 && |pipes| == |stages| - 1
    ensures multiset(ClosedAfter(stages, pipes, k)) == multiset{pipes[k].writeFd} + Pending(stages, pipes, k)
  {
    assert ClosedAfter(stages, pipes, k) == [pipes[k].writeFd] + (if k > 0 then [pipes[k - 1].readFd] else []);
  }

  lemma ClosedUpToStep(stages: seq<Stage>, pipes: seq<PipeRec>, k: int)
    requires 0 <= k < |stages| && |pipes| == |stages| - 1
    ensures multiset(ClosedUpTo(stages, pipes, k + 1))
            == multiset(ClosedUpTo(stages, pipes, k)) + multiset(ClosedAfter(stages, pipes, k))
  {
  }

  lemma EndsPrefixGrows(pipes: seq<PipeRec>, k: int)
    requires 0 <= k < |pipes|
    ensures multiset(Ends(pipes[..k + 1])) == multiset(Ends(pipes[..k])) + multiset{pipes[k].readFd, pipes[k].writeFd}
  {
    EndsPrefixStep(pipes, k);
  }

  lemma MultisetStep(before: multiset<int>, pending: multiset<int>, ends: multiset<int>, r: int, w: int)
    requires before + pending == ends
    ensures before + (multiset{w} + pending) + multiset{r} == ends + multiset{r, w}
  {
  }

  /** Induction step for the last stage, which makes no pipe. */
  lemma ClosedStepLast(stages: seq<Stage>, pipes: seq<PipeRec>, k: int)
    requires k == |stages| - 1 && 0 <= k && |pipes| == |stages| - 1
    requires multiset(ClosedUpTo(stages, pipes, k)) + Pending(stages, pipes, k)
             == multiset(Ends(pipes[..k]))
    ensures multiset(ClosedUpTo(stages, pipes, k + 1)) + Pending(stages, pipes, k + 1)
            == multiset(Ends(pipes[..k]))
  {
    var before := multiset(ClosedUpTo(stages, pipes, k));
    var after := multiset(ClosedAfter(stages, pipes, k));
    assert multiset(ClosedUpTo(stages, pipes, k + 1)) == before + after;
    assert Pending(stages, pipes, k + 1) == multiset{};
    if k > 0 {
      assert after == multiset{pipes[k - 1].readFd};
    } else {
      assert after == multiset{};
    }
  }

  lemma EndsPrefixStep(pipes: seq<PipeRec>, k: int)
    requires 0 <= k < |pipes|
    ensures Ends(pipes[..k + 1]) == Ends(pipes[..k]) + [pipes[k].readFd, pipes[k].writeFd]
  {
    assert pipes[..k + 1][..k] == pipes[..k];
  }

  /** A sequence without repetitions holds each of its elements once. */
  lemma {:induction false} DistinctOnce(s: seq<int>)
    requires Distinct(s)
    ensures forall e :: e in s ==> multiset(s)[e] == 1
  {
    if |s| > 0 {
      var t := s[..|s| - 1];
      assert Distinct(t);
      DistinctOnce(t);
      assert s == t + [s[|s| - 1]];
    }
  }

  /** No double close and no leak: each pipe end is closed exactly once,
      and nothing else is closed. */
  lemma PipeEndsClosedOnce(base: FdTable, stages: seq<Stage>, pipes: seq<PipeRec>, firstId: nat)
    requires FreshPipes(base, |stages|, pipes, firstId)
    ensures forall e :: e in Ends(pipes) ==> multiset(ClosedUpTo(stages, pipes, |stages|))[e] == 1
    ensures forall c :: c in ClosedUpTo(stages, pipes, |stages|) ==> c in Ends(pipes)
  {
    ClosedAllIsEnds(stages, pipes);
    DistinctOnce(Ends(pipes));
    var closed := ClosedUpTo(stages, pipes, |stages|);
    forall c | c in closed ensures c in Ends(pipes) {
      assert c in multiset(closed);
    }
  }

  /** After the last stage, the closes are a permutation of all pipe ends. */
  lemma ClosedAllIsEnds(stages: seq<Stage>, pipes: seq<PipeRec>)
    requires |stages| >= 1 && |pipes| == |stages| - 1
    ensures multiset(ClosedUpTo(stages, pipes, |stages|)) == multiset(Ends(pipes))
  {
    ClosedUpToIsEnds(stages, pipes, |stages|);
    assert pipes[..PipesBy(|stages|, |stages|)] == pipes;
  }

  /** The `count` pipes a pipeline creates when the next pipe number is
      `firstId` and the next fresh descriptor is `fd0`. */
  function NewPipes(firstId: nat, fd0: int, count: nat): (r: seq<PipeRec>)
    ensures |r| == count
  {
    seq(count, k requires 0 <= k < count => PipeRec(firstId + k, fd0 + 2 * k, fd0 + 2 * k + 1))
  }

  /** How many of the forks in `oks` succeed. */
  function ForkCount(oks: seq<SpawnOracle>): (r: nat)
    ensures r <= |oks|
  {
    if |oks| == 0 then 0
    else ForkCount(oks[..|oks| - 1]) + (if oks[|oks| - 1].forkOk then 1 else 0)
  }

  /** The pid `spawn_proc` returns for stage k: the next pid, which every
      successful fork before it has advanced, or 0. */
  function PipelinePid(firstPid: int, oks: seq<SpawnOracle>, k: int): int
    requires 0 <= k < |oks|
  {
    if oks[k].forkOk then firstPid + ForkCount(oks[..k]) else 0
  }

  /** The pids `fork_cmd_node` stores in `cpids`, stage by stage. */
  function PipelinePids(firstPid: int, oks: seq<SpawnOracle>): (r: seq<int>)
    ensures |r| == |oks|
  {
    seq(|oks|, k requires 0 <= k < |oks| => PipelinePid(firstPid, oks, k))
  }

  /** The shell's table between forking stage i-1 and stage i: its own
      descriptors and, inside the pipeline, the previous pipe's read end. */
  function TableBetween(base: FdTable, stages: seq<Stage>, pipes: seq<PipeRec>, i: int): FdTable
    requires 0 <= i <= |stages| && |pipes| == |stages| - 1
  {
    if 0 < i < |stages| then base[pipes[i - 1].readFd := PipeEnd(pipes[i - 1].id, false)] else base
  }

  /** The closes after forking stage i take the table at the fork back to
      the table between stage i and stage i+1. */
  lemma ClosesAfterFork(base: FdTable, stages: seq<Stage>, firstId: nat, fd0: int, i: int)
    requires |stages| >= 1 && 0 <= i < |stages|
    requires forall fd :: fd in base ==> fd < fd0
    ensures var pipes := NewPipes(firstId, fd0, |stages| - 1);
            var m := TableAtFork(base, stages, pipes, i);
            var m1 := if i < |stages| - 1 then m - {pipes[i].writeFd} else m;
            (if i > 0 then m1 - {pipes[i - 1].readFd} else m1) == TableBetween(base, stages, pipes, i + 1)
  {
    var pipes := NewPipes(firstId, fd0, |stages| - 1);
    var m := TableAtFork(base, stages, pipes, i);
    var m1 := if i < |stages| - 1 then m - {pipes[i].writeFd} else m;
    var m2 := if i > 0 then m1 - {pipes[i - 1].readFd} else m1;
    var goal := TableBetween(base, stages, pipes, i + 1);
    if i > 0 {
      assert pipes[i - 1].readFd !in base;
    }
    if i < |stages| - 1 {
      assert pipes[i].writeFd !in base && pipes[i].readFd !in base;
    }
    assert m2.Keys == goal.Keys;
  }

  /** The trace of a shell that started a pipeline with trace `t0` and
      has forked stages 0..i-1. */
  function PipelineTrace(t0: Trace, base: FdTable, stages: seq<Stage>, pipes: seq<PipeRec>, firstPid: int,
                         oks: seq<SpawnOracle>, i: int): Trace
    requires |pipes| == |stages| - 1 && |oks| == |stages| && 0 <= i <= |stages|
  {
    t0.(pipes := t0.pipes + pipes[..PipesBy(i, |stages|)],
        closes := t0.closes + ClosedUpTo(stages, pipes, i),
        spawns := t0.spawns + PipelineSpawns(base, stages, pipes, firstPid, oks)[..i])
  }

  /** Forking stage i adds its pipe, its closes and its spawn. */
  lemma PipelineTraceStep(t0: Trace, base: FdTable, stages: seq<Stage>, pipes: seq<PipeRec>, firstPid: int,
                          oks: seq<SpawnOracle>, i: int, pid: int)
    requires |pipes| == |stages| - 1 && |oks| == |stages| && 0 <= i < |stages|
    requires oks[i].forkOk ==> pid == firstPid + ForkCount(oks[..i])
    ensures var t := PipelineTrace(t0, base, stages, pipes, firstPid, oks, i);
            PipelineTrace(t0, base, stages, pipes, firstPid, oks, i + 1)
            == t.(pipes := t.pipes + (if i < |stages| - 1 then [pipes[i]] else []),
                  closes := t.closes + ClosedAfter(stages, pipes, i),
                  spawns := t.spawns + [SpawnOf(pid, TableAtFork(base, stages, pipes, i), Wired(stages, pipes, i), oks[i])])
  {
    PrefixSnoc(PipelineSpawns(base, stages, pipes, firstPid, oks), i);
    if i < |stages| - 1 {
      PrefixSnoc(pipes, i);
    }
  }

  /** After the last stage the trace holds the whole pipeline. */
  lemma PipelineTraceDone(t0: Trace, base: FdTable, stages: seq<Stage>, pipes: seq<PipeRec>, firstPid: int,
                          oks: seq<SpawnOracle>)
    requires |pipes| == |stages| - 1 && |oks| == |stages| && |stages| >= 1
    ensures PipelineTrace(t0, base, stages, pipes, firstPid, oks, |stages|)
            == t0.(pipes := t0.pipes + pipes,
                   closes := t0.closes + ClosedUpTo(stages, pipes, |stages|),
                   spawns := t0.spawns + PipelineSpawns(base, stages, pipes, firstPid, oks))
  {
    assert pipes[..PipesBy(|stages|, |stages|)] == pipes;
    var spawns := PipelineSpawns(base, stages, pipes, firstPid, oks);
    assert spawns[..|stages|] == spawns;
  }

  /** The pid of stage i, and the next pid after it, as the pid counter
      advances over the pipeline. */
  lemma PipelinePidStep(firstPid: int, oks: seq<SpawnOracle>, i: int, pid0: int, pid: int)
    requires 0 <= i < |oks|
    requires pid0 == firstPid + ForkCount(oks[..i])
    requires pid == if oks[i].forkOk then pid0 else 0
    ensures pid == PipelinePid(firstPid, oks, i)
    ensures pid0 + (if oks[i].forkOk then 1 else 0) == firstPid + ForkCount(oks[..i + 1])
    ensures PipelinePids(firstPid, oks)[..i + 1] == PipelinePids(firstPid, oks)[..i] + [pid]
  {
    assert oks[..i + 1][..i] == oks[..i];
  }

  lemma PrefixSnoc<T>(s: seq<T>, i: int)
    requires 0 <= i < |s|
    ensures s[..i + 1] == s[..i] + [s[i]]
  {
  }

  lemma PrefixFull<T>(s: seq<T>)
    ensures s[..|s|] == s
  {
  }

  /** The spawns of a pipeline whose shell table was `base` before it. */
  function PipelineSpawns(base: FdTable, stages: seq<Stage>, pipes: seq<PipeRec>, firstPid: int,
                          oks: seq<SpawnOracle>): (r: seq<Spawn>)
    requires |pipes| == |stages| - 1 && |oks| == |stages|
    ensures |r| == |stages|
  {
    seq(|stages|, k requires 0 <= k < |stages| =>
      SpawnOf(PipelinePid(firstPid, oks, k), TableAtFork(base, stages, pipes, k), Wired(stages, pipes, k), oks[k]))
  }

  // ---------------------------------------------------------------------
  // What a pipeline run guarantees
  // ---------------------------------------------------------------------

  /** The descriptors of the pipes a pipeline creates are consecutive from
      `fd0` on. */
  lemma {:induction false} NewPipesEnds(firstId: nat, fd0: int, count: nat)
    ensures forall j :: 0 <= j < 2 * count ==> Ends(NewPipes(firstId, fd0, count))[j] == fd0 + j
  {
    if count > 0 {
      NewPipesEnds(firstId, fd0, count - 1);
      assert NewPipes(firstId, fd0, count)[..count - 1] == NewPipes(firstId, fd0, count - 1);
    }
  }

  /** A shell whose open descriptors lie below `fd0 >= 2` and whose pipes are
      numbered below `firstId` gets fresh pipes. */
  lemma NewPipesFresh(base: FdTable, n: int, firstId: nat, fd0: int)
    requires n >= 1 && fd0 >= 2
    requires forall fd :: fd in base ==> 0 <= fd < fd0
    requires forall fd :: fd in base && base[fd].PipeEnd? ==> base[fd].pipe < firstId
    ensures FreshPipes(base, n, NewPipes(firstId, fd0, n - 1), firstId)
  {
    var e := Ends(NewPipes(firstId, fd0, n - 1));
    NewPipesEnds(firstId, fd0, n - 1);
    forall x | x in e
      ensures x !in base && x != STDIN_FILENO && x != STDOUT_FILENO
    {
      var j :| 0 <= j < |e| && e[j] == x;
    }
  }

  /** The exactly-once property for the pipes a pipeline run by a shell in a
      valid state creates: each of their descriptors is closed once by the
      shell, and the shell closes nothing else. */
  lemma PipelineClosesEachEndOnce(base: FdTable, stages: seq<Stage>, firstId: nat, fd0: int)
    requires |stages| >= 1 && fd0 >= 2
    requires forall fd :: fd in base ==> 0 <= fd < fd0
    requires forall fd :: fd in base && base[fd].PipeEnd? ==> base[fd].pipe < firstId
    ensures var pipes := NewPipes(firstId, fd0, |stages| - 1);
            var closed := ClosedUpTo(stages, pipes, |stages|);
            (forall e :: e in Ends(pipes) ==> multiset(closed)[e] == 1) &&
            (forall c :: c in closed ==> c in Ends(pipes))
  {
    var pipes := NewPipes(firstId, fd0, |stages| - 1);
    NewPipesFresh(base, |stages|, firstId, fd0);
    PipeEndsClosedOnce(base, stages, pipes, firstId);
  }

  /** The table of stage k's child once its set-up has succeeded. */
  function ChildAt(base: FdTable, stages: seq<Stage>, pipes: seq<PipeRec>, k: int): FdTable
    requires 0 <= k < |stages| && |pipes| == |stages| - 1
  {
    ChildTable(TableAtFork(base, stages, pipes, k), Wired(stages, pipes, k))
  }

  /** A child that got past its set-up holds the table `ChildAt`. */
  lemma SpawnedChildTable(base: FdTable, stages: seq<Stage>, pipes: seq<PipeRec>, firstPid: int,
                          oks: seq<SpawnOracle>, k: int)
    requires |pipes| == |stages| - 1 && |oks| == |stages| && 0 <= k < |stages|
    ensures var sp := PipelineSpawns(base, stages, pipes, firstPid, oks)[k];
            sp.Forked? && sp.exitCode == None <==>
              oks[k].forkOk && !RedirectFails(Wired(stages, pipes, k), oks[k].inOpenOk, oks[k].outOpenOk)
    ensures var sp := PipelineSpawns(base, stages, pipes, firstPid, oks)[k];
            sp.Forked? && sp.exitCode == None ==> sp.fds == ChildAt(base, stages, pipes, k)
  {
  }

  /** Adjacent stages are connected: stage k-1 writes into pipe k-1 and
      stage k reads from it, whatever redirection files they name. */
  lemma PipelineConnected(base: FdTable, stages: seq<Stage>, firstId: nat, fd0: int, k: int)
    requires fd0 >= 2 && forall fd :: fd in base ==> 0 <= fd < fd0
    requires 0 < k < |stages| && EndsAttached(stages, base)
    ensures var pipes := NewPipes(firstId, fd0, |stages| - 1);
            Lookup(ChildAt(base, stages, pipes, k - 1), STDOUT_FILENO) == Some(PipeEnd(pipes[k - 1].id, true)) &&
            Lookup(ChildAt(base, stages, pipes, k), STDIN_FILENO) == Some(PipeEnd(pipes[k - 1].id, false))
  {
    var pipes := NewPipes(firstId, fd0, |stages| - 1);
    ChildStdout(TableAtFork(base, stages, pipes, k - 1), Wired(stages, pipes, k - 1));
    ChildStdin(TableAtFork(base, stages, pipes, k), Wired(stages, pipes, k));
  }

  /** The only write end of the pipeline's pipes a child holds is that of
      its own pipe, on stdout: no reader can miss end-of-file because a
      sibling keeps a write end open. */
  lemma WriteEndsOnlyAtStdout(base: FdTable, stages: seq<Stage>, firstId: nat, fd0: int, k: int, fd: int)
    requires fd0 >= 2 && forall fd :: fd in base ==> 0 <= fd < fd0
    requires forall fd :: fd in base && base[fd].PipeEnd? ==> base[fd].pipe < firstId
    requires 0 <= k < |stages| && EndsAttached(stages, base)
    requires var child := ChildAt(base, stages, NewPipes(firstId, fd0, |stages| - 1), k);
             fd in child && child[fd].PipeEnd? && child[fd].writeEnd && child[fd].pipe >= firstId
    ensures fd == STDOUT_FILENO && k < |stages| - 1
    ensures ChildAt(base, stages, NewPipes(firstId, fd0, |stages| - 1), k)[fd].pipe == firstId + k
  {
    var pipes := NewPipes(firstId, fd0, |stages| - 1);
    var m := TableAtFork(base, stages, pipes, k);
    var p := Wired(stages, pipes, k);
    if fd == STDIN_FILENO {
      ChildStdin(m, p);
    } else if fd == STDOUT_FILENO {
      ChildStdout(m, p);
    } else if fd == p.inFd {
      ChildStdin(m, p);
    } else if fd == p.outFd {
      ChildStdout(m, p);
    } else {
      ChildOtherDescriptors(m, p, fd);
    }
  }

  /** Stage k (not the last) keeps the read end of its own output pipe:
      the shell never closes it before forking the writer. */
  lemma ChildKeepsOwnReadEnd(base: FdTable, stages: seq<Stage>, firstId: nat, fd0: int, k: int)
    requires fd0 >= 2 && forall fd :: fd in base ==> 0 <= fd < fd0
    requires 0 <= k < |stages| - 1 && EndsAttached(stages, base)
    ensures var pipes := NewPipes(firstId, fd0, |stages| - 1);
            Lookup(ChildAt(base, stages, pipes, k), pipes[k].readFd) == Some(PipeEnd(pipes[k].id, false))
  {
    var pipes := NewPipes(firstId, fd0, |stages| - 1);
    ChildOtherDescriptors(TableAtFork(base, stages, pipes, k), Wired(stages, pipes, k), pipes[k].readFd);
  }

  /** More successful forks among the first k stages than among the first j. */
  lemma {:induction false} ForkCountGrows(oks: seq<SpawnOracle>, j: int, k: int)
    requires 0 <= j < k <= |oks| && oks[j].forkOk
    ensures ForkCount(oks[..k]) >= ForkCount(oks[..j]) + 1
  {
    assert oks[..k][..k - 1] == oks[..k - 1];
    if k - 1 > j {
      ForkCountGrows(oks, j, k - 1);
    } else {
      assert oks[..j + 1][..j] == oks[..j];
    }
  }

  /** The pids a pipeline records for its forked stages are distinct and
      increasing, and stages whose fork failed record 0. */
  lemma PipelinePidsDistinct(firstPid: int, oks: seq<SpawnOracle>, j: int, k: int)
    requires firstPid >= 1 && 0 <= j < k < |oks|
    ensures PipelinePid(firstPid, oks, j) == 0 <==> !oks[j].forkOk
    ensures oks[j].forkOk && oks[k].forkOk ==> PipelinePid(firstPid, oks, j) < PipelinePid(firstPid, oks, k)
  {
    if oks[j].forkOk && oks[k].forkOk {
      ForkCountGrows(oks, j, k);
    }
  }

  /** The shell's table `m` after `dup` saved stdin on `saveIn` and stdout
      on `saveOut` (-1 for a `dup` that failed). */
  function SaveTable(m: FdTable, saveIn: int, saveOut: int): FdTable {
    var m1 := if STDIN_FILENO in m then m[saveIn := m[STDIN_FILENO]] else m;
    if STDOUT_FILENO in m then m1[saveOut := m[STDOUT_FILENO]] else m1
  }

  /** The restore step of the built-in path: each saved copy goes back onto
      the stream that was redirected, then both copies are closed. */
  function RestoreTable(r: FdTable, p: Stage, saveIn: int, saveOut: int): FdTable {
    var r1 := if p.inFile.Some? then DupTo(r, saveIn, STDIN_FILENO) else r;
    var r2 := if p.outFile.Some? then DupTo(r1, saveOut, STDOUT_FILENO) else r1;
    r2 - {saveIn} - {saveOut}
  }

  /** What the built-in path closes when the shell's next fresh descriptor
      is `fd0` and stdin and stdout are open: the temporaries of
      `redirection`, then the two saved copies. */
  function BuiltinCloses(fd0: int, p: Stage): (r: seq<int>)
    ensures |r| == |RedirectTemps(fd0 + 2, p)| + 2
    ensures r[|r| - 2] == fd0 && r[|r| - 1] == fd0 + 1
  {
    RedirectTemps(fd0 + 2, p) + [fd0, fd0 + 1]
  }

  /** Save, redirect, restore: every descriptor but 0 and 1 is back as it
      was, and 0 and 1 are too when both were open to be saved. */
  lemma RestoredTable(m: FdTable, p: Stage, saveIn: int, saveOut: int)
    requires forall fd :: fd in m ==> fd >= 0
    requires saveIn == -1 || (saveIn !in m && saveIn > STDOUT_FILENO)
    requires saveOut == -1 || (saveOut !in m && saveOut > STDOUT_FILENO && saveOut != saveIn)
    requires STDIN_FILENO in m <==> saveIn != -1
    requires STDOUT_FILENO in m <==> saveOut != -1
    ensures var fin := RestoreTable(RedirectTable(SaveTable(m, saveIn, saveOut), p), p, saveIn, saveOut);
            forall fd :: fd != STDIN_FILENO && fd != STDOUT_FILENO ==> Lookup(fin, fd) == Lookup(m, fd)
    ensures STDIN_FILENO in m && STDOUT_FILENO in m ==>
              RestoreTable(RedirectTable(SaveTable(m, saveIn, saveOut), p), p, saveIn, saveOut) == m
  {
    var fin := RestoreTable(RedirectTable(SaveTable(m, saveIn, saveOut), p), p, saveIn, saveOut);
    if STDIN_FILENO in m && STDOUT_FILENO in m {
      assert fin[STDIN_FILENO] == m[STDIN_FILENO];
      assert fin[STDOUT_FILENO] == m[STDOUT_FILENO];
      assert fin.Keys == m.Keys;
    }
  }

  // ---------------------------------------------------------------------
  // The read-eval loop of `shell()`
  // ---------------------------------------------------------------------

  /** One parsed input line: its stages (the `cmd_node` list), `pipe_num`,
      the state the built-ins see, and the oracles of the calls it makes. */
  datatype Command = Command(stages: seq<Stage>, pipeNum: int, env: Env,
                             oks: seq<SpawnOracle>, pipeOks: seq<bool>)

  /** What a parsed line must satisfy for the model: at least one stage,
      each with a command name, and oracles for every call. The last
      conjunct, room in `cpids` for every stage of a pipeline, is an
      assumption: `cpids` has `pipe_num` slots, and nothing visible in the
      shell fixes `pipe_num`; if it counts pipes rather than stages, the
      pid of the last stage is stored past the end of `cpids`. */
  predicate WellFormed(c: Command) {
    |c.stages| >= 1 && (forall k :: 0 <= k < |c.stages| ==> |c.stages[k].args| >= 1) &&
    |c.oks| == |c.stages| && |c.pipeOks| == |c.stages| - 1 &&
    |c.env.history.slots| > 0 &&
    (|c.stages| > 1 ==> c.pipeNum >= |c.stages|)
  }

  /** Every line read that holds a command is well formed. */
  predicate AllWellFormed(lines: seq<Option<Command>>) {
    forall k :: 0 <= k < |lines| && lines[k].Some? ==> WellFormed(lines[k].value)
  }

  /** The registry index of a single command's name, or -1. */
  function BuiltinIndex(c: Command): (r: int)
    requires WellFormed(c)
    ensures -1 <= r < NumBuiltins()
  {
    FirstIndex(BuiltinStr, c.stages[0].args[0])
  }

  /** The line makes the shell itself exit: a redirection file of a
      built-in cannot be opened, or a pipe of a pipeline cannot be made. */
  predicate LineExits(c: Command)
    requires WellFormed(c)
  {
    if |c.stages| == 1 then
      BuiltinIndex(c) != -1 && RedirectFails(c.stages[0], c.oks[0].inOpenOk, c.oks[0].outOpenOk)
    else false in c.pipeOks
  }

  /** The status the line leaves in `status` when the shell survives it,
      for a shell whose next pid is `pid`: the built-in's answer, the
      pid `spawn_proc` returned, or the 1 of `fork_cmd_node`. */
  function LineStatus(c: Command, pid: int): int
    requires WellFormed(c)
  {
    if |c.stages| == 1 then
      var idx := BuiltinIndex(c);
      if idx != -1 then Run(BuiltinFunc[idx], c.stages[0].args, c.env).status
      else if c.oks[0].forkOk then pid else 0
    else 1
  }

  /** The loop stops after a line exactly when it ran `exit` or a `cd`
      whose `chdir` failed, or it was a single external command whose fork
      failed; a pipeline never stops it. */
  lemma LineStops(c: Command, pid: int)
    requires WellFormed(c) && pid >= 1
    ensures LineStatus(c, pid) == 0 <==>
              |c.stages| == 1 &&
              (var args := c.stages[0].args;
               if args[0] in BuiltinStr then
                 args[0] == "exit" || (args[0] == "cd" && |args| >= 2 && !c.env.chdirSucceeds)
               else !c.oks[0].forkOk)
  {
    if |c.stages| == 1 && BuiltinIndex(c) != -1 {
      var idx := BuiltinIndex(c);
      StatusStopsOnlyOnExitOrFailedCd(BuiltinFunc[idx], c.stages[0].args, c.env);
      RegistryNamesDistinct();
      assert BuiltinStr[idx] == c.stages[0].args[0];
      assert BuiltinFunc[idx] == ExitShellFn <==> idx == 4;
      assert BuiltinFunc[idx] == CdFn <==> idx == 1;
    }
  }

  /** Whether the loop ends after this line: the shell exited, or the
      line's status was 0. No line has status 0 because of its pid. */
  predicate EndsSession(c: Command)
    requires WellFormed(c)
  {
    LineExits(c) || LineStatus(c, 1) == 0
  }

  /** Whether a line's status is 0 does not depend on the next pid. */
  lemma StatusZeroWhateverPid(c: Command, pid: int)
    requires WellFormed(c) && pid >= 1
    ensures LineStatus(c, pid) == 0 <==> LineStatus(c, 1) == 0
  {
  }

  /** Whether the loop ends after a line read; an empty line (`None`)
      never ends it. */
  predicate EndsLoop(line: Option<Command>) {
    line.Some? && WellFormed(line.value) && EndsSession(line.value)
  }

  /** Whether a line read makes the shell itself exit. */
  predicate ExitsShell(line: Option<Command>) {
    line.Some? && WellFormed(line.value) && LineExits(line.value)
  }

  /** For each line read, whether the loop ends after it. */
  function SessionFlags(lines: seq<Option<Command>>): (r: seq<bool>)
    ensures |r| == |lines|
  {
    seq(|lines|, k requires 0 <= k < |lines| => EndsLoop(lines[k]))
  }

  /** For each line read, whether it makes the shell itself exit. */
  function ExitFlags(lines: seq<Option<Command>>): (r: seq<bool>)
    ensures |r| == |lines|
  {
    if |lines| == 0 then [] else [ExitsShell(lines[0])] + ExitFlags(lines[1..])
  }

  /** Flag i of `ExitFlags` is line i's. */
  lemma {:induction false} ExitFlagsAt(lines: seq<Option<Command>>, i: int)
    requires 0 <= i < |lines|
    ensures ExitFlags(lines)[i] == ExitsShell(lines[i])
  {
    if i > 0 {
      ExitFlagsAt(lines[1..], i - 1);
    }
  }

  /** The number of lines up to and including the first that ends the loop. */
  function FirstStop(flags: seq<bool>): (r: nat)
    ensures r <= |flags|
  {
    if |flags| == 0 then 0
    else if flags[0] then 1
    else 1 + FirstStop(flags[1..])
  }

  /** How many lines the loop reads. */
  function SessionLength(lines: seq<Option<Command>>): (r: nat)
    ensures r <= |lines|
  {
    FirstStop(SessionFlags(lines))
  }

  /** `FirstStop` counts up to the first raised flag, or all flags. */
  lemma {:induction false} FirstStopIsFirst(flags: seq<bool>)
    ensures forall k :: 0 <= k < FirstStop(flags) - 1 ==> !flags[k]
    ensures FirstStop(flags) < |flags| ==> flags[FirstStop(flags) - 1]
    ensures FirstStop(flags) == |flags| <==> forall k :: 0 <= k < |flags| - 1 ==> !flags[k]
  {
    if |flags| > 0 && !flags[0] {
      FirstStopIsFirst(flags[1..]);
      assert forall k :: 0 < k < |flags| ==> flags[k] == flags[1..][k - 1];
    }
  }

  /** The loop runs through every line before the one that ends it, and it
      reads every line when none ends it. */
  lemma SessionEndsAtFirstStop(lines: seq<Option<Command>>)
    ensures forall k :: 0 <= k < SessionLength(lines) - 1 ==> !EndsLoop(lines[k])
    ensures SessionLength(lines) < |lines| ==> EndsLoop(lines[SessionLength(lines) - 1])
    ensures SessionLength(lines) == |lines| <==>
              forall k :: 0 <= k < |lines| - 1 ==> !EndsLoop(lines[k])
  {
    var flags := SessionFlags(lines);
    FirstStopIsFirst(flags);
    forall k | 0 <= k < |lines|
      ensures flags[k] == EndsLoop(lines[k])
    {
    }
  }

  /** One step of `FirstStop` from flag i on. */
  lemma FirstStopStep(flags: seq<bool>, i: int)
    requires 0 <= i < |flags|
    ensures FirstStop(flags[i..]) == if flags[i] then 1 else 1 + FirstStop(flags[i + 1..])
  {
    assert flags[i..][1..] == flags[i + 1..];
  }

  // ---------------------------------------------------------------------
  // A process and the system calls the engine makes
  // ---------------------------------------------------------------------

  /** A process: its descriptor table, the counters the kernel uses to
      hand out descriptors, pipe numbers and pids, and whether it has
      called `exit`. */
  class Process {
    var fds: FdTable
    var nextFd: int
    var nextPipe: nat
    var nextPid: int
    var exitCode: Option<int>
    ghost var trace: Trace

    /** Open descriptors lie below the next fresh one, and every pipe end
        names a pipe created before. */
    ghost predicate Valid()
      reads this
    {
      nextFd >= 3 && nextPid >= 1 &&
      (forall fd :: fd in fds ==> 0 <= fd < nextFd) &&
      (forall fd :: fd in fds && fds[fd].PipeEnd? ==> fds[fd].pipe < nextPipe)
    }

    /** A process holding the three inherited standard streams. */
    constructor Start()
      ensures Valid() && exitCode == None && trace == EmptyTrace
      ensures fds == map[0 := Terminal(0), 1 := Terminal(1), 2 := Terminal(2)]
      ensures nextFd == 3 && nextPipe == 0 && nextPid == 1
    {
      fds := map[0 := Terminal(0), 1 := Terminal(1), 2 := Terminal(2)];
      nextFd := 3;
      nextPipe := 0;
      nextPid := 1;
      exitCode := None;
      trace := EmptyTrace;
    }

    /** The child side of `fork`: a copy of the parent's table. */
    constructor ForkOf(parent: Process)
      requires parent.Valid()
      ensures Valid() && exitCode == None && trace == EmptyTrace
      ensures fds == parent.fds && nextFd == parent.nextFd
      ensures nextPipe == parent.nextPipe && nextPid == parent.nextPid
    {
      fds := parent.fds;
      nextFd := parent.nextFd;
      nextPipe := parent.nextPipe;
      nextPid := parent.nextPid;
      exitCode := None;
      trace := EmptyTrace;
    }

    /** `open`: the file on a fresh descriptor, or -1 when the open fails. */
    method Open(path: string, mode: OpenMode, ok: bool) returns (fd: int)
      requires Valid() && exitCode == None
      modifies this
      ensures Valid() && exitCode == None && trace == old(trace)
      ensures nextPipe == old(nextPipe) && nextPid == old(nextPid)
      ensures ok ==> fd == old(nextFd) && fd !in old(fds) && fds == old(fds)[fd := DiskFile(path, mode)]
                     && nextFd == old(nextFd) + 1
      ensures !ok ==> fd == -1 && fds == old(fds) && nextFd == old(nextFd)
    {
      if ok {
        fd := nextFd;
        fds := fds[fd := DiskFile(path, mode)];
        nextFd := nextFd + 1;
      } else {
        fd := -1;
      }
    }

    /** `pipe`: a new pipe whose read and write ends are two fresh
        descriptors; on failure nothing changes and -1 is returned. */
    method Pipe(ok: bool) returns (rc: int, readFd: int, writeFd: int)
      requires Valid() && exitCode == None
      modifies this
      ensures Valid() && exitCode == None && nextPid == old(nextPid)
      ensures ok ==> rc == 0 && readFd == old(nextFd) && writeFd == old(nextFd) + 1
                     && fds == old(fds)[readFd := PipeEnd(old(nextPipe), false)][writeFd := PipeEnd(old(nextPipe), true)]
                     && nextFd == old(nextFd) + 2 && nextPipe == old(nextPipe) + 1
                     && trace == old(trace).(pipes := old(trace).pipes + [PipeRec(old(nextPipe), readFd, writeFd)])
      ensures !ok ==> rc == -1 && fds == old(fds) && nextFd == old(nextFd) && nextPipe == old(nextPipe)
                      && trace == old(trace)
    {
      if ok {
        readFd, writeFd := nextFd, nextFd + 1;
        fds := fds[readFd := PipeEnd(nextPipe, false)][writeFd := PipeEnd(nextPipe, true)];
        trace := trace.(pipes := trace.pipes + [PipeRec(nextPipe, readFd, writeFd)]);
        nextFd := nextFd + 2;
        nextPipe := nextPipe + 1;
        rc := 0;
      } else {
        rc, readFd, writeFd := -1, -1, -1;
      }
    }

    /** `dup`: a fresh descriptor for the object of `fd`, or -1 when `fd`
        is not open. */
    method Dup(fd: int) returns (r: int)
      requires Valid() && exitCode == None
      modifies this
      ensures Valid() && exitCode == None && trace == old(trace)
      ensures nextPipe == old(nextPipe) && nextPid == old(nextPid)
      ensures fd in old(fds) ==> r == old(nextFd) && r !in old(fds) && fds == old(fds)[r := old(fds)[fd]]
                                 && nextFd == old(nextFd) + 1
      ensures fd !in old(fds) ==> r == -1 && fds == old(fds) && nextFd == old(nextFd)
    {
      if fd in fds {
        r := nextFd;
        fds := fds[r := fds[fd]];
        nextFd := nextFd + 1;
      } else {
        r := -1;
      }
    }

    /** `dup2`: `to` refers to the object of `from`; -1 and no change when
        `from` is not open or `to` is negative. */
    method Dup2(from: int, to: int) returns (r: int)
      requires Valid() && exitCode == None
      modifies this
      ensures Valid() && exitCode == None && trace == old(trace)
      ensures nextPipe == old(nextPipe) && nextPid == old(nextPid)
      ensures nextFd == (if from in old(fds) && to >= old(nextFd) then to + 1 else old(nextFd))
      ensures from in old(fds) && to >= 0 ==> r == to && fds == DupTo(old(fds), from, to)
      ensures !(from in old(fds) && to >= 0) ==> r == -1 && fds == old(fds)
    {
      if from in fds && to >= 0 {
        fds := fds[to := fds[from]];
        if to >= nextFd {
          nextFd := to + 1;
        }
        r := to;
      } else {
        r := -1;
      }
    }

    /** `close`: every call is logged; closing a descriptor that is not
        open fails and is counted as a bad close. */
    method Close(fd: int) returns (r: int)
      requires Valid() && exitCode == None
      modifies this
      ensures Valid() && exitCode == None
      ensures nextFd == old(nextFd) && nextPipe == old(nextPipe) && nextPid == old(nextPid)
      ensures fds == old(fds) - {fd}
      ensures r == (if fd in old(fds) then 0 else -1)
      ensures trace == old(trace).(closes := old(trace).closes + [fd],
                                   badCloses := old(trace).badCloses + (if fd in old(fds) then 0 else 1))
    {
      r := if fd in fds then 0 else -1;
      trace := trace.(closes := trace.closes + [fd],
                      badCloses := trace.badCloses + (if fd in fds then 0 else 1));
      fds := fds - {fd};
    }

    /** `exit`: the process ends and its descriptors are released. */
    method Exit(code: int)
      requires Valid() && exitCode == None
      modifies this
      ensures Valid() && exitCode == Some(code) && fds == map[] && trace == old(trace)
      ensures nextFd == old(nextFd) && nextPipe == old(nextPipe) && nextPid == old(nextPid)
    {
      exitCode := Some(code);
      fds := map[];
    }

    /** `redirection`: the input file is opened read-only and moved onto
        stdin, then the output file is opened for writing (created,
        truncated, mode 0644) and moved onto stdout; each temporary
        descriptor is closed. A failed open makes the process exit with
        status 1. */
    method Redirection(p: Stage, inOk: bool, outOk: bool)
      requires Valid() && exitCode == None
      modifies this
      ensures Valid() && nextPipe == old(nextPipe) && nextPid == old(nextPid)
      ensures exitCode == (if RedirectFails(p, inOk, outOk) then Some(1) else None)
      ensures RedirectFails(p, inOk, outOk) ==> fds == map[]
      ensures !RedirectFails(p, inOk, outOk) ==>
                fds == RedirectTable(old(fds), p) && nextFd == old(nextFd) + |RedirectTemps(old(nextFd), p)|
      ensures !RedirectFails(p, inOk, outOk) ==>
                trace == old(trace).(closes := old(trace).closes + RedirectTemps(old(nextFd), p))
    {
      if p.inFile.Some? {
        var fd := Open(p.inFile.value, ReadOnly, inOk);
        if fd == -1 {
          Exit(1);
          return;
        }
        var _ := Dup2(fd, STDIN_FILENO);
        var _ := Close(fd);
      }
      if p.outFile.Some? {
        var fd := Open(p.outFile.value, WriteCreateTrunc(OUTPUT_PERM), outOk);
        if fd == -1 {
          Exit(1);
          return;
        }
        var _ := Dup2(fd, STDOUT_FILENO);
        var _ := Close(fd);
      }
    }

    /** `spawn_proc`: fork; the child applies the redirection files, then
        moves the stage's pipe descriptors onto stdin and stdout, and the
        record of the spawn keeps its table at that point, where it would
        load the program. The parent gets the child's pid, or 0 when the
        fork fails; its own table is untouched. */
    method SpawnProc(p: Stage, o: SpawnOracle) returns (pid: int)
      requires Valid() && exitCode == None
      modifies this
      ensures Valid() && exitCode == None && fds == old(fds) && nextFd == old(nextFd)
      ensures nextPipe == old(nextPipe)
      ensures pid == (if o.forkOk then old(nextPid) else 0)
      ensures nextPid == old(nextPid) + (if o.forkOk then 1 else 0)
      ensures trace == old(trace).(spawns := old(trace).spawns + [SpawnOf(old(nextPid), old(fds), p, o)])
    {
      if !o.forkOk {
        trace := trace.(spawns := trace.spawns + [ForkFailed(p)]);
        return 0;
      }
      var child := new Process.ForkOf(this);
      pid := nextPid;
      nextPid := nextPid + 1;
      child.Redirection(p, o.inOpenOk, o.outOpenOk);
      if child.exitCode == None {
        if p.inFd != STDIN_FILENO {
          var _ := child.Dup2(p.inFd, STDIN_FILENO);
          var _ := child.Close(p.inFd);
        }
        if p.outFd != STDOUT_FILENO {
          var _ := child.Dup2(p.outFd, STDOUT_FILENO);
          var _ := child.Close(p.outFd);
        }
      }
      trace := trace.(spawns := trace.spawns + [Forked(pid, p, child.fds, child.exitCode)]);
    }

    /** `fork_cmd_node`: for each stage in order, the previous pipe's read
        end becomes its input, a new pipe's write end its output (except
        for the last stage), it is spawned, and the shell closes the write
        end and the previous read end; then every stored pid is waited
        for. A failed `pipe` makes the shell exit with status 1. `cpids`
        has `pipeNum` slots, which must cover every stage. */
    method ForkCmdNode(stages: seq<Stage>, pipeNum: int, oks: seq<SpawnOracle>, pipeOks: seq<bool>)
      returns (r: int)
      requires Valid() && exitCode == None
      requires |stages| >= 1 && |oks| == |stages| && |pipeOks| == |stages| - 1
      requires pipeNum >= |stages|
      modifies this
      ensures Valid()
      ensures exitCode == (if false in pipeOks then Some(1) else None)
      ensures false in pipeOks ==> fds == map[]
      ensures false !in pipeOks ==>
                r == 1 && fds == old(fds) &&
                nextFd == old(nextFd) + 2 * (|stages| - 1) && nextPipe == old(nextPipe) + |stages| - 1 &&
                nextPid == old(nextPid) + ForkCount(oks)
      ensures false !in pipeOks ==>
                var pipes := NewPipes(old(nextPipe), old(nextFd), |stages| - 1);
                trace == old(trace).(pipes := old(trace).pipes + pipes,
                                     closes := old(trace).closes + ClosedUpTo(stages, pipes, |stages|),
                                     spawns := old(trace).spawns + PipelineSpawns(old(fds), stages, pipes, old(nextPid), oks),
                                     waits := old(trace).waits + PipelinePids(old(nextPid), oks))
    {
      var cpids := new int[pipeNum];
      var i := SpawnStages(stages, oks, pipeOks, cpids);
      if exitCode.Some? {
        return 0;
      }
      WaitAll(cpids, i);
      PipelineTraceDone(old(trace), old(fds), stages, NewPipes(old(nextPipe), old(nextFd), |stages| - 1), old(nextPid), oks);
      r := 1;
    }

    /** The first loop of `fork_cmd_node`, over the stages, storing each
        pid in `cpids`; it returns the number of stages spawned. */
    method SpawnStages(stages: seq<Stage>, oks: seq<SpawnOracle>, pipeOks: seq<bool>, cpids: array<int>)
      returns (i: int)
      requires Valid() && exitCode == None
      requires |stages| >= 1 && |oks| == |stages| && |pipeOks| == |stages| - 1
      requires cpids.Length >= |stages|
      modifies this, cpids
      ensures Valid()
      ensures exitCode == (if false in pipeOks then Some(1) else None)
      ensures false in pipeOks ==> fds == map[]
      ensures false !in pipeOks ==>
                var pipes := NewPipes(old(nextPipe), old(nextFd), |stages| - 1);
                i == |stages| && fds == old(fds) &&
                nextFd == old(nextFd) + 2 * (|stages| - 1) && nextPipe == old(nextPipe) + |stages| - 1 &&
                nextPid == old(nextPid) + ForkCount(oks) &&
                cpids[..i] == PipelinePids(old(nextPid), oks) &&
                trace == PipelineTrace(old(trace), old(fds), stages, pipes, old(nextPid), oks, |stages|)
    {
      var n := |stages|;
      ghost var base := fds;
      ghost var t0 := trace;
      ghost var firstPid := nextPid;
      ghost var fd0 := nextFd;
      ghost var pipes := NewPipes(nextPipe, nextFd, n - 1);
      var readEnd := -1;
      var lastRead := -1;
      i := 0;
      while i < n
        invariant 0 <= i <= n
        invariant exitCode == None
        invariant false !in pipeOks[..PipesBy(i, n)]
        invariant nextFd == fd0 + 2 * PipesBy(i, n) && nextPipe == old(nextPipe) + PipesBy(i, n)
        invariant nextPid == firstPid + ForkCount(oks[..i])
        invariant fds == TableBetween(base, stages, pipes, i)
        invariant 0 < i < n ==> readEnd == pipes[i - 1].readFd
        invariant lastRead == if i >= 2 then pipes[i - 2].readFd else -1
        invariant trace == PipelineTrace(t0, base, stages, pipes, firstPid, oks, i)
        invariant cpids[..i] == PipelinePids(firstPid, oks)[..i]
      {
        ghost var pid0 := nextPid;
        var pid;
        pid, readEnd, lastRead := ForkStage(stages, i, readEnd, lastRead, oks[i], i < n - 1 && pipeOks[i],
                                            base, old(nextPipe), fd0);
        if exitCode.Some? {
          return;
        }
        cpids[i] := pid;
        PipelinePidStep(firstPid, oks, i, pid0, pid);
        PrefixSnoc(cpids[..], i);
        if i < n - 1 {
          PrefixSnoc(pipeOks, i);
        }
        PipelineTraceStep(t0, base, stages, pipes, firstPid, oks, i, pid0);
        i := i + 1;
      }
      PrefixFull(pipeOks);
      PrefixFull(oks);
    }

    /** The closing loop of `fork_cmd_node`: `waitpid` on each of the
        first `count` stored pids, in order. */
    method WaitAll(cpids: array<int>, count: int)
      requires Valid() && exitCode == None && 0 <= count <= cpids.Length
      modifies this
      ensures Valid() && exitCode == None && fds == old(fds)
      ensures nextFd == old(nextFd) && nextPipe == old(nextPipe) && nextPid == old(nextPid)
      ensures trace == old(trace).(waits := old(trace).waits + cpids[..count])
    {
      var j := 0;
      while j < count
        invariant 0 <= j <= count
        invariant Valid() && exitCode == None && fds == old(fds)
        invariant nextFd == old(nextFd) && nextPipe == old(nextPipe) && nextPid == old(nextPid)
        invariant trace == old(trace).(waits := old(trace).waits + cpids[..j])
      {
        Waitpid(cpids[j]);
        assert cpids[..j + 1] == cpids[..j] + [cpids[j]];
        j := j + 1;
      }
    }

    /** One pass of the loop in `fork_cmd_node`, for stage i of a pipeline
        whose pipes are numbered from `firstId` and whose descriptors start
        at `fd0`: `readEnd` holds the read end of the previous pipe and
        `lastRead` the value the C code keeps in `last_read`. */
    method ForkStage(stages: seq<Stage>, i: int, readEnd: int, lastRead: int, o: SpawnOracle, pipeOk: bool,
                     ghost base: FdTable, ghost firstId: nat, ghost fd0: int)
      returns (pid: int, newReadEnd: int, newLastRead: int)
      requires Valid() && exitCode == None
      requires 0 <= i < |stages|
      requires forall fd :: fd in base ==> 0 <= fd < fd0
      requires forall fd :: fd in base && base[fd].PipeEnd? ==> base[fd].pipe < firstId
      requires nextFd == fd0 + 2 * i && nextPipe == firstId + i
      requires var pipes := NewPipes(firstId, fd0, |stages| - 1);
               fds == TableBetween(base, stages, pipes, i) &&
               (0 < i ==> readEnd == pipes[i - 1].readFd) &&
               lastRead == if i >= 2 then pipes[i - 2].readFd else -1
      modifies this
      ensures Valid()
      ensures exitCode == (if i < |stages| - 1 && !pipeOk then Some(1) else None)
      ensures exitCode.Some? ==> fds == map[]
      ensures exitCode == None ==>
                var pipes := NewPipes(firstId, fd0, |stages| - 1);
                fds == TableBetween(base, stages, pipes, i + 1) &&
                nextFd == old(nextFd) + (if i < |stages| - 1 then 2 else 0) &&
                nextPipe == old(nextPipe) + (if i < |stages| - 1 then 1 else 0) &&
                nextPid == old(nextPid) + (if o.forkOk then 1 else 0) &&
                pid == (if o.forkOk then old(nextPid) else 0) &&
                (i < |stages| - 1 ==> newReadEnd == pipes[i].readFd) &&
                newLastRead == (if i >= 1 then pipes[i - 1].readFd else -1) &&
                trace == old(trace).(pipes := old(trace).pipes + (if i < |stages| - 1 then [pipes[i]] else []),
                                     closes := old(trace).closes + ClosedAfter(stages, pipes, i),
                                     spawns := old(trace).spawns +
                                       [SpawnOf(old(nextPid), TableAtFork(base, stages, pipes, i), Wired(stages, pipes, i), o)])
    {
      ghost var pipes := NewPipes(firstId, fd0, |stages| - 1);
      var n := |stages|;
      newReadEnd, newLastRead := readEnd, lastRead;
      var writeEnd := -1;
      var cur := stages[i];
      if i > 0 {
        cur := cur.(inFd := readEnd);
        newLastRead := readEnd;
      }
      if i < n - 1 {
        var rc, rfd, wfd := Pipe(pipeOk);
        if rc == -1 {
          Exit(1);
          return 0, newReadEnd, newLastRead;
        }
        newReadEnd, writeEnd := rfd, wfd;
        cur := cur.(outFd := writeEnd);
      }
      assert cur == Wired(stages, pipes, i);
      assert fds == TableAtFork(base, stages, pipes, i);
      ghost var closed := trace.closes;
      pid := SpawnProc(cur, o);
      if i < n - 1 {
        var _ := Close(writeEnd);
      }
      if newLastRead != -1 {
        var _ := Close(newLastRead);
      }
      ClosesAfterFork(base, stages, firstId, fd0, i);
    }

    /** The built-in path of `shell()`: stdin and stdout are saved with
        `dup`, the redirection files are applied, the handler runs and its
        output goes to the current stdout, the saved copies are moved back
        onto the redirected streams only, and both copies are closed. A
        redirection file that cannot be opened makes the shell itself exit
        with status 1. */
    method RunBuiltin(p: Stage, index: int, env: Env, inOk: bool, outOk: bool) returns (status: int)
      requires Valid() && exitCode == None
      requires 0 <= index < NumBuiltins() && |p.args| >= 1 && |env.history.slots| > 0
      modifies this
      ensures Valid() && nextPipe == old(nextPipe) && nextPid == old(nextPid)
      ensures exitCode == (if RedirectFails(p, inOk, outOk) then Some(1) else None)
      ensures RedirectFails(p, inOk, outOk) ==> fds == map[]
      ensures !RedirectFails(p, inOk, outOk) ==>
                var o := Run(BuiltinFunc[index], p.args, env);
                status == o.status &&
                trace.pipes == old(trace).pipes && trace.spawns == old(trace).spawns &&
                trace.waits == old(trace).waits &&
                trace.writes == old(trace).writes + [Write(Lookup(RedirectTable(old(fds), p), STDOUT_FILENO), o.out)]
      ensures !RedirectFails(p, inOk, outOk) ==>
                forall fd :: fd != STDIN_FILENO && fd != STDOUT_FILENO ==> Lookup(fds, fd) == Lookup(old(fds), fd)
      ensures !RedirectFails(p, inOk, outOk) && STDIN_FILENO in old(fds) && STDOUT_FILENO in old(fds) ==>
                fds == old(fds) && trace.badCloses == old(trace).badCloses &&
                nextFd == old(nextFd) + 2 + |RedirectTemps(old(nextFd) + 2, p)| &&
                trace.closes == old(trace).closes + BuiltinCloses(old(nextFd), p)
    {
      status := -1;
      var saveIn := Dup(STDIN_FILENO);
      var saveOut := Dup(STDOUT_FILENO);
      assert fds == SaveTable(old(fds), saveIn, saveOut);
      Redirection(p, inOk, outOk);
      if exitCode.Some? {
        return;
      }
      var o := ExecBuiltInCommand(index, p.args, env);
      WriteOut(o.out);
      RestoreStreams(p, saveIn, saveOut);
      status := o.status;
      RestoredTable(old(fds), p, saveIn, saveOut);
    }

    /** The restore step of the built-in path. */
    method RestoreStreams(p: Stage, saveIn: int, saveOut: int)
      requires Valid() && exitCode == None
      requires saveIn == -1 || STDOUT_FILENO < saveIn < nextFd
      requires saveOut == -1 || STDOUT_FILENO < saveOut < nextFd
      requires saveIn == -1 || saveIn != saveOut
      modifies this
      ensures Valid() && exitCode == None && fds == RestoreTable(old(fds), p, saveIn, saveOut)
      ensures nextFd == old(nextFd) && nextPipe == old(nextPipe) && nextPid == old(nextPid)
      ensures trace == old(trace).(closes := old(trace).closes + [saveIn, saveOut],
                                   badCloses := old(trace).badCloses + (if saveIn in old(fds) then 0 else 1) +
                                                (if saveOut in old(fds) then 0 else 1))
    {
      if p.inFile.Some? {
        var _ := Dup2(saveIn, STDIN_FILENO);
      }
      if p.outFile.Some? {
        var _ := Dup2(saveOut, STDOUT_FILENO);
      }
      var _ := Close(saveIn);
      var _ := Close(saveOut);
    }

    /** One pass of the loop in `shell()`: a single command runs as a
        built-in when its name is in the registry, otherwise it is spawned
        and waited for; a pipeline goes to `fork_cmd_node`. */
    method RunLine(c: Command) returns (status: int)
      requires Valid() && exitCode == None && WellFormed(c)
      modifies this
      ensures Valid()
      ensures exitCode == (if LineExits(c) then Some(1) else None)
      ensures exitCode.Some? ==> fds == map[]
      ensures exitCode == None ==> status == LineStatus(c, old(nextPid))
      ensures exitCode == None && STDIN_FILENO in old(fds) && STDOUT_FILENO in old(fds) ==> fds == old(fds)
      // a registered name runs in the shell: nothing is spawned or waited for
      ensures exitCode == None && |c.stages| == 1 && BuiltinIndex(c) != -1 ==>
                var p := c.stages[0];
                trace.pipes == old(trace).pipes && trace.spawns == old(trace).spawns &&
                trace.waits == old(trace).waits &&
                trace.writes == old(trace).writes +
                  [Write(Lookup(RedirectTable(old(fds), p), STDOUT_FILENO), Run(BuiltinFunc[BuiltinIndex(c)], p.args, c.env).out)]
      ensures exitCode == None && |c.stages| == 1 && BuiltinIndex(c) != -1 &&
              STDIN_FILENO in old(fds) && STDOUT_FILENO in old(fds) ==>
                trace.badCloses == old(trace).badCloses &&
                trace.closes == old(trace).closes + BuiltinCloses(old(nextFd), c.stages[0])
      // any other single command is spawned once and waited for once
      ensures |c.stages| == 1 && BuiltinIndex(c) == -1 ==>
                trace == old(trace).(spawns := old(trace).spawns + [SpawnOf(old(nextPid), old(fds), c.stages[0], c.oks[0])],
                                     waits := old(trace).waits + [status])
      // a pipeline does what `fork_cmd_node` does
      ensures exitCode == None && |c.stages| > 1 ==>
                var pipes := NewPipes(old(nextPipe), old(nextFd), |c.stages| - 1);
                trace == old(trace).(pipes := old(trace).pipes + pipes,
                                     closes := old(trace).closes + ClosedUpTo(c.stages, pipes, |c.stages|),
                                     spawns := old(trace).spawns + PipelineSpawns(old(fds), c.stages, pipes, old(nextPid), c.oks),
                                     waits := old(trace).waits + PipelinePids(old(nextPid), c.oks))
    {
      var head := c.stages[0];
      if |c.stages| == 1 {
        status := SearchBuiltInCommand(head.args);
        if status != -1 {
          status := RunBuiltin(head, status, c.env, c.oks[0].inOpenOk, c.oks[0].outOpenOk);
        } else {
          status := RunExternal(head, c.oks[0]);
        }
      } else {
        status := ForkCmdNode(c.stages, c.pipeNum, c.oks, c.pipeOks);
      }
    }

    /** The external-command path of `shell()`: spawn the command and wait
        for the pid `spawn_proc` returned (0 when the fork failed). */
    method RunExternal(p: Stage, o: SpawnOracle) returns (status: int)
      requires Valid() && exitCode == None
      modifies this
      ensures Valid() && exitCode == None && fds == old(fds) && nextFd == old(nextFd)
      ensures nextPipe == old(nextPipe) && nextPid == old(nextPid) + (if o.forkOk then 1 else 0)
      ensures status == (if o.forkOk then old(nextPid) else 0)
      ensures trace == old(trace).(spawns := old(trace).spawns + [SpawnOf(old(nextPid), old(fds), p, o)],
                                   waits := old(trace).waits + [status])
    {
      status := SpawnProc(p, o);
      Waitpid(status);
    }

    /** The loop of `shell()` over the lines read: each line runs, and the
        loop stops after a line whose status is 0 or that made the shell
        exit. It returns the number of lines read. */
    method RunShell(lines: seq<Option<Command>>) returns (consumed: nat)
      requires Valid() && exitCode == None
      requires AllWellFormed(lines)
      modifies this
      ensures Valid()
      ensures consumed == SessionLength(lines)
      ensures exitCode == (if consumed > 0 && ExitFlags(lines)[consumed - 1] then Some(1) else None)
    {
      ghost var flags, exits := SessionFlags(lines), ExitFlags(lines);
      var i := 0;
      while i < |lines|
        invariant 0 <= i <= |lines|
        invariant Valid() && exitCode == None
        invariant SessionLength(lines) == i + FirstStop(flags[i..])
        invariant i > 0 ==> !exits[i - 1]
      {
        FirstStopStep(flags, i);
        var stop := ReadEvalLineAt(lines, i);
        if stop {
          return i + 1;
        }
        i := i + 1;
      }
      return i;
    }

    /** Line i of the input, read by the loop. */
    method ReadEvalLineAt(lines: seq<Option<Command>>, i: int) returns (stop: bool)
      requires Valid() && exitCode == None
      requires AllWellFormed(lines)
      requires 0 <= i < |lines|
      modifies this
      ensures Valid()
      ensures stop == SessionFlags(lines)[i]
      ensures exitCode == (if ExitFlags(lines)[i] then Some(1) else None)
      ensures !stop ==> exitCode == None
    {
      stop := ReadEvalLine(lines[i]);
      ExitFlagsAt(lines, i);
    }

    /** One pass of the loop of `shell()` over one line read (`None` for a
        line that could not be read): whether the loop ends after it. */
    method ReadEvalLine(line: Option<Command>) returns (stop: bool)
      requires Valid() && exitCode == None
      requires line.Some? ==> WellFormed(line.value)
      modifies this
      ensures Valid()
      ensures stop == (line.Some? && EndsSession(line.value))
      ensures exitCode == (if line.Some? && LineExits(line.value) then Some(1) else None)
      ensures line.None? ==>
                fds == old(fds) && trace == old(trace) &&
                nextFd == old(nextFd) && nextPipe == old(nextPipe) && nextPid == old(nextPid)
      ensures exitCode == None && STDIN_FILENO in old(fds) && STDOUT_FILENO in old(fds) ==> fds == old(fds)
    {
      if line.None? {
        return false;
      }
      ghost var pid := nextPid;
      var status := RunLine(line.value);
      StatusZeroWhateverPid(line.value, pid);
      stop := exitCode.Some? || status == 0;
    }

    /** `waitpid`: only the pid waited for is recorded. */
    method Waitpid(pid: int)
      requires Valid() && exitCode == None
      modifies this
      ensures Valid() && exitCode == None && fds == old(fds)
      ensures nextFd == old(nextFd) && nextPipe == old(nextPipe) && nextPid == old(nextPid)
      ensures trace == old(trace).(waits := old(trace).waits + [pid])
    {
      trace := trace.(waits := trace.waits + [pid]);
    }

    /** Text printed to standard output goes to whatever fd 1 refers to. */
    method WriteOut(text: string)
      requires Valid() && exitCode == None
      modifies this
      ensures Valid() && exitCode == None && fds == old(fds)
      ensures nextFd == old(nextFd) && nextPipe == old(nextPipe) && nextPid == old(nextPid)
      ensures trace == old(trace).(writes := old(trace).writes + [Write(Lookup(fds, STDOUT_FILENO), text)])
    {
      trace := trace.(writes := trace.writes + [Write(Lookup(fds, STDOUT_FILENO), text)]);
    }
  }
}

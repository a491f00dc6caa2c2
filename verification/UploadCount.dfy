/** How an upload counts its workers (fdcache_fdinfo.cpp), step by step as threads interleave: the
    semaphore a worker releases when it ends, and the counter the uploading thread keeps. Unlike in
    PseudoFdInfo, a worker may end before it has been counted. */
module UploadCounts {

  /** What the uploading thread is doing. */
  datatype Phase = Idle | Launched | Waiting

  /** running are the launched workers that have not ended, tokens the semaphore's value. */
  datatype State = State(count: int, tokens: int, running: int, phase: Phase)

  datatype Step =
    | Launch      // hands a request to the thread pool
    | Count       // then raises instruct_count
    | Finish      // a worker ends and releases the semaphore
    | StartWait   // WaitAllThreadsExit with a counter above zero
    | Acquire     // takes the semaphore and lowers the counter; the wait ends at zero
    | Reset       // ResetUploadInfo

  predicate Enabled(s: State, t: Step) {
    match t
    case Launch => s.phase == Idle
    case Count => s.phase == Launched
    case Finish => 0 < s.running
    case StartWait => s.phase == Idle && s.count != 0
    case Acquire => s.phase == Waiting && 0 < s.tokens
    case Reset => s.phase == Idle
  }

  /** The state behind an enabled step. */
  function Next(s: State, t: Step): State {
    match t
    case Launch => s.(running := s.running + 1, phase := Launched)
    case Count => s.(count := s.count + 1, phase := Idle)
    case Finish => s.(running := s.running - 1, tokens := s.tokens + 1)
    case StartWait => s.(phase := Waiting)
    case Acquire => s.(tokens := s.tokens - 1, count := s.count - 1, phase := if s.count == 1 then Idle else Waiting)
    case Reset => s.(count := 0)
  }

  ghost predicate CanRun(s: State, run: seq<Step>) {
    run == [] || (CanRun(s, run[..|run| - 1]) && Enabled(After(s, run[..|run| - 1]), run[|run| - 1]))
  }

  ghost function After(s: State, run: seq<Step>): State {
    if run == [] then s else Next(After(s, run[..|run| - 1]), run[|run| - 1])
  }

  /** The workers nobody will wait for, ended or not. */
  ghost function Debt(s: State): int {
    s.tokens + s.running - s.count - if s.phase == Launched then 1 else 0
  }

  ghost predicate Sane(s: State) {
    0 <= s.tokens && 0 <= s.running && 0 <= s.count && (s.phase == Waiting ==> 0 < s.count) && 0 <= Debt(s)
  }

  /** All resets of the run happened with the counter at zero. */
  ghost predicate CleanResets(s: State, run: seq<Step>)
    requires CanRun(s, run)
  {
    run == [] ||
    (CleanResets(s, run[..|run| - 1]) && (run[|run| - 1] == Reset ==> After(s, run[..|run| - 1]).count == 0))
  }

  /** In every run semaphore and running workers together match the counter, but for one worker
      between its launch and its counting, exactly if no reset came while the counter was above zero. */
  lemma {:induction false} Balance(s: State, run: seq<Step>)
    requires Sane(s) && CanRun(s, run)
    ensures Sane(After(s, run))
    ensures Debt(s) <= Debt(After(s, run))
    ensures Debt(After(s, run)) == Debt(s) <==> CleanResets(s, run)
  {
    if run != [] {
      Balance(s, run[..|run| - 1]);
    }
  }

  /** The steps of a wait: workers end, and tokens are taken. */
  ghost predicate IsWait(run: seq<Step>) {
    forall i :: 0 <= i < |run| ==> run[i] == Finish || run[i] == Acquire
  }

  ghost function Acquires(run: seq<Step>): nat {
    if run == [] then 0 else Acquires(run[..|run| - 1]) + if run[|run| - 1] == Acquire then 1 else 0
  }

  /** A wait that has ended took as many tokens as the counter said, and left the debt: no worker
      runs afterwards if there was none. It cannot run on for more steps than workers and counter. */
  lemma {:induction false} WaitTakes(s: State, run: seq<Step>)
    requires Sane(s) && s.phase == Waiting && CanRun(s, run) && IsWait(run)
    ensures var e := After(s, run);
            && e.count == s.count - Acquires(run) && (e.phase == Idle <==> e.count == 0) && e.phase != Launched
            && |run| == (s.running - e.running) + Acquires(run)
            && |run| <= s.running + s.count
    ensures After(s, run).phase == Idle ==>
              Acquires(run) == s.count && After(s, run).tokens + After(s, run).running == Debt(s)
  {
    Balance(s, run);
    if run != [] {
      var front := run[..|run| - 1];
      assert forall i :: 0 <= i < |front| ==> front[i] == run[i];
      WaitTakes(s, front);
      NoResets(s, run);
    } else {
      NoResets(s, run);
    }
  }

  lemma {:induction false} NoResets(s: State, run: seq<Step>)
    requires CanRun(s, run) && IsWait(run)
    ensures CleanResets(s, run)
  {
    if run != [] {
      var front := run[..|run| - 1];
      assert forall i :: 0 <= i < |front| ==> front[i] == run[i];
      NoResets(s, front);
    }
  }

  /** A wait never hangs: either a token is there or a worker is still to end. */
  lemma WaitProgress(s: State)
    requires Sane(s) && s.phase == Waiting
    ensures Enabled(s, Acquire) || Enabled(s, Finish)
  {
  }

  /** After an untimely reset a wait can return while a worker of the new upload is running: one
      worker is launched and counted, the counter is reset, the worker ends, another one is launched
      and counted, and the wait takes the first one's token. */
  lemma EarlyReturn()
    ensures var s, run := State(0, 0, 0, Idle), [Launch, Count, Reset, Finish, Launch, Count, StartWait, Acquire];
            CanRun(s, run) && After(s, run) == State(0, 0, 1, Idle)
  {
    var s0 := State(0, 0, 0, Idle);
    var r1, s1 := RunStep(s0, [], s0, Launch);
    var r2, s2 := RunStep(s0, r1, s1, Count);
    var r3, s3 := RunStep(s0, r2, s2, Reset);
    var r4, s4 := RunStep(s0, r3, s3, Finish);
    var r5, s5 := RunStep(s0, r4, s4, Launch);
    var r6, s6 := RunStep(s0, r5, s5, Count);
    var r7, s7 := RunStep(s0, r6, s6, StartWait);
    var r8, s8 := RunStep(s0, r7, s7, Acquire);
    assert r8 == [Launch, Count, Reset, Finish, Launch, Count, StartWait, Acquire];
  }

  lemma RunStep(s: State, run: seq<Step>, e: State, t: Step) returns (longer: seq<Step>, next: State)
    requires CanRun(s, run) && e == After(s, run) && Enabled(e, t)
    ensures longer == run + [t] && next == Next(e, t) && CanRun(s, longer) && After(s, longer) == next
  {
    longer, next := run + [t], Next(e, t);
    assert longer[..|run|] == run;
  }
}

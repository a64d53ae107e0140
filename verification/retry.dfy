/** The retry/failover loop of `Pycrtsh.run_query`. The isolated query process, its
    deadline and its result pipe are replaced by the outcome each attempt produced, so a
    whole run is a pure function of a scripted sequence of outcomes. */
module RetryLoop {
  import opened Records

  /** Which query executor an attempt uses. The source keeps two flags, `web` and
      `database`, of which exactly one is set; one enum value holds the same information. */
  datatype Backend = Web | Database

  /** Failover's flag flip: web to database, anything else to web. */
  function Flip(b: Backend): (other: Backend)
    ensures other != b
  {
    if b == Web then Database else Web
  }

  /** What one attempt came back with, as the loop classifies it. */
  datatype Outcome =
    | Success(rows: seq<Record>)   // done signalled, no error flag: the rows
    | QueryError(message: string)  // done signalled with the query-error flag
    | Fatal(message: string)       // done signalled with the non-query-error flag
    | Timeout                      // done not signalled within the deadline

  /** The inputs that steer the loop. `retries` and `sleep` (seconds between attempts) are
      unchecked command-line integers. */
  datatype Config = Config(retries: int, quiet: bool, backend: Backend, failover: bool, sleep: int)

  /** The loop's mutable fields: current backend, `attempts` and the `failover` flag. */
  datatype State = State(backend: Backend, attempts: int, failover: bool)

  /** How the loop ends. `SleepRejected` is the exception `time.sleep` raises for a length
      it cannot wait (see `PauseFits`), which nothing in `run_query` catches. `Unfinished`
      is not a source behaviour: it reports that the scripted outcomes ran out while the
      loop was still retrying. */
  datatype Verdict =
    | Done(payload: Payload)
    | FatalExit(message: string)
    | Exhausted(backend: Backend, message: string)
    | SleepRejected
    | Unfinished(state: State)

  datatype Transition = Continue(next: State) | Stop(verdict: Verdict)

  /** A run's verdict with the backend of every attempt it made, in order. */
  datatype Ending = Ending(verdict: Verdict, trace: seq<Backend>)

  const RetryLimitPrefix: string :=
    "Terminating: Hit retry limit. crt.sh rate limits source IPs and can be unstable. "
  const LimitDateAdvice: string :=
    RetryLimitPrefix + "Try modifying the limit (-l) and date (-d) settings."
  const DatabaseAdvice: string :=
    RetryLimitPrefix + "Try querying the database using --database instead."

  function FatalMessage(error: string): string
  {
    "Terminating: Non-query error (" + error + ")"
  }

  /** The exit text for running out of retries on backend `b`. */
  function AdviceFor(b: Backend): string
  {
    if b == Database then LimitDateAdvice else DatabaseAdvice
  }

  /** The state a run starts in: `attempts` is 0 from the constructor. */
  function Init(cfg: Config): State
  {
    State(cfg.backend, 0, cfg.failover)
  }

  /** An attempt that is charged to the retry budget: a timeout, or a query error while
      not quiet. A query error in quiet mode is not one of them. */
  predicate Fails(quiet: bool, o: Outcome)
  {
    o.Timeout? || (o.QueryError? && !quiet)
  }

  /** The largest count of nanoseconds CPython's clock type holds: a signed 64-bit integer. */
  const MaxNanoseconds: int := 0x7FFF_FFFF_FFFF_FFFF

  /** `time.sleep` waits for an integer length in seconds only when its nanoseconds fit the
      clock type (else OverflowError, beyond 9223372036 seconds in either direction) and it
      is non-negative (else ValueError, for -9223372036 to -1 seconds). */
  predicate PauseFits(seconds: int)
  {
    0 <= seconds && seconds * 1_000_000_000 <= MaxNanoseconds
  }

  /** The pause before a retry never raises: the length fits, or the retry branch, the
      only one that sleeps, is unreachable because every failure finds the counter (0
      from the start and after failover) already equal to `retries` (0). */
  predicate SleepAccepted(cfg: Config)
  {
    PauseFits(cfg.sleep) || cfg.retries == 0
  }

  /** The counter stays within the budget. */
  predicate Valid(cfg: Config, st: State)
  {
    0 <= st.attempts <= cfg.retries
  }

  /** How many more failed attempts the loop makes, the exhausting one included: what is
      left on this backend, plus a full budget on the other one while failover is armed. */
  function Budget(cfg: Config, st: State): int
  {
    (cfg.retries - st.attempts + 1) + (if st.failover then cfg.retries + 1 else 0)
  }

  /** Retry accounting after a failed attempt. */
  function Account(cfg: Config, st: State): (t: Transition)
    ensures Valid(cfg, st) ==> (t.Stop? && t.verdict.Exhausted? <==> Budget(cfg, st) == 1)
    ensures Valid(cfg, st) && t.Continue? ==>
              Valid(cfg, t.next) && Budget(cfg, t.next) == Budget(cfg, st) - 1
    ensures t == Stop(SleepRejected) <==>
              (cfg.sleep < 0 || cfg.sleep > 9_223_372_036) && st.attempts != cfg.retries
    ensures t.Stop? && t.verdict != SleepRejected ==>
              t.verdict == Exhausted(st.backend, AdviceFor(st.backend))
    ensures t.Continue? && t.next.backend != st.backend ==>
              t.next == State(Flip(st.backend), 0, false) && st.failover
    ensures t.Continue? && t.next.failover ==> st.failover
  {
    if st.attempts == cfg.retries then
      if st.failover then
        Continue(State(Flip(st.backend), 0, false))
      else if st.backend == Database then
        Stop(Exhausted(Database, LimitDateAdvice))
      else
        Stop(Exhausted(st.backend, DatabaseAdvice))
    else if !PauseFits(cfg.sleep) then
      Stop(SleepRejected)
    else
      Continue(State(st.backend, st.attempts + 1, st.failover))
  }

  /** One pass of the loop body: classify the attempt, then stop or do retry accounting. */
  function Step(cfg: Config, st: State, o: Outcome): (t: Transition)
    ensures t.Continue? ==> Fails(cfg.quiet, o)
    ensures Fails(cfg.quiet, o) ==> t == Account(cfg, st)
    ensures o.Fatal? ==> t == Stop(FatalExit(FatalMessage(o.message)))
    ensures !Fails(cfg.quiet, o) && !o.Fatal? ==>
              t == Stop(Done(if o.Success? then Rows(o.rows) else Message(o.message)))
  {
    match o
    case Fatal(m) => Stop(FatalExit(FatalMessage(m)))
    case QueryError(m) =>
      if !cfg.quiet then Account(cfg, st) else Stop(Done(Message(m)))
    case Success(rows) => Stop(Done(Rows(rows)))
    case Timeout => Account(cfg, st)
  }

  /** Runs the loop from `st`, one scripted outcome per attempt. */
  function RunFrom(cfg: Config, st: State, outcomes: seq<Outcome>): (e: Ending)
    ensures |e.trace| <= |outcomes|
    ensures e.verdict.Unfinished? ==> |e.trace| == |outcomes|
    ensures outcomes != [] ==> |e.trace| >= 1 && e.trace[0] == st.backend
    decreases |outcomes|
  {
    if outcomes == [] then Ending(Unfinished(st), [])
    else
      match Step(cfg, st, outcomes[0])
      case Stop(v) => Ending(v, [st.backend])
      case Continue(next) =>
        var rest := RunFrom(cfg, next, outcomes[1..]);
        Ending(rest.verdict, [st.backend] + rest.trace)
  }

  /** `run_query`'s loop from its initial state. */
  function Run(cfg: Config, outcomes: seq<Outcome>): Ending
  {
    RunFrom(cfg, Init(cfg), outcomes)
  }

  /** The backend `st` is on for its remaining attempts on it, then the other one. */
  function BackendAt(cfg: Config, st: State, i: int): Backend
  {
    if i <= cfg.retries - st.attempts then st.backend else Flip(st.backend)
  }

  /** Whatever the outcomes: a run makes at most `Budget` attempts, uses the current
      backend until its budget is spent and the other one after that, ends exhausted
      only after exactly `Budget` attempts, and never leaves the counter out of range. */
  lemma {:induction false} RunShape(cfg: Config, st: State, outcomes: seq<Outcome>)
    requires Valid(cfg, st)
    ensures |RunFrom(cfg, st, outcomes).trace| <= Budget(cfg, st)
    ensures forall i :: 0 <= i < |RunFrom(cfg, st, outcomes).trace| ==>
              RunFrom(cfg, st, outcomes).trace[i] == BackendAt(cfg, st, i)
    ensures RunFrom(cfg, st, outcomes).verdict.Exhausted? ==>
              && |RunFrom(cfg, st, outcomes).trace| == Budget(cfg, st)
              && RunFrom(cfg, st, outcomes).verdict.backend
                 == (if st.failover then Flip(st.backend) else st.backend)
    ensures RunFrom(cfg, st, outcomes).verdict.Unfinished? ==>
              Valid(cfg, RunFrom(cfg, st, outcomes).verdict.state)
    decreases |outcomes|
  {
    if outcomes != [] {
      var t := Step(cfg, st, outcomes[0]);
      if t.Continue? {
        var next := t.next;
        RunShape(cfg, next, outcomes[1..]);
        var e := RunFrom(cfg, st, outcomes);
        var rest := RunFrom(cfg, next, outcomes[1..]);
        assert e.trace == [st.backend] + rest.trace;
        forall i | 1 <= i < |e.trace|
          ensures e.trace[i] == BackendAt(cfg, st, i)
        {
          assert e.trace[i] == rest.trace[i - 1];
          if next.backend != st.backend {
            assert next == State(Flip(st.backend), 0, false);
            assert i - 1 <= cfg.retries;
          }
        }
      }
    }
  }

  /** Each backend absorbs exactly its budget of failed attempts: when the first `Budget`
      outcomes all fail, the run ends exhausted after exactly `Budget` attempts (with the
      advice for the backend it ended on), and with fewer it is still retrying. */
  lemma {:induction false} RunAllFailures(cfg: Config, st: State, outcomes: seq<Outcome>)
    requires Valid(cfg, st) && SleepAccepted(cfg)
    requires forall i :: 0 <= i < |outcomes| && i < Budget(cfg, st) ==> Fails(cfg.quiet, outcomes[i])
    ensures |outcomes| >= Budget(cfg, st) ==>
              var last := if st.failover then Flip(st.backend) else st.backend;
              && RunFrom(cfg, st, outcomes).verdict == Exhausted(last, AdviceFor(last))
              && |RunFrom(cfg, st, outcomes).trace| == Budget(cfg, st)
    ensures |outcomes| < Budget(cfg, st) ==>
              && RunFrom(cfg, st, outcomes).verdict.Unfinished?
              && |RunFrom(cfg, st, outcomes).trace| == |outcomes|
    decreases |outcomes|
  {
    if outcomes != [] {
      assert Fails(cfg.quiet, outcomes[0]);
      var t := Account(cfg, st);
      if t.Continue? {
        RunAllFailures(cfg, t.next, outcomes[1..]);
      }
    }
  }

  /** The first attempt charged to nobody settles the run: if the first `k` outcomes fail
      and the next does not, and the budget outlasts the failures, the run ends at attempt
      `k + 1` with that outcome's verdict, whatever the counter and failover flag. Either
      there are no failures before it or their pauses are accepted. */
  lemma {:induction false} RunSettles(cfg: Config, st: State, outcomes: seq<Outcome>, k: nat)
    requires Valid(cfg, st) && (k == 0 || SleepAccepted(cfg))
    requires k < |outcomes| && k < Budget(cfg, st)
    requires forall i :: 0 <= i < k ==> Fails(cfg.quiet, outcomes[i])
    requires !Fails(cfg.quiet, outcomes[k])
    ensures |RunFrom(cfg, st, outcomes).trace| == k + 1
    ensures outcomes[k].Fatal? ==>
              RunFrom(cfg, st, outcomes).verdict == FatalExit(FatalMessage(outcomes[k].message))
    ensures outcomes[k].Success? ==>
              RunFrom(cfg, st, outcomes).verdict == Done(Rows(outcomes[k].rows))
    ensures outcomes[k].QueryError? ==>
              RunFrom(cfg, st, outcomes).verdict == Done(Message(outcomes[k].message))
    decreases k
  {
    if k > 0 {
      var t := Account(cfg, st);
      assert Fails(cfg.quiet, outcomes[0]);
      assert t.Continue?;
      RunSettles(cfg, t.next, outcomes[1..], k - 1);
    }
  }

  /** A negative retry count is never met by the counter, which starts at 0 and only
      grows: such a run never exhausts and never fails over. It retries for as long as
      attempts fail, unless the pause does not fit, when the first failure ends it. */
  lemma {:induction false} RunNegativeRetries(cfg: Config, st: State, outcomes: seq<Outcome>)
    requires cfg.retries < 0 <= st.attempts
    ensures !RunFrom(cfg, st, outcomes).verdict.Exhausted?
    ensures forall i :: 0 <= i < |RunFrom(cfg, st, outcomes).trace| ==>
              RunFrom(cfg, st, outcomes).trace[i] == st.backend
    ensures PauseFits(cfg.sleep) && (forall i :: 0 <= i < |outcomes| ==> Fails(cfg.quiet, outcomes[i])) ==>
              RunFrom(cfg, st, outcomes).verdict.Unfinished?
    ensures !PauseFits(cfg.sleep) && outcomes != [] && Fails(cfg.quiet, outcomes[0]) ==>
              RunFrom(cfg, st, outcomes) == Ending(SleepRejected, [st.backend])
    decreases |outcomes|
  {
    if outcomes != [] {
      var t := Step(cfg, st, outcomes[0]);
      if t.Continue? {
        assert t.next == State(st.backend, st.attempts + 1, st.failover);
        RunNegativeRetries(cfg, t.next, outcomes[1..]);
        var e := RunFrom(cfg, st, outcomes);
        var rest := RunFrom(cfg, t.next, outcomes[1..]);
        assert e.trace == [st.backend] + rest.trace;
        if forall i :: 0 <= i < |outcomes| ==> Fails(cfg.quiet, outcomes[i]) {
          assert forall i :: 0 <= i < |outcomes| - 1 ==> outcomes[1..][i] == outcomes[i + 1];
        }
      }
    }
  }

  /** From the start of `run_query` with a non-negative budget: at most `retries + 1`
      attempts per backend, the configured backend first, and the other backend only with
      failover, so at most `2 * (retries + 1)` attempts in all. */
  lemma RunAttemptBound(cfg: Config, outcomes: seq<Outcome>)
    requires cfg.retries >= 0
    ensures |Run(cfg, outcomes).trace| <= (if cfg.failover then 2 else 1) * (cfg.retries + 1)
    ensures forall i :: 0 <= i < |Run(cfg, outcomes).trace| ==>
              Run(cfg, outcomes).trace[i]
              == (if i <= cfg.retries then cfg.backend else Flip(cfg.backend))
  {
    RunShape(cfg, Init(cfg), outcomes);
  }

  /** With retries = 2, no failover and the web backend, three failed attempts end the run
      with the advice to use the database, and no fourth attempt is made. */
  lemma ThreeFailuresOnWeb(outcomes: seq<Outcome>)
    requires |outcomes| >= 3
    requires forall i :: 0 <= i < 3 ==> outcomes[i].Timeout? || outcomes[i].QueryError?
    ensures Run(Config(2, false, Web, false, 5), outcomes)
            == Ending(Exhausted(Web, DatabaseAdvice), [Web, Web, Web])
  {
    var cfg := Config(2, false, Web, false, 5);
    RunAllFailures(cfg, Init(cfg), outcomes);
    RunShape(cfg, Init(cfg), outcomes);
    var tr := Run(cfg, outcomes).trace;
    assert tr[0] == Web && tr[1] == Web && tr[2] == Web;
  }

  /** The same three failures with the longest pause `time.sleep` accepts run as with the
      default pause; one second more and the first retry's pause raises OverflowError. */
  lemma PauseBoundary(outcomes: seq<Outcome>)
    requires |outcomes| >= 3
    requires forall i :: 0 <= i < 3 ==> outcomes[i].Timeout? || outcomes[i].QueryError?
    ensures Run(Config(2, false, Web, false, 9_223_372_036), outcomes)
            == Ending(Exhausted(Web, DatabaseAdvice), [Web, Web, Web])
    ensures Run(Config(2, false, Web, false, 9_223_372_037), outcomes) == Ending(SleepRejected, [Web])
  {
    var cfg := Config(2, false, Web, false, 5);
    ThreeFailuresOnWeb(outcomes);
    SleepLengthIrrelevant(cfg, 9_223_372_036, Init(cfg), outcomes);
    RejectedSleepEndsRun(cfg.(sleep := 9_223_372_037), Init(cfg), outcomes);
  }

  /** With retries = 1, failover, the web backend and a 5-second pause: two failures move the loop to the
      database with the counter reset and failover spent, and two more end it for good. */
  lemma FailoverOnce(outcomes: seq<Outcome>)
    requires |outcomes| >= 4
    requires forall i :: 0 <= i < 4 ==> outcomes[i].Timeout? || outcomes[i].QueryError?
    ensures Run(Config(1, false, Web, true, 5), outcomes[..2]).verdict
            == Unfinished(State(Database, 0, false))
    ensures Run(Config(1, false, Web, true, 5), outcomes)
            == Ending(Exhausted(Database, LimitDateAdvice), [Web, Web, Database, Database])
  {
    var cfg := Config(1, false, Web, true, 5);
    RunAllFailures(cfg, Init(cfg), outcomes);
    RunShape(cfg, Init(cfg), outcomes);
    var tr := Run(cfg, outcomes).trace;
    assert tr[0] == Web && tr[1] == Web && tr[2] == Database && tr[3] == Database;
    var first := outcomes[..2];
    assert Fails(false, first[0]) && Fails(false, first[1]);
    var s1 := State(Web, 1, true);
    assert Step(cfg, Init(cfg), first[0]) == Continue(s1);
    assert Step(cfg, s1, first[1..][0]) == Continue(State(Database, 0, false));
    assert first[1..][1..] == [];
    assert RunFrom(cfg, State(Database, 0, false), first[1..][1..]).verdict
           == Unfinished(State(Database, 0, false));
    assert RunFrom(cfg, s1, first[1..]).verdict == Unfinished(State(Database, 0, false));
  }

  /** A failure that finds the counter short of `retries` leads to the pause, and a
      negative pause, or one of 9223372037 seconds or more, ends the run there. */
  lemma RejectedSleepEndsRun(cfg: Config, st: State, outcomes: seq<Outcome>)
    requires (cfg.sleep < 0 || cfg.sleep > 9_223_372_036) && st.attempts != cfg.retries
    requires outcomes != [] && Fails(cfg.quiet, outcomes[0])
    ensures RunFrom(cfg, st, outcomes) == Ending(SleepRejected, [st.backend])
  {
  }

  /** The pause changes nothing but the clock: any two pause lengths that are both
      accepted give the same run, attempt for attempt. */
  lemma {:induction false} SleepLengthIrrelevant(cfg: Config, sleep: int, st: State, outcomes: seq<Outcome>)
    requires Valid(cfg, st) && SleepAccepted(cfg) && SleepAccepted(cfg.(sleep := sleep))
    ensures RunFrom(cfg, st, outcomes) == RunFrom(cfg.(sleep := sleep), st, outcomes)
    decreases |outcomes|
  {
    var other := cfg.(sleep := sleep);
    if outcomes != [] {
      var t := Step(cfg, st, outcomes[0]);
      assert t == Step(other, st, outcomes[0]);
      if t.Continue? {
        SleepLengthIrrelevant(cfg, sleep, t.next, outcomes[1..]);
      }
    }
  }
}

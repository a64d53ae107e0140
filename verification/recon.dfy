/** `run_query` as a whole: the retry loop, then the result pipeline on whatever the loop
    left in `query_results`. */
module Recon {
  import opened Records
  import opened Ordering
  import opened RetryLoop
  import opened Normalisation

  /** How `run_query` ends: the pipeline's result once the loop is done, or the loop's
      terminal verdict when it exits the program (or the scripted outcomes run out). */
  datatype Report = Completed(result: Normalised) | Terminated(verdict: Verdict)

  function RunQuery(cfg: Config, f: Filter, outcomes: seq<Outcome>): (r: Report)
    ensures r.Terminated? <==> !Run(cfg, outcomes).verdict.Done?
    ensures r.Terminated? ==> r.verdict == Run(cfg, outcomes).verdict
    ensures r.Completed? && r.result.Hostnames? ==>
              && Run(cfg, outcomes).verdict.Done?
              && Run(cfg, outcomes).verdict.payload.Rows?
              && StrictlySorted(r.result.names)
  {
    var e := Run(cfg, outcomes);
    if e.verdict.Done? then Completed(Normalise(f, e.verdict.payload)) else Terminated(e.verdict)
  }

  /** What a completed query yields: a query error left in `query_results` raises, and rows
      raise exactly when one of the names they provide has no dot, and otherwise give
      exactly the names they provide. */
  lemma RunQueryContents(cfg: Config, f: Filter, outcomes: seq<Outcome>)
    ensures var r := RunQuery(cfg, f, outcomes);
            var v := Run(cfg, outcomes).verdict;
            && (r.Completed? && v.payload.Message? ==> r.result == Raised(NotRows))
            && (r.Completed? && v.payload.Rows? ==>
                  (r.result.Raised? <==> exists name :: FromRows(f, v.payload.rows, name) && '.' !in name))
            && (r.Completed? && r.result.Hostnames? ==>
                  forall name :: name in r.result.names <==> FromRows(f, v.payload.rows, name))
  {
    var e := Run(cfg, outcomes);
    if e.verdict.Done? && e.verdict.payload.Rows? {
      NormaliseContents(f, e.verdict.payload.rows);
    }
  }

  /** After any number of timeouts within the budget, a successful attempt yields the
      normalised rows of that attempt. */
  lemma SuccessAfterTimeouts(cfg: Config, f: Filter, outcomes: seq<Outcome>, k: nat)
    requires cfg.retries >= 0 && (k == 0 || SleepAccepted(cfg))
    requires k < |outcomes| && k < Budget(cfg, Init(cfg))
    requires forall i :: 0 <= i < k ==> outcomes[i].Timeout?
    requires outcomes[k].Success?
    ensures RunQuery(cfg, f, outcomes) == Completed(Normalise(f, Rows(outcomes[k].rows)))
  {
    RunSettles(cfg, Init(cfg), outcomes, k);
  }

  /** In quiet mode a query error is taken for a result: the loop ends with the error text
      as `query_results`, and the pipeline then fails on it instead of the loop retrying. */
  lemma QuietQueryErrorEndsLoop(cfg: Config, f: Filter, outcomes: seq<Outcome>, k: nat)
    requires cfg.quiet && cfg.retries >= 0 && (k == 0 || SleepAccepted(cfg))
    requires k < |outcomes| && k < Budget(cfg, Init(cfg))
    requires forall i :: 0 <= i < k ==> outcomes[i].Timeout?
    requires outcomes[k].QueryError?
    ensures RunQuery(cfg, f, outcomes) == Completed(Raised(NotRows))
    ensures |Run(cfg, outcomes).trace| == k + 1
  {
    RunSettles(cfg, Init(cfg), outcomes, k);
  }
}

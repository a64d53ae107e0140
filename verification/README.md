# crtshRecon: retry loop and hostname pipeline

crtshRecon lists the hostnames that certificate-transparency logs (crt.sh) record for a
domain. `Pycrtsh.run_query` does two things:

- It runs one query attempt at a time in a child process, on the web API or on the
  public Postgres database. Each attempt runs under a deadline. Timeouts, and query
  errors when not in quiet mode, are retried up to `--retries` times when that is not
  negative (for a negative value, see below). With `--failover`, the loop switches once
  to the other backend, and it exits the program when the retries run out.
- It turns the rows of the successful attempt into a sorted, duplicate-free list of
  hostnames.

This project models both halves as pure Dafny functions and proves what they do.

- **Records** (`records.dfy`): a certificate row holds the two columns the pipeline
  reads, `common_name` and `name_value`. The loop leaves either rows or, in quiet mode,
  the text of a query error in `query_results`.
- **RetryLoop** (`retry.dfy`): one attempt's result is an `Outcome`. It is `Success`,
  `QueryError`, `Fatal` (the non-query-error flag) or `Timeout`.
  - `Step` is one pass of the loop body.
  - `Account` is the retry bookkeeping.
  - `RunFrom` and `Run` fold `Step` over a scripted sequence of outcomes. The result is
    the verdict plus the backend each attempt used.
  - The verdicts are `Done`, `FatalExit` (the `sys.exit` at line 114), `Exhausted`
    (the two retry-limit exits, with their exact texts) and `SleepRejected`. The last is
    the exception that `time.sleep` raises at line 145 for a `--sleep` outside 0 to
    9223372036 seconds. It is OverflowError when the length in nanoseconds does not fit
    CPython's signed 64-bit clock type (beyond 9223372036 seconds in either direction),
    and ValueError for -9223372036 to -1 seconds.
- **Text** (`text.dfy`): Python's `str.split` on one character, `in` on strings,
  `count`, and `replace("*.", "")`, which scans left to right without overlap.
- **Ordering** (`ordering.dfy`):
  - Python's `<` on `str`;
  - the tuple key `(name.split(".")[-2], name.count("."), name)`;
  - `sorted` with that key, an insertion sort proved to be a sorted permutation;
  - `set` deduplication.
- **Normalisation** (`normalisation.dfy`): the loop over rows and fields, the field
  filters, wildcard removal, `set`, then `sorted`. The pipeline raises instead of
  returning a list in two cases:
  - the loop left an error message instead of rows (`NotRows`);
  - some kept name has no dot, so `split(".")[-2]` raises IndexError (`NoParentLabel`).
    CPython computes every key before it compares any, so one such name is enough.
- **Recon** (`recon.dfy`): `run_query` as a whole, the loop and then the pipeline.
- **Scenarios** (`scenarios.dfy`): the cases below and the sort key, each stated over arbitrary
  labels rather than one literal input.

Behaviour of the code that a reader of its documentation may not expect. The model
follows the code in each case:

- The space test and the `--primary-domain` test look at the whole field (`name` at
  crtshRecon.py lines 155-156), not at the newline piece `n`. One spaced entry in
  `name_value` drops every entry of that field (`Scenarios.WholeFieldExample`). A field
  that contains the domain lets through entries that do not (`Scenarios.PrimaryDomainLeak`).
- `replace("*.", "")` removes every occurrence, not only a leading one. It can also leave
  a "*." behind: "**.." becomes "*." (`Text.WildcardCanSurvive`).
- In quiet mode a query error is not retried. The loop ends with the error text in
  `query_results`, and the row loop then fails on it (`Recon.QuietQueryErrorEndsLoop`).
- A negative `--retries` is never reached by the counter, so the loop neither exhausts
  nor fails over (`RetryLoop.RunNegativeRetries`).
- A negative `--sleep`, or one of 9223372037 seconds or more, is accepted by the argument
  parser, but the first retry's `time.sleep` raises (ValueError or OverflowError), which
  ends `run_query` (`RetryLoop.RejectedSleepEndsRun`). Any two lengths between 0 and
  9223372036 give the same run (`RetryLoop.SleepLengthIrrelevant`).
- An empty common name without `--primary-domain`, or a kept name-value field (no space,
  and the domain in it under `--primary-domain`) that ends in a newline, yields the empty
  name. The empty name has no dot, so the sort raises (`Scenarios.EmptyCommonNameRaises`,
  `Scenarios.TrailingNewlineRaises`). With `--primary-domain` and a non-empty domain, an
  empty common name is dropped instead (`Scenarios.EmptyFieldFiltered`).

## Model

| member | source | states |
|---|---|---|
| RetryLoop.Flip | crtshRecon.py:124-135 | failover always moves to the other backend |
| RetryLoop.Account | crtshRecon.py:123-145 | with the counter in range, the bookkeeping exits on the retry limit exactly when one failed attempt is left in the budget, and a retry keeps the counter in range and spends exactly one unit; it stops on the pause exactly when the pause is negative or 9223372037 seconds or more and the counter is short of retries; any other stop is the retry-limit exit for the current backend with its own advice text; a backend change resets the counter, disarms failover and needs failover armed; failover is never re-armed |
| RetryLoop.Step | crtshRecon.py:110-122 | the loop continues only after a charged failure (a timeout, or a query error when not quiet), and then does exactly the bookkeeping; the non-query-error flag exits with "Terminating: Non-query error (...)"; anything else ends the loop with the rows, or with the error text in quiet mode |
| RetryLoop.RunFrom | crtshRecon.py:98-145 | a run makes at most one attempt per outcome, starts on the current backend, and uses up every outcome when it is still retrying |
| RetryLoop.RunShape | crtshRecon.py:123-145 | from any state with the counter in range: no more attempts than the budget; attempt i runs on the current backend while its retries last and on the other one after; an exhausted run made exactly the budget of attempts and ended on the backend failover left it on; an unfinished run leaves the counter in range |
| RetryLoop.RunAllFailures | crtshRecon.py:112-145 | when every pause is accepted and the first budget-many attempts all fail, the run exits after exactly that many, with the advice for the last backend; with fewer outcomes it is still retrying |
| RetryLoop.RunSettles | crtshRecon.py:112-145 | after k charged failures within the budget whose pauses are accepted, an uncharged outcome ends the run at attempt k+1 with that outcome's result: fatal exit, rows, or the quiet error text |
| RetryLoop.RunNegativeRetries | crtshRecon.py:123-142 | with negative retries the run never exhausts and never changes backend; with a pause `time.sleep` accepts it keeps retrying as long as attempts fail, and with a negative or overlong one the first failure ends it on the rejected pause |
| RetryLoop.RejectedSleepEndsRun | crtshRecon.py:141-145 | a failure that finds the counter short of retries, with a negative pause or one of 9223372037 seconds or more, ends the run at that attempt with the ValueError or OverflowError |
| RetryLoop.SleepLengthIrrelevant | crtshRecon.py:141-145 | any two pause lengths that `time.sleep` accepts (0 to 9223372036 seconds, or any length when retries is 0 and the pause is never reached) give the same run, verdict and backends alike |
| RetryLoop.RunAttemptBound | crtshRecon.py:123-142 | from the start: at most retries+1 attempts, or twice that with failover; the first retries+1 attempts use the configured backend and any later ones use the other backend |
| RetryLoop.ThreeFailuresOnWeb | crtshRecon.py:123-140 | with the default two retries and 5-second pause on the web backend, three failures exit with the advice to use --database, after exactly three web attempts |
| RetryLoop.PauseBoundary | crtshRecon.py:123-145 | on that configuration, a 9223372036-second pause gives the same exit after three web attempts, and a 9223372037-second pause raises at the first retry |
| RetryLoop.FailoverOnce | crtshRecon.py:123-138 | with one retry and failover on the web backend, two failures move to the database with the counter reset and failover spent; four failures exit with the limit/date advice after web, web, database, database |
| Text.Count | crtshRecon.py:164 | the count of a character is zero exactly when it is absent, and at most the length |
| Text.CountOccurrences | crtshRecon.py:164 | the count is the character's multiplicity in the string: the number of its occurrences |
| Text.Split | crtshRecon.py:154 | one more piece than separators; no piece holds the separator; pieces hold only characters of the input |
| Text.JoinSplit | crtshRecon.py:154 | joining the pieces with the separator gives back the input |
| Text.SplitJoin | crtshRecon.py:154-164 | splitting a join of separator-free pieces gives back the pieces |
| Text.SplitWithoutSeparator | crtshRecon.py:153-159 | a string without the separator is its own single piece, which the single-line branch relies on |
| Text.SplitTrailingSeparator | crtshRecon.py:154 | a string ending with the separator has an empty last piece |
| Text.ContainsIffOccurs | crtshRecon.py:156-161 | the substring test holds exactly when the needle occurs at some position |
| Text.RemoveWildcards | crtshRecon.py:158-163 | removing "*." never lengthens a name or adds characters |
| Text.RemoveWildcardsIdentity | crtshRecon.py:158-163 | a name without "*." is unchanged |
| Text.NoStarNoWildcard | crtshRecon.py:158-163 | a name without '*' contains no "*." |
| Text.RemoveWildcardsAppend | crtshRecon.py:158-163 | when no "*." straddles the junction, removal distributes over concatenation |
| Text.WildcardCanSurvive | crtshRecon.py:158-163 | "**.." becomes "*.": the output can still contain "*." |
| Ordering.StrLessIrreflexive | crtshRecon.py:164 | Python's string order is irreflexive |
| Ordering.StrLessTransitive | crtshRecon.py:164 | Python's string order is transitive |
| Ordering.StrLessTotal | crtshRecon.py:164 | distinct strings are comparable |
| Ordering.ParentLabel | crtshRecon.py:164 | for a dotted name it is the second-to-last dot-separated piece, and it never contains a dot |
| Ordering.KeyLessIrreflexive | crtshRecon.py:164 | no name sorts before itself |
| Ordering.KeyLessTransitive | crtshRecon.py:164 | the key order is transitive |
| Ordering.KeyLessTotal | crtshRecon.py:164 | distinct names are ordered one way or the other, because the name itself is the last key component |
| Ordering.KeyLessAsymmetric | crtshRecon.py:164 | two names are never each before the other |
| Ordering.Insert | crtshRecon.py:164 | inserting into a key-sorted list keeps it sorted and adds exactly the one name |
| Ordering.Sort | crtshRecon.py:164 | the result is sorted by the key and is a permutation of the input |
| Ordering.Dedup | crtshRecon.py:164 | the result has no repeats and exactly the input's members |
| Ordering.DistinctMultiplicity | crtshRecon.py:164 | a list has no repeats exactly when every multiplicity is at most one |
| Ordering.SortDistinct | crtshRecon.py:164 | sorting a repeat-free list gives a strictly increasing one |
| Ordering.SortedUnique | crtshRecon.py:164 | two key-sorted permutations of each other are equal, so the output does not depend on the sort algorithm |
| Normalisation.PieceNames | crtshRecon.py:154-158 | the multi-line loop keeps every piece, wildcards removed, when the whole field passes the filters, and none otherwise |
| Normalisation.FieldNamesWholeField | crtshRecon.py:152-163 | both branches make one decision per field: all of its newline pieces, wildcards removed, or nothing |
| Normalisation.FieldNamesProvenance | crtshRecon.py:152-163 | a name comes from a field exactly when the field passes the filters and the name is one of its pieces with wildcards removed |
| Normalisation.CollectNamesProvenance | crtshRecon.py:151-163 | the collected list holds exactly the names some row's common name or name values provide |
| Normalisation.SortDedup | crtshRecon.py:164 | sorting the deduplicated names gives a strictly increasing list of exactly those names |
| Normalisation.Normalise | crtshRecon.py:151-164 | an error text in place of rows raises; a returned list is strictly increasing in key order and every name in it has a dot |
| Normalisation.NormaliseContents | crtshRecon.py:151-164 | the pipeline raises exactly when some provided name has no dot; otherwise it lists exactly the provided names |
| Normalisation.DotlessNameRaises | crtshRecon.py:164 | one provided name without a dot makes the sort raise IndexError |
| Normalisation.NormaliseNoSpaces | crtshRecon.py:155-160 | no listed name contains a space |
| Normalisation.NormalisePrimaryDomain | crtshRecon.py:156-161 | with --primary-domain, every listed name comes from a field that contains the domain |
| Normalisation.CollectNamesIgnoresDomain | crtshRecon.py:156-161 | without --primary-domain, the collected names do not depend on the domain |
| Normalisation.NormaliseIgnoresDomain | crtshRecon.py:156-161 | without --primary-domain, the result does not depend on the domain |
| Normalisation.StrictlySortedIsSortedAndDistinct | crtshRecon.py:164 | a strictly increasing list is sorted and free of repeats |
| Normalisation.DistinctSameMembers | crtshRecon.py:164 | repeat-free lists with the same members are permutations of each other |
| Normalisation.NormaliseDependsOnNamesOnly | crtshRecon.py:151-164 | rows that provide the same names give the same result, whatever their order and repetitions |
| Recon.RunQuery | crtshRecon.py:98-164 | the program exits exactly when the loop does not end with a result, and then with the loop's verdict; a returned list means the loop ended with rows, and the list is strictly increasing |
| Recon.RunQueryContents | crtshRecon.py:98-164 | a completed query raises on a query-error text; on rows it raises exactly when a name they provide has no dot, and a returned list holds exactly the names the rows provide |
| Recon.SuccessAfterTimeouts | crtshRecon.py:110-164 | timeouts within the budget, with accepted pauses, followed by a success give the pipeline's result on that success's rows |
| Recon.QuietQueryErrorEndsLoop | crtshRecon.py:115-151 | in quiet mode a query error after timeouts ends the loop at that attempt, and the pipeline then raises |
| Scenarios.SplitTwo | crtshRecon.py:154 | two separator-free pieces joined by the separator split back into those two |
| Scenarios.Plain | crtshRecon.py:158-163 | a name without '*' keeps its text |
| Scenarios.CollectOne | crtshRecon.py:151-152 | one row contributes its common name's names, then its name values' |
| Scenarios.PlainField | crtshRecon.py:159-163 | a single-line, space-free, wildcard-free field that passes the domain test contributes itself |
| Scenarios.WildcardField | crtshRecon.py:159-163 | a single-line field "*." + t contributes t |
| Scenarios.TwoLineField | crtshRecon.py:153-158 | a kept two-line field contributes both lines |
| Scenarios.SpacedField | crtshRecon.py:155-160 | a field with a space anywhere contributes nothing |
| Scenarios.DottedNameKey | crtshRecon.py:164 | a name joined from dot-free labels has the second-to-last label as its parent label and one dot fewer than labels |
| Scenarios.DottedName | crtshRecon.py:153-164 | besides the parent label and dot count, a name joined from dot-free labels contains a dot and no '*', newline or space: the characters the field tests, the split on newlines and the wildcard removal look for |
| Scenarios.ListedAs | crtshRecon.py:164 | a strictly increasing list with exactly the members of the names is what sorting the deduplicated names gives |
| Scenarios.SortKeyOrder | crtshRecon.py:164 | x.m.c, y.m.c, a.b.m.c are in key order when x starts before y: parent label first, then depth, then text |
| Scenarios.SortKeyCollect | crtshRecon.py:151-163 | a row listing a.b.m.c as its common name and y.m.c, x.m.c as its name values contributes those three names in that order |
| Scenarios.SortKeyExample | crtshRecon.py:151-164 | that row comes out as x.m.c, y.m.c, a.b.m.c |
| Scenarios.WholeFieldExample | crtshRecon.py:153-163 | "*.t" with a name-value field of one clean and one spaced entry gives just t: the clean entry is dropped too |
| Scenarios.PrimaryDomainLeak | crtshRecon.py:153-158 | with --primary-domain, a name without the domain is listed when it shares a field with one that has it |
| Scenarios.EmptyFieldFiltered | crtshRecon.py:159-162 | with --primary-domain and a non-empty domain, an empty field contributes nothing |
| Scenarios.TrailingNewlineRaises | crtshRecon.py:153-164 | a kept name-value field ending with a newline makes the sort raise |
| Scenarios.EmptyCommonNameRaises | crtshRecon.py:159-164 | an empty common name, without --primary-domain, makes the sort raise |

## Left out

- The query executors `query_web` and `query_db` (lines 56-96) are left out, along with
  their HTTP request, headers, JSON decoding, SQL text and database connection. Their
  effect on the loop is the classification into `Outcome`, which each run takes as input.
- The child process, the pipe and the deadline wait are left out. A deadline expiry is
  the `Timeout` outcome. Of `time.sleep` only whether it accepts the length is kept: a
  negative one, or one of 9223372037 seconds or more, raises, and any other only passes
  time.
- The `KeyboardInterrupt` handler (lines 147-149) is left out. It depends on an
  asynchronous signal.
- Status messages printed when not quiet are left out. They change no state.
- Command-line parsing and result printing (lines 169-200) are left out. One part is
  used: `--database` clears `web`, so exactly one backend flag is set. This is why the
  backend is one enum value, and why the crash when neither flag is set (line 109) is
  not modelled.
- The other seven columns of a row are left out. The pipeline unpacks them and never
  reads them.
- A missing (`None`) common name is left out. The model's fields are always strings.
- RetryLoop.Run: a scripted outcome list can run out while the loop is still retrying,
  which the real loop never does. That ending is reported as `Unfinished` rather than
  modelled as an unbounded loop.
- Ordering.ParentLabel: for a name without a dot it returns "" where Python raises
  IndexError. The raise is modelled in `Normalisation.Normalise`, which fails before any
  such name is ordered.
- Normalisation.Normalise: the error raised for a query-error text in place of rows is
  not told apart. The web text gives ValueError and a database exception gives
  TypeError; both are `NotRows`.

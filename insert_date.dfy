/** The one-off script that loads a dates file into the routes-dates table
    through the drive handler, printing each row's failure and carrying on.
    Reading the file, the credentials and the progress bar are I/O: the
    parsed rows are a parameter and the printed lines are the result. */
module InsertDate {
  import opened Base
  import opened RoutesDates

  /** The messages printed for the calls numbered `from` .. `from + count - 1`:
      one per call that raises, in call order. */
  function Failures(failingCalls: map<nat, string>, from: nat, count: nat): seq<string>
    decreases count
  {
    if count == 0 then []
    else
      Failures(failingCalls, from, count - 1)
      + (if from + count - 1 in failingCalls then [failingCalls[from + count - 1]] else [])
  }

  /** Exactly the failing calls print, each once and in order: nothing is
      printed when no call fails, and there is never more than one line per
      call. */
  lemma {:induction false} FailuresSpec(failingCalls: map<nat, string>, from: nat, count: nat)
    ensures |Failures(failingCalls, from, count)| <= count
    ensures Failures(failingCalls, from, count) == [] <==>
      forall n :: from <= n < from + count ==> n !in failingCalls
    ensures forall n :: from <= n < from + count && n in failingCalls ==>
      failingCalls[n] in Failures(failingCalls, from, count)
    decreases count
  {
    if count > 0 {
      FailuresSpec(failingCalls, from, count - 1);
    }
  }

  /** The failures of a run are those of its first part followed by those of
      the rest. */
  lemma {:induction false} FailuresSplit(failingCalls: map<nat, string>, from: nat, a: nat, b: nat)
    ensures Failures(failingCalls, from, a + b) == Failures(failingCalls, from, a) + Failures(failingCalls, from + a, b)
    decreases b
  {
    if b > 0 {
      FailuresSplit(failingCalls, from, a, b - 1);
    }
  }

  /** `main()` over the parsed `rows`. When `get_max_id` raises, the
      exception escapes before any row is handled. Otherwise every row is
      handed to the drive handler, in file order, with its `dates` cell and
      id StartId(max) + i (all ids fixed before the first call, so no id
      depends on an earlier row's outcome); the handler is called exactly
      once per row whether earlier rows failed or not, and the result is the
      lines printed for the rows that raised. */
  method ImportDates(store: DateStore, rows: seq<Record>) returns (printed: Result<seq<string>>)
    requires store.Valid()
    modifies store
    ensures store.Valid()
    ensures store.maxIdAnswer.Err? ==>
      printed == Err(store.maxIdAnswer.error) && store.calls == old(store.calls)
    ensures store.maxIdAnswer.Ok? ==>
      && store.calls == old(store.calls) + BatchCalls(Drive, rows, store.maxIdAnswer.value)
      && store.attempts == old(store.attempts) + |rows|
      && printed == Ok(Failures(store.failingCalls, old(store.attempts), |rows|))
  {
    var maxId := store.GetMaxId();
    if maxId.Err? {
      return Err(maxId.error);
    }
    var start := if maxId.value.None? then 0 else maxId.value.value + 1;
    var records := WithObjectIds(rows, start);
    var lines := ImportRows(store, records);
    printed := Ok(lines);
  }

  /** The loop of `main` over the numbered rows `records`: each row goes to
      the drive handler with its `dates` and `OBJECTID` cells, and an
      exception is printed instead of ending the loop. */
  method ImportRows(store: DateStore, records: seq<Record>) returns (lines: seq<string>)
    requires store.Valid()
    modifies store
    ensures store.Valid()
    ensures store.calls == old(store.calls) + PlannedCalls(Drive, records)
    ensures store.attempts == old(store.attempts) + |records|
    ensures lines == Failures(store.failingCalls, old(store.attempts), |records|)
  {
    ghost var planned := PlannedCalls(Drive, records);
    lines := [];
    for i := 0 to |records|
      invariant store.Valid()
      invariant store.calls == old(store.calls) + planned[..i]
      invariant store.attempts == old(store.attempts) + i
      invariant lines == Failures(store.failingCalls, old(store.attempts), i)
    {
      var date := Get(records[i], "dates");
      var objectId := Get(records[i], "OBJECTID");
      var outcome := store.CheckAndAdd(Drive, date, objectId);
      if outcome.Fail? {
        lines := lines + [outcome.error.message];
      }
      assert planned[..i + 1] == planned[..i] + [planned[i]];
    }
    assert planned[..|records|] == planned;
  }
}

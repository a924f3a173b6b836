/** The two entry points of the function app that this model covers: the
    blob trigger that queues an uploaded archive's name, and the HTTP route
    that numbers the rows of a dates CSV and hands each one to the
    routes-dates table. Environment variables, the blob and queue clients and
    the CSV download are I/O: the blob name, the queue and the parsed rows are
    parameters. */
module FunctionApp {
  import opened Base
  import opened Text
  import AzureApi
  import opened RoutesDates

  // ----- strava_zip_blob_trigger -----

  /** `'/'.join(name.split("/")[1:])`: the blob name without its container. */
  function StripContainer(name: string): (blobName: string)
  {
    Join(Split(name, '/')[1..], "/")
  }

  /** The container segment and the first separator are removed; every
      later separator is kept. */
  lemma StripContainerDropsFirstSegment(container: string, rest: string)
    requires '/' !in container
    ensures StripContainer(container + "/" + rest) == rest
  {
    SplitAtFirst(container, '/', rest);
    assert Split(container + "/" + rest, '/')[1..] == Split(rest, '/');
    JoinSplit(rest, '/');
  }

  /** A name without a separator leaves nothing to queue. */
  lemma StripContainerWithoutSeparator(name: string)
    requires '/' !in name
    ensures StripContainer(name) == ""
  {
    SplitWithout(name, '/');
  }

  /** Nothing is lost: the container, a separator and the queued name spell
      the trigger's name again. */
  lemma StripContainerRebuilds(name: string)
    requires '/' in name
    ensures BeforeFirst(name, '/') + "/" + StripContainer(name) == name
  {
    var container := BeforeFirst(name, '/');
    var rest := name[|container| + 1..];
    assert name == container + "/" + rest;
    StripContainerDropsFirstSegment(container, rest);
  }

  /** The archive `strava/a/b.zip` is queued as `a/b.zip`. */
  lemma StripContainerExample()
    ensures StripContainer("strava/a/b.zip") == "a/b.zip"
  {
    assert "strava/a/b.zip" == "strava" + "/" + "a/b.zip";
    StripContainerDropsFirstSegment("strava", "a/b.zip");
  }

  /** `strava_zip_blob_trigger(blob)`: exactly one message is queued, the
      blob's name without its container. */
  method StravaZipBlobTrigger(queue: AzureApi.QueueHandler, name: string)
    modifies queue
    ensures queue.sent == old(queue.sent) + [StripContainer(name)]
  {
    var pieces := Split(name, '/');
    var blobName := Join(pieces[1..], "/");
    queue.InsertQueueMessage(blobName);
  }

  // ----- read_mobility_dates -----

  /** `func.HttpResponse(body, status_code=...)` */
  datatype HttpResponse = HttpResponse(body: string, statusCode: int)

  const Inserted := HttpResponse("Data inserted successfully", 200)
  const InvalidTravelType := HttpResponse("Invalid travel type", 400)

  /** The calls `planned` were made, in order, up to and including the
      first that raises (numbering the calls from `from`), and that call's
      exception is the result; when none raises every planned call was made
      and the answer is 200. */
  ghost predicate Dispatched(planned: seq<StoreCall>, failingCalls: map<nat, string>, from: nat,
                             callsBefore: seq<StoreCall>, callsAfter: seq<StoreCall>,
                             response: Result<HttpResponse>)
  {
    var j := FirstFailing(failingCalls, from, |planned|);
    if j < |planned| then
      && callsAfter == callsBefore + planned[..j + 1]
      && response == Err(Raised(failingCalls[from + j]))
    else
      callsAfter == callsBefore + planned && response == Ok(Inserted)
  }

  /** `read_mobility_dates(req)`, with the `traveltype` request parameter as
      `travelType` and the CSV's rows as `rows`. The result is the HTTP
      response, or the exception that escapes the function:
      - when `get_max_id` raises, that exception escapes before any row is
        handled;
      - an unknown travel type answers 400 on the first row, before any
        "check and add" call; with no rows it answers 200;
      - otherwise row i goes, in order, to the mode's handler with its
        `dates` cell and id StartId(max) + i; the first handler call that
        raises ends the function with its exception, so later rows are never
        handled; when none raises the answer is 200. */
  method ReadMobilityDates(store: DateStore, travelType: Option<string>, rows: seq<Record>)
    returns (response: Result<HttpResponse>)
    requires store.Valid()
    modifies store
    ensures store.Valid()
    ensures store.maxIdAnswer.Err? ==>
      response == Err(store.maxIdAnswer.error) && store.calls == old(store.calls)
    ensures store.maxIdAnswer.Ok? && ParseTravelType(travelType).None? ==>
      store.calls == old(store.calls) && response == Ok(if rows == [] then Inserted else InvalidTravelType)
    ensures store.maxIdAnswer.Ok? && ParseTravelType(travelType).Some? ==>
      Dispatched(BatchCalls(ParseTravelType(travelType).value, rows, store.maxIdAnswer.value),
                 store.failingCalls, old(store.attempts), old(store.calls), store.calls, response)
  {
    var maxId := store.GetMaxId();
    if maxId.Err? {
      return Err(maxId.error);
    }
    var start := if maxId.value.None? then 0 else maxId.value.value + 1;
    var records := WithObjectIds(rows, start);
    response := DispatchRows(store, travelType, records);
  }

  /** The loop of `read_mobility_dates` over the numbered rows `records`.
      The travel type is tested on every row, but the test gives the same
      answer each time: an unknown type answers 400 on the first row, before
      any handler call, and with no rows the loop never runs and the answer
      is 200. A known type sends every row to its handler. */
  method DispatchRows(store: DateStore, travelType: Option<string>, records: seq<Record>)
    returns (response: Result<HttpResponse>)
    requires store.Valid()
    modifies store
    ensures store.Valid()
    ensures ParseTravelType(travelType).None? ==>
      store.calls == old(store.calls) && response == Ok(if records == [] then Inserted else InvalidTravelType)
    ensures ParseTravelType(travelType).Some? ==>
      Dispatched(PlannedCalls(ParseTravelType(travelType).value, records),
                 store.failingCalls, old(store.attempts), old(store.calls), store.calls, response)
  {
    var selected := ParseTravelType(travelType);
    if selected.None? {
      return if records == [] then Ok(Inserted) else Ok(InvalidTravelType);
    }
    response := DispatchMode(store, selected.value, records);
  }

  /** The rows, in order, each to the handler of `mode` with its `dates` and
      `OBJECTID` cells, until a handler call raises. */
  method DispatchMode(store: DateStore, mode: Mode, records: seq<Record>)
    returns (response: Result<HttpResponse>)
    requires store.Valid()
    modifies store
    ensures store.Valid()
    ensures Dispatched(PlannedCalls(mode, records), store.failingCalls, old(store.attempts),
                       old(store.calls), store.calls, response)
  {
    ghost var planned := PlannedCalls(mode, records);
    ghost var from := store.attempts;
    for i := 0 to |records|
      invariant store.Valid()
      invariant store.calls == old(store.calls) + planned[..i]
      invariant store.attempts == from + i
      invariant forall n :: from <= n < from + i ==> n !in store.failingCalls
    {
      var date := Get(records[i], "dates");
      var objectId := Get(records[i], "OBJECTID");
      var outcome := store.CheckAndAdd(mode, date, objectId);
      assert planned[..i + 1] == planned[..i] + [planned[i]];
      if outcome.Fail? {
        DispatchedAtFailure(planned, store.failingCalls, from, old(store.calls), i);
        return Err(outcome.error);
      }
    }
    assert planned[..|records|] == planned;
    DispatchedAll(planned, store.failingCalls, from, old(store.calls));
    return Ok(Inserted);
  }

  /** A run that stops at the first call in the range that fails has made
      the calls up to and including it, and answers with its exception. */
  lemma DispatchedAtFailure(planned: seq<StoreCall>, failingCalls: map<nat, string>, from: nat,
                            callsBefore: seq<StoreCall>, i: nat)
    requires i < |planned| && from + i in failingCalls
    requires forall n :: from <= n < from + i ==> n !in failingCalls
    ensures Dispatched(planned, failingCalls, from, callsBefore, callsBefore + planned[..i + 1],
                       Err(Raised(failingCalls[from + i])))
  {
  }

  /** A run in which no call fails has made every planned call and answers 200. */
  lemma DispatchedAll(planned: seq<StoreCall>, failingCalls: map<nat, string>, from: nat,
                      callsBefore: seq<StoreCall>)
    requires forall n :: from <= n < from + |planned| ==> n !in failingCalls
    ensures Dispatched(planned, failingCalls, from, callsBefore, callsBefore + planned, Ok(Inserted))
  {
  }
}

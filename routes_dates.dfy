/** The routes-dates table as the date-ingestion code sees it: one query for
    the largest OBJECTID, and one "check and add" operation per travel mode.
    What the table does inside those operations is not part of this model;
    the store below only answers the maximum it was given, records every
    call, and raises on the calls it was told to fail. */
module RoutesDates {
  import opened Base

  /** The travel modes that have a "check and add" operation. */
  datatype Mode = Drive | Bikes | PublicTransport | Pedestrians

  /** The `traveltype` request value that selects a mode. */
  function TravelTypeName(m: Mode): string
  {
    match m
    case Drive => "drive"
    case Bikes => "bikes"
    case PublicTransport => "public_transport"
    case Pedestrians => "pedestrians"
  }

  /** The mode a `traveltype` request value selects, if any: exactly the four
      names above, compared as exact strings; a missing value selects none. */
  function ParseTravelType(travelType: Option<string>): (m: Option<Mode>)
    ensures m.Some? ==> travelType == Some(TravelTypeName(m.value))
    ensures forall mode :: travelType == Some(TravelTypeName(mode)) ==> m == Some(mode)
  {
    match travelType
    case None => None
    case Some(t) =>
      if t == "drive" then Some(Drive)
      else if t == "bikes" then Some(Bikes)
      else if t == "public_transport" then Some(PublicTransport)
      else if t == "pedestrians" then Some(Pedestrians)
      else None
  }

  /** One CSV row: column name to cell. */
  type Record = map<string, Value>

  /** A call of `check_and_add_<mode>` with the row's `dates` and `OBJECTID` cells. */
  datatype StoreCall = StoreCall(mode: Mode, date: Option<Value>, objectId: Option<Value>)

  /** The routes-dates table behind `get_max_id` and `check_and_add_*`. */
  class DateStore {
    /** What `get_max_id` answers: the largest id, None for an empty table,
        or the exception the query raises. */
    const maxIdAnswer: Result<Option<int>>
    /** Call number (0-based, over this store's life) to the message of the
        exception that call raises; every other call succeeds. */
    const failingCalls: map<nat, string>
    /** How many "check and add" calls have been made. */
    var attempts: nat
    /** Every "check and add" call made, in order. */
    ghost var calls: seq<StoreCall>

    ghost predicate Valid()
      reads this
    {
      |calls| == attempts
    }

    constructor (maxIdAnswer: Result<Option<int>>, failingCalls: map<nat, string>)
      ensures Valid() && calls == []
      ensures this.maxIdAnswer == maxIdAnswer && this.failingCalls == failingCalls
    {
      this.maxIdAnswer := maxIdAnswer;
      this.failingCalls := failingCalls;
      attempts := 0;
      calls := [];
    }

    /** `OpRoutesDates.get_max_id(conn)` */
    method GetMaxId() returns (answer: Result<Option<int>>)
      ensures answer == maxIdAnswer
    {
      answer := maxIdAnswer;
    }

    /** `OpRoutesDates.check_and_add_<mode>(conn, date, id)`: the call is
        recorded, and it raises exactly when its number is a failing one. */
    method CheckAndAdd(mode: Mode, date: Option<Value>, objectId: Option<Value>) returns (outcome: Outcome)
      requires Valid()
      modifies this
      ensures Valid()
      ensures calls == old(calls) + [StoreCall(mode, date, objectId)]
      ensures outcome == if old(attempts) in failingCalls then Fail(Raised(failingCalls[old(attempts)])) else Pass
    {
      outcome := if attempts in failingCalls then Fail(Raised(failingCalls[attempts])) else Pass;
      attempts := attempts + 1;
      calls := calls + [StoreCall(mode, date, objectId)];
    }
  }

  /** The first id of a batch: 0 for an empty table, otherwise one above the
      stored maximum, so it never repeats an id the table already holds. */
  function StartId(maxId: Option<int>): (start: int)
    ensures maxId.None? ==> start == 0
    ensures maxId.Some? ==> start > maxId.value && start - 1 == maxId.value
  {
    match maxId
    case None => 0
    case Some(m) => m + 1
  }

  /** `df['OBJECTID'] = start + df.index`: each row gains (or has replaced)
      an OBJECTID cell holding the batch start plus its 0-based position. */
  function WithObjectIds(rows: seq<Record>, start: int): (records: seq<Record>)
    ensures |records| == |rows|
    ensures forall i :: 0 <= i < |rows| ==> records[i] == rows[i]["OBJECTID" := Int(start + i)]
    decreases |rows|
  {
    if rows == [] then []
    else [rows[0]["OBJECTID" := Int(start)]] + WithObjectIds(rows[1..], start + 1)
  }

  /** The calls the loop makes for `records` under `mode`: one per record,
      in order, with the record's `dates` and `OBJECTID` cells. */
  function PlannedCalls(mode: Mode, records: seq<Record>): (planned: seq<StoreCall>)
    ensures |planned| == |records|
    ensures forall i :: 0 <= i < |records| ==>
      planned[i] == StoreCall(mode, Get(records[i], "dates"), Get(records[i], "OBJECTID"))
    decreases |records|
  {
    if records == [] then []
    else [StoreCall(mode, Get(records[0], "dates"), Get(records[0], "OBJECTID"))]
         + PlannedCalls(mode, records[1..])
  }

  /** The calls an ingestion run makes for a CSV batch when every call
      succeeds: row i goes to the mode's handler with its own `dates` cell and
      id StartId(maxId) + i; the ids are consecutive, distinct and all above
      the stored maximum, and they are fixed before any call is made. */
  function BatchCalls(mode: Mode, rows: seq<Record>, maxId: Option<int>): (planned: seq<StoreCall>)
    ensures |planned| == |rows|
    ensures forall i :: 0 <= i < |rows| ==>
      planned[i] == StoreCall(mode, Get(rows[i], "dates"), Some(Int(StartId(maxId) + i)))
    ensures forall i, j :: 0 <= i < j < |rows| ==> planned[i].objectId.value.i < planned[j].objectId.value.i
    ensures forall i :: 0 <= i < |rows| && maxId.Some? ==> planned[i].objectId.value.i > maxId.value
  {
    PlannedCalls(mode, WithObjectIds(rows, StartId(maxId)))
  }

  /** The position of the first failing call among `count` calls numbered
      from `from`, or `count` when none of them fails. */
  function FirstFailing(failingCalls: map<nat, string>, from: nat, count: nat): (j: nat)
    ensures j <= count
    ensures forall n :: from <= n < from + j ==> n !in failingCalls
    ensures j < count ==> from + j in failingCalls
    decreases count
  {
    if count == 0 then 0
    else if from in failingCalls then 0
    else 1 + FirstFailing(failingCalls, from + 1, count - 1)
  }
}

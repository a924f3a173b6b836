/** The list and string helpers of the ingestion code. The clock and the
    random source are inputs; queue clients and zip archives are replaced by
    the sequences they yield. */
module Utils {
  import opened Base
  import opened Text
  import ArcGis

  // ----- create_random -----

  /** The j-th character of `string.ascii_uppercase + string.digits`. */
  function AlphabetChar(j: nat): char
    requires j < 36
  {
    if j < 26 then ('A' as int + j) as char else ('0' as int + j - 26) as char
  }

  /** `string.ascii_uppercase + string.digits` */
  const Alphabet: string := seq(36, j requires 0 <= j < 36 => AlphabetChar(j))

  lemma AlphabetSpelled()
    ensures Alphabet == "ABCDEFGHIJKLMNOPQRSTUVWXYZ0123456789"
  {
  }

  /** `"".join(random.choices(Alphabet, k=lenStr))`, with the positions the
      random generator picks given as `draws` (one per character). A negative
      length gives the empty string, as `random.choices` does. */
  function CreateRandom(lenStr: int, draws: seq<nat>): (ran: string)
    requires lenStr <= |draws|
    ensures |ran| == if lenStr < 0 then 0 else lenStr
    ensures forall k :: 0 <= k < |ran| ==> 'A' <= ran[k] <= 'Z' || '0' <= ran[k] <= '9'
  {
    seq(if lenStr < 0 then 0 else lenStr, k requires 0 <= k < |draws| => AlphabetChar(draws[k] % 36))
  }

  /** The draw that picks `c` from the alphabet. */
  function DrawFor(c: char): nat
  {
    if 'A' <= c <= 'Z' then c as int - 'A' as int
    else if '0' <= c <= '9' then 26 + c as int - '0' as int
    else 0
  }

  /** Every string of upper-case letters and digits is a possible result:
      the random strings cover the whole alphabet at every position. */
  lemma CreateRandomReachesEveryString(s: string)
    requires forall k :: 0 <= k < |s| ==> 'A' <= s[k] <= 'Z' || '0' <= s[k] <= '9'
    ensures CreateRandom(|s|, seq(|s|, k requires 0 <= k < |s| => DrawFor(s[k]))) == s
  {
    var draws := seq(|s|, k requires 0 <= k < |s| => DrawFor(s[k]));
    var r := CreateRandom(|s|, draws);
    forall k | 0 <= k < |s|
      ensures r[k] == s[k]
    {
      assert draws[k] == DrawFor(s[k]) && draws[k] < 36;
    }
  }

  // ----- get_time -----

  /** A local date and time, as `datetime.now()` returns it. */
  datatype DateTime = DateTime(year: int, month: int, day: int, hour: int, minute: int, second: int)

  function DaysInMonth(year: int, month: int): int
  {
    if month == 2 then (if (year % 4 == 0 && year % 100 != 0) || year % 400 == 0 then 29 else 28)
    else if month == 4 || month == 6 || month == 9 || month == 11 then 30
    else 31
  }

  /** The instants a Python `datetime` can hold. */
  predicate ValidDateTime(t: DateTime)
  {
    && 1 <= t.year <= 9999
    && 1 <= t.month <= 12
    && 1 <= t.day <= DaysInMonth(t.year, t.month)
    && 0 <= t.hour < 24 && 0 <= t.minute < 60 && 0 <= t.second < 60
  }

  /** The last `width` decimal digits of `n`, most significant first: for
      `n < 10^width` this is `n` left-padded with zeros, as `%Y` (width 4)
      and `%m`, `%d`, `%H`, `%M`, `%S` (width 2) write it. */
  function Pad(n: nat, width: nat): (s: string)
    ensures |s| == width
    ensures forall k :: 0 <= k < |s| ==> '0' <= s[k] <= '9'
  {
    if width == 0 then "" else Pad(n / 10, width - 1) + [DigitChar(n % 10)]
  }

  function Pow10(k: nat): nat
  {
    if k == 0 then 1 else 10 * Pow10(k - 1)
  }

  /** A padded number below `10^width` reads back as itself. */
  lemma {:induction false} PadReadsBack(n: nat, width: nat)
    requires n < Pow10(width)
    ensures DigitsValue(Pad(n, width)) == n
    decreases width
  {
    if width > 0 {
      var s := Pad(n, width);
      assert s[..|s| - 1] == Pad(n / 10, width - 1);
      PadReadsBack(n / 10, width - 1);
    }
  }

  /** The four strings `get_time` returns. */
  datatype TimeStrings = TimeStrings(dateQuery: string, dateTimestamp: string, hour: string, dateAgolQuery: string)

  /** `get_time()` with `datetime.now()` supplied as `now`: `%Y%m%d`,
      `%Y-%m-%d %H:%M:%S`, the hour slot, and `%Y-%m-%d`. The slot is "08"
      before 11 o'clock and "15" from then on. */
  function GetTime(now: DateTime): (t: TimeStrings)
    requires ValidDateTime(now)
    ensures t.hour == "08" <==> now.hour < 11
    ensures t.hour == "15" <==> now.hour >= 11
    ensures |t.dateQuery| == 8
  {
    var year, month, day := Pad(now.year, 4), Pad(now.month, 2), Pad(now.day, 2);
    var dateAgolQuery := year + "-" + month + "-" + day;
    var dateTimestamp := dateAgolQuery + " " + Pad(now.hour, 2) + ":" + Pad(now.minute, 2) + ":" + Pad(now.second, 2);
    TimeStrings(year + month + day, dateTimestamp, if now.hour < 11 then "08" else "15", dateAgolQuery)
  }

  /** Both date strings of `get_time` name the calendar date of `now`: the
      `yyyymmdd` string is eight decimal digits that read back as its year,
      month and day, `yyyy-mm-dd` holds the same digits with dashes, and the
      timestamp starts with it. */
  lemma GetTimeDates(now: DateTime)
    requires ValidDateTime(now)
    ensures var t := GetTime(now);
      && DigitsValue(t.dateQuery[..4]) == now.year
      && DigitsValue(t.dateQuery[4..6]) == now.month
      && DigitsValue(t.dateQuery[6..]) == now.day
      && (forall k :: 0 <= k < |t.dateQuery| ==> '0' <= t.dateQuery[k] <= '9')
      && t.dateAgolQuery == t.dateQuery[..4] + "-" + t.dateQuery[4..6] + "-" + t.dateQuery[6..]
      && t.dateAgolQuery + " " <= t.dateTimestamp
  {
    var year, month, day := Pad(now.year, 4), Pad(now.month, 2), Pad(now.day, 2);
    assert Pow10(4) == 10000 && Pow10(2) == 100;
    PadReadsBack(now.year, 4);
    PadReadsBack(now.month, 2);
    PadReadsBack(now.day, 2);
    var dateQuery := year + month + day;
    assert dateQuery[..4] == year && dateQuery[4..6] == month && dateQuery[6..] == day;
    GetTimeDigits(now);
  }

  /** `%Y%m%d` writes only decimal digits. */
  lemma GetTimeDigits(now: DateTime)
    requires ValidDateTime(now)
    ensures forall k :: 0 <= k < |GetTime(now).dateQuery| ==> '0' <= GetTime(now).dateQuery[k] <= '9'
  {
    var year, month, day := Pad(now.year, 4), Pad(now.month, 2), Pad(now.day, 2);
    var dateQuery := year + month + day;
    assert GetTime(now).dateQuery == dateQuery;
    forall k | 0 <= k < 8
      ensures '0' <= dateQuery[k] <= '9'
    {
      if k < 4 {
        assert dateQuery[k] == year[k];
      } else if k < 6 {
        assert dateQuery[k] == month[k - 4];
      } else {
        assert dateQuery[k] == day[k - 6];
      }
    }
  }

  // ----- create_chunks -----

  function Min(a: int, b: int): int
  {
    if a < b then a else b
  }

  /** Python's `a // b`, which rounds toward negative infinity. */
  function FloorDiv(a: int, b: int): int
    requires b != 0
  {
    if b > 0 then a / b else (-a) / (-b)
  }

  /** Where a Python slice bound `i` lands in a sequence of length `len`. */
  function SliceBound(i: int, len: nat): (b: nat)
    ensures b <= len
  {
    if i < 0 then (if i + len < 0 then 0 else i + len)
    else if i > len then len
    else i
  }

  /** Python's `s[lo:hi]`. */
  function Slice<T>(s: seq<T>, lo: int, hi: int): seq<T>
  {
    var a, b := SliceBound(lo, |s|), SliceBound(hi, |s|);
    if a < b then s[a..b] else []
  }

  /** `create_chunks(n, data)`: `[data[i*n:(i+1)*n] for i in range((len(data)+n-1)//n)]`.
      `n` is the size of each chunk (not the number of chunks); `n == 0`
      raises ZeroDivisionError. */
  function CreateChunks<T>(n: int, data: seq<T>): (chunks: Result<seq<seq<T>>>)
    ensures chunks.Err? <==> n == 0
    ensures chunks.Err? ==> chunks.error == ZeroDivisionError
  {
    if n == 0 then Err(ZeroDivisionError)
    else
      var count := FloorDiv(|data| + n - 1, n);
      Ok(seq(if count < 0 then 0 else count, i => Chunk(n, data, i)))
  }

  /** `data[i*n:(i+1)*n]` */
  function Chunk<T>(n: int, data: seq<T>, i: int): seq<T>
  {
    Slice(data, i * n, (i + 1) * n)
  }

  /** The chunk count for a positive size: `ceil(len / n)`. */
  lemma ChunkCount(n: int, len: nat)
    requires n > 0
    ensures var c := FloorDiv(len + n - 1, n);
            c >= 0 && (c - 1) * n < len <= c * n && (c == 0 <==> len == 0)
  {
    var c, r := (len + n - 1) / n, (len + n - 1) % n;
    assert len + n - 1 == c * n + r && 0 <= r < n;
    assert (c - 1) * n == c * n - n;
  }

  lemma MulMonotone(a: int, b: int, n: int)
    requires a <= b && n > 0
    ensures a * n <= b * n
  {
    assert b * n - a * n == (b - a) * n;
  }

  /** Chunk `i` of a positive size is the run of `n` elements starting at
      `lo == i * n`, cut short at the end of the data; it is never empty. */
  lemma ChunkAt<T>(n: int, data: seq<T>, i: int, lo: int)
    requires n > 0
    requires 0 <= i < |CreateChunks(n, data).value|
    requires lo == i * n
    ensures 0 <= lo < |data|
    ensures CreateChunks(n, data).value[i] == data[lo .. Min(lo + n, |data|)]
  {
    var c := FloorDiv(|data| + n - 1, n);
    ChunkCount(n, |data|);
    MulMonotone(i, c - 1, n);
    MulMonotone(0, i, n);
    assert (i + 1) * n == lo + n;
  }

  lemma {:induction false} ChunksPrefix<T>(n: int, data: seq<T>, j: nat, lo: int)
    requires n > 0
    requires j <= |CreateChunks(n, data).value|
    requires lo == j * n
    ensures Concat(CreateChunks(n, data).value[..j]) == data[..Min(lo, |data|)]
    decreases j
  {
    var chunks := CreateChunks(n, data).value;
    if j == 0 {
      assert chunks[..0] == [];
    } else {
      var prev := lo - n;
      assert prev == (j - 1) * n;
      ChunksPrefix(n, data, j - 1, prev);
      ChunkAt(n, data, j - 1, prev);
      assert chunks[..j] == chunks[..j - 1] + [chunks[j - 1]];
      ConcatAppend(chunks[..j - 1], [chunks[j - 1]]);
      assert Concat([chunks[j - 1]]) == chunks[j - 1] + Concat([]);
      assert data[..prev] + data[prev..Min(lo, |data|)] == data[..Min(lo, |data|)];
    }
  }

  /** For a positive size: the chunks put back together are the data, every
      chunk but the last has exactly `n` elements, the last has 1 to `n`,
      there are `ceil(len / n)` of them, and empty data gives no chunk. */
  lemma ChunksOfPositiveSize<T>(n: int, data: seq<T>)
    requires n > 0
    ensures var chunks := CreateChunks(n, data).value;
            && Concat(chunks) == data
            && (chunks == [] <==> data == [])
            && (forall i :: 0 <= i < |chunks| - 1 ==> |chunks[i]| == n)
            && (chunks != [] ==> 1 <= |chunks[|chunks| - 1]| <= n)
            && (|chunks| - 1) * n < |data| <= |chunks| * n
  {
    var chunks := CreateChunks(n, data).value;
    var c := |chunks|;
    ChunkCount(n, |data|);
    ChunksPrefix(n, data, c, c * n);
    assert chunks[..c] == chunks;
    forall i | 0 <= i < c - 1
      ensures |chunks[i]| == n
    {
      ChunkAt(n, data, i, i * n);
      MulMonotone(i + 1, c - 1, n);
      assert (i + 1) * n == i * n + n;
    }
    if c > 0 {
      ChunkAt(n, data, c - 1, (c - 1) * n);
      assert (c - 1) * n + n == c * n;
    }
  }

  // ----- insert_dates -----

  /** A queue message as `get_messages` yields it; its content is text. */
  datatype QueueMessage = QueueMessage(id: string, content: string)

  /** `{"msg_id": ..., "date": ...}` */
  datatype DateEntry = DateEntry(msgId: string, date: string)

  /** The insert-queue key of each message: its content before the first `_`. */
  function InsertKeys(messages: seq<QueueMessage>): seq<string>
  {
    seq(|messages|, i requires 0 <= i < |messages| => BeforeFirst(messages[i].content, '_'))
  }

  /** The date entry of each date-queue message: its id, and its content with every `/` removed. */
  function DateEntries(messages: seq<QueueMessage>): seq<DateEntry>
  {
    seq(|messages|, i requires 0 <= i < |messages| => DateEntry(messages[i].id, RemoveChar(messages[i].content, '/')))
  }

  /** The first loop of `insert_dates`: `str(content).split("_")[0]` per message. */
  method CollectInsertKeys(messages: seq<QueueMessage>) returns (inserts: seq<string>)
    ensures inserts == InsertKeys(messages)
  {
    inserts := [];
    var i := 0;
    while i < |messages|
      invariant 0 <= i <= |messages|
      invariant inserts == InsertKeys(messages[..i])
    {
      inserts := inserts + [BeforeFirst(messages[i].content, '_')];
      i := i + 1;
      assert messages[..i][..i - 1] == messages[..i - 1];
    }
    assert messages[..i] == messages;
  }

  /** The second loop of `insert_dates`: `str(content).replace("/", "")` per message. */
  method CollectDateEntries(messages: seq<QueueMessage>) returns (dates: seq<DateEntry>)
    ensures dates == DateEntries(messages)
  {
    dates := [];
    var i := 0;
    while i < |messages|
      invariant 0 <= i <= |messages|
      invariant dates == DateEntries(messages[..i])
    {
      dates := dates + [DateEntry(messages[i].id, RemoveChar(messages[i].content, '/'))];
      i := i + 1;
      assert messages[..i][..i - 1] == messages[..i - 1];
    }
    assert messages[..i] == messages;
  }

  /** The date entries whose date is not yet an insert key, in order: what
      lines 122-127 are meant to select. */
  function PendingDates(dates: seq<DateEntry>, inserts: seq<string>): seq<DateEntry>
  {
    if dates == [] then []
    else (if dates[0].date in inserts then [] else [dates[0]]) + PendingDates(dates[1..], inserts)
  }

  /** No entry is invented: an entry is pending exactly when it is a date
      entry whose date is not an insert key. */
  lemma {:induction false} PendingDatesMembers(dates: seq<DateEntry>, inserts: seq<string>)
    ensures |PendingDates(dates, inserts)| <= |dates|
    ensures forall e :: e in PendingDates(dates, inserts) <==> e in dates && e.date !in inserts
    decreases |dates|
  {
    if dates != [] {
      PendingDatesMembers(dates[1..], inserts);
      assert dates == [dates[0]] + dates[1..];
    }
  }

  lemma {:induction false} PendingDatesAppend(dates: seq<DateEntry>, e: DateEntry, inserts: seq<string>)
    ensures PendingDates(dates + [e], inserts)
            == PendingDates(dates, inserts) + (if e.date in inserts then [] else [e])
    decreases |dates|
  {
    if dates == [] {
      assert [e][1..] == [];
    } else {
      assert (dates + [e])[1..] == dates[1..] + [e];
      PendingDatesAppend(dates[1..], e, inserts);
    }
  }

  /** Lines 122-127 as written: `dates[date]` indexes the list with a
      dictionary, which raises TypeError at the first date; only with no
      dates does the loop finish. */
  function PendingDatesAsWritten(dates: seq<DateEntry>, inserts: seq<string>): (r: Result<seq<DateEntry>>)
    ensures r.Ok? <==> dates == []
    ensures r.Ok? ==> r.value == []
    ensures r.Err? ==> r.error == TypeError
  {
    if dates == [] then Ok([]) else Err(TypeError)
  }

  /** A single date message that was never inserted: the code as written
      raises, where the intended selection keeps it. */
  lemma PendingDatesAsWrittenRaisesOnOneDate()
    ensures PendingDatesAsWritten([DateEntry("m1", "20240301")], []) == Err(TypeError)
    ensures PendingDates([DateEntry("m1", "20240301")], []) == [DateEntry("m1", "20240301")]
  {
  }

  /** Lines 122-127 with the lookup corrected: the loop keeps, in order,
      each date entry whose date is not an insert key. */
  method SelectPending(dates: seq<DateEntry>, inserts: seq<string>) returns (insertInto: seq<DateEntry>)
    ensures insertInto == PendingDates(dates, inserts)
  {
    insertInto := [];
    var i := 0;
    while i < |dates|
      invariant 0 <= i <= |dates|
      invariant insertInto == PendingDates(dates[..i], inserts)
    {
      PendingDatesAppend(dates[..i], dates[i], inserts);
      assert dates[..i + 1] == dates[..i] + [dates[i]];
      if dates[i].date !in inserts {
        insertInto := insertInto + [dates[i]];
      }
      i := i + 1;
    }
    assert dates[..i] == dates;
  }

  /** `insert_dates` with its selection at lines 123-125 corrected (see
      `PendingDatesAsWritten` for the code as written). The date queue's
      entries whose date is not an insert key are printed, in order; the
      returned feature list is always empty, since the code that would fill it
      is commented out. */
  method InsertDates(dateMessages: seq<QueueMessage>, insertMessages: seq<QueueMessage>)
    returns (printed: seq<DateEntry>, arcgisDict: seq<ArcGis.Feature>)
    ensures printed == PendingDates(DateEntries(dateMessages), InsertKeys(insertMessages))
    ensures arcgisDict == []
  {
    var inserts := CollectInsertKeys(insertMessages);
    var dates := CollectDateEntries(dateMessages);
    var insertInto := SelectPending(dates, inserts);
    arcgisDict := [];
    printed := [];
    for j := 0 to |insertInto|
      invariant printed == insertInto[..j]
    {
      printed := printed + [insertInto[j]];
    }
    assert insertInto[..|insertInto|] == insertInto;
  }

  // ----- zip_to_list -----

  /** One member of a zip archive: its name and its text. */
  datatype ArchiveEntry = ArchiveEntry(name: string, text: string)

  /** `dict(zip(keys, values))`: pairs up to the shorter list; a repeated
      key keeps its last value. */
  function ZipDict(keys: seq<string>, values: seq<string>): (d: map<string, string>)
    ensures forall j :: 0 <= j < Min(|keys|, |values|) ==> keys[j] in d
    ensures forall k :: k in d ==> k in keys[..Min(|keys|, |values|)]
    decreases |keys|
  {
    var m := Min(|keys|, |values|);
    if m == 0 then map[]
    else
      var d := ZipDict(keys[..m - 1], values[..m - 1]);
      d[keys[m - 1] := values[m - 1]]
  }

  /** A key whose last occurrence (among the paired keys) is at `j` maps to `values[j]`. */
  lemma {:induction false} ZipDictAt(keys: seq<string>, values: seq<string>, j: nat)
    requires j < Min(|keys|, |values|)
    requires forall l :: j < l < Min(|keys|, |values|) ==> keys[l] != keys[j]
    ensures ZipDict(keys, values)[keys[j]] == values[j]
    decreases |keys|
  {
    var m := Min(|keys|, |values|);
    if j < m - 1 {
      ZipDictAt(keys[..m - 1], values[..m - 1], j);
    }
  }

  /** The record of one token: its comma fields followed by the file name,
      paired with the columns. */
  function TokenRecord(columns: seq<string>, token: string, fileName: string): map<string, string>
  {
    ZipDict(columns, Split(token, ',') + [fileName])
  }

  /** The records of one archive member: one per whitespace-separated token. */
  function FileRecords(columns: seq<string>, entry: ArchiveEntry): seq<map<string, string>>
  {
    var tokens := Tokens(entry.text);
    seq(|tokens|, k requires 0 <= k < |tokens| => TokenRecord(columns, tokens[k], entry.name))
  }

  /** The records of the whole archive: member by member, token by token. */
  function ArchiveRecords(columns: seq<string>, archive: seq<ArchiveEntry>): seq<map<string, string>>
  {
    ConcatMap(entry => FileRecords(columns, entry), archive)
  }

  /** `zip_to_list(bytes, columns)`, with the archive given as its members in `namelist()` order. */
  method ZipToList(archive: seq<ArchiveEntry>, columns: seq<string>) returns (finalData: seq<map<string, string>>)
    ensures finalData == ArchiveRecords(columns, archive)
  {
    finalData := [];
    var f := 0;
    while f < |archive|
      invariant 0 <= f <= |archive|
      invariant finalData == ArchiveRecords(columns, archive[..f])
    {
      var file := archive[f];
      var lst := Tokens(file.text);
      var t := 0;
      while t < |lst|
        invariant 0 <= t <= |lst|
        invariant finalData == ArchiveRecords(columns, archive[..f]) + FileRecords(columns, file)[..t]
      {
        var elements := Split(lst[t], ',');
        elements := elements + [file.name];
        var elementsDict := ZipDict(columns, elements);
        finalData := finalData + [elementsDict];
        t := t + 1;
        assert FileRecords(columns, file)[..t] == FileRecords(columns, file)[..t - 1] + [elementsDict];
      }
      assert FileRecords(columns, file)[..t] == FileRecords(columns, file);
      assert archive[..f + 1][..f] == archive[..f];
      f := f + 1;
    }
    assert archive[..f] == archive;
  }

  /** The archive's records are the records of its first members followed by
      those of the rest: records are ordered by member. */
  lemma ArchiveRecordsAppend(columns: seq<string>, a: seq<ArchiveEntry>, b: seq<ArchiveEntry>)
    ensures ArchiveRecords(columns, a + b) == ArchiveRecords(columns, a) + ArchiveRecords(columns, b)
  {
    ConcatMapAppend(entry => FileRecords(columns, entry), a, b);
  }

  /** One record per token: a member contributes as many records as its text
      has whitespace-separated tokens, and a blank member contributes none. */
  lemma FileRecordsCount(columns: seq<string>, entry: ArchiveEntry)
    ensures |FileRecords(columns, entry)| == |Tokens(entry.text)|
    ensures (forall k :: 0 <= k < |entry.text| ==> IsSpace(entry.text[k])) ==> FileRecords(columns, entry) == []
  {
    if forall k :: 0 <= k < |entry.text| ==> IsSpace(entry.text[k]) {
      BlankHasNoTokens(entry.text);
    }
  }

  /** With distinct columns, a token's record maps column `j` to its `j`-th
      comma field, and the column after the last field to the file name, up
      to the shorter of the two lists. */
  lemma TokenRecordFields(columns: seq<string>, token: string, fileName: string, j: nat)
    requires forall a, b :: 0 <= a < b < |columns| ==> columns[a] != columns[b]
    requires j < Min(|columns|, |Split(token, ',')| + 1)
    ensures TokenRecord(columns, token, fileName)[columns[j]] == (Split(token, ',') + [fileName])[j]
  {
    ZipDictAt(columns, Split(token, ',') + [fileName], j);
  }
}

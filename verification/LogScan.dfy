/**
The read-only scan of the retained security log: bounded rows out of raw bytes, the caller's records
inside a time window, and counters for everything else in the window.
*/
module LogScan {
  import opened Wrappers
  import opened Bytes

  const NEWLINE: byte := 10
  const MAX_ROW := 65536
  const MAX_FILE := 40 * 1024 * 1024
  const BUDGET := 96 * 1024 * 1024
  const MAX_MATCHED := 200
  const MAX_SEGMENTS := 7
  const MAX_WINDOW := 600 * 1_000_000

  /** A decoded row: its time in microseconds, whether that time carries a zone, and what is counted. */
  datatype Record = Record(
    stamp: int, aware: bool, caller: Option<string>, kind: string, outcome: string, payload: string)

  /** `json.loads` and the timestamp parse; None where either raises. */
  type Decoder = seq<byte> -> Option<Record>

  // ----- what an acceptable snapshot is

  /** One row: nonempty, closed by its only newline, and not oversized. */
  predicate IsRow(row: seq<byte>) {
    && 0 < |row| <= 65536
    && row[|row| - 1] == 10
    && forall i :: 0 <= i < |row| - 1 ==> row[i] != 10
  }

  function Concat(rows: seq<seq<byte>>): seq<byte> {
    if rows == [] then [] else rows[0] + Concat(rows[1..])
  }

  predicate AreRows(decode: Decoder, rows: seq<seq<byte>>, records: seq<Record>) {
    && |rows| == |records|
    && forall i :: 0 <= i < |rows| ==> IsRow(rows[i]) && decode(rows[i]) == Some(records[i]) && records[i].aware
  }

  /** Where the first newline ends, or None. */
  function LineEnd(data: seq<byte>): (r: Option<nat>)
    ensures r.Some? ==> 0 < r.value <= |data| && data[r.value - 1] == NEWLINE
    ensures r.Some? ==> forall i :: 0 <= i < r.value - 1 ==> data[i] != NEWLINE
    ensures r.None? ==> forall i :: 0 <= i < |data| ==> data[i] != NEWLINE
  {
    if data == [] then None
    else if data[0] == NEWLINE then Some(1)
    else
      var rest := LineEnd(data[1..]);
      if rest.None? then None else Some(rest.value + 1)
  }

  /** The records of a snapshot, or None where the scan of it raises. */
  function Parse(decode: Decoder, data: seq<byte>): Option<seq<Record>>
    decreases |data|
  {
    if data == [] then Some([]) else
      var n := LineEnd(data);
      if n.None? || n.value > MAX_ROW then None else
        var record := decode(data[..n.value]);
        if record.None? || !record.value.aware then None else
          var rest := Parse(decode, data[n.value..]);
          if rest.None? then None else Some([record.value] + rest.value)
  }

  /** One more row in front. */
  lemma RowInFront(decode: Decoder, row: seq<byte>, rows: seq<seq<byte>>, record: Record, records: seq<Record>)
    requires AreRows(decode, rows, records) && IsRow(row) && decode(row) == Some(record) && record.aware
    ensures AreRows(decode, [row] + rows, [record] + records) && Concat([row] + rows) == row + Concat(rows)
  {
    var more, all := [row] + rows, [record] + records;
    forall i | 0 <= i < |more|
      ensures IsRow(more[i]) && decode(more[i]) == Some(all[i]) && all[i].aware
    {
      if i > 0 { assert more[i] == rows[i - 1] && all[i] == records[i - 1]; }
    }
    assert more[1..] == rows;
  }

  /** What parsing takes off the front is a row. */
  lemma FirstRow(decode: Decoder, data: seq<byte>, records: seq<Record>) returns (n: nat)
    requires data != [] && Parse(decode, data) == Some(records)
    ensures 0 < n <= |data| && records != [] && IsRow(data[..n])
    ensures decode(data[..n]) == Some(records[0]) && records[0].aware && Parse(decode, data[n..]) == Some(records[1..])
  {
    n := LineEnd(data).value;
  }

  lemma {:induction false} ParsedRows(decode: Decoder, data: seq<byte>, records: seq<Record>)
    returns (rows: seq<seq<byte>>)
    requires Parse(decode, data) == Some(records)
    ensures AreRows(decode, rows, records) && Concat(rows) == data
    decreases |data|
  {
    if data == [] {
      rows := [];
    } else {
      var n := FirstRow(decode, data, records);
      var tail := ParsedRows(decode, data[n..], records[1..]);
      RowInFront(decode, data[..n], tail, records[0], records[1..]);
      rows := [data[..n]] + tail;
      assert [records[0]] + records[1..] == records && data[..n] + data[n..] == data;
    }
  }

  lemma {:induction false} RowsParse(decode: Decoder, rows: seq<seq<byte>>, records: seq<Record>)
    requires AreRows(decode, rows, records)
    ensures Parse(decode, Concat(rows)) == Some(records)
  {
    if rows != [] {
      var data := Concat(rows);
      assert AreRows(decode, rows[1..], records[1..]);
      RowsParse(decode, rows[1..], records[1..]);
      assert IsRow(rows[0]);
      assert data[|rows[0]| - 1] == NEWLINE;
      assert forall i :: 0 <= i < |rows[0]| - 1 ==> data[i] == rows[0][i];
      assert LineEnd(data) == Some(|rows[0]|);
      assert records == [records[0]] + records[1..];
      assert data[..|rows[0]|] == rows[0] && data[|rows[0]|..] == Concat(rows[1..]);
    }
  }

  /** A snapshot parses to these records exactly when it is a concatenation of rows that decode to them. */
  lemma {:induction false} ParseIsRows(decode: Decoder, data: seq<byte>, records: seq<Record>)
    ensures Parse(decode, data) == Some(records) <==>
            exists rows :: AreRows(decode, rows, records) && Concat(rows) == data
    decreases |data|
  {
    if Parse(decode, data) == Some(records) {
      var rows := ParsedRows(decode, data, records);
    }
    if rows :| AreRows(decode, rows, records) && Concat(rows) == data {
      RowsParse(decode, rows, records);
    }
  }

  // ----- what the rows add up to

  datatype Query = Query(start: int, end: int, caller: string)

  datatype Exported = Exported(record: Record, file: string, line: nat)

  /** Counted under event type and outcome, in order of first appearance. */
  type Counters = seq<((string, string), nat)>

  datatype Tally = Tally(events: seq<Exported>, window: nat, others: Counters)

  predicate InWindow(q: Query, r: Record) { q.start <= r.stamp < q.end }

  predicate IsMine(q: Query, r: Record) { InWindow(q, r) && r.caller == Some(q.caller) }

  predicate IsOther(q: Query, r: Record) { q.start <= r.stamp < q.end && r.caller != Some(q.caller) }

  function Bump(counters: Counters, key: (string, string)): Counters {
    if counters == [] then [(key, 1)]
    else if counters[0].0 == key then [(key, counters[0].1 + 1)] + counters[1..]
    else [counters[0]] + Bump(counters[1..], key)
  }

  function CountOf(counters: Counters, key: (string, string)): nat {
    if counters == [] then 0 else (if counters[0].0 == key then counters[0].1 else 0) + CountOf(counters[1..], key)
  }

  function Total(counters: Counters): nat {
    if counters == [] then 0 else counters[0].1 + Total(counters[1..])
  }

  /** One row's contribution. */
  function Absorb(q: Query, t: Tally, r: Record, file: string, line: nat): Tally {
    if !InWindow(q, r) then t
    else if r.caller == Some(q.caller) then t.(window := t.window + 1, events := t.events + [Exported(r, file, line)])
    else t.(window := t.window + 1, others := Bump(t.others, (r.kind, r.outcome)))
  }

  function AbsorbAll(q: Query, t: Tally, records: seq<Record>, file: string): Tally {
    if records == [] then t else
      var last := |records| - 1;
      Absorb(q, AbsorbAll(q, t, records[..last], file), records[last], file, |records|)
  }

  /** The caller's rows of one file, with their line numbers. */
  function Mine(q: Query, records: seq<Record>, file: string): seq<Exported> {
    if records == [] then [] else
      var last := |records| - 1;
      Mine(q, records[..last], file) +
        if IsMine(q, records[last]) then [Exported(records[last], file, |records|)] else []
  }

  /** Exactly the caller's rows in the window, each once, in file order. */
  lemma {:induction false} MineIsExact(q: Query, records: seq<Record>, file: string)
    ensures forall e :: e in Mine(q, records, file) <==>
      && e.file == file && 0 < e.line <= |records| && e.record == records[e.line - 1]
      && q.start <= e.record.stamp < q.end && e.record.caller == Some(q.caller)
    ensures forall i, j :: 0 <= i < j < |Mine(q, records, file)| ==>
      Mine(q, records, file)[i].line < Mine(q, records, file)[j].line
  {
    if records != [] {
      var init := records[..|records| - 1];
      MineIsExact(q, init, file);
      forall i | 0 <= i < |Mine(q, init, file)|
        ensures Mine(q, init, file)[i].line <= |init|
      {
        assert Mine(q, init, file)[i] in Mine(q, init, file);
      }
    }
  }

  function CountOthers(q: Query, records: seq<Record>, key: (string, string)): nat {
    if records == [] then 0 else
      var last := |records| - 1;
      CountOthers(q, records[..last], key)
      + if IsOther(q, records[last]) && (records[last].kind, records[last].outcome) == key then 1 else 0
  }

  lemma {:induction false} BumpCounts(counters: Counters, key: (string, string), other: (string, string))
    ensures CountOf(Bump(counters, key), other) == CountOf(counters, other) + if other == key then 1 else 0
    ensures Total(Bump(counters, key)) == Total(counters) + 1
  {
    if counters != [] && counters[0].0 != key {
      BumpCounts(counters[1..], key, other);
    }
  }

  lemma {:induction false} AbsorbAllAddsUp(q: Query, t: Tally, records: seq<Record>, file: string,
                                           key: (string, string))
    ensures
      var u := AbsorbAll(q, t, records, file);
      && u.events == t.events + Mine(q, records, file)
      && u.window + |t.events| + Total(t.others) == t.window + |u.events| + Total(u.others)
      && CountOf(u.others, key) == CountOf(t.others, key) + CountOthers(q, records, key)
  {
    if records != [] {
      var last := |records| - 1;
      AbsorbAllAddsUp(q, t, records[..last], file, key);
      var r := records[last];
      BumpCounts(AbsorbAll(q, t, records[..last], file).others, (r.kind, r.outcome), key);
    }
  }

  predicate Positive(counters: Counters) {
    forall i :: 0 <= i < |counters| ==> counters[i].1 > 0
  }

  /** Every counter counts something, and no key has two. */
  predicate Tidy(counters: Counters) {
    Positive(counters) && forall i, j :: 0 <= i < j < |counters| ==> counters[i].0 != counters[j].0
  }

  lemma {:induction false} BumpKeys(counters: Counters, key: (string, string))
    ensures forall i :: 0 <= i < |Bump(counters, key)| ==>
      Bump(counters, key)[i].0 == key || exists j :: 0 <= j < |counters| && counters[j].0 == Bump(counters, key)[i].0
  {
    if counters != [] && counters[0].0 != key {
      var rest := counters[1..];
      BumpKeys(rest, key);
      forall i | 0 <= i < |Bump(counters, key)| && Bump(counters, key)[i].0 != key
        ensures exists j :: 0 <= j < |counters| && counters[j].0 == Bump(counters, key)[i].0
      {
        if i > 0 {
          var j :| 0 <= j < |rest| && rest[j].0 == Bump(rest, key)[i - 1].0;
          assert counters[j + 1] == rest[j];
        }
      }
    }
  }

  lemma {:induction false} BumpTidy(counters: Counters, key: (string, string))
    requires Tidy(counters)
    ensures Tidy(Bump(counters, key))
  {
    if counters != [] && counters[0].0 != key {
      var rest := counters[1..];
      BumpTidy(rest, key);
      BumpKeys(rest, key);
    }
  }

  lemma {:induction false} AbsorbKeepsTidy(q: Query, t: Tally, records: seq<Record>, file: string)
    requires Tidy(t.others)
    ensures Tidy(AbsorbAll(q, t, records, file).others)
  {
    if records != [] {
      var last := |records| - 1;
      AbsorbKeepsTidy(q, t, records[..last], file);
      BumpTidy(AbsorbAll(q, t, records[..last], file).others, (records[last].kind, records[last].outcome));
    }
  }

  // ----- scanning one file

  /** A file as opened: what reads return, and what the status calls before and after reported. */
  datatype LogFile = LogFile(name: string, data: seq<byte>, size: nat, live: bool, sameFile: bool, sizeAfter: nat)

  /** `readline(limit)` at a position: the length of what it returns. */
  method ReadLine(data: seq<byte>, position: nat, limit: nat) returns (n: nat)
    requires position <= |data|
    ensures n <= limit && position + n <= |data|
    ensures forall i :: position <= i < position + n - 1 ==> data[i] != 10
    ensures n == limit || position + n == |data| || (n > 0 && data[position + n - 1] == 10)
  {
    n := 0;
    while n < limit && position + n < |data|
      invariant n <= limit && position + n <= |data|
      invariant forall i :: position <= i < position + n ==> data[i] != NEWLINE
    {
      n := n + 1;
      if data[position + n - 1] == NEWLINE {
        return;
      }
    }
  }

  /** The records of a file's snapshot; None also when the file has shrunk below it. */
  function FileRecords(decode: Decoder, f: LogFile): Option<seq<Record>> {
    if |f.data| < f.size then None else Parse(decode, f.data[..f.size])
  }

  function Prepend(records: seq<Record>, rest: Option<seq<Record>>): Option<seq<Record>> {
    if rest.None? then None else Some(records + rest.value)
  }

  function MinStamp(records: seq<Record>): Option<int> {
    if records == [] then None else
      var last := records[|records| - 1].stamp;
      var rest := MinStamp(records[..|records| - 1]);
      if rest.None? || last < rest.value then Some(last) else rest
  }

  function MaxStamp(records: seq<Record>): Option<int> {
    if records == [] then None else
      var last := records[|records| - 1].stamp;
      var rest := MaxStamp(records[..|records| - 1]);
      if rest.None? || last > rest.value then Some(last) else rest
  }

  /** A longer file never has fewer of the caller's rows. */
  lemma {:induction false} MineGrows(q: Query, records: seq<Record>, more: seq<Record>, file: string)
    ensures |Mine(q, records, file)| <= |Mine(q, records + more, file)|
  {
    if more == [] {
      assert records + more == records;
    } else {
      var last := |more| - 1;
      MineGrows(q, records, more[..last], file);
      assert (records + more)[..|records + more| - 1] == records + more[..last];
    }
  }

  /** A read that does not return a proper row shows that the rest of the snapshot does not parse. */
  lemma BadLine(decode: Decoder, rest: seq<byte>, n: nat, limit: nat)
    requires rest != [] && limit == (if |rest| < MAX_ROW + 1 then |rest| else MAX_ROW + 1)
    requires n <= limit
    requires forall i :: 0 <= i < n - 1 ==> rest[i] != NEWLINE
    requires n == limit || (n > 0 && rest[n - 1] == NEWLINE)
    requires n == 0 || rest[n - 1] != NEWLINE || n > MAX_ROW
    ensures Parse(decode, rest).None?
  {
    var end := LineEnd(rest);
    if n <= MAX_ROW {
      assert n == limit == |rest|;
    }
    assert end.Some? ==> rest[end.value - 1] == NEWLINE && end.value >= n;
  }

  lemma GoodLine(decode: Decoder, rest: seq<byte>, n: nat)
    requires 0 < n <= |rest| && n <= MAX_ROW && rest[n - 1] == NEWLINE
    requires forall i :: 0 <= i < n - 1 ==> rest[i] != NEWLINE
    ensures LineEnd(rest) == Some(n)
  {
    assert LineEnd(rest).Some?;
  }

  datatype Error = BadWindow | TooManySegments | FileTooLarge | BudgetExceeded | BadRow | TooManyMatches | Changed

  function Snapshot(f: LogFile): seq<byte>
    requires |f.data| >= f.size
  {
    f.data[..f.size]
  }

  /** What is still to be parsed follows `records`; nothing is known of a file that has shrunk. */
  ghost predicate Parsed(decode: Decoder, f: LogFile, position: nat, records: seq<Record>) {
    |f.data| >= f.size ==>
      position <= f.size && FileRecords(decode, f) == Prepend(records, Parse(decode, Snapshot(f)[position..]))
  }

  /** What one `readline` call promises of the `n` bytes it returned. */
  ghost predicate IsRead(f: LogFile, position: nat, limit: nat, n: nat) {
    && n <= limit && position + n <= |f.data|
    && (forall i :: position <= i < position + n - 1 ==> f.data[i] != NEWLINE)
    && (n == limit || position + n == |f.data| || (n > 0 && f.data[position + n - 1] == NEWLINE))
  }

  function ReadLimit(remaining: nat): nat {
    if remaining < MAX_ROW + 1 then remaining else MAX_ROW + 1
  }

  predicate IsBadRead(f: LogFile, position: nat, n: nat)
    requires position + n <= |f.data|
  {
    n == 0 || f.data[position + n - 1] != NEWLINE || n > MAX_ROW
  }

  lemma ParsedStart(decode: Decoder, f: LogFile)
    ensures Parsed(decode, f, 0, [])
  {
    if |f.data| >= f.size {
      assert Snapshot(f)[0..] == Snapshot(f);
      var all := Parse(decode, Snapshot(f));
      assert all.Some? ==> [] + all.value == all.value;
    }
  }

  lemma BadReadRefuses(decode: Decoder, f: LogFile, position: nat, n: nat, records: seq<Record>)
    requires position < f.size && Parsed(decode, f, position, records)
    requires IsRead(f, position, ReadLimit(f.size - position), n) && IsBadRead(f, position, n)
    ensures FileRecords(decode, f).None?
  {
    if |f.data| >= f.size {
      var rest := Snapshot(f)[position..];
      assert forall i :: 0 <= i < |rest| ==> rest[i] == f.data[position + i];
      BadLine(decode, rest, n, ReadLimit(f.size - position));
    }
  }

  lemma PrependOne(records: seq<Record>, record: Record, rest: Option<seq<Record>>)
    ensures Prepend(records, Prepend([record], rest)) == Prepend(records + [record], rest)
  {
    if rest.Some? {
      assert records + ([record] + rest.value) == records + [record] + rest.value;
    }
  }

  lemma GoodReadParses(decode: Decoder, f: LogFile, position: nat, n: nat, records: seq<Record>)
    requires position < f.size && Parsed(decode, f, position, records)
    requires IsRead(f, position, ReadLimit(f.size - position), n) && !IsBadRead(f, position, n)
    ensures
      var decoded := decode(f.data[position..position + n]);
      if decoded.Some? && decoded.value.aware then Parsed(decode, f, position + n, records + [decoded.value])
      else FileRecords(decode, f).None?
  {
    if |f.data| >= f.size {
      var rest := Snapshot(f)[position..];
      assert forall i :: 0 <= i < |rest| ==> rest[i] == f.data[position + i];
      GoodLine(decode, rest, n);
      assert rest[..n] == f.data[position..position + n] && rest[n..] == Snapshot(f)[position + n..];
      var decoded := decode(rest[..n]);
      if decoded.Some? && decoded.value.aware {
        PrependOne(records, decoded.value, Parse(decode, rest[n..]));
      }
    }
  }

  lemma ParsedEnd(decode: Decoder, f: LogFile, records: seq<Record>)
    requires f.size <= |f.data| && Parsed(decode, f, f.size, records)
    ensures FileRecords(decode, f) == Some(records)
  {
    assert Snapshot(f)[f.size..] == [];
    assert records + [] == records;
  }

  lemma ParsedBounds(decode: Decoder, q: Query, f: LogFile, position: nat, records: seq<Record>)
    requires Parsed(decode, f, position, records) && FileRecords(decode, f).Some?
    ensures |Mine(q, records, f.name)| <= |Mine(q, FileRecords(decode, f).value, f.name)|
  {
    var rest := Parse(decode, Snapshot(f)[position..]);
    MineGrows(q, records, rest.value, f.name);
  }

  /** The running totals belong to these records. */
  ghost predicate Tallied(q: Query, f: LogFile, t: Tally, records: seq<Record>, tally: Tally, first: Option<int>,
                          last: Option<int>) {
    && tally == AbsorbAll(q, t, records, f.name)
    && first == MinStamp(records) && last == MaxStamp(records)
    && |tally.events| == |t.events| + |Mine(q, records, f.name)|
  }

  lemma TalliedNext(q: Query, f: LogFile, t: Tally, records: seq<Record>, tally: Tally, first: Option<int>,
                    last: Option<int>, r: Record)
    requires Tallied(q, f, t, records, tally, first, last)
    ensures Tallied(q, f, t, records + [r], Absorb(q, tally, r, f.name, |records| + 1),
              if first.None? || r.stamp < first.value then Some(r.stamp) else first,
              if last.None? || r.stamp > last.value then Some(r.stamp) else last)
  {
    assert (records + [r])[..|records|] == records;
  }

  /** The variables of the row loop. */
  datatype Progress = Progress(position: nat, line: nat, tally: Tally, first: Option<int>, last: Option<int>)

  /** The loop's variables after one more row of `n` bytes. */
  function Advanced(q: Query, p: Progress, n: nat, r: Record, file: string): Progress {
    Progress(p.position + n, p.line + 1, Absorb(q, p.tally, r, file, p.line + 1),
             if p.first.None? || r.stamp < p.first.value then Some(r.stamp) else p.first,
             if p.last.None? || r.stamp > p.last.value then Some(r.stamp) else p.last)
  }

  /** The next `n` bytes are one more row, and it is `r`. */
  ghost predicate IsNextRow(decode: Decoder, f: LogFile, position: nat, n: nat, records: seq<Record>, r: Record) {
    0 < n && position + n <= f.size && position + n <= |f.data| && Parsed(decode, f, position + n, records + [r])
  }

  ghost predicate RowsCounted(q: Query, f: LogFile, t: Tally, p: Progress, records: seq<Record>) {
    p.line == |records| && Tallied(q, f, t, records, p.tally, p.first, p.last)
  }

  /** What has been read is parsed and counted. */
  ghost predicate Scanning(decode: Decoder, q: Query, f: LogFile, t: Tally, p: Progress, records: seq<Record>) {
    Parsed(decode, f, p.position, records) && RowsCounted(q, f, t, p, records)
  }

  lemma CountingNext(q: Query, f: LogFile, t: Tally, p: Progress, n: nat, records: seq<Record>, r: Record)
    requires RowsCounted(q, f, t, p, records)
    ensures RowsCounted(q, f, t, Advanced(q, p, n, r, f.name), records + [r])
  {
    TalliedNext(q, f, t, records, p.tally, p.first, p.last, r);
  }

  lemma ScanningNext(decode: Decoder, q: Query, f: LogFile, t: Tally, p: Progress, n: nat, records: seq<Record>,
                     r: Record)
    requires RowsCounted(q, f, t, p, records) && IsNextRow(decode, f, p.position, n, records, r)
    ensures Scanning(decode, q, f, t, Advanced(q, p, n, r, f.name), records + [r])
  {
    CountingNext(q, f, t, p, n, records, r);
  }

  /** Every row of the snapshot is proper and the caller's rows stay within the bound. */
  ghost predicate Scannable(decode: Decoder, q: Query, f: LogFile, t: Tally) {
    FileRecords(decode, f).Some? && |t.events| + |Mine(q, FileRecords(decode, f).value, f.name)| <= MAX_MATCHED
  }

  lemma ScanningStops(decode: Decoder, q: Query, f: LogFile, t: Tally, p: Progress, records: seq<Record>)
    requires Scanning(decode, q, f, t, p, records) && |p.tally.events| > MAX_MATCHED
    ensures !Scannable(decode, q, f, t)
  {
    if FileRecords(decode, f).Some? {
      ParsedBounds(decode, q, f, p.position, records);
    }
  }

  /** One pass of the row loop up to the timestamp: the row's length and record, or the scan's failure. */
  method NextRow(decode: Decoder, f: LogFile, position: nat, ghost records: seq<Record>)
    returns (row: Option<(nat, Record)>)
    requires position < f.size && position <= |f.data| && Parsed(decode, f, position, records)
    ensures row.None? ==> FileRecords(decode, f).None?
    ensures row.Some? ==> IsNextRow(decode, f, position, row.value.0, records, row.value.1)
  {
    var n := ReadLine(f.data, position, ReadLimit(f.size - position));
    if IsBadRead(f, position, n) {
      BadReadRefuses(decode, f, position, n, records);
      return None;
    }
    var decoded := decode(f.data[position..position + n]);
    GoodReadParses(decode, f, position, n, records);
    if decoded.None? || !decoded.value.aware {
      return None;
    }
    return Some((n, decoded.value));
  }

  /** The loop's invariant. */
  ghost predicate Reached(decode: Decoder, q: Query, f: LogFile, t: Tally, p: Progress, records: seq<Record>) {
    && p.position <= f.size && p.position <= |f.data| && |p.tally.events| <= MAX_MATCHED
    && Scanning(decode, q, f, t, p, records)
  }

  lemma ReachedEnd(decode: Decoder, q: Query, f: LogFile, t: Tally, p: Progress, records: seq<Record>)
    requires Reached(decode, q, f, t, p, records) && p.position == f.size
    ensures Scannable(decode, q, f, t) && Tallied(q, f, t, FileRecords(decode, f).value, p.tally, p.first, p.last)
  {
    ParsedEnd(decode, f, records);
  }

  lemma AdvancedInBounds(q: Query, f: LogFile, p: Progress, n: nat, r: Record)
    requires 0 < n && p.position + n <= f.size && p.position + n <= |f.data|
    requires |p.tally.events| <= MAX_MATCHED && (IsMine(q, r) ==> |p.tally.events| < MAX_MATCHED)
    ensures
      var next := Advanced(q, p, n, r, f.name);
      p.position < next.position <= f.size && next.position <= |f.data| && |next.tally.events| <= MAX_MATCHED
  {
  }

  lemma TooManyIsUnscannable(decode: Decoder, q: Query, f: LogFile, t: Tally, p: Progress, n: nat,
                             records: seq<Record>, r: Record)
    requires RowsCounted(q, f, t, p, records) && IsNextRow(decode, f, p.position, n, records, r)
    requires IsMine(q, r) && |p.tally.events| >= MAX_MATCHED
    ensures !Scannable(decode, q, f, t)
  {
    ScanningNext(decode, q, f, t, p, n, records, r);
    assert |Advanced(q, p, n, r, f.name).tally.events| == |p.tally.events| + 1;
    ScanningStops(decode, q, f, t, Advanced(q, p, n, r, f.name), records + [r]);
  }

  /** The body of the row loop. */
  method ScanRow(decode: Decoder, q: Query, f: LogFile, ghost t: Tally, p: Progress, ghost records: seq<Record>)
    returns (r: Result<Progress, Error>, ghost more: seq<Record>)
    requires p.position < f.size && Reached(decode, q, f, t, p, records)
    ensures r.Err? ==> !Scannable(decode, q, f, t)
    ensures r.Ok? ==> p.position < r.value.position && Reached(decode, q, f, t, r.value, more)
  {
    more := records;
    var row := NextRow(decode, f, p.position, records);
    if row.None? {
      return Err(BadRow), more;
    }
    var (n, record) := row.value;
    if IsMine(q, record) && |p.tally.events| >= MAX_MATCHED {
      TooManyIsUnscannable(decode, q, f, t, p, n, records, record);
      return Err(TooManyMatches), more;
    }
    AdvancedInBounds(q, f, p, n, record);
    ScanningNext(decode, q, f, t, p, n, records, record);
    return Ok(Advanced(q, p, n, record, f.name)), records + [record];
  }

  method ScanFile(decode: Decoder, q: Query, f: LogFile, t: Tally) returns (r: Result<Progress, Error>)
    requires |t.events| <= MAX_MATCHED
    ensures r.Ok? <==> Scannable(decode, q, f, t)
    ensures r.Ok? ==> Tallied(q, f, t, FileRecords(decode, f).value, r.value.tally, r.value.first, r.value.last)
  {
    var p := Progress(0, 0, t, None, None);
    ghost var records: seq<Record> := [];
    ParsedStart(decode, f);
    while p.position < f.size
      invariant Reached(decode, q, f, t, p, records)
      decreases f.size - p.position
    {
      var next, more := ScanRow(decode, q, f, t, p, records);
      if next.Err? {
        return Err(next.error);
      }
      p, records := next.value, more;
    }
    ReachedEnd(decode, q, f, t, p, records);
    return Ok(p);
  }

  // ----- the whole scan

  predicate ValidWindow(q: Query) { 0 < q.end - q.start <= MAX_WINDOW }

  /** The file is small enough, all rows, and the same file afterwards; only the live log may have grown. */
  predicate FileOk(decode: Decoder, f: LogFile) {
    && f.size <= 41_943_040 && FileRecords(decode, f).Some?
    && f.sameFile && f.sizeAfter >= f.size && (f.live || f.sizeAfter == f.size)
  }

  predicate AllOk(decode: Decoder, files: seq<LogFile>) {
    forall i :: 0 <= i < |files| ==> FileOk(decode, files[i])
  }

  function RecordsOf(decode: Decoder, f: LogFile): seq<Record> {
    if FileRecords(decode, f).Some? then FileRecords(decode, f).value else []
  }

  function TotalSize(files: seq<LogFile>): nat {
    if files == [] then 0 else TotalSize(files[..|files| - 1]) + files[|files| - 1].size
  }

  function AllMine(decode: Decoder, q: Query, files: seq<LogFile>): seq<Exported> {
    if files == [] then [] else
      var f := files[|files| - 1];
      AllMine(decode, q, files[..|files| - 1]) + Mine(q, RecordsOf(decode, f), f.name)
  }

  function AllOthers(decode: Decoder, q: Query, files: seq<LogFile>, key: (string, string)): nat {
    if files == [] then 0 else
      AllOthers(decode, q, files[..|files| - 1], key) + CountOthers(q, RecordsOf(decode, files[|files| - 1]), key)
  }

  /** Some row of the files is like this. */
  ghost predicate AnyRow(decode: Decoder, files: seq<LogFile>, p: Record -> bool) {
    exists i, j :: 0 <= i < |files| && 0 <= j < |RecordsOf(decode, files[i])| && p(RecordsOf(decode, files[i])[j])
  }

  predicate HasRow(records: seq<Record>, p: Record -> bool) {
    exists j :: 0 <= j < |records| && p(records[j])
  }

  lemma AnyRowGrows(decode: Decoder, files: seq<LogFile>, f: LogFile, p: Record -> bool)
    ensures AnyRow(decode, files + [f], p) <==> AnyRow(decode, files, p) || HasRow(RecordsOf(decode, f), p)
  {
    var longer := files + [f];
    assert longer[|files|] == f && forall i :: 0 <= i < |files| ==> longer[i] == files[i];
    if AnyRow(decode, files, p) {
      var i, j :| 0 <= i < |files| && 0 <= j < |RecordsOf(decode, files[i])| && p(RecordsOf(decode, files[i])[j]);
      assert p(RecordsOf(decode, longer[i])[j]);
    }
    if HasRow(RecordsOf(decode, f), p) {
      var j :| 0 <= j < |RecordsOf(decode, f)| && p(RecordsOf(decode, f)[j]);
      assert p(RecordsOf(decode, longer[|files|])[j]);
    }
  }

  function ByStart(q: Query): Record -> bool { (r: Record) => r.stamp <= q.start }

  function FromEnd(q: Query): Record -> bool { (r: Record) => r.stamp >= q.end }

  /** Some retained row is no later than the window's start, some no earlier than its end. */
  ghost predicate ReachesBack(decode: Decoder, q: Query, files: seq<LogFile>) {
    AnyRow(decode, files, ByStart(q))
  }

  ghost predicate ReachesOn(decode: Decoder, q: Query, files: seq<LogFile>) {
    AnyRow(decode, files, FromEnd(q))
  }

  lemma {:induction false} MinMaxStamp(records: seq<Record>)
    ensures MinStamp(records).Some? <==> records != []
    ensures MaxStamp(records).Some? <==> records != []
    ensures records != [] ==> exists j :: 0 <= j < |records| && records[j].stamp == MinStamp(records).value
    ensures records != [] ==> exists j :: 0 <= j < |records| && records[j].stamp == MaxStamp(records).value
    ensures forall j :: 0 <= j < |records| ==> MinStamp(records).value <= records[j].stamp <= MaxStamp(records).value
  {
    if records != [] {
      MinMaxStamp(records[..|records| - 1]);
    }
  }

  lemma {:induction false} PrefixBounds(decode: Decoder, q: Query, files: seq<LogFile>, k: nat)
    requires k <= |files|
    ensures TotalSize(files[..k]) <= TotalSize(files)
    ensures |AllMine(decode, q, files[..k])| <= |AllMine(decode, q, files)|
    decreases |files|
  {
    if k < |files| {
      PrefixBounds(decode, q, files[..|files| - 1], k);
      assert files[..|files| - 1][..k] == files[..k];
    } else {
      assert files[..k] == files;
    }
  }

  /** The tally after a prefix of the files. */
  ghost predicate Counted(decode: Decoder, q: Query, files: seq<LogFile>, tally: Tally) {
    && tally.events == AllMine(decode, q, files)
    && tally.window == |tally.events| + Total(tally.others) && Tidy(tally.others)
    && forall key :: CountOf(tally.others, key) == AllOthers(decode, q, files, key)
  }

  /** The collected first and last times tell how far the rows reach. */
  ghost predicate Bracketed(decode: Decoder, q: Query, files: seq<LogFile>, stamps: seq<int>) {
    && ((exists i :: 0 <= i < |stamps| && stamps[i] <= q.start) <==> ReachesBack(decode, q, files))
    && ((exists i :: 0 <= i < |stamps| && stamps[i] >= q.end) <==> ReachesOn(decode, q, files))
  }

  ghost predicate Summed(decode: Decoder, q: Query, files: seq<LogFile>, tally: Tally, total: nat, stamps: seq<int>) {
    && AllOk(decode, files) && total == TotalSize(files)
    && Counted(decode, q, files, tally) && Bracketed(decode, q, files, stamps)
  }

  function Noted(stamps: seq<int>, first: Option<int>, last: Option<int>): seq<int> {
    if first.Some? && last.Some? then stamps + [first.value, last.value] else stamps
  }

  lemma ReachGrows(decode: Decoder, q: Query, files: seq<LogFile>, f: LogFile)
    ensures ReachesBack(decode, q, files + [f]) <==>
      ReachesBack(decode, q, files)
      || exists j :: 0 <= j < |RecordsOf(decode, f)| && RecordsOf(decode, f)[j].stamp <= q.start
    ensures ReachesOn(decode, q, files + [f]) <==>
      ReachesOn(decode, q, files)
      || exists j :: 0 <= j < |RecordsOf(decode, f)| && RecordsOf(decode, f)[j].stamp >= q.end
  {
    AnyRowGrows(decode, files, f, ByStart(q));
    AnyRowGrows(decode, files, f, FromEnd(q));
  }

  lemma NotedStamps(q: Query, records: seq<Record>, stamps: seq<int>)
    ensures
      var noted := Noted(stamps, MinStamp(records), MaxStamp(records));
      && ((exists i :: 0 <= i < |noted| && noted[i] <= q.start) <==>
          (exists i :: 0 <= i < |stamps| && stamps[i] <= q.start) ||
            (exists j :: 0 <= j < |records| && records[j].stamp <= q.start))
      && ((exists i :: 0 <= i < |noted| && noted[i] >= q.end) <==>
          (exists i :: 0 <= i < |stamps| && stamps[i] >= q.end) ||
            (exists j :: 0 <= j < |records| && records[j].stamp >= q.end))
  {
    var noted := Noted(stamps, MinStamp(records), MaxStamp(records));
    MinMaxStamp(records);
    assert forall i :: 0 <= i < |stamps| ==> noted[i] == stamps[i];
    if records != [] {
      assert noted[|stamps|] == MinStamp(records).value && noted[|stamps| + 1] == MaxStamp(records).value;
    }
  }

  lemma TalliesNext(decode: Decoder, q: Query, files: seq<LogFile>, f: LogFile, tally: Tally, key: (string, string))
    requires tally.events == AllMine(decode, q, files) && tally.window == |tally.events| + Total(tally.others)
    requires CountOf(tally.others, key) == AllOthers(decode, q, files, key)
    ensures
      var after := AbsorbAll(q, tally, RecordsOf(decode, f), f.name);
      && after.events == AllMine(decode, q, files + [f]) && after.window == |after.events| + Total(after.others)
      && CountOf(after.others, key) == AllOthers(decode, q, files + [f], key)
  {
    assert (files + [f])[..|files|] == files;
    AbsorbAllAddsUp(q, tally, RecordsOf(decode, f), f.name, key);
  }

  lemma SizesNext(decode: Decoder, files: seq<LogFile>, f: LogFile)
    requires AllOk(decode, files) && FileOk(decode, f)
    ensures AllOk(decode, files + [f]) && TotalSize(files + [f]) == TotalSize(files) + f.size
  {
    assert (files + [f])[..|files|] == files;
  }

  lemma CountedNext(decode: Decoder, q: Query, files: seq<LogFile>, f: LogFile, tally: Tally)
    requires Counted(decode, q, files, tally)
    ensures Counted(decode, q, files + [f], AbsorbAll(q, tally, RecordsOf(decode, f), f.name))
  {
    forall key
      ensures CountOf(AbsorbAll(q, tally, RecordsOf(decode, f), f.name).others, key) ==
        AllOthers(decode, q, files + [f], key)
    {
      TalliesNext(decode, q, files, f, tally, key);
    }
    TalliesNext(decode, q, files, f, tally, ("", ""));
    AbsorbKeepsTidy(q, tally, RecordsOf(decode, f), f.name);
  }

  lemma BracketedNext(decode: Decoder, q: Query, files: seq<LogFile>, f: LogFile, stamps: seq<int>)
    requires Bracketed(decode, q, files, stamps)
    ensures
      var records := RecordsOf(decode, f);
      Bracketed(decode, q, files + [f], Noted(stamps, MinStamp(records), MaxStamp(records)))
  {
    ReachGrows(decode, q, files, f);
    NotedStamps(q, RecordsOf(decode, f), stamps);
  }

  lemma SummedNext(decode: Decoder, q: Query, files: seq<LogFile>, f: LogFile, tally: Tally, total: nat,
                   stamps: seq<int>)
    requires Summed(decode, q, files, tally, total, stamps) && FileOk(decode, f)
    ensures
      var records := RecordsOf(decode, f);
      Summed(decode, q, files + [f], AbsorbAll(q, tally, records, f.name), total + f.size,
             Noted(stamps, MinStamp(records), MaxStamp(records)))
  {
    SizesNext(decode, files, f);
    CountedNext(decode, q, files, f, tally);
    BracketedNext(decode, q, files, f, stamps);
  }

  // ----- flattening the counter's keys

  function Flat(key: (string, string)): string { key.0 + ":" + key.1 }

  /** How a pair reads: type, colon, outcome. */
  function Joined(key: (string, string)): string { key.0 + [':'] + key.1 }

  /** The dictionary comprehension: a later key with the same text overwrites an earlier one. */
  function Store(flat: seq<(string, nat)>, name: string, count: nat): seq<(string, nat)> {
    if flat == [] then [(name, count)]
    else if flat[0].0 == name then [(name, count)] + flat[1..]
    else [flat[0]] + Store(flat[1..], name, count)
  }

  function Flatten(counters: Counters): seq<(string, nat)> {
    if counters == [] then [] else
      var last := |counters| - 1;
      Store(Flatten(counters[..last]), Flat(counters[last].0), counters[last].1)
  }

  function FlatTotal(flat: seq<(string, nat)>): nat {
    if flat == [] then 0 else flat[0].1 + FlatTotal(flat[1..])
  }

  /** No two counted pairs read the same once joined by a colon. */
  predicate Distinct(counters: Counters) {
    forall i, j :: 0 <= i < j < |counters| ==> Joined(counters[i].0) != Joined(counters[j].0)
  }

  predicate Stored(flat: seq<(string, nat)>, name: string) {
    exists i :: 0 <= i < |flat| && flat[i].0 == name
  }

  lemma {:induction false} StoreTotal(flat: seq<(string, nat)>, name: string, count: nat)
    ensures forall n :: Stored(Store(flat, name, count), n) <==> n == name || Stored(flat, n)
    ensures !Stored(flat, name) ==> FlatTotal(Store(flat, name, count)) == FlatTotal(flat) + count
    ensures (forall i :: 0 <= i < |flat| ==> flat[i].1 > 0) && Stored(flat, name) ==>
      FlatTotal(Store(flat, name, count)) < FlatTotal(flat) + count
    ensures (forall i :: 0 <= i < |flat| ==> flat[i].1 > 0) && count > 0 ==>
      forall i :: 0 <= i < |Store(flat, name, count)| ==> Store(flat, name, count)[i].1 > 0
  {
    if flat == [] {
      assert Store(flat, name, count)[0].0 == name;
    } else {
      var rest := flat[1..];
      assert forall n :: Stored(flat, n) <==> flat[0].0 == n || Stored(rest, n) by {
        assert forall i :: 0 < i < |flat| ==> flat[i] == rest[i - 1];
      }
      StoreTotal(rest, name, count);
      var stored := Store(flat, name, count);
      assert forall i :: 0 < i < |stored| ==> stored[i] == stored[1..][i - 1];
      assert forall n :: Stored(stored, n) <==> stored[0].0 == n || Stored(stored[1..], n);
    }
  }

  lemma {:induction false} TotalLast(counters: Counters)
    requires counters != []
    ensures Total(counters) == Total(counters[..|counters| - 1]) + counters[|counters| - 1].1
  {
    if |counters| > 1 {
      TotalLast(counters[1..]);
      assert counters[1..][..|counters| - 2] == counters[..|counters| - 1][1..];
    }
  }

  lemma DistinctLast(counters: Counters)
    requires counters != []
    ensures
      var init, last := counters[..|counters| - 1], counters[|counters| - 1];
      Distinct(counters) <==> Distinct(init) && !exists i :: 0 <= i < |init| && Joined(init[i].0) == Joined(last.0)
  {
    var init, last := counters[..|counters| - 1], counters[|counters| - 1];
    if Distinct(counters) {
      forall i | 0 <= i < |init|
        ensures Joined(init[i].0) != Joined(last.0)
      {
        assert Joined(counters[i].0) != Joined(counters[|counters| - 1].0);
      }
    }
  }

  /** Flattening the keys keeps the total exactly when no two keys collide; otherwise counts are lost. */
  lemma {:induction false} FlattenKeepsTotal(counters: Counters)
    requires Positive(counters)
    ensures FlatTotal(Flatten(counters)) == Total(counters) <==> Distinct(counters)
    ensures FlatTotal(Flatten(counters)) <= Total(counters)
    ensures forall n :: Stored(Flatten(counters), n) <==> exists i :: 0 <= i < |counters| && Joined(counters[i].0) == n
    ensures forall i :: 0 <= i < |Flatten(counters)| ==> Flatten(counters)[i].1 > 0
  {
    if counters != [] {
      var init, last := counters[..|counters| - 1], counters[|counters| - 1];
      FlattenKeepsTotal(init);
      TotalLast(counters);
      StoreTotal(Flatten(init), Flat(last.0), last.1);
      assert Flat(last.0) == Joined(last.0);
      DistinctLast(counters);
      forall n
        ensures Stored(Flatten(counters), n) <==> exists i :: 0 <= i < |counters| && Joined(counters[i].0) == n
      {
        if n == Joined(last.0) { assert Joined(counters[|counters| - 1].0) == n; }
        if i :| 0 <= i < |init| && Joined(init[i].0) == n { assert Joined(counters[i].0) == n; }
      }
    }
  }

  /** What the last counter that reads as this name says. */
  predicate LastReads(counters: Counters, i: nat, name: string) {
    && i < |counters| && Joined(counters[i].0) == name
    && forall j :: i < j < |counters| ==> Joined(counters[j].0) != name
  }

  lemma {:induction false} StoreKeeps(flat: seq<(string, nat)>, name: string, count: nat)
    ensures forall e :: e in Store(flat, name, count) ==> e == (name, count) || e in flat
    ensures (forall i, j :: 0 <= i < j < |flat| ==> flat[i].0 != flat[j].0) ==>
      && (forall e :: e in Store(flat, name, count) ==> e.0 == name ==> e.1 == count)
      && forall i, j :: 0 <= i < j < |Store(flat, name, count)| ==>
           Store(flat, name, count)[i].0 != Store(flat, name, count)[j].0
  {
    if flat != [] && flat[0].0 != name {
      var rest := flat[1..];
      StoreKeeps(rest, name, count);
      var stored := Store(rest, name, count);
      assert Store(flat, name, count) == [flat[0]] + stored;
      if forall i, j :: 0 <= i < j < |flat| ==> flat[i].0 != flat[j].0 {
        forall j | 0 <= j < |stored|
          ensures stored[j].0 != flat[0].0
        {
          assert stored[j] in stored;
          if stored[j] in rest {
            var k :| 0 <= k < |rest| && rest[k] == stored[j];
            assert flat[k + 1] == rest[k];
          }
        }
      }
    }
  }

  /** Each name is exported once, with the count of the last pair that reads so. */
  lemma {:induction false} FlattenGives(counters: Counters)
    ensures forall e :: e in Flatten(counters) ==>
      exists i: nat :: LastReads(counters, i, e.0) && e.1 == counters[i].1
    ensures forall i, j :: 0 <= i < j < |Flatten(counters)| ==> Flatten(counters)[i].0 != Flatten(counters)[j].0
  {
    if counters != [] {
      var init, last := counters[..|counters| - 1], counters[|counters| - 1];
      FlattenGives(init);
      StoreKeeps(Flatten(init), Flat(last.0), last.1);
      assert Flat(last.0) == Joined(last.0);
      forall e | e in Flatten(counters)
        ensures exists i: nat :: LastReads(counters, i, e.0) && e.1 == counters[i].1
      {
        if e.0 == Joined(last.0) {
          assert LastReads(counters, |counters| - 1, e.0);
        } else {
          var i: nat :| LastReads(init, i, e.0) && e.1 == init[i].1;
          assert LastReads(counters, i, e.0);
        }
      }
    }
  }

  // ----- when the exported report adds up

  predicate CountsAs(q: Query, r: Record, key: (string, string)) { IsOther(q, r) && (r.kind, r.outcome) == key }

  function Counting(q: Query, key: (string, string)): Record -> bool { (r: Record) => CountsAs(q, r, key) }

  /** Some row of the window that is not the caller's is counted under this key. */
  ghost predicate IsCounted(decode: Decoder, q: Query, files: seq<LogFile>, key: (string, string)) {
    AnyRow(decode, files, Counting(q, key))
  }

  lemma {:induction false} CountOthersIff(q: Query, records: seq<Record>, key: (string, string))
    ensures CountOthers(q, records, key) > 0 <==> HasRow(records, Counting(q, key))
  {
    if records != [] {
      var init, last := records[..|records| - 1], |records| - 1;
      CountOthersIff(q, init, key);
      assert forall j :: 0 <= j < last ==> init[j] == records[j];
      assert Counting(q, key)(records[last]) <==> CountsAs(q, records[last], key);
    }
  }

  lemma AllOthersNext(decode: Decoder, q: Query, files: seq<LogFile>, f: LogFile, key: (string, string))
    ensures AllOthers(decode, q, files + [f], key) ==
            AllOthers(decode, q, files, key) + CountOthers(q, RecordsOf(decode, f), key)
  {
    assert (files + [f])[..|files|] == files;
  }

  lemma CountedNextIff(decode: Decoder, q: Query, files: seq<LogFile>, f: LogFile, key: (string, string))
    ensures IsCounted(decode, q, files + [f], key) <==>
            IsCounted(decode, q, files, key) || CountOthers(q, RecordsOf(decode, f), key) > 0
  {
    CountOthersIff(q, RecordsOf(decode, f), key);
    AnyRowGrows(decode, files, f, Counting(q, key));
  }

  lemma {:induction false} AllOthersIff(decode: Decoder, q: Query, files: seq<LogFile>, key: (string, string))
    ensures AllOthers(decode, q, files, key) > 0 <==> IsCounted(decode, q, files, key)
  {
    if files != [] {
      var init, f := files[..|files| - 1], files[|files| - 1];
      assert files == init + [f];
      AllOthersIff(decode, q, init, key);
      AllOthersNext(decode, q, init, f, key);
      CountedNextIff(decode, q, init, f, key);
    }
  }

  lemma {:induction false} CountOfIff(counters: Counters, key: (string, string))
    requires Positive(counters)
    ensures CountOf(counters, key) > 0 <==> exists i :: 0 <= i < |counters| && counters[i].0 == key
  {
    if counters != [] {
      var rest := counters[1..];
      CountOfIff(rest, key);
      assert forall i :: 0 < i < |counters| ==> counters[i] == rest[i - 1];
      if i :| 0 <= i < |rest| && rest[i].0 == key {
        assert counters[i + 1].0 == key;
      }
    }
  }

  /** No two rows counted under different pairs have pairs that read the same once joined. */
  ghost predicate ReadApart(decode: Decoder, q: Query, files: seq<LogFile>) {
    forall k, l :: IsCounted(decode, q, files, k) && IsCounted(decode, q, files, l) && Joined(k) == Joined(l) ==>
      k == l
  }

  /** The counters' keys are those of the rows, so they collide exactly when the rows' pairs do. */
  lemma DistinctIff(decode: Decoder, q: Query, files: seq<LogFile>, counters: Counters)
    requires Tidy(counters) && forall key :: CountOf(counters, key) == AllOthers(decode, q, files, key)
    ensures Distinct(counters) <==> ReadApart(decode, q, files)
  {
    forall key
      ensures IsCounted(decode, q, files, key) <==> exists i :: 0 <= i < |counters| && counters[i].0 == key
    {
      AllOthersIff(decode, q, files, key);
      CountOfIff(counters, key);
    }
    if ReadApart(decode, q, files) {
      forall i, j | 0 <= i < j < |counters|
        ensures Joined(counters[i].0) != Joined(counters[j].0)
      {
        assert IsCounted(decode, q, files, counters[i].0) && IsCounted(decode, q, files, counters[j].0);
      }
    }
  }

  /** The flattened counters sum to the counted rows exactly when no two rows' pairs read the same. */
  lemma ReportAddsUpIff(decode: Decoder, q: Query, files: seq<LogFile>, tally: Tally)
    requires Counted(decode, q, files, tally)
    ensures tally.window == |tally.events| + FlatTotal(Flatten(tally.others)) <==> ReadApart(decode, q, files)
  {
    FlattenKeepsTotal(tally.others);
    DistinctIff(decode, q, files, tally.others);
  }

  // ----- the report

  /** `outcomes` is the counter as it is exported, its keys flattened to text. */
  datatype Report = Report(tally: Tally, outcomes: seq<(string, nat)>, failed: bool, complete: bool)

  const NO_TALLY := Tally([], 0, [])

  /** The files are all acceptable and together within the bounds. */
  ghost predicate AllScannable(decode: Decoder, q: Query, files: seq<LogFile>) {
    AllOk(decode, files) && TotalSize(files) <= 100_663_296 && |AllMine(decode, q, files)| <= 200
  }

  /** Everything the scan insists on. */
  ghost predicate Acceptable(decode: Decoder, q: Query, files: seq<LogFile>, segments: nat, namesStable: bool) {
    && 0 < q.end - q.start <= 600_000_000 && segments <= 7 && namesStable
    && AllScannable(decode, q, files)
  }

  /** One file: its bounds, its rows, and the status check after them. */
  method ScanOne(decode: Decoder, q: Query, f: LogFile, tally: Tally, total: nat, stamps: seq<int>,
                 ghost before: seq<LogFile>)
    returns (r: Result<(Tally, seq<int>), Error>)
    requires Summed(decode, q, before, tally, total, stamps) && |tally.events| <= MAX_MATCHED
    ensures r.Ok? <==>
      FileOk(decode, f) && total + f.size <= BUDGET && |AllMine(decode, q, before + [f])| <= MAX_MATCHED
    ensures r.Ok? ==> Summed(decode, q, before + [f], r.value.0, total + f.size, r.value.1)
  {
    if f.size > MAX_FILE {
      return Err(FileTooLarge);
    }
    if total + f.size > BUDGET {
      return Err(BudgetExceeded);
    }
    assert (before + [f])[..|before|] == before;
    var scanned := ScanFile(decode, q, f, tally);
    if scanned.Err? {
      return Err(scanned.error);
    }
    if !f.sameFile || f.sizeAfter < f.size || (!f.live && f.sizeAfter != f.size) {
      return Err(Changed);
    }
    SummedNext(decode, q, before, f, tally, total, stamps);
    return Ok((scanned.value.tally, Noted(stamps, scanned.value.first, scanned.value.last)));
  }

  lemma PrefixRefuses(decode: Decoder, q: Query, files: seq<LogFile>, k: nat)
    requires k < |files|
    requires !FileOk(decode, files[k]) || TotalSize(files[..k + 1]) > BUDGET ||
      |AllMine(decode, q, files[..k + 1])| > MAX_MATCHED
    ensures !AllScannable(decode, q, files)
  {
    PrefixBounds(decode, q, files, k + 1);
  }

  /** What the loop over the files has reached after the first `k`. */
  ghost predicate Reaching(decode: Decoder, q: Query, files: seq<LogFile>, k: nat, tally: Tally, total: nat,
                           stamps: seq<int>) {
    k <= |files| && Summed(decode, q, files[..k], tally, total, stamps) && total <= BUDGET &&
      |tally.events| <= MAX_MATCHED
  }

  method ScanNext(decode: Decoder, q: Query, files: seq<LogFile>, k: nat, tally: Tally, total: nat, stamps: seq<int>)
    returns (r: Result<(Tally, seq<int>), Error>)
    requires k < |files| && Reaching(decode, q, files, k, tally, total, stamps)
    ensures r.Err? ==> !AllScannable(decode, q, files)
    ensures r.Ok? ==> Reaching(decode, q, files, k + 1, r.value.0, total + files[k].size, r.value.1)
  {
    assert files[..k + 1] == files[..k] + [files[k]] && files[..k + 1][..k] == files[..k];
    r := ScanOne(decode, q, files[k], tally, total, stamps, files[..k]);
    if r.Err? {
      PrefixRefuses(decode, q, files, k);
    }
  }

  lemma AllReached(decode: Decoder, q: Query, files: seq<LogFile>, tally: Tally, total: nat, stamps: seq<int>)
    requires Reaching(decode, q, files, |files|, tally, total, stamps)
    ensures AllScannable(decode, q, files) && Summed(decode, q, files, tally, TotalSize(files), stamps)
  {
    assert files[..|files|] == files;
  }

  /** The loop over the files. */
  method ScanAll(decode: Decoder, q: Query, files: seq<LogFile>) returns (r: Result<(Tally, seq<int>), Error>)
    ensures r.Ok? <==> AllScannable(decode, q, files)
    ensures r.Ok? ==> Summed(decode, q, files, r.value.0, TotalSize(files), r.value.1)
  {
    var tally, total: nat, stamps: seq<int> := NO_TALLY, 0, [];
    for k := 0 to |files|
      invariant Reaching(decode, q, files, k, tally, total, stamps)
    {
      var scanned := ScanNext(decode, q, files, k, tally, total, stamps);
      if scanned.Err? {
        return scanned;
      }
      total, tally, stamps := total + files[k].size, scanned.value.0, scanned.value.1;
    }
    AllReached(decode, q, files, tally, total, stamps);
    return Ok((tally, stamps));
  }

  method Scan(decode: Decoder, q: Query, files: seq<LogFile>, segments: nat, namesStable: bool) returns (report: Report)
    ensures !report.failed <==> Acceptable(decode, q, files, segments, namesStable)
    ensures !report.failed ==> report.tally.events == AllMine(decode, q, files)
    ensures !report.failed ==> report.tally.window == |report.tally.events| + Total(report.tally.others)
    ensures !report.failed ==> forall key :: CountOf(report.tally.others, key) == AllOthers(decode, q, files, key)
    ensures !report.failed ==> Tidy(report.tally.others) && report.outcomes == Flatten(report.tally.others)
    ensures !report.failed ==>
      (report.tally.window == |report.tally.events| + FlatTotal(report.outcomes) <==> ReadApart(decode, q, files))
    ensures report.complete <==> !report.failed && ReachesBack(decode, q, files) && ReachesOn(decode, q, files)
  {
    if !ValidWindow(q) || segments > MAX_SEGMENTS {
      return Report(NO_TALLY, [], true, false);
    }
    var scanned := ScanAll(decode, q, files);
    if scanned.Err? || !namesStable {
      return Report(NO_TALLY, [], true, false);
    }
    var (tally, stamps) := scanned.value;
    var back := exists i :: 0 <= i < |stamps| && stamps[i] <= q.start;
    var on := exists i :: 0 <= i < |stamps| && stamps[i] >= q.end;
    ReportAddsUpIff(decode, q, files, tally);
    return Report(tally, Flatten(tally.others), false, back && on);
  }

  // ----- counts that are lost

  /** A colon inside a type or an outcome makes two different pairs collide. */
  lemma FlattenCanLoseCounts()
    ensures
      var counters: Counters := [(("a:b", "c"), 1), (("a", "b:c"), 1)];
      Positive(counters) && Total(counters) == 2 && FlatTotal(Flatten(counters)) < 2
  {
    var counters: Counters := [(("a:b", "c"), 1), (("a", "b:c"), 1)];
    assert Joined(counters[0].0) == Joined(counters[1].0);
    FlattenKeepsTotal(counters);
    TotalLast(counters);
    assert counters[..1] == [counters[0]];
  }
}

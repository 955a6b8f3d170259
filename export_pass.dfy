/** What one export sends to the FirePHP console: the tables, in order, and
    the point at which the single catch-all stops the pass. */
module ExportPass {
  import opened LogMessages
  import opened Text

  /** One column of a row returned by the database. */
  datatype Cell = Cell(column: string, value: string)

  type Row = seq<Cell>

  /** The database as the EXPLAIN query sees it: rows, or the message of
      the exception the query raised. */
  type Db = string -> Result<seq<Row>, string>

  /** A table sent to FirePHP. */
  datatype Table =
      /** 'Query summary': header Count, Time, Timings and one row. */
    | Summary(count: nat, time: real, timings: seq<Timing>)
      /** One finished query: header Time, Log info and one row. */
    | Query(title: string, elapsed: real, message: Message)
      /** The EXPLAIN result: the first row's column names, then the rows. */
    | Explain(title: string, header: seq<string>, rows: seq<Row>)

  /** The exceptions the export pass can catch. */
  datatype Failure =
      /** Reading an array element that does not exist. */
    | UndefinedOffset(index: int)
      /** The EXPLAIN query raised an exception with this message. */
    | QueryFailed(reason: string)

  /** The tables sent and, if the pass was cut short, the exception that cut it. */
  datatype Pass = Pass(tables: seq<Table>, failure: Option<Failure>)

  function Columns(row: Row): seq<string>
  {
    seq(|row|, i requires 0 <= i < |row| => row[i].column)
  }

  /** The summary table for the given timing records. */
  function SummaryTable(timings: seq<Timing>): (t: Table)
    ensures t.Summary? && t.timings == timings && t.count == |t.timings|
    ensures (forall j :: 0 <= j < |timings| ==> timings[j].duration >= 0.0) ==>
      && t.time >= 0.0
      && forall j :: 0 <= j < |timings| ==> timings[j].duration <= t.time
  {
    SumBoundsAll(timings);
    Summary(|timings|, SumDurations(timings), timings)
  }

  /** The table sent for the PROFILE_END message at buffer index k: the
      normalised, upper-cased text as title and the time since the message
      just before it in the buffer. */
  function QueryFor(buf: seq<Message>, k: nat): (t: Table)
    requires 1 <= k < |buf|
    ensures t.Query? && t.message == buf[k]
    ensures t.elapsed == buf[k].timestamp - buf[k - 1].timestamp
    ensures IsUpperCased(t.title) && NoAdjacentSpaces(t.title)
    ensures NonSpace(t.title) == NonSpace(Upper(Trim(buf[k].text)))
  {
    var command := Normalize(buf[k].text);
    UpperKeepsSpacing(command);
    UpperKeepsNonSpace(Trim(buf[k].text));
    Query(Upper(command), buf[k].timestamp - buf[k - 1].timestamp, buf[k])
  }

  /** Upper-casing and collapsing whitespace commute on the non-space
      characters. */
  lemma UpperKeepsNonSpace(s: string)
    ensures NonSpace(Upper(Collapse(s))) == NonSpace(Upper(s))
  {
    CollapseKeepsNonSpace(s);
    NonSpaceUpper(Collapse(s));
    NonSpaceUpper(s);
  }

  lemma {:induction false} NonSpaceUpper(s: string)
    ensures NonSpace(Upper(s)) == Upper(NonSpace(s))
  {
    if s != [] {
      NonSpaceUpper(s[1..]);
      assert Upper(s)[1..] == Upper(s[1..]);
      UpperAppend(if IsSpace(s[0]) then [] else [s[0]], NonSpace(s[1..]));
    }
  }

  lemma UpperAppend(a: string, b: string)
    ensures Upper(a + b) == Upper(a) + Upper(b)
  {
  }

  /** EXPLAIN is run for the message at index k: it is a PROFILE_END with a
      message before it, explain mode is on and its normalised text names a
      DML keyword. */
  predicate ExplainAttempted(buf: seq<Message>, k: nat, explain: bool)
    requires k < |buf|
  {
    buf[k].level == ProfileEnd && k >= 1 && explain && ContainsDml(Normalize(buf[k].text))
  }

  /** The tables the loop body sends for the message at index k, and the
      exception it raises, if any. */
  function Step(buf: seq<Message>, k: nat, explain: bool, db: Db): Pass
    requires k < |buf|
  {
    if buf[k].level != ProfileEnd then Pass([], None)
    else if k == 0 then Pass([], Some(UndefinedOffset(-1)))
    else QueryStep(buf, k, explain, db)
  }

  /** The body of the PROFILE_END case for a message with one before it:
      the query table, then, if EXPLAIN is triggered, its result table. */
  function QueryStep(buf: seq<Message>, k: nat, explain: bool, db: Db): Pass
    requires 1 <= k < |buf|
  {
    var command := Normalize(buf[k].text);
    var query := QueryFor(buf, k);
    if !(explain && ContainsDml(command)) then Pass([query], None)
    else
      var sql := "EXPLAIN " + command;
      match db(sql)
      case Err(e) => Pass([query], Some(QueryFailed(e)))
      case Ok(rows) =>
        if rows == [] then Pass([query], Some(UndefinedOffset(0)))
        else Pass([query, Explain(sql, Columns(rows[0]), rows)], None)
  }

  /** The body of export's loop for the message at index `key`: only a
      PROFILE_END message is reported, and reading the message before the
      first one raises. Returns the tables it sends, in order, and the
      exception it raises, if any: the executable counterpart of `Step`,
      whose meaning `StepOutcome` and `StepTablesBelong` state. */
  method ExportMessage(buf: seq<Message>, key: nat, explain: bool, db: Db)
    returns (tables: seq<Table>, failure: Option<Failure>)
    requires key < |buf|
    ensures Pass(tables, failure) == Step(buf, key, explain, db)
  {
    tables, failure := [], None;
    if buf[key].level == ProfileEnd {
      if key == 0 {
        failure := Some(UndefinedOffset(-1));
      } else {
        tables, failure := ExportQuery(buf, key, explain, db);
      }
    }
  }

  /** A PROFILE_END message with one before it: its query table and, when
      explain mode is on and its text names a DML keyword, the EXPLAIN
      table built from the rows the database returns; the executable
      counterpart of `QueryStep`. */
  method ExportQuery(buf: seq<Message>, key: nat, explain: bool, db: Db)
    returns (tables: seq<Table>, failure: Option<Failure>)
    requires 1 <= key < |buf|
    ensures Pass(tables, failure) == QueryStep(buf, key, explain, db)
  {
    var command := Normalize(buf[key].text);
    tables := [QueryFor(buf, key)];
    failure := None;
    if explain && ContainsDml(command) {
      var sql := "EXPLAIN " + command;
      var data := db(sql);
      if data.Err? {
        failure := Some(QueryFailed(data.error));
      } else if data.value == [] {
        failure := Some(UndefinedOffset(0));
      } else {
        tables := tables + [Explain(sql, Columns(data.value[0]), data.value)];
      }
    }
  }

  /** The outcome of each buffered message's loop body, in buffer order. */
  function Steps(buf: seq<Message>, explain: bool, db: Db): (ps: seq<Pass>)
    ensures |ps| == |buf|
  {
    seq(|buf|, k requires 0 <= k < |buf| => Step(buf, k, explain, db))
  }

  /** The loop inside the single try block, from index k on: each message's
      tables in turn until the first exception, which the catch after the
      loop stops, leaving every later message unreported. */
  function Chain(ps: seq<Pass>, k: nat): Pass
    requires k <= |ps|
    decreases |ps| - k
  {
    if k == |ps| then Pass([], None)
    else if ps[k].failure.Some? then ps[k]
    else
      var rest := Chain(ps, k + 1);
      Pass(ps[k].tables + rest.tables, rest.failure)
  }

  /** The per-message part of one export of the buffer. */
  function Run(buf: seq<Message>, explain: bool, db: Db): Pass
  {
    Chain(Steps(buf, explain, db), 0)
  }

  /** What the body does for one message, both ways round: it sends tables
      exactly for a PROFILE_END with a message before it, the query table
      first; a second, EXPLAIN, table exactly when EXPLAIN is triggered and
      the database returns rows; and it raises exactly for a PROFILE_END
      first in the buffer or a triggered EXPLAIN that fails or returns no
      rows. */
  lemma StepOutcome(buf: seq<Message>, k: nat, explain: bool, db: Db)
    requires k < |buf|
    ensures var p := Step(buf, k, explain, db);
            var answer := db("EXPLAIN " + Normalize(buf[k].text));
            && (p.tables != [] <==> buf[k].level == ProfileEnd && k >= 1)
            && (p.tables != [] ==> p.tables[0] == QueryFor(buf, k))
            && |p.tables| <= 2
            && (|p.tables| == 2 <==> ExplainAttempted(buf, k, explain) && answer.Ok? && answer.value != [])
            && (p.failure.Some? <==>
                  (buf[k].level == ProfileEnd && k == 0)
                  || (ExplainAttempted(buf, k, explain) && (answer.Err? || answer.value == [])))
  {
  }

  /** The database is consulted only for messages that trigger EXPLAIN. */
  lemma StepIgnoresDbUnlessExplain(buf: seq<Message>, k: nat, explain: bool, db1: Db, db2: Db)
    requires k < |buf| && !ExplainAttempted(buf, k, explain)
    ensures Step(buf, k, explain, db1) == Step(buf, k, explain, db2)
  {
  }

  /** The tables of the outcomes i .. k-1, concatenated. */
  function Emitted(ps: seq<Pass>, i: nat, k: nat): seq<Table>
    requires i <= k <= |ps|
    decreases k - i
  {
    if i == k then [] else ps[i].tables + Emitted(ps, i + 1, k)
  }

  /** One more turn of the loop: the body at index k either adds its tables
      and moves on, or raises and ends the pass. */
  lemma ChainTurn(ps: seq<Pass>, k: nat, emitted: seq<Table>)
    requires k < |ps|
    requires Chain(ps, 0) == Pass(emitted + Chain(ps, k).tables, Chain(ps, k).failure)
    ensures ps[k].failure.None? ==>
      Chain(ps, 0) == Pass((emitted + ps[k].tables) + Chain(ps, k + 1).tables, Chain(ps, k + 1).failure)
    ensures ps[k].failure.Some? ==> Chain(ps, 0) == Pass(emitted + ps[k].tables, ps[k].failure)
  {
    if ps[k].failure.None? {
      assert emitted + (ps[k].tables + Chain(ps, k + 1).tables) == (emitted + ps[k].tables) + Chain(ps, k + 1).tables;
    }
  }

  /** After the messages before `key`, the pass has sent `out`; if nothing
      failed, the rest of the pass is the chain from `key`. */
  predicate Progress(ps: seq<Pass>, key: nat, out: seq<Table>, failure: Option<Failure>)
    requires key <= |ps|
  {
    if failure.None? then Chain(ps, 0) == Pass(out + Chain(ps, key).tables, Chain(ps, key).failure)
    else Chain(ps, 0) == Pass(out, failure)
  }

  lemma ProgressTurn(ps: seq<Pass>, key: nat, out: seq<Table>, p: Pass)
    requires key < |ps| && ps[key] == p
    requires Progress(ps, key, out, None)
    ensures Progress(ps, if p.failure.None? then key + 1 else key, out + p.tables, p.failure)
  {
    ChainTurn(ps, key, out);
  }

  /** Once the buffer is exhausted or a step failed, the pass is what was sent. */
  lemma ProgressDone(ps: seq<Pass>, key: nat, out: seq<Table>, failure: Option<Failure>)
    requires key <= |ps| && (key == |ps| || failure.Some?)
    requires Progress(ps, key, out, failure)
    ensures Chain(ps, 0) == Pass(out, failure)
  {
    if failure.None? {
      assert out + [] == out;
    }
  }

  /** When the body for index k raises the first exception, the pass sends
      what the bodies before it sent, plus what k sent before raising, and
      nothing for any later message. */
  lemma {:induction false} FirstFailureAbandonsRest(ps: seq<Pass>, i: nat, k: nat)
    requires i <= k < |ps|
    requires forall j :: i <= j < k ==> ps[j].failure.None?
    requires ps[k].failure.Some?
    ensures Chain(ps, i) == Pass(Emitted(ps, i, k) + ps[k].tables, ps[k].failure)
    decreases k - i
  {
    if i < k {
      FirstFailureAbandonsRest(ps, i + 1, k);
      var e := Emitted(ps, i + 1, k);
      assert ps[i].tables + (e + ps[k].tables) == (ps[i].tables + e) + ps[k].tables;
    } else {
      assert [] + ps[k].tables == ps[k].tables;
    }
  }

  /** Without an exception, every body's tables are sent, in buffer order. */
  lemma {:induction false} NoFailureReportsAll(ps: seq<Pass>, i: nat)
    requires i <= |ps|
    requires forall j :: i <= j < |ps| ==> ps[j].failure.None?
    ensures Chain(ps, i) == Pass(Emitted(ps, i, |ps|), None)
    decreases |ps| - i
  {
    if i < |ps| {
      NoFailureReportsAll(ps, i + 1);
    }
  }

  /** The pass is cut short exactly when some body raises, and then by the
      first exception raised. */
  lemma {:induction false} ChainFailsIff(ps: seq<Pass>, i: nat)
    requires i <= |ps|
    ensures Chain(ps, i).failure.Some? <==> exists k :: i <= k < |ps| && ps[k].failure.Some?
    ensures Chain(ps, i).failure.Some? ==>
      exists k :: i <= k < |ps| && ps[k].failure.Some? && Chain(ps, i).failure == ps[k].failure
    decreases |ps| - i
  {
    if i < |ps| {
      ChainFailsIff(ps, i + 1);
    }
  }

  /** Every table of the pass from i on is a table of some body from i on. */
  lemma {:induction false} ChainTablesFromSteps(ps: seq<Pass>, i: nat)
    requires i <= |ps|
    ensures forall t :: t in Chain(ps, i).tables ==> exists k :: i <= k < |ps| && t in ps[k].tables
    decreases |ps| - i
  {
    if i < |ps| && ps[i].failure.None? {
      ChainTablesFromSteps(ps, i + 1);
    }
  }

  /** Every query table an export sends carries a message of the buffer it
      exported, so a message that never entered the buffer is never reported. */
  lemma RunQueriesFromBuffer(buf: seq<Message>, explain: bool, db: Db)
    ensures forall t :: t in Run(buf, explain, db).tables && t.Query? ==> t.message in buf
  {
    var ps := Steps(buf, explain, db);
    ChainTablesFromSteps(ps, 0);
    forall t | t in Run(buf, explain, db).tables && t.Query? ensures t.message in buf {
      var k :| 0 <= k < |ps| && t in ps[k].tables;
      StepTablesBelong(buf, k, explain, db);
      var j :| 0 <= j < |ps[k].tables| && ps[k].tables[j] == t;
      assert TableOf(buf, k, explain, t);
    }
  }

  /** The indices from i on that hold PROFILE_END messages, ascending. */
  function ProfileEnds(buf: seq<Message>, i: nat): (ks: seq<nat>)
    requires i <= |buf|
    ensures forall j :: 0 <= j < |ks| ==> i <= ks[j] < |buf| && buf[ks[j]].level == ProfileEnd
    ensures forall j :: 0 < j < |ks| ==> ks[j - 1] < ks[j]
    ensures forall k :: i <= k < |buf| && buf[k].level == ProfileEnd ==> k in ks
    decreases |buf| - i
  {
    if i == |buf| then []
    else (if buf[i].level == ProfileEnd then [i] else []) + ProfileEnds(buf, i + 1)
  }

  /** With explain mode off, a message's body sends its query table if it is
      a PROFILE_END and nothing otherwise. */
  lemma StepExplainOff(buf: seq<Message>, k: nat, db: Db)
    requires 1 <= k < |buf|
    ensures Step(buf, k, false, db) == Pass(if buf[k].level == ProfileEnd then [QueryFor(buf, k)] else [], None)
  {
  }

  /** `tables` holds the query table of each PROFILE_END index in `ks`, in
      order, and nothing else. */
  predicate QueryTablesOf(buf: seq<Message>, ks: seq<nat>, tables: seq<Table>)
  {
    && |tables| == |ks|
    && forall j :: 0 <= j < |ks| ==> 1 <= ks[j] < |buf| && tables[j] == QueryFor(buf, ks[j])
  }

  lemma QueryTablesOfCons(buf: seq<Message>, k: nat, ks: seq<nat>, tables: seq<Table>)
    requires 1 <= k < |buf| && QueryTablesOf(buf, ks, tables)
    ensures QueryTablesOf(buf, [k] + ks, [QueryFor(buf, k)] + tables)
  {
    var ks', ts' := [k] + ks, [QueryFor(buf, k)] + tables;
    forall j | 0 <= j < |ks'| ensures 1 <= ks'[j] < |buf| && ts'[j] == QueryFor(buf, ks'[j]) {
      if j > 0 {
        assert ks'[j] == ks[j - 1] && ts'[j] == tables[j - 1];
      }
    }
  }

  /** With explain mode off, the pass from i reports the query tables of the
      PROFILE_END indices from i on, and nothing fails. */
  predicate ExplainOffReports(buf: seq<Message>, i: nat, db: Db)
    requires i <= |buf|
  {
    var r := Chain(Steps(buf, false, db), i);
    r.failure.None? && QueryTablesOf(buf, ProfileEnds(buf, i), r.tables)
  }

  /** One message further back: a PROFILE_END adds its query table in front,
      any other message adds nothing. */
  lemma ExplainOffTurn(buf: seq<Message>, i: nat, db: Db)
    requires i < |buf| && (i == 0 ==> buf[0].level != ProfileEnd)
    requires ExplainOffReports(buf, i + 1, db)
    ensures ExplainOffReports(buf, i, db)
  {
    var ps := Steps(buf, false, db);
    var rest := Chain(ps, i + 1);
    var ks := ProfileEnds(buf, i + 1);
    if buf[i].level == ProfileEnd {
      StepExplainOff(buf, i, db);
      assert ps[i] == Pass([QueryFor(buf, i)], None);
      assert ProfileEnds(buf, i) == [i] + ks;
      assert Chain(ps, i) == Pass([QueryFor(buf, i)] + rest.tables, None);
      QueryTablesOfCons(buf, i, ks, rest.tables);
    } else {
      assert ps[i] == Pass([], None);
      assert ProfileEnds(buf, i) == ks;
      assert [] + rest.tables == rest.tables;
      assert Chain(ps, i) == rest;
    }
  }

  /** With explain mode off and no PROFILE_END first in the buffer, the pass
      sends exactly one table per PROFILE_END message, in buffer order, and
      nothing for any other level. */
  lemma {:induction false} ExplainOffOneTablePerProfileEnd(buf: seq<Message>, i: nat, db: Db)
    requires i <= |buf|
    requires i == 0 && |buf| > 0 ==> buf[0].level != ProfileEnd
    ensures var r := Chain(Steps(buf, false, db), i);
            r.failure.None? && QueryTablesOf(buf, ProfileEnds(buf, i), r.tables)
    decreases |buf| - i
  {
    if i < |buf| {
      ExplainOffOneTablePerProfileEnd(buf, i + 1, db);
      ExplainOffTurn(buf, i, db);
    } else {
      assert ProfileEnds(buf, i) == [];
    }
  }

  /** A PROFILE_END message first in the buffer has no message before it:
      the pass raises before sending any per-message table. */
  lemma ProfileEndFirstReportsNothing(buf: seq<Message>, explain: bool, db: Db)
    requires |buf| > 0 && buf[0].level == ProfileEnd
    ensures Run(buf, explain, db) == Pass([], Some(UndefinedOffset(-1)))
  {
    assert Steps(buf, explain, db)[0] == Step(buf, 0, explain, db);
  }

  /** The table `t` belongs to the PROFILE_END message at index k: it is its
      query table, or the EXPLAIN table of its normalised text. */
  predicate TableOf(buf: seq<Message>, k: nat, explain: bool, t: Table)
  {
    && 1 <= k < |buf|
    && buf[k].level == ProfileEnd
    && (t == QueryFor(buf, k)
        || (ExplainAttempted(buf, k, explain) && t.Explain? && t.title == "EXPLAIN " + Normalize(buf[k].text)))
  }

  /** Every table a message's body sends belongs to that message, and an
      EXPLAIN table only to a message that triggers EXPLAIN. */
  lemma StepTablesBelong(buf: seq<Message>, k: nat, explain: bool, db: Db)
    requires k < |buf|
    ensures var ts := Step(buf, k, explain, db).tables;
            forall j :: 0 <= j < |ts| ==> TableOf(buf, k, explain, ts[j])
  {
    if buf[k].level == ProfileEnd && k >= 1 && explain && ContainsDml(Normalize(buf[k].text)) {
      var sql := "EXPLAIN " + Normalize(buf[k].text);
      match db(sql)
      case Err(e) =>
      case Ok(rows) =>
        if rows != [] {
          assert TableOf(buf, k, explain, Explain(sql, Columns(rows[0]), rows));
        }
    }
  }
}

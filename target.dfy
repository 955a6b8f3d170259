/** The log target itself: its buffer, the flush decision in collect, the
    re-entrancy guard around export, the memoised timings and the export
    that writes the summary and the per-query tables. */
module Target {
  import opened LogMessages
  import opened Text
  import opened ExportPass

  /** The host logger's timing correlation, a black box from here. */
  type Logger = seq<Message> -> seq<Timing>

  /** What one export saw: the buffer it reported and the value of
      exportInterval while it ran. */
  datatype ExportRecord = ExportRecord(buffer: seq<Message>, interval: int)

  /** Everything a target holds, including what it has sent to FirePHP
      (`sent`), the exception messages it has echoed (`echoed`), how many
      times it has asked the host logger for timings (`loggerCalls`) and a
      record of its exports (`exports`). */
  datatype TargetState = TargetState(
    profile: bool,
    explain: bool,
    exportInterval: int,
    messages: seq<Message>,
    timings: Option<seq<Timing>>,
    loggerCalls: nat,
    sent: seq<Table>,
    echoed: seq<Failure>,
    exports: seq<ExportRecord>)

  /** The timing cache is filled exactly when the logger has been asked,
      and it has been asked at most once. */
  predicate Consistent(s: TargetState)
  {
    s.loggerCalls == if s.timings.Some? then 1 else 0
  }

  /** Only messages the filter accepts are buffered, and every query table
      sent carries such a message. */
  predicate Admitted(s: TargetState, accepts: Message -> bool)
  {
    && (forall m :: m in s.messages ==> accepts(m))
    && (forall t :: t in s.sent && t.Query? ==> accepts(t.message))
  }

  /** A target as configured by default: profiling on, explain off, the
      host's default export interval of 1000, nothing buffered. */
  function Initial(): (s: TargetState)
    ensures Consistent(s) && s.profile && !s.explain && s.messages == []
    ensures s.timings.None? && s.loggerCalls == 0 && s.sent == [] && s.echoed == []
  {
    TargetState(true, false, 1000, [], None, 0, [], [], [])
  }

  /** The cached timings if there are any, else the logger's timings of
      `msgs`. */
  function CachedTimings(cache: Option<seq<Timing>>, logger: Logger, msgs: seq<Message>): seq<Timing>
  {
    if cache.Some? then cache.value else logger(msgs)
  }

  /** collect's flush test on the buffer size after appending. */
  predicate ShouldExport(count: nat, final: bool, interval: int)
    ensures ShouldExport(count, final, interval) ==> count > 0
    ensures final ==> (ShouldExport(count, final, interval) <==> count > 0)
    ensures !final && interval <= 0 ==> !ShouldExport(count, final, interval)
    ensures interval > 0 && count < interval ==> (ShouldExport(count, final, interval) <==> final && count > 0)
    ensures interval > 0 && count >= interval ==> ShouldExport(count, final, interval)
  {
    count > 0 && (final || (interval > 0 && count >= interval))
  }

  /** export: the summary, then the per-message pass; an exception raised in
      either is echoed and not propagated. */
  function ExportSpec(s: TargetState, logger: Logger, db: Db): (r: TargetState)
    ensures r.messages == s.messages && r.exportInterval == s.exportInterval
    ensures r.profile == s.profile && r.explain == s.explain
    ensures r.timings.Some? && (s.timings.Some? ==> r.timings == s.timings)
    ensures |r.sent| > |s.sent| && r.sent[..|s.sent|] == s.sent && r.sent[|s.sent|].Summary?
    ensures |s.echoed| <= |r.echoed| <= |s.echoed| + 1 && r.echoed[..|s.echoed|] == s.echoed
    ensures r.exports == s.exports + [ExportRecord(s.messages, s.exportInterval)]
  {
    var t := CachedTimings(s.timings, logger, s.messages);
    var run := Run(s.messages, s.explain, db);
    s.(timings := Some(t),
       loggerCalls := if s.timings.Some? then s.loggerCalls else s.loggerCalls + 1,
       sent := s.sent + [SummaryTable(t)] + run.tables,
       echoed := s.echoed + (if run.failure.Some? then [run.failure.value] else []),
       exports := s.exports + [ExportRecord(s.messages, s.exportInterval)])
  }

  /** collect: when profiling, append the accepted messages, and flush when
      the buffer is non-empty and either this is the final call or the
      export interval is positive and reached. The flush runs export with
      exportInterval at 0, restores it and empties the buffer. */
  function CollectSpec(s: TargetState, accepts: Message -> bool, logger: Logger,
                       incoming: seq<Message>, final: bool, db: Db): (r: TargetState)
    ensures r.exportInterval == s.exportInterval && r.profile == s.profile && r.explain == s.explain
    ensures |s.exports| <= |r.exports| <= |s.exports| + 1 && r.exports[..|s.exports|] == s.exports
    ensures |r.exports| > |s.exports| ==> r.messages == [] && r.exports[|s.exports|].interval == 0
    ensures |r.sent| >= |s.sent| && r.sent[..|s.sent|] == s.sent
  {
    if !s.profile then s
    else
      var buf := s.messages + FilterMessages(incoming, accepts);
      if ShouldExport(|buf|, final, s.exportInterval) then
        var e := ExportSpec(s.(messages := buf, exportInterval := 0), logger, db);
        e.(exportInterval := s.exportInterval, messages := [])
      else
        s.(messages := buf)
  }

  /** With profiling off, collect changes nothing and exports nothing. */
  lemma CollectWithoutProfileIsNoop(s: TargetState, accepts: Message -> bool, logger: Logger,
                                    incoming: seq<Message>, final: bool, db: Db)
    requires !s.profile
    ensures CollectSpec(s, accepts, logger, incoming, final, db) == s
  {
  }

  /** collect exports exactly when the flush test holds. An export sees the
      grown buffer and an export interval of 0, and leaves the buffer empty;
      without one, the accepted messages are appended in order and nothing
      is sent. Either way the export interval is restored. */
  lemma CollectExportsExactlyWhen(s: TargetState, accepts: Message -> bool, logger: Logger,
                                  incoming: seq<Message>, final: bool, db: Db)
    requires s.profile
    ensures var t := CollectSpec(s, accepts, logger, incoming, final, db);
            var buf := s.messages + FilterMessages(incoming, accepts);
            var flush := ShouldExport(|buf|, final, s.exportInterval);
            && t.exportInterval == s.exportInterval
            && t.profile == s.profile && t.explain == s.explain
            && (flush <==> |t.exports| == |s.exports| + 1)
            && (flush ==>
                  && t.messages == []
                  && t.exports == s.exports + [ExportRecord(buf, 0)]
                  && t.sent == s.sent + [SummaryTable(CachedTimings(s.timings, logger, buf))]
                                      + Run(buf, s.explain, db).tables)
            && (!flush ==>
                  t == s.(messages := buf))
  {
  }

  /** With a positive export interval, the buffer left by collect is always
      shorter than the interval. */
  lemma CollectKeepsBufferBelowInterval(s: TargetState, accepts: Message -> bool, logger: Logger,
                                        incoming: seq<Message>, final: bool, db: Db)
    requires s.profile && s.exportInterval > 0
    ensures |CollectSpec(s, accepts, logger, incoming, final, db).messages| < s.exportInterval
  {
  }

  /** collect keeps the timing cache consistent: the logger is asked once,
      on the first export, and never again. */
  lemma CollectKeepsConsistent(s: TargetState, accepts: Message -> bool, logger: Logger,
                               incoming: seq<Message>, final: bool, db: Db)
    requires Consistent(s)
    ensures var t := CollectSpec(s, accepts, logger, incoming, final, db);
            Consistent(t) && t.loggerCalls <= 1 && (s.timings.Some? ==> t.timings == s.timings)
  {
  }

  /** An export reports only buffered messages, so it keeps every sent query
      table's message one the filter accepted. */
  lemma ExportKeepsAdmitted(s: TargetState, accepts: Message -> bool, logger: Logger, db: Db)
    requires Admitted(s, accepts)
    ensures Admitted(ExportSpec(s, logger, db), accepts)
  {
    var t := ExportSpec(s, logger, db);
    var run := Run(s.messages, s.explain, db);
    RunQueriesFromBuffer(s.messages, s.explain, db);
    assert t.sent == s.sent + ([SummaryTable(CachedTimings(s.timings, logger, s.messages))] + run.tables);
  }

  /** A message the filter rejects is dropped by collect: it never enters the
      buffer and never appears in a query table sent to FirePHP. */
  lemma CollectKeepsAdmitted(s: TargetState, accepts: Message -> bool, logger: Logger,
                             incoming: seq<Message>, final: bool, db: Db)
    requires Admitted(s, accepts)
    ensures Admitted(CollectSpec(s, accepts, logger, incoming, final, db), accepts)
  {
    if s.profile {
      var buf := s.messages + FilterMessages(incoming, accepts);
      if ShouldExport(|buf|, final, s.exportInterval) {
        ExportKeepsAdmitted(s.(messages := buf, exportInterval := 0), accepts, logger, db);
      }
    }
  }

  /** A sequence of non-final collect calls, one per batch. */
  function CollectAll(s: TargetState, accepts: Message -> bool, logger: Logger,
                      batches: seq<seq<Message>>, db: Db): TargetState
    decreases |batches|
  {
    if batches == [] then s
    else CollectAll(CollectSpec(s, accepts, logger, batches[0], false, db), accepts, logger, batches[1..], db)
  }

  function Flatten(batches: seq<seq<Message>>): seq<Message>
  {
    if batches == [] then [] else batches[0] + Flatten(batches[1..])
  }

  /** With no positive export interval, a non-final collect never exports:
      it only appends the accepted messages. */
  lemma QuietCollectAppends(s: TargetState, accepts: Message -> bool, logger: Logger,
                            incoming: seq<Message>, db: Db)
    requires s.exportInterval <= 0
    ensures CollectSpec(s, accepts, logger, incoming, false, db)
         == if s.profile then s.(messages := s.messages + FilterMessages(incoming, accepts)) else s
  {
  }

  /** With no positive export interval, non-final collect calls never
      export: the buffer only grows, by the accepted messages of every batch
      in arrival order, and nothing else changes. */
  lemma {:induction false} QuietCollectsOnlyGrow(s: TargetState, accepts: Message -> bool, logger: Logger,
                                                 batches: seq<seq<Message>>, db: Db)
    requires s.exportInterval <= 0
    ensures CollectAll(s, accepts, logger, batches, db)
         == if s.profile then s.(messages := s.messages + FilterMessages(Flatten(batches), accepts)) else s
    decreases |batches|
  {
    if batches != [] {
      var s1 := CollectSpec(s, accepts, logger, batches[0], false, db);
      QuietCollectAppends(s, accepts, logger, batches[0], db);
      QuietCollectsOnlyGrow(s1, accepts, logger, batches[1..], db);
      if s.profile {
        var f0 := FilterMessages(batches[0], accepts);
        var fr := FilterMessages(Flatten(batches[1..]), accepts);
        FilterAppend(batches[0], Flatten(batches[1..]), accepts);
        assert s.messages + f0 + fr == s.messages + (f0 + fr);
      }
    }
  }

  /** The timings are computed on the first export only: a later export
      reports the first buffer's timings again, whatever it buffers. */
  lemma LaterSummaryRepeatsFirst(s: TargetState, logger: Logger, db1: Db, db2: Db, later: seq<Message>)
    requires s.timings.None?
    ensures var a := ExportSpec(s, logger, db1);
            var b := ExportSpec(a.(messages := later), logger, db2);
            && b.loggerCalls == s.loggerCalls + 1
            && b.timings == Some(logger(s.messages))
            && |a.sent| < |b.sent|
            && b.sent[|a.sent|] == SummaryTable(logger(s.messages))
  {
  }

  /** "SELECT 1" is its own normalised, upper-cased title. */
  lemma SelectOneTitle(text: string)
    requires text == "SELECT 1"
    ensures Upper(Normalize(text)) == text
  {
    assert forall i :: 0 <= i < |text| && IsSpace(text[i]) ==> i == 6;
    CanonicalIsOwnTitle(text);
  }

  /** A buffer of one opening message and the PROFILE_END after it, explain
      off: the pass sends that message's query table and nothing fails. */
  lemma PairRun(buf: seq<Message>, db: Db)
    requires |buf| == 2 && buf[0].level != ProfileEnd && buf[1].level == ProfileEnd
    ensures Run(buf, false, db) == Pass([QueryFor(buf, 1)], None)
  {
    var ps := Steps(buf, false, db);
    assert ps[0] == Pass([], None);
    assert ps[1] == Pass([QueryFor(buf, 1)], None);
    assert Chain(ps, 2) == Pass([], None);
    assert Chain(ps, 1) == Pass([QueryFor(buf, 1)] + [], None);
    assert Chain(ps, 0) == Pass([] + [QueryFor(buf, 1)], None);
  }

  /** The pass over a PROFILE_BEGIN at 10 s and its PROFILE_END for
      "SELECT 1" at 12 s, explain off: one query table, no exception. */
  lemma SelectOneRun(b: Message, m: Message, db: Db)
    requires b == Message("SELECT 1", ProfileBegin, "yii\\db\\Command::query", 10.0, [])
    requires m == Message("SELECT 1", ProfileEnd, "yii\\db\\Command::query", 12.0, [])
    ensures Run([b, m], false, db) == Pass([Query("SELECT 1", 2.0, m)], None)
  {
    PairRun([b, m], db);
    SelectOneTitle(m.text);
  }

  /** A worked case: with a message at 10 s buffered, a final collect of
      "SELECT 1" ending at 12 s, explain off, sends the summary and one
      query table titled "SELECT 1" with 2 s elapsed, and no EXPLAIN. */
  lemma SelectOneExample(s: TargetState, accepts: Message -> bool, logger: Logger, db: Db)
    requires s.profile && !s.explain
    requires s.messages == [Message("SELECT 1", ProfileBegin, "yii\\db\\Command::query", 10.0, [])]
    requires forall m :: accepts(m)
    ensures var m := Message("SELECT 1", ProfileEnd, "yii\\db\\Command::query", 12.0, []);
            var t := CollectSpec(s, accepts, logger, [m], true, db);
            && t.messages == []
            && t.echoed == s.echoed
            && t.sent == s.sent + [SummaryTable(CachedTimings(s.timings, logger, s.messages + [m])),
                                   Query("SELECT 1", 2.0, m)]
  {
    var m := Message("SELECT 1", ProfileEnd, "yii\\db\\Command::query", 12.0, []);
    FilterAcceptAll([m], accepts);
    SelectOneRun(s.messages[0], m, db);
    assert s.messages + [m] == [s.messages[0], m];
  }

  /** A FirePHP log target. The host collaborators are fixed at creation:
      the message filter configured by levels, categories and except, and
      the host logger's timing correlation. */
  class FirePHPTarget {
    var profile: bool
    var explain: bool
    var exportInterval: int
    var messages: seq<Message>
    var timings: Option<seq<Timing>>
    /** The tables sent to the FirePHP console, oldest first. */
    var sent: seq<Table>
    /** The messages of caught exceptions written to the output. */
    var echoed: seq<Failure>
    ghost var loggerCalls: nat
    ghost var exports: seq<ExportRecord>
    const accepts: Message -> bool
    const logger: Logger

    ghost function State(): TargetState
      reads this
    {
      TargetState(profile, explain, exportInterval, messages, timings, loggerCalls, sent, echoed, exports)
    }

    ghost predicate Valid()
      reads this
    {
      Consistent(State()) && Admitted(State(), accepts)
    }

    constructor (accepts: Message -> bool, logger: Logger)
      ensures Valid() && State() == Initial()
      ensures this.accepts == accepts && this.logger == logger
    {
      this.accepts := accepts;
      this.logger := logger;
      profile, explain, exportInterval := true, false, 1000;
      messages, timings := [], None;
      sent, echoed := [], [];
      loggerCalls, exports := 0, [];
    }

    method Collect(incoming: seq<Message>, final: bool, db: Db)
      requires Valid()
      modifies this
      ensures Valid()
      ensures State() == CollectSpec(old(State()), accepts, logger, incoming, final, db)
    {
      if profile {
        messages := messages + FilterMessages(incoming, accepts);
        var count := |messages|;
        if count > 0 && (final || (exportInterval > 0 && count >= exportInterval)) {
          var oldExportInterval := exportInterval;
          exportInterval := 0;
          Export(db);
          exportInterval := oldExportInterval;
          messages := [];
        }
      }
    }

    /** Sends the summary table for `msgs`. */
    method GetSummary(msgs: seq<Message>)
      requires Valid()
      modifies this`timings, this`loggerCalls, this`sent
      ensures Valid()
      ensures timings == Some(CachedTimings(old(timings), logger, msgs))
      ensures loggerCalls == if old(timings).Some? then old(loggerCalls) else old(loggerCalls) + 1
      ensures sent == old(sent) + [SummaryTable(CachedTimings(old(timings), logger, msgs))]
    {
      var t := CalculateTimings(msgs);
      var queryCount := |t|;
      var queryTime := GetTotalQueryTime(t);
      sent := sent + [Summary(queryCount, queryTime, t)];
    }

    /** The cached timings, asking the logger only while there are none. */
    method CalculateTimings(msgs: seq<Message>) returns (t: seq<Timing>)
      requires Valid()
      modifies this`timings, this`loggerCalls
      ensures Valid()
      ensures t == CachedTimings(old(timings), logger, msgs) && timings == Some(t)
      ensures old(timings).Some? ==> t == old(timings).value && loggerCalls == old(loggerCalls)
      ensures old(timings).None? ==> t == logger(msgs) && loggerCalls == old(loggerCalls) + 1
    {
      if timings.None? {
        timings := Some(logger(msgs));
        loggerCalls := loggerCalls + 1;
      }
      t := timings.value;
    }

    method GetTotalQueryTime(ts: seq<Timing>) returns (queryTime: real)
      ensures queryTime == SumDurations(ts)
    {
      queryTime := 0.0;
      var i := 0;
      while i < |ts|
        invariant 0 <= i <= |ts|
        invariant queryTime == SumDurations(ts[..i])
      {
        SumAppend(ts[..i], [ts[i]]);
        assert ts[..i + 1] == ts[..i] + [ts[i]];
        queryTime := queryTime + ts[i].duration;
        i := i + 1;
      }
      assert ts[..i] == ts;
    }

    method Export(db: Db)
      requires Valid()
      modifies this
      ensures Valid()
      ensures State() == ExportSpec(old(State()), logger, db)
    {
      ExportKeepsAdmitted(State(), accepts, logger, db);
      exports := exports + [ExportRecord(messages, exportInterval)];
      GetSummary(messages);
      var failure := ExportMessages(messages, explain, db);
      if failure.Some? {
        echoed := echoed + [failure.value];
      }
    }

    /** The loop over the buffer inside export's try block: each message's
        tables in turn, until the first exception, which is returned for the
        catch block. The tables are collected and appended to the sink once
        the loop ends, which leaves the same sink as sending them one by one. */
    method ExportMessages(buf: seq<Message>, explain: bool, db: Db) returns (failure: Option<Failure>)
      modifies this`sent
      ensures sent == old(sent) + Run(buf, explain, db).tables
      ensures failure == Run(buf, explain, db).failure
    {
      ghost var ps := Steps(buf, explain, db);
      var out: seq<Table> := [];
      failure := None;
      var key := 0;
      while key < |buf| && failure.None?
        invariant 0 <= key <= |buf| == |ps|
        invariant Progress(ps, key, out, failure)
        invariant sent == old(sent)
        decreases |buf| - key, failure.None?
      {
        var tables;
        tables, failure := ExportMessage(buf, key, explain, db);
        ProgressTurn(ps, key, out, Pass(tables, failure));
        out := out + tables;
        if failure.None? {
          key := key + 1;
        }
      }
      ProgressDone(ps, key, out, failure);
      sent := sent + out;
    }
  }
}

/** Log messages as the host logger hands them to a target, the timing records
    the host derives from them, and the host's message filter. */
module LogMessages {

  datatype Option<+T> = None | Some(value: T)

  datatype Result<+T, +E> = Ok(value: T) | Err(error: E)

  /** The logger's message levels. */
  datatype Level = Error | Warning | Info | Trace | Profile | ProfileBegin | ProfileEnd

  /** One logged message: text, level, category, timestamp (seconds) and the
      call-stack trace lines recorded with it. */
  datatype Message = Message(text: string, level: Level, category: string, timestamp: real, traces: seq<string>)

  /** One profiled span as the host logger's timing correlation reports it. */
  datatype Timing = Timing(info: string, category: string, timestamp: real, trace: seq<string>, nesting: nat, duration: real)

  /** The messages of `ms` that `accepts` keeps, in their original order.
      `accepts` stands for the host's level, category and except filters. */
  function FilterMessages(ms: seq<Message>, accepts: Message -> bool): (r: seq<Message>)
    ensures |r| <= |ms|
    ensures forall m :: m in r <==> m in ms && accepts(m)
  {
    if ms == [] then []
    else if accepts(ms[0]) then [ms[0]] + FilterMessages(ms[1..], accepts)
    else FilterMessages(ms[1..], accepts)
  }

  /** Filtering two batches one after the other keeps both halves in order:
      the filter works message by message. */
  lemma {:induction false} FilterAppend(a: seq<Message>, b: seq<Message>, accepts: Message -> bool)
    ensures FilterMessages(a + b, accepts) == FilterMessages(a, accepts) + FilterMessages(b, accepts)
  {
    if a == [] {
      assert a + b == b;
    } else {
      assert (a + b)[1..] == a[1..] + b;
      FilterAppend(a[1..], b, accepts);
    }
  }

  /** A filter that keeps everything returns its input unchanged. */
  lemma {:induction false} FilterAcceptAll(ms: seq<Message>, accepts: Message -> bool)
    requires forall m :: m in ms ==> accepts(m)
    ensures FilterMessages(ms, accepts) == ms
  {
    if ms != [] {
      assert forall m :: m in ms[1..] ==> m in ms;
      FilterAcceptAll(ms[1..], accepts);
    }
  }

  /** The sum of the `duration` fields of the timing records. */
  function SumDurations(ts: seq<Timing>): (r: real)
    ensures (forall j :: 0 <= j < |ts| ==> ts[j].duration >= 0.0) ==> r >= 0.0
  {
    if ts == [] then 0.0 else ts[0].duration + SumDurations(ts[1..])
  }

  /** Summing is additive over concatenation. */
  lemma {:induction false} SumAppend(a: seq<Timing>, b: seq<Timing>)
    ensures SumDurations(a + b) == SumDurations(a) + SumDurations(b)
  {
    if a == [] {
      assert a + b == b;
    } else {
      assert (a + b)[1..] == a[1..] + b;
      SumAppend(a[1..], b);
    }
  }

  /** With no negative duration, the sum bounds every single duration. */
  lemma {:induction false} SumBoundsEach(ts: seq<Timing>, k: nat)
    requires k < |ts|
    requires forall j :: 0 <= j < |ts| ==> ts[j].duration >= 0.0
    ensures 0.0 <= ts[k].duration <= SumDurations(ts)
  {
    assert forall j :: 0 <= j < |ts[1..]| ==> ts[1..][j].duration >= 0.0 by {
      forall j | 0 <= j < |ts[1..]| ensures ts[1..][j].duration >= 0.0 {
        assert ts[1..][j] == ts[j + 1];
      }
    }
    if k > 0 {
      SumBoundsEach(ts[1..], k - 1);
    }
  }

  /** With no negative duration, the sum bounds every duration at once. */
  lemma SumBoundsAll(ts: seq<Timing>)
    ensures (forall j :: 0 <= j < |ts| ==> ts[j].duration >= 0.0) ==>
      forall j :: 0 <= j < |ts| ==> ts[j].duration <= SumDurations(ts)
  {
    if forall j :: 0 <= j < |ts| ==> ts[j].duration >= 0.0 {
      forall j | 0 <= j < |ts| ensures ts[j].duration <= SumDurations(ts) {
        SumBoundsEach(ts, j);
      }
    }
  }
}

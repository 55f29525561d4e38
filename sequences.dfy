/** Sliding-window extraction of fixed-length sample sequences from telemetry
    runs, as fed to the sequence model: `extract_sequences` and the row-building
    part of `_normalise_samples`. */
module Sequences {
  import opened Wrappers
  import opened Telemetry
  import Arith

  const DefaultKeys: seq<string> :=
    ["cpu_percent", "memory_rss", "open_files", "socket_count", "read_bytes", "write_bytes"]
  const DefaultWindow: nat := 20
  const DefaultStride: int := 10

  datatype SequenceExample = SequenceExample(
    runId: string,
    exampleLabel: string,
    startIndex: nat,
    features: seq<seq<real>>,
    timestamps: seq<Value>)

  /** The two ValueErrors extraction can raise: numpy's reduction over the
      empty matrix of a run without samples, and `range` with step 0. */
  datatype ExtractError = ZeroSizeArray | ZeroStride

  // ---------------------------------------------------------------------------
  // Rows

  /** One matrix cell: the sample's value for `key` as a float, 0.0 when the key
      is missing or its value does not convert. */
  function Cell(sample: Sample, key: string): real {
    if key in sample then ToFloat(sample[key]).GetOr(0.0) else 0.0
  }

  function Row(sample: Sample, keys: seq<string>): seq<real> {
    seq(|keys|, j requires 0 <= j < |keys| => Cell(sample, keys[j]))
  }

  /** The unscaled feature matrix: one row per sample, one column per key. */
  function Rows(samples: seq<Sample>, keys: seq<string>): seq<seq<real>> {
    seq(|samples|, i requires 0 <= i < |samples| => Row(samples[i], keys))
  }

  /** The row-building loops of `_normalise_samples`. numpy's min/max over an
      empty matrix raise, so a run without samples is an error. */
  method NormaliseSamples(samples: seq<Sample>, keys: seq<string>)
    returns (r: Result<seq<seq<real>>, ExtractError>)
    ensures r.Failure? <==> samples == []
    ensures r.Failure? ==> r.error == ZeroSizeArray
    ensures r.Success? ==> r.value == Rows(samples, keys)
    ensures r.Success? ==> |r.value| == |samples|
    ensures r.Success? ==> forall i :: 0 <= i < |samples| ==> |r.value[i]| == |keys|
    ensures r.Success? ==> forall i, j :: 0 <= i < |samples| && 0 <= j < |keys| ==>
      r.value[i][j] == (if keys[j] in samples[i] && ToFloat(samples[i][keys[j]]).Some?
                        then ToFloat(samples[i][keys[j]]).value else 0.0)
  {
    var matrix: seq<seq<real>> := [];
    for i := 0 to |samples|
      invariant |matrix| == i
      invariant forall m :: 0 <= m < i ==> matrix[m] == Row(samples[m], keys)
    {
      var row: seq<real> := [];
      for j := 0 to |keys|
        invariant |row| == j
        invariant forall c :: 0 <= c < j ==> row[c] == Cell(samples[i], keys[c])
      {
        var key := keys[j];
        if key in samples[i] && ToFloat(samples[i][key]).Some? {
          row := row + [ToFloat(samples[i][key]).value];
        } else {
          row := row + [0.0];
        }
      }
      matrix := matrix + [row];
    }
    if samples == [] {
      return Failure(ZeroSizeArray);
    }
    return Success(matrix);
  }

  // ---------------------------------------------------------------------------
  // Labels and timestamps

  function LowerChar(c: char): char {
    if 'A' <= c <= 'Z' then ((c as int) + 32) as char else c
  }

  /** `str.lower` on ASCII letters. */
  function Lower(s: string): (r: string)
    ensures |r| == |s|
    ensures forall i :: 0 <= i < |r| ==> !('A' <= r[i] <= 'Z')
    ensures forall i :: 0 <= i < |r| && !('A' <= s[i] <= 'Z') ==> r[i] == s[i]
    ensures forall i :: 0 <= i < |r| && 'A' <= s[i] <= 'Z' ==>
      'a' <= r[i] <= 'z' && r[i] as int - 'a' as int == s[i] as int - 'A' as int
  {
    seq(|s|, i requires 0 <= i < |s| => LowerChar(s[i]))
  }

  /** `(run.runLabel or "unknown").lower()`: both a missing and an empty label
      are falsy and become "unknown". */
  function RunLabel(given: Option<string>): string {
    if given.None? || given.value == "" then "unknown" else Lower(given.value)
  }

  /** `sample.get("timestamp", "")`. */
  function Timestamp(sample: Sample): Value {
    if "timestamp" in sample then sample["timestamp"] else EmptyText
  }

  function Timestamps(samples: seq<Sample>): seq<Value> {
    seq(|samples|, i requires 0 <= i < |samples| => Timestamp(samples[i]))
  }

  // ---------------------------------------------------------------------------
  // Windows

  /** The examples for `for start in range(from, len(rows) - window + 1, stride)`. */
  function WindowsFrom(runId: string, tag: string, rows: seq<seq<real>>, ts: seq<Value>,
                       from: nat, window: nat, stride: nat): seq<SequenceExample>
    requires stride > 0 && |rows| == |ts|
    decreases |rows| - from
  {
    if from + window > |rows| then []
    else [SequenceExample(runId, tag, from, rows[from..from + window], ts[from..from + window])]
         + WindowsFrom(runId, tag, rows, ts, from + stride, window, stride)
  }

  /** The sequences of one run, or the error it raises. */
  function RunWindows(run: TelemetryRun, window: nat, stride: int, keys: seq<string>)
    : Result<seq<SequenceExample>, ExtractError>
  {
    if |run.samples| < window then Success([])
    else if run.samples == [] then Failure(ZeroSizeArray)
    else if stride == 0 then Failure(ZeroStride)
    else if stride < 0 then Success([])
    else Success(WindowsFrom(run.runId, RunLabel(run.runLabel), Rows(run.samples, keys),
                             Timestamps(run.samples), 0, window, stride))
  }

  /** Prepend `a`'s outcome to `b`'s: the first error raised wins. */
  function Then(a: Result<seq<SequenceExample>, ExtractError>, b: Result<seq<SequenceExample>, ExtractError>)
    : Result<seq<SequenceExample>, ExtractError>
  {
    if a.Failure? then a else if b.Failure? then b else Success(a.value + b.value)
  }

  /** `extract_sequences`: the runs' sequences in input order. */
  function Extract(runs: seq<TelemetryRun>, window: nat, stride: int, keys: seq<string>)
    : Result<seq<SequenceExample>, ExtractError>
  {
    if runs == [] then Success([])
    else Then(Extract(runs[..|runs| - 1], window, stride, keys),
              RunWindows(runs[|runs| - 1], window, stride, keys))
  }

  method ExtractSequences(runs: seq<TelemetryRun>, window: nat, stride: int, keys: seq<string>)
    returns (r: Result<seq<SequenceExample>, ExtractError>)
    ensures r == Extract(runs, window, stride, keys)
  {
    var sequences: seq<SequenceExample> := [];
    for i := 0 to |runs|
      invariant Extract(runs[..i], window, stride, keys) == Success(sequences)
    {
      var run := runs[i];
      assert runs[..i + 1][..i] == runs[..i] && runs[..i + 1][i] == run;
      var samples := run.samples;
      if |samples| < window {
        assert sequences + [] == sequences;
      } else {
        var cleaned := NormaliseSamples(samples, keys);
        if cleaned.Failure? {
          FailureIsFinal(runs, i + 1, window, stride, keys);
          return Failure(cleaned.error);
        }
        var rows := cleaned.value;
        var ts := Timestamps(samples);
        var tag := RunLabel(run.runLabel);
        if stride == 0 {
          FailureIsFinal(runs, i + 1, window, stride, keys);
          return Failure(ZeroStride);
        }
        if stride > 0 {
          var done := sequences;
          var start: nat := 0;
          while start + window <= |rows|
            invariant sequences + WindowsFrom(run.runId, tag, rows, ts, start, window, stride)
                      == done + WindowsFrom(run.runId, tag, rows, ts, 0, window, stride)
            decreases |rows| - start
          {
            sequences := sequences + [SequenceExample(run.runId, tag, start,
                                                      rows[start..start + window], ts[start..start + window])];
            start := start + stride;
          }
          assert sequences == done + RunWindows(run, window, stride, keys).value;
        }
      }
    }
    assert runs[..|runs|] == runs;
    return Success(sequences);
  }

  /** Once a prefix of the runs raises, the whole extraction raises the same error. */
  lemma FailureIsFinal(runs: seq<TelemetryRun>, i: nat, window: nat, stride: int, keys: seq<string>)
    requires i <= |runs| && Extract(runs[..i], window, stride, keys).Failure?
    ensures Extract(runs, window, stride, keys) == Extract(runs[..i], window, stride, keys)
  {
    assert runs == runs[..i] + runs[i..];
    ExtractAppend(runs[..i], runs[i..], window, stride, keys);
  }

  // ---------------------------------------------------------------------------
  // Properties

  /** The windows start at from, from + stride, … as long as a whole window
      fits in n rows. */
  ghost predicate StartsFit(ws: seq<SequenceExample>, from: nat, window: nat, stride: nat, n: nat) {
    forall m: nat :: m < |ws| <==> from + m * stride + window <= n
  }

  /** Window k holds the rows and timestamps of the samples it covers. */
  ghost predicate WindowsHold(ws: seq<SequenceExample>, runId: string, tag: string, rows: seq<seq<real>>,
                              ts: seq<Value>, from: nat, window: nat, stride: nat)
    requires |rows| == |ts| && StartsFit(ws, from, window, stride, |rows|)
  {
    forall k :: 0 <= k < |ws| ==>
      ws[k] == SequenceExample(runId, tag, from + k * stride,
                               rows[from + k * stride..from + k * stride + window],
                               ts[from + k * stride..from + k * stride + window])
  }

  /** The windows from `from` on are the starts from + m·stride that leave
      room for a whole window, and window k holds the rows and timestamps of
      the samples it covers. */
  lemma {:induction false} WindowsFromShape(runId: string, tag: string, rows: seq<seq<real>>, ts: seq<Value>,
                                            from: nat, window: nat, stride: nat)
    requires stride > 0 && |rows| == |ts|
    ensures var ws := WindowsFrom(runId, tag, rows, ts, from, window, stride);
      StartsFit(ws, from, window, stride, |rows|) && WindowsHold(ws, runId, tag, rows, ts, from, window, stride)
    decreases |rows| - from
  {
    var ws := WindowsFrom(runId, tag, rows, ts, from, window, stride);
    if from + window <= |rows| {
      WindowsFromShape(runId, tag, rows, ts, from + stride, window, stride);
      var rest := WindowsFrom(runId, tag, rows, ts, from + stride, window, stride);
      assert ws == [ws[0]] + rest;
      ConsStartsFit(ws, rest, from, window, stride, |rows|);
      ConsWindowsHold(ws, rest, runId, tag, rows, ts, from, window, stride);
    } else {
      forall m: nat
        ensures !(from + m * stride + window <= |rows|)
      {
        assert m * stride >= 0;
      }
    }
  }

  lemma ConsStartsFit(ws: seq<SequenceExample>, rest: seq<SequenceExample>, from: nat, window: nat, stride: nat, n: nat)
    requires from + window <= n && ws != [] && ws[1..] == rest
    requires StartsFit(rest, from + stride, window, stride, n)
    ensures StartsFit(ws, from, window, stride, n)
  {
    forall m: nat | m >= 1
      ensures m < |ws| <==> from + m * stride + window <= n
    {
      assert (from + stride) + (m - 1) * stride == from + m * stride;
    }
  }

  lemma ConsWindowsHold(ws: seq<SequenceExample>, rest: seq<SequenceExample>, runId: string, tag: string,
                        rows: seq<seq<real>>, ts: seq<Value>, from: nat, window: nat, stride: nat)
    requires |rows| == |ts| && from + window <= |rows| && ws != [] && ws[1..] == rest
    requires StartsFit(ws, from, window, stride, |rows|) && StartsFit(rest, from + stride, window, stride, |rows|)
    requires ws[0] == SequenceExample(runId, tag, from, rows[from..from + window], ts[from..from + window])
    requires WindowsHold(rest, runId, tag, rows, ts, from + stride, window, stride)
    ensures WindowsHold(ws, runId, tag, rows, ts, from, window, stride)
  {
    forall k | 1 <= k < |ws|
      ensures ws[k] == SequenceExample(runId, tag, from + k * stride,
                                       rows[from + k * stride..from + k * stride + window],
                                       ts[from + k * stride..from + k * stride + window])
    {
      var s := from + k * stride;
      assert (from + stride) + (k - 1) * stride == s by {
        assert (k - 1) * stride == k * stride - stride;
      }
      assert ws[k] == rest[k - 1];
    }
  }

  /** With a positive stride, a run of n ≥ window samples yields exactly the
      windows starting at 0, stride, 2·stride, …, up to n − window — that is
      (n − window) / stride + 1 of them, in strictly increasing order — each
      holding the rows and timestamps of samples [start, start + window) and the
      run's id and label. */
  lemma RunWindowsShape(run: TelemetryRun, window: nat, stride: int, keys: seq<string>)
    requires stride > 0 && window <= |run.samples| && run.samples != []
    ensures RunWindows(run, window, stride, keys).Success?
    ensures var ws := RunWindows(run, window, stride, keys).value;
      var n := |run.samples|;
      && |ws| == (n - window) / stride + 1
      && (forall m: nat :: m < |ws| <==> m * stride <= n - window)
      && (forall k :: 0 <= k < |ws| ==> ws[k].startIndex == k * stride)
      && (forall k1, k2 :: 0 <= k1 < k2 < |ws| ==> ws[k1].startIndex < ws[k2].startIndex)
      && forall k :: 0 <= k < |ws| ==>
           var s := ws[k].startIndex;
           && s + window <= n
           && ws[k].runId == run.runId
           && ws[k].exampleLabel == RunLabel(run.runLabel)
           && |ws[k].features| == window && |ws[k].timestamps| == window
           && ws[k].features == Rows(run.samples, keys)[s..s + window]
           && ws[k].timestamps == Timestamps(run.samples)[s..s + window]
  {
    var n := |run.samples|;
    var rows, ts := Rows(run.samples, keys), Timestamps(run.samples);
    WindowsFromShape(run.runId, RunLabel(run.runLabel), rows, ts, 0, window, stride);
    var ws := RunWindows(run, window, stride, keys).value;
    var c := |ws|;
    assert 0 < c;
    assert (c - 1) * stride <= n - window;
    assert !(c * stride <= n - window);
    assert c * stride == (c - 1) * stride + stride;
    Arith.DivUnique(n - window, stride, c - 1, n - window - (c - 1) * stride);
    forall k1, k2 | 0 <= k1 < k2 < |ws|
      ensures ws[k1].startIndex < ws[k2].startIndex
    {
      Arith.MulMonotone(k1, k2, stride);
    }
  }

  /** A run with fewer samples than the window contributes nothing. */
  lemma ShortRunYieldsNothing(run: TelemetryRun, window: nat, stride: int, keys: seq<string>)
    requires |run.samples| < window
    ensures Extract([run], window, stride, keys) == Success([])
  {
    var none: seq<SequenceExample> := [];
    assert [run][..0] == [] && none + none == none;
  }

  lemma ThenAssoc(x: Result<seq<SequenceExample>, ExtractError>, y: Result<seq<SequenceExample>, ExtractError>,
                  z: Result<seq<SequenceExample>, ExtractError>)
    ensures Then(Then(x, y), z) == Then(x, Then(y, z))
  {
    if x.Success? && y.Success? && z.Success? {
      assert x.value + y.value + z.value == x.value + (y.value + z.value);
    }
  }

  /** Extraction over concatenated runs is extraction over each part, in order;
      the first error raised wins. */
  lemma {:induction false} ExtractAppend(a: seq<TelemetryRun>, b: seq<TelemetryRun>, window: nat, stride: int, keys: seq<string>)
    ensures Extract(a + b, window, stride, keys)
            == Then(Extract(a, window, stride, keys), Extract(b, window, stride, keys))
    decreases |b|
  {
    if b == [] {
      assert a + b == a;
      var e := Extract(a, window, stride, keys);
      if e.Success? {
        assert e.value + [] == e.value;
      }
    } else {
      var b', last := b[..|b| - 1], b[|b| - 1];
      assert (a + b)[..|a + b| - 1] == a + b';
      assert (a + b)[|a + b| - 1] == last;
      ExtractAppend(a, b', window, stride, keys);
      ThenAssoc(Extract(a, window, stride, keys), Extract(b', window, stride, keys),
                RunWindows(last, window, stride, keys));
    }
  }

  /** Inserting a run shorter than the window anywhere changes nothing. */
  lemma ShortRunSkipped(before: seq<TelemetryRun>, run: TelemetryRun, after: seq<TelemetryRun>,
                        window: nat, stride: int, keys: seq<string>)
    requires |run.samples| < window
    ensures Extract(before + [run] + after, window, stride, keys) == Extract(before + after, window, stride, keys)
  {
    ExtractAppend(before + [run], after, window, stride, keys);
    ExtractAppend(before, [run], window, stride, keys);
    ShortRunYieldsNothing(run, window, stride, keys);
    ExtractAppend(before, after, window, stride, keys);
    var e := Extract(before, window, stride, keys);
    if e.Success? {
      assert e.value + [] == e.value;
    }
  }

  /** Extraction succeeds exactly when no run raises. */
  lemma {:induction false} ExtractSucceedsIff(runs: seq<TelemetryRun>, window: nat, stride: int, keys: seq<string>)
    ensures Extract(runs, window, stride, keys).Success?
            <==> forall i :: 0 <= i < |runs| ==> RunWindows(runs[i], window, stride, keys).Success?
  {
    if runs != [] {
      var init := runs[..|runs| - 1];
      ExtractSucceedsIff(init, window, stride, keys);
      assert forall i :: 0 <= i < |init| ==> init[i] == runs[i];
    }
  }

  /** A run raises exactly when it is long enough to be windowed and either has
      no samples (window 0) or the stride is 0. */
  lemma RunFailsIff(run: TelemetryRun, window: nat, stride: int, keys: seq<string>)
    ensures RunWindows(run, window, stride, keys).Failure?
            <==> |run.samples| >= window && (run.samples == [] || stride == 0)
  {
  }

  /** The label of every sequence: "unknown" for a missing or empty label,
      otherwise the label lower-cased: each upper-case letter becomes its
      lower-case letter and every other character is kept. */
  lemma RunLabelDefaults(given: Option<string>)
    ensures given.None? || given == Some("") ==> RunLabel(given) == "unknown"
    ensures given.Some? && given.value != "" ==>
      && RunLabel(given) == Lower(given.value)
      && |RunLabel(given)| == |given.value|
      && (forall i :: 0 <= i < |given.value| ==> !('A' <= RunLabel(given)[i] <= 'Z'))
      && (forall i :: 0 <= i < |given.value| && !('A' <= given.value[i] <= 'Z') ==>
            RunLabel(given)[i] == given.value[i])
      && (forall i :: 0 <= i < |given.value| && 'A' <= given.value[i] <= 'Z' ==>
            RunLabel(given)[i] as int - 'a' as int == given.value[i] as int - 'A' as int)
  {
  }

  /** A sample without a timestamp is stamped with the empty string "". */
  lemma MissingTimestampIsEmpty(samples: seq<Sample>, i: nat)
    requires i < |samples| && "timestamp" !in samples[i]
    ensures Timestamps(samples)[i] == Text("", None)
  {
  }
}

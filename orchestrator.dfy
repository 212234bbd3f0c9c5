/** The segment orchestrator of `main`: tokenize every line, push the ids into
    a buffer, dispatch a segment whenever the buffer holds `segSize` tokens,
    flush the remainder at the end of the stream, accumulate every output row
    into a column sum and a row count, and report the average (or that no
    token was processed). */
module Orchestrator {
  import opened Tokenizer
  import opened Attention
  import opened Segmentation
  import opened Embedding

  datatype Error = EmbedDimNotMultipleOfThree

  datatype Result<T> = Ok(value: T) | Err(error: Error)

  /** What `main` reports at the end: the row count and the average of every
      output row, or that the stream held no token. */
  datatype Report = NoTokensProcessed | Processed(count: nat, average: seq<real>)

  /** The token stream of a text: the ids of each line, line after line. */
  function Stream(lines: seq<string>, hash: string -> nat): seq<nat> {
    if lines == [] then []
    else Stream(lines[..|lines| - 1], hash) + TokenIds(lines[|lines| - 1], hash)
  }

  /** The number of maximal non-whitespace runs over all lines. */
  function TotalRuns(lines: seq<string>): nat {
    if lines == [] then 0
    else TotalRuns(lines[..|lines| - 1]) + RunStarts(lines[|lines| - 1], true)
  }

  /** The column sums of every output row the engine produces for `tokens`:
      the embedding rows on the CPU path, zero rows on the GPU path. */
  function ColumnTotals(tokens: seq<nat>, table: seq<seq<real>>, d: nat, gpu: bool): (r: seq<real>)
    requires WellShaped(table, d)
  {
    seq(d, c requires 0 <= c < d => if gpu then 0.0 else EmbedSum(tokens, table, d, c))
  }

  /** The state of the streaming loop after the tokens `consumed` were pushed:
      the dispatched segments are full and, followed by the buffer, give back
      what was consumed; the buffer is shorter than a segment; the count and
      the sums cover exactly the dispatched tokens. */
  ghost predicate Streaming(consumed: seq<nat>, dispatched: seq<seq<nat>>, buffer: seq<nat>, segSize: nat,
                            count: nat, sums: seq<real>, table: seq<seq<real>>, d: nat, gpu: bool)
    requires WellShaped(table, d)
  {
    Flatten(dispatched) + buffer == consumed
    && AllOfSize(dispatched, segSize)
    && (segSize > 0 ==> |buffer| < segSize)
    && (segSize == 0 ==> |dispatched| == |consumed|)
    && count == |Flatten(dispatched)|
    && sums == ColumnTotals(Flatten(dispatched), table, d, gpu)
  }

  /** The engine, when there is one, is valid and works in dimension `d`. */
  ghost predicate EngineFits(engine: InfiniAttentionGpu?, d: nat)
    reads engine
  {
    engine != null ==> engine.Valid() && engine.dModel == d
  }

  // ---------------------------------------------------------------------
  // Facts about the stream

  /** The row count `main` reaches is the number of words over all lines. */
  lemma {:induction false} StreamLength(lines: seq<string>, hash: string -> nat)
    ensures |Stream(lines, hash)| == TotalRuns(lines)
  {
    if lines != [] {
      StreamLength(lines[..|lines| - 1], hash);
      WordCountIsRunCount(lines[|lines| - 1]);
    }
  }

  lemma FlattenSnoc(segs: seq<seq<nat>>, seg: seq<nat>)
    ensures Flatten(segs + [seg]) == Flatten(segs) + seg
  {
    FlattenAppend(segs, [seg]);
    assert Flatten([seg]) == seg + Flatten([]);
  }

  /** Adding a segment's column sums to the totals so far gives the totals of
      the longer stretch of the stream. */
  lemma TotalsSnoc(tokens: seq<nat>, seg: seq<nat>, table: seq<seq<real>>, d: nat, gpu: bool, c: nat)
    requires WellShaped(table, d) && c < d
    ensures ColumnTotals(tokens + seg, table, d, gpu)[c]
         == ColumnTotals(tokens, table, d, gpu)[c] + (if gpu then 0.0 else EmbedSum(seg, table, d, c))
  {
    EmbedSumAppend(tokens, seg, table, d, c);
  }

  // ---------------------------------------------------------------------
  // The code

  /** The inner loop of the gather: copy `row` into `a` from offset `base`. */
  method CopyRow(a: array<real>, base: nat, row: seq<real>)
    requires base + |row| <= a.Length
    modifies a
    ensures a[..base] == old(a[..base])
    ensures a[base .. base + |row|] == row
    ensures a[base + |row|..] == old(a[base + |row|..])
  {
    for c := 0 to |row|
      invariant a[..base] == old(a[..base])
      invariant a[base .. base + c] == row[..c]
      invariant a[base + c..] == old(a[base + c..])
    {
      a[base + c] := row[c];
    }
  }

  /** The embedding gather of `process_segment_gpu` and `process_segment_cpu`:
      an `n x d` row-major array whose row `i` is the table row of
      `tokens[i] % vocab`, filled in place by two index loops. */
  method Gather(tokens: seq<nat>, table: seq<seq<real>>, d: nat) returns (x: seq<real>)
    requires WellShaped(table, d)
    ensures |x| == |tokens| * d
    ensures x == Gathered(tokens, table, d)
  {
    var n := |tokens|;
    var a := new real[n * d](_ => 0.0);
    for i := 0 to n
      invariant i * d <= n * d
      invariant a[..i * d] == Gathered(tokens[..i], table, d)
    {
      var row := table[tokens[i] % |table|];
      var base := i * d;
      MulMonotone(i + 1, n, d);
      assert base + d == (i + 1) * d;
      CopyRow(a, base, row);
      assert a[..base + d] == a[..base] + a[base .. base + d];
      assert tokens[..i + 1][..i] == tokens[..i];
    }
    assert tokens[..n] == tokens;
    x := a[..];
  }

  /** `process_segment_cpu`: the segment's embeddings, returned as they are. */
  method ProcessSegmentCpu(tokens: seq<nat>, table: seq<seq<real>>, d: nat) returns (out: seq<real>)
    requires WellShaped(table, d)
    ensures |out| == |tokens| * d
    ensures out == Gathered(tokens, table, d)
  {
    out := Gather(tokens, table, d);
  }

  /** `process_segment_gpu`: gather the embeddings, then run the engine's
      forward pass on them. */
  method ProcessSegmentGpu(tokens: seq<nat>, table: seq<seq<real>>, engine: InfiniAttentionGpu)
    returns (out: seq<real>)
    requires engine.Valid() && WellShaped(table, engine.dModel)
    ensures |out| == |tokens| * engine.dModel && AllZero(out)
  {
    var x := Gather(tokens, table, engine.dModel);
    ghost var buffers, visited;
    out, buffers, visited := engine.Forward(x, |tokens|);
  }

  /** The accumulation loops: add column `c` of each of the first `rows` rows
      of `out` to `sum[c]`, counting one per row. */
  method AccumulateRows(sum: array<real>, out: seq<real>, rows: nat, d: nat, count: nat) returns (newCount: nat)
    requires sum.Length == d && rows * d <= |out|
    modifies sum
    ensures newCount == count + rows
    ensures forall c :: 0 <= c < d ==> sum[c] == old(sum[c]) + ColumnSum(out, rows, d, c)
  {
    newCount := count;
    for row := 0 to rows
      invariant newCount == count + row
      invariant row * d <= rows * d
      invariant forall c :: 0 <= c < d ==> sum[c] == old(sum[c]) + ColumnSum(out, row, d, c)
    {
      MulMonotone(row + 1, rows, d);
      for c := 0 to d
        invariant forall c' :: 0 <= c' < c ==> sum[c'] == old(sum[c']) + ColumnSum(out, row + 1, d, c')
        invariant forall c' :: c <= c' < d ==> sum[c'] == old(sum[c']) + ColumnSum(out, row, d, c')
      {
        RowIndexInBounds(row, c, rows, d);
        sum[c] := sum[c] + out[row * d + c];
      }
      newCount := newCount + 1;
    }
  }

  /** Run one segment through the CPU path or the engine and accumulate its
      output rows. */
  method DispatchSegment(seg: seq<nat>, table: seq<seq<real>>, d: nat, engine: InfiniAttentionGpu?,
                         sum: array<real>, count: nat) returns (newCount: nat)
    requires WellShaped(table, d) && EngineFits(engine, d) && sum.Length == d
    modifies sum
    ensures newCount == count + |seg|
    ensures forall c :: 0 <= c < d ==>
              sum[c] == old(sum[c]) + (if engine != null then 0.0 else EmbedSum(seg, table, d, c))
  {
    var out;
    if engine != null {
      out := ProcessSegmentGpu(seg, table, engine);
    } else {
      out := ProcessSegmentCpu(seg, table, d);
    }
    newCount := AccumulateRows(sum, out, |seg|, d, count);
    forall c | 0 <= c < d
      ensures ColumnSum(out, |seg|, d, c) == if engine != null then 0.0 else EmbedSum(seg, table, d, c)
    {
      if engine != null {
        ColumnSumZerosUpTo(out, |seg|, d, c);
      } else {
        assert out == Gathered(seg, table, d);
        ColumnSumGathered(seg, table, d, c);
      }
    }
  }

  /** One step of the streaming loop: push the token; if the buffer now holds
      `segSize` tokens, dispatch its first `segSize` and drain them. */
  method PushToken(token: nat, buffer: seq<nat>, dispatched: seq<seq<nat>>, ghost consumed: seq<nat>,
                   segSize: nat, table: seq<seq<real>>, d: nat, engine: InfiniAttentionGpu?,
                   sum: array<real>, count: nat)
    returns (newBuffer: seq<nat>, newDispatched: seq<seq<nat>>, newCount: nat)
    requires WellShaped(table, d) && EngineFits(engine, d) && sum.Length == d
    requires Streaming(consumed, dispatched, buffer, segSize, count, sum[..], table, d, engine != null)
    modifies sum
    ensures Streaming(consumed + [token], newDispatched, newBuffer, segSize, newCount, sum[..], table, d, engine != null)
    ensures |buffer| + 1 >= segSize ==>
              newDispatched == dispatched + [(buffer + [token])[..segSize]] && newBuffer == (buffer + [token])[segSize..]
    ensures |buffer| + 1 < segSize ==> newDispatched == dispatched && newBuffer == buffer + [token] && newCount == count
  {
    newBuffer := buffer + [token];
    newDispatched := dispatched;
    newCount := count;
    if |newBuffer| >= segSize {
      var seg := newBuffer[..segSize];
      newCount := DispatchSegment(seg, table, d, engine, sum, count);
      newDispatched := dispatched + [seg];
      FlattenSnoc(dispatched, seg);
      assert newBuffer == seg + newBuffer[segSize..];
      newBuffer := newBuffer[segSize..];
      forall c | 0 <= c < d
        ensures sum[..][c] == ColumnTotals(Flatten(newDispatched), table, d, engine != null)[c]
      {
        TotalsSnoc(Flatten(dispatched), seg, table, d, engine != null, c);
      }
    }
  }

  /** The loop over the ids of one line: push each in turn. */
  method PushTokens(tokens: seq<nat>, buffer: seq<nat>, dispatched: seq<seq<nat>>, ghost consumed: seq<nat>,
                    segSize: nat, table: seq<seq<real>>, d: nat, engine: InfiniAttentionGpu?,
                    sum: array<real>, count: nat)
    returns (newBuffer: seq<nat>, newDispatched: seq<seq<nat>>, newCount: nat)
    requires WellShaped(table, d) && EngineFits(engine, d) && sum.Length == d
    requires Streaming(consumed, dispatched, buffer, segSize, count, sum[..], table, d, engine != null)
    modifies sum
    ensures Streaming(consumed + tokens, newDispatched, newBuffer, segSize, newCount, sum[..], table, d, engine != null)
  {
    newBuffer, newDispatched, newCount := buffer, dispatched, count;
    for k := 0 to |tokens|
      invariant Streaming(consumed + tokens[..k], newDispatched, newBuffer, segSize, newCount, sum[..], table, d, engine != null)
    {
      assert consumed + tokens[..k + 1] == (consumed + tokens[..k]) + [tokens[k]];
      newBuffer, newDispatched, newCount :=
        PushToken(tokens[k], newBuffer, newDispatched, consumed + tokens[..k], segSize, table, d, engine, sum, newCount);
    }
    assert tokens[..|tokens|] == tokens;
  }

  /** The streaming loop of `main` over every line and every token of it. */
  method StreamLines(lines: seq<string>, hash: string -> nat, segSize: nat, table: seq<seq<real>>, d: nat,
                     engine: InfiniAttentionGpu?, sum: array<real>)
    returns (buffer: seq<nat>, dispatched: seq<seq<nat>>, count: nat)
    requires WellShaped(table, d) && EngineFits(engine, d) && sum.Length == d
    requires sum[..] == ColumnTotals([], table, d, engine != null)
    modifies sum
    ensures Streaming(Stream(lines, hash), dispatched, buffer, segSize, count, sum[..], table, d, engine != null)
  {
    buffer, dispatched, count := [], [], 0;
    for l := 0 to |lines|
      invariant Streaming(Stream(lines[..l], hash), dispatched, buffer, segSize, count, sum[..], table, d, engine != null)
    {
      var tokens := Tokenize(lines[l], hash);
      assert lines[..l + 1][..l] == lines[..l];
      assert Stream(lines[..l + 1], hash) == Stream(lines[..l], hash) + tokens;
      buffer, dispatched, count :=
        PushTokens(tokens, buffer, dispatched, Stream(lines[..l], hash), segSize, table, d, engine, sum, count);
    }
    assert lines[..|lines|] == lines;
  }

  /** End of stream: dispatch the leftover buffer when it is not empty. After
      it every token of the stream has been dispatched exactly once, in the
      segments `Segments` describes. */
  method FlushLeftover(buffer: seq<nat>, dispatched: seq<seq<nat>>, ghost stream: seq<nat>, segSize: nat,
                       table: seq<seq<real>>, d: nat, engine: InfiniAttentionGpu?, sum: array<real>, count: nat)
    returns (allDispatched: seq<seq<nat>>, total: nat)
    requires WellShaped(table, d) && EngineFits(engine, d) && sum.Length == d
    requires Streaming(stream, dispatched, buffer, segSize, count, sum[..], table, d, engine != null)
    modifies sum
    ensures allDispatched == Segments(stream, segSize)
    ensures allDispatched == dispatched + (if buffer == [] then [] else [buffer])
    ensures total == |stream|
    ensures sum[..] == ColumnTotals(stream, table, d, engine != null)
  {
    if segSize == 0 {
      FlattenEmpties(dispatched);
    }
    StreamingYieldsSegments(dispatched, buffer, segSize);
    allDispatched, total := dispatched, count;
    if buffer == [] {
      assert stream == Flatten(dispatched);
    } else {
      total := DispatchSegment(buffer, table, d, engine, sum, count);
      forall c | 0 <= c < d
        ensures sum[..][c] == ColumnTotals(stream, table, d, engine != null)[c]
      {
        TotalsSnoc(Flatten(dispatched), buffer, table, d, engine != null, c);
      }
      assert sum[..] == ColumnTotals(stream, table, d, engine != null);
      allDispatched := dispatched + [buffer];
    }
  }

  /** `main` after argument parsing and file conversion: `lines` are the
      lines of the converted text, `hash` the tokenizer's hash, `table` the
      `vocab x dModel` embedding table, `gpu` whether the engine is used
      (with `heads` heads). */
  method Run(lines: seq<string>, hash: string -> nat, table: seq<seq<real>>,
             segSize: nat, dModel: nat, heads: nat, gpu: bool)
    returns (r: Result<Report>, dispatched: seq<seq<nat>>)
    requires WellShaped(table, dModel)
    ensures dModel % 3 != 0 <==> r == Err(EmbedDimNotMultipleOfThree)
    ensures dModel % 3 != 0 ==> dispatched == []
    ensures dModel % 3 == 0 ==> dispatched == Segments(Stream(lines, hash), segSize)
    ensures r.Ok? ==> (r.value == NoTokensProcessed <==> Stream(lines, hash) == [])
    ensures r.Ok? && r.value.Processed? ==>
              r.value.count == |Stream(lines, hash)| && |r.value.average| == dModel
              && forall c :: 0 <= c < dModel ==>
                   r.value.average[c] == ColumnTotals(Stream(lines, hash), table, dModel, gpu)[c] / (r.value.count as real)
  {
    dispatched := [];
    if dModel % 3 != 0 {
      r := Err(EmbedDimNotMultipleOfThree);
      return;
    }
    var engine: InfiniAttentionGpu? := null;
    if gpu {
      engine := new InfiniAttentionGpu(heads, dModel / 3, dModel / 3, dModel);
    }
    var sum := new real[dModel](_ => 0.0);
    assert sum[..] == ColumnTotals([], table, dModel, gpu);

    var buffer, count;
    buffer, dispatched, count := StreamLines(lines, hash, segSize, table, dModel, engine, sum);
    ghost var stream := Stream(lines, hash);
    dispatched, count := FlushLeftover(buffer, dispatched, stream, segSize, table, dModel, engine, sum, count);

    if count > 0 {
      var sums := sum[..];
      r := Ok(Processed(count, seq(dModel, c requires 0 <= c < dModel => sums[c] / (count as real))));
    } else {
      r := Ok(NoTokensProcessed);
    }
  }
}

/** The embedding gather a segment goes through before the engine, and the
    per-column sums the orchestrator accumulates, as functions with the facts
    about their indices. Arrays are row-major: entry `(i, c)` of an
    `n x d` array sits at `i * d + c`. */
module Embedding {
  import Attention

  /** A `vocab x d` embedding table with at least one row. */
  predicate WellShaped(table: seq<seq<real>>, d: nat) {
    |table| > 0 && forall r :: 0 <= r < |table| ==> |table[r]| == d
  }

  /** The table row a token id selects: ids wrap around the vocabulary. */
  function Row(table: seq<seq<real>>, token: nat): seq<real>
    requires |table| > 0
  {
    table[token % |table|]
  }

  /** The `n x d` embedded segment: row `i` is the table row of `tokens[i]`. */
  function Gathered(tokens: seq<nat>, table: seq<seq<real>>, d: nat): (x: seq<real>)
    requires WellShaped(table, d)
    ensures |x| == |tokens| * d
  {
    if tokens == [] then []
    else Gathered(tokens[..|tokens| - 1], table, d) + Row(table, tokens[|tokens| - 1])
  }

  /** Entry `(row, c)` of an `rows x d` array is inside it. */
  lemma RowIndexInBounds(row: nat, c: nat, rows: nat, d: nat)
    requires row < rows && c < d
    ensures row * d + c < rows * d
  {
    assert (row + 1) * d == row * d + d;
    assert (row + 1) * d <= rows * d;
  }

  lemma MulMonotone(a: nat, b: nat, d: nat)
    requires a <= b
    ensures a * d <= b * d
  {
  }

  /** Entry `(i, c)` of the embedded segment is column `c` of the table row
      that token `i` selects. */
  lemma {:induction false} GatheredAt(tokens: seq<nat>, table: seq<seq<real>>, d: nat, i: nat, c: nat)
    requires WellShaped(table, d)
    requires i < |tokens| && c < d
    ensures i * d + c < |Gathered(tokens, table, d)|
    ensures Gathered(tokens, table, d)[i * d + c] == table[tokens[i] % |table|][c]
    decreases |tokens|
  {
    var n := |tokens|;
    var prefix := tokens[..n - 1];
    RowIndexInBounds(i, c, n, d);
    assert |Gathered(prefix, table, d)| == (n - 1) * d;
    if i == n - 1 {
      assert i * d + c == (n - 1) * d + c;
    } else {
      RowIndexInBounds(i, c, n - 1, d);
      GatheredAt(prefix, table, d, i, c);
      assert prefix[i] == tokens[i];
    }
  }

  /** Column `c` summed over the first `rows` rows of a row-major array. */
  function ColumnSum(out: seq<real>, rows: nat, d: nat, c: nat): real
    requires c < d && rows * d <= |out|
  {
    if rows == 0 then 0.0
    else
      RowIndexInBounds(rows - 1, c, rows, d);
      ColumnSum(out, rows - 1, d, c) + out[(rows - 1) * d + c]
  }

  /** Column `c` of the embeddings of `tokens`, summed. */
  function EmbedSum(tokens: seq<nat>, table: seq<seq<real>>, d: nat, c: nat): real
    requires WellShaped(table, d) && c < d
  {
    if tokens == [] then 0.0
    else EmbedSum(tokens[..|tokens| - 1], table, d, c) + Row(table, tokens[|tokens| - 1])[c]
  }

  // ---------------------------------------------------------------------

  /** A column sum reads only the rows it covers. */
  lemma {:induction false} ColumnSumOfPrefix(out: seq<real>, more: seq<real>, rows: nat, d: nat, c: nat)
    requires c < d && rows * d <= |out|
    ensures ColumnSum(out + more, rows, d, c) == ColumnSum(out, rows, d, c)
  {
    if rows > 0 {
      RowIndexInBounds(rows - 1, c, rows, d);
      ColumnSumOfPrefix(out, more, rows - 1, d, c);
    }
  }

  /** Summing column `c` over the embedded segment gives the sum of column
      `c` of the tokens' table rows. */
  lemma {:induction false} ColumnSumGathered(tokens: seq<nat>, table: seq<seq<real>>, d: nat, c: nat)
    requires WellShaped(table, d) && c < d
    ensures ColumnSum(Gathered(tokens, table, d), |tokens|, d, c) == EmbedSum(tokens, table, d, c)
    decreases |tokens|
  {
    if tokens != [] {
      var n := |tokens|;
      var prefix := tokens[..n - 1];
      var x := Gathered(tokens, table, d);
      ColumnSumGathered(prefix, table, d, c);
      ColumnSumOfPrefix(Gathered(prefix, table, d), Row(table, tokens[n - 1]), n - 1, d, c);
      GatheredAt(tokens, table, d, n - 1, c);
    }
  }

  /** An all-zero output (what the engine returns) adds nothing to any
      column. */
  lemma {:induction false} ColumnSumZerosUpTo(z: seq<real>, rows: nat, d: nat, c: nat)
    requires c < d && rows * d <= |z| && Attention.AllZero(z)
    ensures ColumnSum(z, rows, d, c) == 0.0
  {
    if rows > 0 {
      RowIndexInBounds(rows - 1, c, rows, d);
      ColumnSumZerosUpTo(z, rows - 1, d, c);
    }
  }

  /** Sums over consecutive stretches of the stream add up. */
  lemma {:induction false} EmbedSumAppend(a: seq<nat>, b: seq<nat>, table: seq<seq<real>>, d: nat, c: nat)
    requires WellShaped(table, d) && c < d
    ensures EmbedSum(a + b, table, d, c) == EmbedSum(a, table, d, c) + EmbedSum(b, table, d, c)
    decreases |b|
  {
    if b == [] {
      assert a + b == a;
    } else {
      var m := |b|;
      EmbedSumAppend(a, b[..m - 1], table, d, c);
      assert (a + b)[..|a + b| - 1] == a + b[..m - 1];
    }
  }
}

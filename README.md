# Segmented Infini-attention demo: the orchestrator, engine state and tokenizer in Dafny

This project models the integer and sequence bookkeeping of a Rust demo of
Infini-attention, where attention runs over a token stream one fixed-size
segment at a time. It covers three parts:

- **The segment orchestrator** (`main`, `process_segment_cpu`, `process_segment_gpu`).
  It reads the converted text line by line and tokenizes each line. It pushes
  the ids into a buffer. Whenever the buffer holds `segment_size` tokens, it
  dispatches the first `segment_size` of them and drains them. At the end it
  flushes a non-empty remainder. Every output row is added to a column sum
  and a row count, and the run ends with the average or "No tokens processed".
  Each segment is first turned into an `n x d_model` row-major array whose row
  `i` is embedding-table row `tokens[i] % vocab`.
- **The engine's per-head state and forward shapes** (`InfiniAttentionGpu::new`, `forward`).
  `new` builds one zero `d_key*d_value` memory matrix, one zero `d_key`
  normaliser and one zero raw gate per head. `forward` sizes its scratch
  buffers and returns `n * d_model` values.
- **The tokenizer** (`tokenize`). It splits on whitespace and hashes each
  word to an id.

Modules:

- `Tokenizer` (tokenizer.dfy): `Words` says what `split_whitespace` yields.
  `SplitWhitespace` and `Tokenize` are the loops, proved against it.
- `Attention` (attention.dfy): class `InfiniAttentionGpu`. Device buffers are
  modelled by their contents (`seq<real>`).
- `Segmentation` (segments.dfy): `Segments(t, s)`, the segments dispatched for
  stream `t`, as a function of the whole stream, with its partition and
  shape lemmas.
- `Embedding` (embedding.dfy): the gathered `n x d` array, column sums and
  the index-bound facts.
- `Orchestrator` (orchestrator.dfy): the gather loops, segment processing,
  accumulation loops, the streaming step, the flush and `Run`, which is
  `main` after argument parsing.

Floats are modelled as `real`. The hash is a parameter `hash: string -> nat`.
Whitespace is the Unicode White_Space set that Rust's `char::is_whitespace`
uses. `Run` has three phases, as `main` does (src/main.rs:89-143):
`StreamLines` streams the lines, `FlushLeftover` flushes the remainder, and
the report is built last.

Where the code does less than its own comments and names suggest, the model
follows the code:

- **The engine's output.** The comments in `forward`'s head loop
  (src/infini_attention_gpu.rs:129-137) name local attention, memory retrieval
  and update, and a gated combine, but no kernel is written: the loop only
  computes the gate value. No kernel writes `final_output_buf`, and wgpu
  zero-initialises every buffer it creates. So `forward` returns
  `n * d_model` zeros and leaves the engine's state unchanged, and on the GPU
  path `main` accumulates zero rows. The model states exactly that.
- **Unchecked sizes.** Nothing rejects a zero size: `main` checks only
  `d_model % 3 == 0` (src/main.rs:73). With `segment_size == 0`, every push
  dispatches an empty segment, nothing is drained, and the whole stream is
  flushed at the end. `Segmentation.Segments` models this case as written.
- **The CPU path.** `process_segment_cpu` returns the gathered embeddings
  unchanged. No attention is computed on this path.

## Model

| member | source | states |
|---|---|---|
| `Tokenizer.RunLength` | src/tokenizer.rs:8 | the length of the leading non-whitespace run: every character before it is not whitespace, and the character at it (if any) is whitespace, so the run is maximal |
| `Tokenizer.WordsAreWords` | src/tokenizer.rs:8 | every word the split yields is non-empty and holds no whitespace, so leading, trailing or repeated whitespace never yields an empty word |
| `Tokenizer.NoWordsIffBlank` | src/tokenizer.rs:7-8 | the split yields no word exactly when the text is empty or all whitespace (both directions) |
| `Tokenizer.WordCountIsRunCount` | src/tokenizer.rs:8-13 | the number of words equals an independent count of maximal non-whitespace runs (positions where a non-whitespace character starts the text or follows whitespace) |
| `Tokenizer.WordsOfWord` | src/tokenizer.rs:8 | a text that is one word (non-empty, no whitespace) splits into exactly that word |
| `Tokenizer.WordsSplitAtWhitespace` | src/tokenizer.rs:8 | a whitespace character always separates words: the words of `a + [c] + b` are the words of `a` followed by the words of `b`; with the two lemmas around it this fixes where every word breaks |
| `Tokenizer.WordsKeepText` | src/tokenizer.rs:8 | the words joined in order are the text with its whitespace removed: nothing lost, added or reordered |
| `Tokenizer.SplitWhitespace` | src/tokenizer.rs:8 | the scan over the characters returns exactly `Words(text)` |
| `Tokenizer.Tokenize` | src/tokenizer.rs:6-15 | one id per word; the `i`-th id is the hash of the `i`-th word, so order is kept; equal words get equal ids |
| `Attention.InfiniAttentionGpu.constructor` | src/infini_attention_gpu.rs:28-62 | exactly `num_heads` memory matrices, normalisers and gates; each matrix has `d_key*d_value` zero entries, each normaliser `d_key` zeros, each raw gate `0.0`; the four sizes are stored unchanged |
| `Attention.InfiniAttentionGpu.Forward` | src/infini_attention_gpu.rs:68-160 | Q, K, V, local-context and memory-context buffers of `n*(d_model/3)` elements each; the head loop visits heads `0..num_heads-1` once each, in order; returns `n*d_model` values, all zero since no kernel writes the output buffer; engine state (head count, buffer counts and sizes) unchanged |
| `Segmentation.SegmentsCover` | src/main.rs:93-124 | the dispatched segments, concatenated in order, are the token stream: no token dropped or duplicated |
| `Segmentation.SegmentsShape` | src/main.rs:95-97 | with a positive segment size every dispatched segment is non-empty and at most `segment_size` long, and all but the last hold exactly `segment_size` tokens |
| `Segmentation.SegmentsLast` | src/main.rs:117-119 | the number of segments `m` satisfies `(m-1)*s < len <= m*s`, and the last segment holds the `len - (m-1)*s` tokens that remain |
| `Segmentation.StreamingYieldsSegments` | src/main.rs:93-124 | full segments dispatched so far, plus a buffer shorter than a segment that is flushed only when non-empty, are exactly `Segments` of the whole stream; with size 0 this is one empty segment per token, then the whole stream |
| `Embedding.Gathered` | src/main.rs:158-164 | the embedded segment has `n*d_model` entries |
| `Embedding.RowIndexInBounds` | src/main.rs:106-108 | for `row < n` and `c < d_model`, the index `row*d_model + c` is below `n*d_model`, so every output access is in bounds |
| `Embedding.GatheredAt` | src/main.rs:159-163 | entry `i*d_model + c` of the embedded segment is column `c` of table row `tokens[i] % vocab` |
| `Embedding.ColumnSumGathered` | src/main.rs:178-186 | summing column `c` of the CPU output over its rows gives the sum of column `c` of the tokens' embedding rows |
| `Embedding.ColumnSumZerosUpTo` | src/infini_attention_gpu.rs:142-159 | an all-zero engine output adds nothing to any column sum |
| `Embedding.EmbedSumAppend` | src/main.rs:105-111 | column sums over consecutive stretches of the stream add up |
| `Orchestrator.StreamLength` | src/main.rs:90-94 | the stream `main` buffers has as many ids as there are maximal non-whitespace runs over all lines |
| `Orchestrator.CopyRow` | src/main.rs:161-163 | the inner gather loop writes the table row at the row's offset and leaves every entry before and after it unchanged |
| `Orchestrator.Gather` | src/main.rs:158-164 | the two index loops that fill `x_seg` in place produce exactly the gathered `n x d_model` array |
| `Orchestrator.ProcessSegmentCpu` | src/main.rs:171-187 | returns the gathered embeddings of the segment, `n*d_model` values |
| `Orchestrator.ProcessSegmentGpu` | src/main.rs:148-169 | gathers, runs `forward`, and returns `n*d_model` zeros |
| `Orchestrator.AccumulateRows` | src/main.rs:106-111 | after the loops, `sum[c]` has grown by column `c` summed over the `rows` output rows, and the count by `rows`; every index read is in bounds |
| `Orchestrator.DispatchSegment` | src/main.rs:98-111 | one segment adds its length to the count, and to each column sum its embedding column sum (CPU) or zero (GPU) |
| `Orchestrator.PushToken` | src/main.rs:94-113 | push the token; if the buffer reaches `segment_size`, dispatch exactly its first `segment_size` tokens and keep the rest; the streaming invariant is preserved (dispatched segments followed by the buffer are the stream so far, the buffer is shorter than a segment, count and sums cover the dispatched tokens) |
| `Orchestrator.PushTokens` | src/main.rs:93-114 | pushing a line's ids one after the other keeps the streaming invariant, now over the stream extended by those ids |
| `Orchestrator.StreamLines` | src/main.rs:89-115 | after every line, the streaming invariant holds for the whole token stream |
| `Orchestrator.FlushLeftover` | src/main.rs:117-132 | the leftover is dispatched only when non-empty; afterwards the dispatched segments are `Segments(stream, segment_size)`, the count is the stream length, and the sums are the stream's column totals |
| `Orchestrator.Run` | src/main.rs:72-143 | rejects `d_model % 3 != 0` before building the engine; otherwise dispatches `Segments(stream, segment_size)`; reports "no tokens processed" exactly when the stream is empty, and otherwise the token count and, per column, the column total divided by that count (so no division by zero) |

## Left out

- File conversion (`convert_to_text`, `pdftotext` and `pandoc` subprocesses) and line reading. `Run` takes the lines as a parameter, and a read error (`line_result?`) is not modelled.
- GPU context creation, buffer upload and download, `map_async`, `device.poll` and the channel. Their failures (no adapter, device refused, transfer failure) are not modelled. A buffer is modelled by its contents.
- The attention kernels (local attention, memory retrieval and update, gated combine). The code has none; its head loop holds only comments. For the same reason, growth of the memory normaliser and read-before-write ordering are not modelled.
- The sigmoid of the gate, `f32` rounding and the `f32` average. Values are `real`, and the average is real division.
- Random initialisation of the embedding table. The table is a parameter. Argument parsing and all printing are left out too. `Run` returns a `Report` holding the token count and all `d_model` column averages; `main` prints the count and only the first `min(10, d_model)` averages, to 4 decimals.
- Tokenizer.Tokenize: the `DefaultHasher` algorithm and the `u64`-to-`usize` cast are not modelled. The hash is an arbitrary function to `nat`.
- Orchestrator.Run: requires a non-empty, well-shaped table. With `vocab_size == 0`, the source panics at `% 0` on the first gathered token. The model does not cover the case of an empty stream with an empty table, which the source survives.
- Orchestrator.Run: the `assert!` on `d_model % 3 == 0` (src/main.rs:73) panics in the code; the model returns `Err(EmbedDimNotMultipleOfThree)` instead, and dispatches nothing.
- Orchestrator.Run: does not model `usize` overflow of the token count or of `n * d_model`.
- `Embedding.ColumnSumZerosUpTo` and `Attention.InfiniAttentionGpu.Forward`: on the GPU path, zero-size buffers are modelled as empty outputs. They arise from a zero-length segment (only possible with `segment_size == 0`) and from `embed_dim == 0`, which passes `0 % 3 == 0` so that every `forward` allocates and maps `n * 0`-element buffers. How wgpu handles zero-size buffers and their mapping is not modelled.

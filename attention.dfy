/** The per-head state of the Infini-attention engine and the shapes of its
    forward pass. Device buffers are modelled by their contents, `seq<real>`;
    the device handle they live on is not modelled. */
module Attention {

  /** A freshly allocated device buffer of `len` elements: wgpu
      zero-initialises every buffer it creates. */
  function Zeros(len: nat): (b: seq<real>)
    ensures |b| == len
  {
    seq(len, _ => 0.0)
  }

  predicate AllZero(b: seq<real>) {
    forall i :: 0 <= i < |b| ==> b[i] == 0.0
  }

  /** The scratch buffers one forward pass allocates. */
  datatype ForwardBuffers = ForwardBuffers(
    q: seq<real>, k: seq<real>, v: seq<real>,
    localContext: seq<real>, memoryContext: seq<real>)

  class InfiniAttentionGpu {
    var numHeads: nat
    var dKey: nat
    var dValue: nat
    var dModel: nat

    /** Per head, the `dKey x dValue` memory matrix, row-major. */
    var memoryMatrices: seq<seq<real>>
    /** Per head, the normaliser `z` of length `dKey`. */
    var memoryZ: seq<seq<real>>
    /** Per head, the raw gating parameter (before the sigmoid). */
    var gate: seq<real>

    /** One memory matrix, one normaliser and one gate per head, each of its
        fixed shape. */
    ghost predicate Valid()
      reads this
    {
      |memoryMatrices| == numHeads && |memoryZ| == numHeads && |gate| == numHeads
      && (forall h :: 0 <= h < numHeads ==> |memoryMatrices[h]| == dKey * dValue)
      && (forall h :: 0 <= h < numHeads ==> |memoryZ[h]| == dKey)
    }

    /** `InfiniAttentionGpu::new`: per head, a zero memory matrix, a zero
        normaliser and a zero gate parameter; the sizes are stored as given. */
    constructor (numHeads: nat, dKey: nat, dValue: nat, dModel: nat)
      ensures Valid()
      ensures this.numHeads == numHeads && this.dKey == dKey
      ensures this.dValue == dValue && this.dModel == dModel
      ensures forall h :: 0 <= h < numHeads ==> AllZero(memoryMatrices[h])
      ensures forall h :: 0 <= h < numHeads ==> AllZero(memoryZ[h])
      ensures forall h :: 0 <= h < numHeads ==> gate[h] == 0.0
    {
      var matrices: seq<seq<real>> := [];
      var zs: seq<seq<real>> := [];
      var gates: seq<real> := [];
      for h := 0 to numHeads
        invariant |matrices| == h && |zs| == h && |gates| == h
        invariant forall i :: 0 <= i < h ==> matrices[i] == Zeros(dKey * dValue)
        invariant forall i :: 0 <= i < h ==> zs[i] == Zeros(dKey)
        invariant forall i :: 0 <= i < h ==> gates[i] == 0.0
      {
        matrices := matrices + [Zeros(dKey * dValue)];
        zs := zs + [Zeros(dKey)];
        gates := gates + [0.0];
      }
      this.numHeads := numHeads;
      this.dKey := dKey;
      this.dValue := dValue;
      this.dModel := dModel;
      memoryMatrices := matrices;
      memoryZ := zs;
      gate := gates;
    }

    /** `forward` for a segment of `n` tokens. It allocates Q, K, V, the local
        context and the memory context, each `n * (dModel / 3)` elements, goes
        over the heads once each in order, reading each head's gate, and
        downloads an `n * dModel` output buffer. No kernel writes that buffer,
        so what comes back is its zero initial contents. The engine's state is
        left as it was (the method modifies nothing). */
    method Forward(x: seq<real>, n: nat) returns (out: seq<real>, ghost buffers: ForwardBuffers, ghost visited: seq<nat>)
      requires Valid()
      ensures |out| == n * dModel && AllZero(out)
      ensures |buffers.q| == n * (dModel / 3) && |buffers.k| == n * (dModel / 3) && |buffers.v| == n * (dModel / 3)
      ensures |buffers.localContext| == n * (dModel / 3) && |buffers.memoryContext| == n * (dModel / 3)
      ensures |visited| == numHeads && forall i :: 0 <= i < numHeads ==> visited[i] == i
    {
      var chunkSize := dModel / 3;
      var q := Zeros(n * chunkSize);
      var k := Zeros(n * chunkSize);
      var v := Zeros(n * chunkSize);
      var localContext := Zeros(n * chunkSize);
      var memoryContext := Zeros(n * chunkSize);
      buffers := ForwardBuffers(q, k, v, localContext, memoryContext);

      visited := [];
      for headIdx := 0 to numHeads
        invariant |visited| == headIdx
        invariant forall i :: 0 <= i < headIdx ==> visited[i] == i
      {
        // the gate value is the sigmoid of this parameter; the kernels that
        // would use it are not written
        var rawGate := gate[headIdx];
        visited := visited + [headIdx];
      }

      out := Zeros(n * dModel);
    }
  }
}

/** The tensor payloads, with the batch axis dropped: a cached position holds one key and one value
    vector per KV head, and a hidden state is one vector. */
module Tensors {
  type Token = int
  type Vec = seq<real>

  datatype KV = KV(key: seq<Vec>, value: seq<Vec>)
  datatype Hidden = Hidden(v: Vec)

  /** One layer of the arena, `[block][slot]`. */
  type Layer = seq<seq<KV>>

  /** What one sequence has appended so far, `[layer][position]`. */
  type Hist = seq<seq<KV>>
}

/** The content-addressed prefix cache as functions on values (edgerag/cache/prefix.py).

    SHA-256 is idealised as injective: a chained hash is the term it is computed from. Entries are
    the OrderedDict, oldest use first. Each entry owns one reference to its block. */
module Prefixes {
  import opened Common
  import opened Tensors
  import opened Paging
  import P = Pools

  datatype Hash = Root | Chain(parent: Hash, tokens: seq<Token>)
  datatype Entry = Entry(hash: Hash, block: Block)

  /** Pool and entries after an operation, and what it returned. */
  datatype PrefixOut<T> = PrefixOut(pool: P.Pool, entries: seq<Entry>, result: Result<T>)

  // ------------------------------------------------------------------------------ chained hashes

  lemma FullBlocks(n: nat, bs: nat, k: nat)
    requires bs > 0 && k <= n / bs
    ensures k * bs <= n && (k > 0 ==> (k - 1) * bs + bs == k * bs && (k - 1) * bs <= n)
  {
    DivBounds(n, bs);
    MulLe(k, n / bs, bs);
    if k > 0 { MulLe(k - 1, k, bs); }
  }

  /** The chained hash of the first `k` full blocks. */
  function HashAt(tokens: seq<Token>, bs: nat, k: nat): Hash
    requires bs > 0 && k <= |tokens| / bs
  {
    if k == 0 then Root
    else
      FullBlocks(|tokens|, bs, k);
      Chain(HashAt(tokens, bs, k - 1), tokens[(k - 1) * bs .. k * bs])
  }

  function BlockHashes(tokens: seq<Token>, bs: nat): (r: seq<Hash>)
    requires bs > 0
    ensures |r| == Div(|tokens|, bs)
    ensures forall i :: 0 <= i < |r| ==> r[i] == HashAt(tokens, bs, i + 1)
  {
    seq(Div(|tokens|, bs), i requires 0 <= i < Div(|tokens|, bs) => HashAt(tokens, bs, i + 1))
  }

  /** The token prefix a chained hash stands for. */
  function HashTokens(h: Hash): seq<Token> {
    match h
    case Root => []
    case Chain(parent, tokens) => HashTokens(parent) + tokens
  }

  lemma {:induction false} HashTokensAt(tokens: seq<Token>, bs: nat, k: nat)
    requires bs > 0 && k <= |tokens| / bs
    ensures k * bs <= |tokens| && HashTokens(HashAt(tokens, bs, k)) == tokens[..k * bs]
  {
    FullBlocks(|tokens|, bs, k);
    if k > 0 {
      HashTokensAt(tokens, bs, k - 1);
      assert tokens[..(k - 1) * bs] + tokens[(k - 1) * bs .. k * bs] == tokens[..k * bs];
    }
  }

  lemma {:induction false} SamePrefixSameHash(a: seq<Token>, b: seq<Token>, bs: nat, k: nat)
    requires bs > 0 && k <= |a| / bs && k <= |b| / bs
    requires k * bs <= |a| && k * bs <= |b| && a[..k * bs] == b[..k * bs]
    ensures HashAt(a, bs, k) == HashAt(b, bs, k)
  {
    FullBlocks(|a|, bs, k);
    FullBlocks(|b|, bs, k);
    if k > 0 {
      assert a[..(k - 1) * bs] == a[..k * bs][..(k - 1) * bs];
      assert b[..(k - 1) * bs] == b[..k * bs][..(k - 1) * bs];
      SamePrefixSameHash(a, b, bs, k - 1);
      assert a[(k - 1) * bs .. k * bs] == a[..k * bs][(k - 1) * bs ..];
      assert b[(k - 1) * bs .. k * bs] == b[..k * bs][(k - 1) * bs ..];
    }
  }

  /** Chaining makes the match a prefix match: two blocks of two prompts get the same hash exactly
      when they stand at the same position and everything up to and including them is equal. */
  lemma HashIsPrefix(a: seq<Token>, i: nat, b: seq<Token>, j: nat, bs: nat)
    requires bs > 0 && i <= |a| / bs && j <= |b| / bs
    ensures i * bs <= |a| && j * bs <= |b|
    ensures HashAt(a, bs, i) == HashAt(b, bs, j) <==> i == j && a[..i * bs] == b[..j * bs]
  {
    HashTokensAt(a, bs, i);
    HashTokensAt(b, bs, j);
    if HashAt(a, bs, i) == HashAt(b, bs, j) {
      assert i * bs == j * bs;
      if i < j { MulLe(i + 1, j, bs); } else if j < i { MulLe(j + 1, i, bs); }
    } else if i == j && a[..i * bs] == b[..j * bs] {
      SamePrefixSameHash(a, b, bs, i);
    }
  }

  // ------------------------------------------------------------------------- the ordered entries

  function Keys(entries: seq<Entry>): (r: seq<Hash>)
    ensures |r| == |entries|
    ensures forall i :: 0 <= i < |r| ==> r[i] == entries[i].hash
  {
    seq(|entries|, i requires 0 <= i < |entries| => entries[i].hash)
  }

  function Blocks(entries: seq<Entry>): (r: seq<Block>)
    ensures |r| == |entries|
    ensures forall i :: 0 <= i < |r| ==> r[i] == entries[i].block
  {
    seq(|entries|, i requires 0 <= i < |entries| => entries[i].block)
  }

  /** Position of a key, or the number of entries when absent. */
  function Find(entries: seq<Entry>, h: Hash): (i: nat)
    ensures i <= |entries|
    ensures i < |entries| ==> entries[i].hash == h
    ensures forall j :: 0 <= j < i ==> entries[j].hash != h
  {
    if entries == [] then 0 else if entries[0].hash == h then 0 else 1 + Find(entries[1..], h)
  }

  predicate Contains(entries: seq<Entry>, h: Hash) {
    Find(entries, h) < |entries|
  }

  function MoveToEnd(entries: seq<Entry>, h: Hash): (r: seq<Entry>)
    ensures |r| == |entries|
  {
    var i := Find(entries, h);
    if i < |entries| then entries[..i] + entries[i + 1..] + [entries[i]] else entries
  }

  datatype Matched = Matched(entries: seq<Entry>, blocks: seq<Block>)

  /** The loop in `lookup`: take blocks while their hashes are present, refreshing each one used. */
  function Match(entries: seq<Entry>, hashes: seq<Hash>): Matched
    decreases |hashes|
  {
    if hashes == [] || !Contains(entries, hashes[0]) then Matched(entries, [])
    else
      var rest := Match(MoveToEnd(entries, hashes[0]), hashes[1..]);
      Matched(rest.entries, [entries[Find(entries, hashes[0])].block] + rest.blocks)
  }

  function Lookup(p: P.Pool, entries: seq<Entry>, tokens: seq<Token>): PrefixOut<(seq<Block>, nat)>
    requires p.blockSize > 0
  {
    var m := Match(entries, BlockHashes(tokens, p.blockSize));
    if m.blocks == [] then PrefixOut(p, m.entries, Ok(([], 0)))
    else
      var o := P.Incref(p, m.blocks);
      match o.result
      case Ok(_) => PrefixOut(o.pool, m.entries, Ok((m.blocks, |m.blocks| * p.blockSize)))
      case Err(e) => PrefixOut(o.pool, m.entries, Err(e))
  }

  /** `popitem(last=False)` until the cache is below its bound, each popped block released. */
  function Evict(p: P.Pool, entries: seq<Entry>, maxBlocks: nat): PrefixOut<()>
    decreases |entries|
  {
    if |entries| < maxBlocks || entries == [] then PrefixOut(p, entries, Ok(()))
    else
      var o := P.Free(p, [entries[0].block]);
      match o.result
      case Err(e) => PrefixOut(o.pool, entries[1..], Err(e))
      case Ok(_) => Evict(o.pool, entries[1..], maxBlocks)
  }

  /** The loop in `register`, from position `i` on. */
  function RegisterFrom(p: P.Pool, entries: seq<Entry>, maxBlocks: nat, hashes: seq<Hash>, blocks: seq<Block>, i: nat): PrefixOut<nat>
    decreases |hashes| - i
  {
    if i >= |hashes| then PrefixOut(p, entries, Ok(0))
    else if i >= |blocks| || Contains(entries, hashes[i]) then
      RegisterFrom(p, entries, maxBlocks, hashes, blocks, i + 1)
    else
      var e := Evict(p, entries, maxBlocks);
      match e.result
      case Err(x) => PrefixOut(e.pool, e.entries, Err(x))
      case Ok(_) =>
        if |e.entries| >= maxBlocks then PrefixOut(e.pool, e.entries, Ok(0))
        else
          var o := P.Incref(e.pool, [blocks[i]]);
          match o.result
          case Err(x) => PrefixOut(o.pool, e.entries, Err(x))
          case Ok(_) =>
            var rest := RegisterFrom(o.pool, e.entries + [Entry(hashes[i], blocks[i])], maxBlocks, hashes, blocks, i + 1);
            match rest.result
            case Ok(n) => rest.(result := Ok(n + 1))
            case Err(x) => rest
  }

  function Register(p: P.Pool, entries: seq<Entry>, maxBlocks: nat, tokens: seq<Token>, blocks: seq<Block>): PrefixOut<nat>
    requires p.blockSize > 0
  {
    RegisterFrom(p, entries, maxBlocks, BlockHashes(tokens, p.blockSize), blocks, 0)
  }

  /** Release every cached block; a failure part way leaves the rest referenced. */
  function ReleaseAll(p: P.Pool, entries: seq<Entry>): P.Outcome<()>
    decreases |entries|
  {
    if entries == [] then P.Outcome(p, Ok(()))
    else
      var o := P.Free(p, [entries[0].block]);
      match o.result
      case Err(e) => P.Outcome(o.pool, Err(e))
      case Ok(_) => ReleaseAll(o.pool, entries[1..])
  }

  /** `clear`: the entries go only once every block is released. */
  function Clear(p: P.Pool, entries: seq<Entry>): PrefixOut<()> {
    var o := ReleaseAll(p, entries);
    PrefixOut(o.pool, if o.result.Ok? then [] else entries, o.result)
  }
}

/** Executing a batch: every request runs on its own cache, and what comes back is its own greedy
    continuation, whatever else is in the batch; a fault may strike before, between or after the cache
    updates of any forward. */
module ExecutionProofs {
  import opened Common
  import opened Tensors
  import opened Decoders
  import opened Paging
  import opened Arenas
  import opened ArenaProofs
  import opened Requests
  import opened Scheduling
  import opened Serving
  import opened ForwardProofs

  /** Everything a request's cache is to hold in the end: the prompt, then what was generated. */
  ghost function Fed(d: Decoder, r: Request): seq<Hidden> {
    PromptInputs(d, r) + Embeds(d, r.gen)
  }

  ghost function Held(a: Arena, r: Request): nat {
    match r.cache
    case None => 0
    case Some(c) => TokensIn(a, c)
  }

  /** The request's cache holds the history of exactly the first `Held` inputs. */
  ghost predicate Owns(d: Decoder, r: Request, a: Arena, hs: seq<Hist>) {
    r.cache.Some? ==>
      && r.cache.value < |hs| && Held(a, r) <= |Fed(d, r)|
      && hs[r.cache.value] == History(d, Fed(d, r)[..Held(a, r)])
  }

  ghost predicate OwnCaches(reqs: map<Id, Request>, live: seq<Id>, caches: nat) {
    && (forall id :: id in live ==> id in reqs && (reqs[id].cache.Some? ==> reqs[id].cache.value < caches))
    && (forall i, j :: i in live && j in live && i != j && i in reqs && j in reqs && reqs[i].cache.Some? ==> reqs[i].cache != reqs[j].cache)
  }

  /** A cache that no live request refers to holds no blocks. */
  ghost predicate NoStrays(reqs: map<Id, Request>, a: Arena, live: seq<Id>) {
    forall c :: 0 <= c < |a.caches| && a.caches[c].table.blocks != [] ==>
      exists id :: id in live && id in reqs && reqs[id].cache == Some(c)
  }

  /** The arena during a batch; `bad` is the request a fault struck, if any. */
  ghost predicate ExecOk(d: Decoder, reqs: map<Id, Request>, a: Arena, live: seq<Id>, hs: seq<Hist>, bad: set<Id>) {
    && ArenaOk(d, a, hs)
    && OwnCaches(reqs, live, |a.caches|)
    && NoStrays(reqs, a, live)
    && forall id :: id in live && id !in bad && id in reqs ==> Owns(d, reqs[id], a, hs)
  }

  lemma OkSize(d: Decoder, a: Arena, hs: seq<Hist>)
    requires ArenaOk(d, a, hs)
    ensures |hs| == |a.caches| && a.store.pool.blockSize > 0 && d.layers > 0
  {
  }

  /** One live request's cache moved, nobody else's. */
  lemma OthersKeep(d: Decoder, reqs: map<Id, Request>, a: Arena, a': Arena, live: seq<Id>, hs: seq<Hist>, hs': seq<Hist>, id: Id, bad: set<Id>)
    requires ExecOk(d, reqs, a, live, hs, bad) && id in live && id in reqs && reqs[id].cache.Some?
    requires |hs| == |a.caches| && reqs[id].cache.value < |a.caches|
    requires ArenaOk(d, a', hs') && Moved(a, hs, a', hs', reqs[id].cache.value)
    ensures ExecOk(d, reqs, a', live, hs', bad + {id})
    ensures forall j :: j in live && j != id && j in reqs ==> Held(a', reqs[j]) == Held(a, reqs[j])
    ensures Owns(d, reqs[id], a', hs') ==> ExecOk(d, reqs, a', live, hs', bad)
  {
    hide ArenaOk, History, Fed;
    var c := reqs[id].cache.value;
    forall j | j in live && j != id && j in reqs
      ensures Held(a', reqs[j]) == Held(a, reqs[j])
      ensures j !in bad ==> Owns(d, reqs[j], a', hs')
    {
      if reqs[j].cache.Some? {
        assert reqs[j].cache.value != c;
      }
    }
    forall k | 0 <= k < |a'.caches| && a'.caches[k].table.blocks != []
      ensures exists i :: i in live && i in reqs && reqs[i].cache == Some(k)
    {
      if k == c {
        assert id in live && id in reqs && reqs[id].cache == Some(k);
      }
    }
  }

  // ------------------------------------------------------------------- giving a request a cache

  lemma CacheForOk(d: Decoder, e: Exec, live: seq<Id>, hs: seq<Hist>, id: Id) returns (hs': seq<Hist>)
    requires ExecOk(d, e.reqs, e.arena, live, hs, {}) && id in live && id in e.reqs
    ensures var e1 := CacheFor(e, id);
      && ExecOk(d, e1.reqs, e1.arena, live, hs', {})
      && id in e1.reqs && e1.reqs[id].cache.Some? && e1.reqs[id] == e.reqs[id].(cache := e1.reqs[id].cache)
      && Held(e1.arena, e1.reqs[id]) == Held(e.arena, e.reqs[id])
      && OnlyTouched(e, e1, id, live) && e1 == e.(reqs := e1.reqs, arena := e1.arena)
  {
    hide ArenaOk, History, Fed, Do;
    OkSize(d, e.arena, hs);
    if e.reqs[id].cache.Some? {
      hs' := hs;
    } else {
      var a := e.arena;
      var a' := Call(a, New(0)).arena;
      hs' := hs + [NoHist(d.layers)];
      NewOk(d, a, hs);
      var reqs' := CacheFor(e, id).reqs;
      assert a'.caches[..|a.caches|] == a.caches;
      forall k | 0 <= k < |a'.caches| && a'.caches[k].table.blocks != []
        ensures exists i :: i in live && i in reqs' && reqs'[i].cache == Some(k)
      {
        assert a.caches[k].table.blocks != [];
        var i :| i in live && i in e.reqs && e.reqs[i].cache == Some(k);
        assert i in live && i in reqs' && reqs'[i].cache == Some(k);
      }
      assert Owns(d, reqs'[id], a', hs') by {
        NoneFed(d, reqs'[id]);
      }
    }
  }

  lemma NoneFed(d: Decoder, r: Request)
    ensures History(d, Fed(d, r)[..0]) == NoHist(d.layers)
  {
    assert Fed(d, r)[..0] == [];
  }

  lemma NewOk(d: Decoder, a: Arena, hs: seq<Hist>)
    requires ArenaOk(d, a, hs)
    ensures var a' := Call(a, New(0)).arena;
      && ArenaOk(d, a', hs + [NoHist(d.layers)])
      && a'.caches == a.caches + [Cache(EMPTY_TABLE, 0, 0)]
  {
    hide Inv;
    OkSize(d, a, hs);
    assert a.store.pool.blockSize > 0 && Inv(a, hs, NOTHING);
    NewStep(a, hs, 0, NOTHING);
  }

  /** What running one request leaves alone: every other request, what it holds, what it reported. */
  ghost predicate OnlyTouched(e: Exec, e': Exec, id: Id, live: seq<Id>) {
    && e'.reqs.Keys == e.reqs.Keys
    && (forall j :: j in e.reqs && j != id ==> e'.reqs[j] == e.reqs[j])
    && (forall j :: j in live && j in e.reqs && j != id ==> Held(e'.arena, e'.reqs[j]) == Held(e.arena, e.reqs[j]))
    && (forall j :: j != id ==> (j in e'.out.prefilled <==> j in e.out.prefilled) && (j in e'.out.tokens <==> j in e.out.tokens))
    && (forall j :: j != id && j in e.out.prefilled ==> e'.out.prefilled[j] == e.out.prefilled[j])
    && (forall j :: j != id && j in e.out.tokens ==> e'.out.tokens[j] == e.out.tokens[j])
  }

  // ----------------------------------------------------------------------------- one request

  /** What the scheduler's state promises about a request it puts in a batch. */
  ghost predicate Ready(d: Decoder, r: Request, a: Arena) {
    && WellFormed(r)
    && (r.state == Prefilling || r.state == Decoding)
    && (r.state == Prefilling ==> r.gen == [] && r.offset < |r.prompt| && Held(a, r) == r.offset)
    && (r.state == Decoding ==> r.gen != [] && r.cache.Some? && Held(a, r) + 1 == |Fed(d, r)|)
  }

  ghost function ChunkLength(chunk: nat, r: Request): int {
    Min(r.offset + chunk, |r.prompt|) - r.offset
  }

  /** What a fault-free run reports for a request: how much of the prompt it consumed, and, when the
      cache has reached the end of the inputs, the greedy next token after all of them. */
  ghost predicate Reported(d: Decoder, chunk: nat, r: Request, r': Request, a': Arena, out: Output)
    requires WellFormed(r) && (r.state == Decoding ==> r.gen != [])
  {
    && r' == r.(cache := r'.cache) && r'.cache.Some?
    && if r.state == Prefilling then
         var n := ChunkLength(chunk, r);
         && Held(a', r') == r.offset + n
         && (n == 0 ==> r.id !in out.prefilled && r.id !in out.tokens)
         && (n > 0 ==> r.id in out.prefilled && out.prefilled[r.id] == n)
         && (n > 0 && r.offset + n == |r.prompt| ==> r.id in out.tokens && out.tokens[r.id] == Next(d, Fed(d, r)))
         && (r.offset + n < |r.prompt| ==> r.id !in out.tokens)
       else
         && Held(a', r') == |Fed(d, r)| && |Fed(d, r)| > 0
         && r.id !in out.prefilled && r.id in out.tokens && out.tokens[r.id] == Next(d, Fed(d, r))
  }

  ghost predicate Fresh(out: Output, id: Id) {
    id !in out.prefilled && id !in out.tokens
  }

  /** Feeding one live request's cache the next of its inputs. */
  lemma FeedOne(d: Decoder, e: Exec, live: seq<Id>, hs: seq<Hist>, id: Id, ys: seq<Hidden>) returns (hs': seq<Hist>)
    requires ExecOk(d, e.reqs, e.arena, live, hs, {}) && id in live && id in e.reqs && e.reqs[id].cache.Some?
    requires ys != [] && Held(e.arena, e.reqs[id]) + |ys| <= |Fed(d, e.reqs[id])|
    requires var n := Held(e.arena, e.reqs[id]); ys == Fed(d, e.reqs[id])[n..n + |ys|]
    ensures var r := e.reqs[id];
      var n := Held(e.arena, r) + |ys|;
      var f := Feed(d, e.arena, r.cache.value, ys, e.fuel);
      && ExecOk(d, e.reqs, f.arena, live, hs', {id})
      && (forall j :: j in live && j != id && j in e.reqs ==> Held(f.arena, e.reqs[j]) == Held(e.arena, e.reqs[j]))
      && (f.error.None? ==>
            && ExecOk(d, e.reqs, f.arena, live, hs', {}) && Held(f.arena, r) == n
            && f.hidden != [] && d.pick(Last(f.hidden)) == Next(d, Fed(d, r)[..n]))
  {
    hide ArenaOk, History, Fed, Next, Feed, Moved, NoStrays;
    OkSize(d, e.arena, hs);
    var r := e.reqs[id];
    var xs := Fed(d, r)[..Held(e.arena, r)];
    assert xs + ys == Fed(d, r)[..Held(e.arena, r) + |ys|];
    assert Owns(d, r, e.arena, hs);
    hs' := FeedCorrect(d, e.arena, hs, r.cache.value, xs, ys, e.fuel);
    var f := Feed(d, e.arena, r.cache.value, ys, e.fuel);
    OkSize(d, f.arena, hs');
    OthersKeep(d, e.reqs, e.arena, f.arena, live, hs, hs', id, {});
    assert {} + {id} == {id};
  }

  lemma PrefillOne(d: Decoder, chunk: nat, e: Exec, live: seq<Id>, hs: seq<Hist>, id: Id) returns (hs': seq<Hist>)
    requires ExecOk(d, e.reqs, e.arena, live, hs, {}) && id in live && id in e.reqs && e.error.None?
    requires e.reqs[id].id == id && e.reqs[id].state == Prefilling && Ready(d, e.reqs[id], e.arena) && Fresh(e.out, id)
    ensures var e' := ExecPrefill(d, chunk, e, id);
      && OnlyTouched(e, e', id, live) && id in e'.reqs
      && e'.reqs[id] == e.reqs[id].(cache := e'.reqs[id].cache)
      && ExecOk(d, e'.reqs, e'.arena, live, hs', if e'.error.None? then {} else {id})
      && (e'.error.None? ==> Reported(d, chunk, e.reqs[id], e'.reqs[id], e'.arena, e'.out))
  {
    hide ExecOk, Fed, Next, Feed, Held, PromptInputs, CacheFor, WellFormed;
    hs' := CacheForOk(d, e, live, hs, id);
    var e1 := CacheFor(e, id);
    var r := e1.reqs[id];
    assert WellFormed(r) by { SameShape(e.reqs[id], r); }
    var n := ChunkLength(chunk, r);
    if n > 0 {
      var ys := Slice(PromptInputs(d, r), r.offset, r.offset + n);
      PromptSlice(d, r, n);
      hs' := FeedOne(d, e1, live, hs', id, ys);
    }
    SameFed(d, e.reqs[id], r);
  }

  /** Unless it fails, a prefill turn consumes something exactly when prompt is left: a request with an
      empty prompt is scheduled again and again and never advances. */
  lemma PrefillAdvancesIff(d: Decoder, chunk: nat, e: Exec, id: Id)
    requires e.error.None? && Fresh(e.out, id)
    ensures var r := At(e.reqs, id);
      var e' := ExecPrefill(d, chunk, e, id);
      && (e'.error.None? ==> (id in e'.out.prefilled <==> r.offset < |r.prompt| && chunk > 0))
      && (r.offset >= |r.prompt| ==> e'.error.None? && e'.out == e.out)
  {
    hide Feed, Call, PromptInputs;
  }

  lemma SameShape(r: Request, r': Request)
    requires WellFormed(r) && r' == r.(cache := r'.cache)
    ensures WellFormed(r')
  {
  }

  lemma SameFed(d: Decoder, r: Request, r': Request)
    requires r' == r.(cache := r'.cache)
    ensures Fed(d, r) == Fed(d, r')
  {
  }

  lemma PromptSlice(d: Decoder, r: Request, n: int)
    requires WellFormed(r) && r.gen == [] && 0 < n && r.offset + n <= |r.prompt|
    ensures var ys := Slice(PromptInputs(d, r), r.offset, r.offset + n);
      |ys| == n && |Fed(d, r)| == |r.prompt| && ys == Fed(d, r)[r.offset..r.offset + n]
    ensures Fed(d, r)[..|r.prompt|] == Fed(d, r)
  {
    assert Fed(d, r) == PromptInputs(d, r);
  }

  lemma DecodeOne(d: Decoder, chunk: nat, e: Exec, live: seq<Id>, hs: seq<Hist>, id: Id) returns (hs': seq<Hist>)
    requires ExecOk(d, e.reqs, e.arena, live, hs, {}) && id in live && id in e.reqs && e.error.None?
    requires e.reqs[id].id == id && e.reqs[id].state == Decoding && Ready(d, e.reqs[id], e.arena) && Fresh(e.out, id)
    ensures var e' := ExecDecode(d, e, id);
      && OnlyTouched(e, e', id, live) && id in e'.reqs
      && e'.reqs[id] == e.reqs[id].(cache := e'.reqs[id].cache)
      && ExecOk(d, e'.reqs, e'.arena, live, hs', if e'.error.None? then {} else {id})
      && (e'.error.None? ==> Reported(d, chunk, e.reqs[id], e'.reqs[id], e'.arena, e'.out))
  {
    hide ExecOk, Fed, Next, Feed, Held;
    hs' := CacheForOk(d, e, live, hs, id);
    var e1 := CacheFor(e, id);
    var r := e1.reqs[id];
    LastFed(d, r);
    hs' := FeedOne(d, e1, live, hs', id, [d.embed(r.gen[|r.gen| - 1])]);
    SameFed(d, e.reqs[id], r);
  }

  lemma LastFed(d: Decoder, r: Request)
    requires r.gen != []
    ensures |Fed(d, r)| > 0
    ensures var n := |Fed(d, r)| - 1;
      [d.embed(r.gen[|r.gen| - 1])] == Fed(d, r)[n..n + 1] && Fed(d, r)[..n + 1] == Fed(d, r)
  {
  }

  // ------------------------------------------------------------------------------- the batch

  ghost predicate BatchReady(d: Decoder, e: Exec, live: seq<Id>, ids: seq<Id>, state: State) {
    && Distinct(ids)
    && forall id :: id in ids ==>
         && id in live && id in e.reqs && e.reqs[id].id == id && e.reqs[id].state == state
         && Ready(d, e.reqs[id], e.arena) && Fresh(e.out, id)
  }

  /** What running some of the live requests leaves alone. */
  ghost predicate Touched(e: Exec, e': Exec, ids: seq<Id>, live: seq<Id>) {
    && e'.reqs.Keys == e.reqs.Keys
    && (forall j :: j in e.reqs ==> e'.reqs[j] == e.reqs[j].(cache := e'.reqs[j].cache) && (j !in ids ==> e'.reqs[j] == e.reqs[j]))
    && (forall j :: j in live && j in e.reqs && j !in ids ==> Held(e'.arena, e'.reqs[j]) == Held(e.arena, e.reqs[j]))
    && (forall j :: j !in ids ==> (j in e'.out.prefilled <==> j in e.out.prefilled) && (j in e'.out.tokens <==> j in e.out.tokens))
    && (forall j :: j !in ids && j in e.out.prefilled ==> e'.out.prefilled[j] == e.out.prefilled[j])
    && (forall j :: j !in ids && j in e.out.tokens ==> e'.out.tokens[j] == e.out.tokens[j])
  }

  ghost predicate AllReported(d: Decoder, chunk: nat, e: Exec, e': Exec, ids: seq<Id>) {
    forall id :: id in ids ==>
      && id in e.reqs && id in e'.reqs
      && WellFormed(e.reqs[id]) && (e.reqs[id].state == Decoding ==> e.reqs[id].gen != [])
      && Reported(d, chunk, e.reqs[id], e'.reqs[id], e'.arena, e'.out)
  }

  lemma ReadyMeans(d: Decoder, r: Request, a: Arena)
    requires Ready(d, r, a)
    ensures WellFormed(r) && (r.state == Decoding ==> r.gen != [])
  {
  }

  lemma TouchedNone(e: Exec, live: seq<Id>)
    ensures Touched(e, e, [], live)
  {
  }

  lemma TouchedPush1(e: Exec, e1: Exec, ids: seq<Id>, live: seq<Id>)
    requires ids != [] && ids[0] in e.reqs && OnlyTouched(e, e1, ids[0], live)
    requires ids[0] in e1.reqs && e1.reqs[ids[0]] == e.reqs[ids[0]].(cache := e1.reqs[ids[0]].cache)
    ensures Touched(e, e1, ids, live)
  {
    hide Held;
  }

  lemma TouchedPush(e: Exec, e1: Exec, e': Exec, ids: seq<Id>, live: seq<Id>)
    requires ids != [] && ids[0] in e.reqs && OnlyTouched(e, e1, ids[0], live)
    requires ids[0] in e1.reqs && e1.reqs[ids[0]] == e.reqs[ids[0]].(cache := e1.reqs[ids[0]].cache)
    requires Touched(e1, e', ids[1..], live)
    ensures Touched(e, e', ids, live)
  {
    hide Held;
    assert forall j :: j !in ids ==> j != ids[0] && j !in ids[1..];
  }

  lemma BadGrows(d: Decoder, reqs: map<Id, Request>, a: Arena, live: seq<Id>, hs: seq<Hist>, bad: set<Id>, more: set<Id>)
    requires ExecOk(d, reqs, a, live, hs, bad) && bad <= more
    ensures ExecOk(d, reqs, a, live, hs, more)
  {
    hide ArenaOk, OwnCaches, NoStrays, Owns;
  }

  lemma ReadyStays(d: Decoder, e: Exec, e1: Exec, live: seq<Id>, ids: seq<Id>, state: State)
    requires BatchReady(d, e, live, ids, state) && ids != [] && OnlyTouched(e, e1, ids[0], live)
    ensures BatchReady(d, e1, live, ids[1..], state)
  {
    hide Fed, Held;
    forall id | id in ids[1..] ensures id in ids && id != ids[0] {
      var k :| 0 <= k < |ids[1..]| && ids[1..][k] == id;
      assert ids[k + 1] == id;
    }
  }

  lemma ReportedPush(d: Decoder, chunk: nat, e: Exec, e1: Exec, e': Exec, ids: seq<Id>, live: seq<Id>)
    requires ids != [] && ids[0] in e.reqs && OnlyTouched(e, e1, ids[0], live) && Distinct(ids) && ids[0] in live
    requires WellFormed(e.reqs[ids[0]]) && (e.reqs[ids[0]].state == Decoding ==> e.reqs[ids[0]].gen != [])
    requires ids[0] in e1.reqs && e.reqs[ids[0]].id == ids[0]
    requires Reported(d, chunk, e.reqs[ids[0]], e1.reqs[ids[0]], e1.arena, e1.out)
    requires Touched(e1, e', ids[1..], live) && AllReported(d, chunk, e1, e', ids[1..])
    ensures AllReported(d, chunk, e, e', ids)
  {
    hide Fed, Held, Next;
    var id := ids[0];
    assert id !in ids[1..];
    forall j | j in ids[1..] ensures e1.reqs[j] == e.reqs[j] {
      assert j != id;
    }
    ReportedStays(d, chunk, e, e1, e', id, ids[1..], live);
  }

  lemma ReportedStays(d: Decoder, chunk: nat, e: Exec, e1: Exec, e': Exec, id: Id, rest: seq<Id>, live: seq<Id>)
    requires id in e.reqs && id in e1.reqs && e.reqs[id].id == id && id !in rest && id in live
    requires WellFormed(e.reqs[id]) && (e.reqs[id].state == Decoding ==> e.reqs[id].gen != [])
    requires Reported(d, chunk, e.reqs[id], e1.reqs[id], e1.arena, e1.out)
    requires Touched(e1, e', rest, live)
    ensures id in e'.reqs && Reported(d, chunk, e.reqs[id], e'.reqs[id], e'.arena, e'.out)
  {
    hide Fed, Next, Held;
  }

  lemma {:induction false} PrefillsOk(d: Decoder, chunk: nat, e: Exec, live: seq<Id>, hs: seq<Hist>, ids: seq<Id>) returns (hs': seq<Hist>)
    requires ExecOk(d, e.reqs, e.arena, live, hs, {}) && e.error.None?
    requires BatchReady(d, e, live, ids, Prefilling)
    ensures var e' := ExecPrefills(d, chunk, e, ids);
      && Touched(e, e', ids, live)
      && ExecOk(d, e'.reqs, e'.arena, live, hs', if e'.error.None? then {} else set id | id in ids)
      && (e'.error.None? ==> AllReported(d, chunk, e, e', ids))
    decreases |ids|
  {
    hide ExecOk, OnlyTouched, Ready, Reported, Held, ExecPrefill;
    if ids == [] {
      hs' := hs;
      TouchedNone(e, live);
    } else {
      var id := ids[0];
      assert id in ids;
      ReadyMeans(d, e.reqs[id], e.arena);
      hs' := PrefillOne(d, chunk, e, live, hs, id);
      var e1 := ExecPrefill(d, chunk, e, id);
      if e1.error.None? {
        ReadyStays(d, e, e1, live, ids, Prefilling);
        hs' := PrefillsOk(d, chunk, e1, live, hs', ids[1..]);
        var e' := ExecPrefills(d, chunk, e, ids);
        TouchedPush(e, e1, e', ids, live);
        if e'.error.None? {
          ReportedPush(d, chunk, e, e1, e', ids, live);
        } else {
          BadGrows(d, e'.reqs, e'.arena, live, hs', set x | x in ids[1..], set x | x in ids);
        }
      } else {
        StuckPrefillsOk(d, chunk, e1, ids[1..]);
        TouchedPush1(e, e1, ids, live);
        BadGrows(d, e1.reqs, e1.arena, live, hs', {id}, set x | x in ids);
      }
    }
  }

  lemma {:induction false} StuckPrefillsOk(d: Decoder, chunk: nat, e: Exec, ids: seq<Id>)
    requires e.error.Some?
    ensures ExecPrefills(d, chunk, e, ids) == e
    decreases |ids|
  {
    if ids != [] {
      StuckPrefillsOk(d, chunk, e, ids[1..]);
    }
  }

  lemma {:induction false} DecodesOk(d: Decoder, chunk: nat, e: Exec, live: seq<Id>, hs: seq<Hist>, ids: seq<Id>) returns (hs': seq<Hist>)
    requires ExecOk(d, e.reqs, e.arena, live, hs, {}) && e.error.None?
    requires BatchReady(d, e, live, ids, Decoding)
    ensures var e' := ExecDecodes(d, e, ids);
      && Touched(e, e', ids, live)
      && ExecOk(d, e'.reqs, e'.arena, live, hs', if e'.error.None? then {} else set id | id in ids)
      && (e'.error.None? ==> AllReported(d, chunk, e, e', ids))
    decreases |ids|
  {
    hide ExecOk, OnlyTouched, Ready, Reported, Held, ExecDecode;
    if ids == [] {
      hs' := hs;
      TouchedNone(e, live);
    } else {
      var id := ids[0];
      assert id in ids;
      ReadyMeans(d, e.reqs[id], e.arena);
      hs' := DecodeOne(d, chunk, e, live, hs, id);
      var e1 := ExecDecode(d, e, id);
      if e1.error.None? {
        ReadyStays(d, e, e1, live, ids, Decoding);
        hs' := DecodesOk(d, chunk, e1, live, hs', ids[1..]);
        var e' := ExecDecodes(d, e, ids);
        TouchedPush(e, e1, e', ids, live);
        if e'.error.None? {
          ReportedPush(d, chunk, e, e1, e', ids, live);
        } else {
          BadGrows(d, e'.reqs, e'.arena, live, hs', set x | x in ids[1..], set x | x in ids);
        }
      } else {
        StuckDecodesOk(d, chunk, e1, ids[1..]);
        TouchedPush1(e, e1, ids, live);
        BadGrows(d, e1.reqs, e1.arena, live, hs', {id}, set x | x in ids);
      }
    }
  }

  lemma {:induction false} StuckDecodesOk(d: Decoder, chunk: nat, e: Exec, ids: seq<Id>)
    requires e.error.Some?
    ensures ExecDecodes(d, e, ids) == e
    decreases |ids|
  {
    if ids != [] {
      StuckDecodesOk(d, chunk, e, ids[1..]);
    }
  }

  /** A whole batch: without a fault every member's report is its own greedy continuation; with one,
      everybody outside the batch is untouched and the batch's caches can still be freed. */
  lemma BatchCorrect(d: Decoder, cfg: Config, sys: Sys, b: Batch, hs: seq<Hist>, fuel: nat) returns (hs': seq<Hist>)
    requires ExecOk(d, sys.reqs, sys.arena, sys.running, hs, {})
    requires Distinct(b.prefill + b.decode)
    requires forall id :: id in b.prefill + b.decode ==>
      && id in sys.running && id in sys.reqs && sys.reqs[id].id == id && Ready(d, sys.reqs[id], sys.arena)
      && sys.reqs[id].state == if id in b.prefill then Prefilling else Decoding
    ensures var e := Exec(sys.reqs, sys.arena, Output(map[], map[]), fuel, None);
      var e' := Execute(d, cfg, sys, b, fuel);
      var ids := b.prefill + b.decode;
      && Touched(e, e', ids, sys.running)
      && ExecOk(d, e'.reqs, e'.arena, sys.running, hs', if e'.error.None? then {} else set id | id in ids)
      && (e'.error.None? ==> AllReported(d, cfg.chunk, e, e', ids))
  {
    hide ExecOk, Ready, Reported, Held, ExecPrefills, ExecDecodes;
    var e := Exec(sys.reqs, sys.arena, Output(map[], map[]), fuel, None);
    var ids := b.prefill + b.decode;
    PartsDistinct(b.prefill, b.decode);
    forall id | id in b.prefill || id in b.decode ensures id in ids && (id in b.decode ==> id !in b.prefill) {
      assert id in ids;
    }
    hs' := PrefillsOk(d, cfg.chunk, e, sys.running, hs, b.prefill);
    var e1 := ExecPrefills(d, cfg.chunk, e, b.prefill);
    if e1.error.None? {
      DecodesReady(d, e, e1, sys.running, b);
      hs' := DecodesOk(d, cfg.chunk, e1, sys.running, hs', b.decode);
      var e' := ExecDecodes(d, e1, b.decode);
      TouchedJoin(e, e1, e', b.prefill, b.decode, sys.running);
      if e'.error.None? {
        ReportedJoin(d, cfg.chunk, e, e1, e', b, sys.running);
      } else {
        BadGrows(d, e'.reqs, e'.arena, sys.running, hs', set x | x in b.decode, set x | x in ids);
      }
    } else {
      StuckDecodesOk(d, cfg.chunk, e1, b.decode);
      TouchedJoin(e, e1, e1, b.prefill, b.decode, sys.running);
      BadGrows(d, e1.reqs, e1.arena, sys.running, hs', set x | x in b.prefill, set x | x in ids);
    }
  }

  lemma PartsDistinct(a: seq<Id>, b: seq<Id>)
    requires Distinct(a + b)
    ensures Distinct(a) && Distinct(b) && forall id :: id in a ==> id !in b
  {
    var c := a + b;
    assert forall i :: 0 <= i < |a| ==> c[i] == a[i];
    assert forall i :: 0 <= i < |b| ==> c[|a| + i] == b[i];
  }

  lemma DecodesReady(d: Decoder, e: Exec, e1: Exec, live: seq<Id>, b: Batch)
    requires Touched(e, e1, b.prefill, live) && Distinct(b.decode) && e.out == Output(map[], map[])
    requires forall id :: id in b.decode ==>
      && id !in b.prefill && id in live && id in e.reqs && e.reqs[id].id == id && Ready(d, e.reqs[id], e.arena)
      && e.reqs[id].state == Decoding
    ensures BatchReady(d, e1, live, b.decode, Decoding)
  {
    hide Fed, Held;
  }

  lemma TouchedJoin(e: Exec, e1: Exec, e': Exec, a: seq<Id>, b: seq<Id>, live: seq<Id>)
    requires Touched(e, e1, a, live)
    requires Touched(e1, e', b, live) || e' == e1
    ensures Touched(e, e', a + b, live)
  {
    hide Held;
    assert forall j :: j !in a + b ==> j !in a && j !in b;
  }

  lemma ReportedJoin(d: Decoder, chunk: nat, e: Exec, e1: Exec, e': Exec, b: Batch, live: seq<Id>)
    requires forall id :: id in b.prefill + b.decode ==> id in live && id in e.reqs && e.reqs[id].id == id
    requires forall id :: id in b.decode ==> id !in b.prefill
    requires Touched(e, e1, b.prefill, live) && Touched(e1, e', b.decode, live)
    requires AllReported(d, chunk, e, e1, b.prefill) && AllReported(d, chunk, e1, e', b.decode)
    ensures AllReported(d, chunk, e, e', b.prefill + b.decode)
  {
    hide Reported, Held, Next, Fed;
    forall id | id in b.prefill + b.decode
      ensures id in e.reqs && id in e'.reqs
      ensures WellFormed(e.reqs[id]) && (e.reqs[id].state == Decoding ==> e.reqs[id].gen != [])
      ensures Reported(d, chunk, e.reqs[id], e'.reqs[id], e'.arena, e'.out)
    {
      if id in b.prefill {
        ReportedStays(d, chunk, e, e1, e', id, b.decode, live);
      } else {
        assert id in b.decode;
      }
    }
  }
}

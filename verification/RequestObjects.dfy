/** The request object (edgerag/sched/request.py): progress fields changed by methods. */
module RequestObjects {
  import opened Common
  import opened Tensors
  import opened Decoders
  import R = Requests

  class RequestObject {
    const id: R.Id
    const prompt: seq<Token>
    const embeds: Option<seq<Hidden>>
    const maxNew: nat
    var state: R.State
    var offset: nat
    var gen: seq<Token>
    var cache: Option<nat>
    var preemptions: nat

    constructor (id: R.Id, prompt: seq<Token>, embeds: Option<seq<Hidden>>, maxNew: nat)
      ensures View() == R.Request(id, prompt, embeds, maxNew, R.Waiting, 0, [], None, 0)
    {
      this.id, this.prompt, this.embeds, this.maxNew := id, prompt, embeds, maxNew;
      state, offset, gen, cache, preemptions := R.Waiting, 0, [], None, 0;
    }

    function View(): R.Request
      reads this
    {
      R.Request(id, prompt, embeds, maxNew, state, offset, gen, cache, preemptions)
    }

    /** The next slice of prompt, without advancing: a failed forward leaves no progress behind. */
    method NextPrefillChunk(size: int) returns (r: Result<seq<Token>>)
      ensures r == R.NextPrefillChunk(View(), size)
      ensures r.Err? <==> size <= 0
    {
      if size <= 0 {
        return Err(ValueError);
      }
      var end := Min(offset + size, |prompt|);
      return Ok(if offset < end then prompt[offset..end] else []);
    }

    method AdvancePrefill(n: int) returns (r: Result<()>)
      modifies this`offset
      ensures match R.AdvancePrefill(old(View()), n)
        case Ok(q) => r.Ok? && View() == q
        case Err(e) => r == Err(e) && View() == old(View())
      ensures r.Ok? <==> n >= 0 && old(offset) + n <= |prompt|
      ensures offset == old(offset) + if r.Ok? then n else 0
    {
      if n < 0 {
        return Err(ValueError);
      }
      if offset + n > |prompt| {
        return Err(ValueError);
      }
      offset := offset + n;
      return Ok(());
    }

    method AppendToken(token: Token)
      modifies this`gen
      ensures View() == old(View()).(gen := old(gen) + [token])
    {
      gen := gen + [token];
    }

    /** Prefill progress is kept: a swapped request still has its KV. */
    method MarkPreempted()
      modifies this`state, this`preemptions
      ensures View() == old(View()).(state := R.Swapped, preemptions := old(preemptions) + 1)
    {
      state := R.Swapped;
      preemptions := preemptions + 1;
    }

    method ResetForRecompute()
      modifies this`offset, this`cache, this`state
      ensures View() == old(View()).(offset := 0, cache := None, state := R.Waiting)
    {
      offset, cache, state := 0, None, R.Waiting;
    }
  }
}

/** The token cursor of reader.ts (`class Reader`, lines 7-23). */
module Cursor {
  import opened Ast

  /** The token at position `p`, or `None` (JavaScript `undefined`) when `p`
      is past the end of the array. */
  function TokenAt(ts: seq<string>, p: nat): (t: Option<string>)
    ensures t.Some? <==> p < |ts|
    ensures t.Some? ==> t.value == ts[p]
  {
    if p < |ts| then Some(ts[p]) else None
  }

  /** A cursor over a copied token array. `position` only ever grows and may
      run past the end of `tokens`. */
  class Reader {
    const tokens: seq<string>
    var position: nat

    /** The token under the cursor, as `peek` sees it. */
    function Current(): Option<string>
      reads this
    {
      TokenAt(tokens, position)
    }

    constructor(tokens: seq<string>)
      ensures this.tokens == tokens && position == 0
    {
      this.tokens := tokens;
      position := 0;
    }

    /** `next`: the token under the cursor, then one step forward. */
    method Next() returns (t: Option<string>)
      modifies this
      ensures t == old(Current())
      ensures position == old(position) + 1
    {
      t := TokenAt(tokens, position);
      position := position + 1;
    }

    /** `peek`: the token under the cursor; the cursor does not move. */
    method Peek() returns (t: Option<string>)
      ensures t == Current()
    {
      t := TokenAt(tokens, position);
    }
  }
}

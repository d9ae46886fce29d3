/**
 * The v3 generator (`generate_v3`, `v3_gen.generates`), which is not part
 * of this model: an opaque source of tokens, given here as the sequence of
 * tokens it will yield. A generator with no tokens left raises.
 */
module Generator {
  import opened Wrappers

  class TokenSupply {
    var tokens: seq<string>

    constructor (tokens: seq<string>)
      ensures this.tokens == tokens
    {
      this.tokens := tokens;
    }

    /** One call of the generator: the next token, or None when it raises. */
    method Next() returns (r: Option<string>)
      modifies this
      ensures old(tokens) == [] ==> r.None? && tokens == []
      ensures old(tokens) != [] ==> r == Some(old(tokens)[0]) && tokens == old(tokens)[1..]
    {
      if tokens == [] {
        r := None;
      } else {
        r := Some(tokens[0]);
        tokens := tokens[1..];
      }
    }
  }
}

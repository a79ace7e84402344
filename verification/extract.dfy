/**
 * `extract`: flatten a token range to its leaves and replace the text of
 * every whitespace leaf by a single space. Each whitespace leaf is replaced
 * on its own, so a run of several whitespace leaves becomes as many spaces.
 */
module Extraction {
  import opened Tokens

  /** One leaf after normalisation: whitespace becomes a single space, anything else is kept. */
  function Blank(t: Token): Token
  {
    if t.Leaf? && t.kind == Whitespace then Leaf(Whitespace, " ") else t
  }

  /** The leaf-by-leaf rewrite that `extract` performs on the flattened list. */
  function Blanked(leaves: seq<Token>): seq<Token>
  {
    seq(|leaves|, i requires 0 <= i < |leaves| => Blank(leaves[i]))
  }

  /** The token list `extract` returns for a range. */
  function Normalized(ts: seq<Token>): (r: seq<Token>)
    ensures |r| == |Flatten(ts)|
    ensures AllLeaves(r)
  {
    Blanked(Flatten(ts))
  }

  /** The text of what `extract` returns for a range (`extract(...).value`). */
  function Render(ts: seq<Token>): (r: string)
    ensures ts == [] ==> r == ""
    ensures |ts| == 1 && ts[0].Leaf? ==> r == if ts[0].kind == Whitespace then " " else ts[0].text
  {
    RenderBaseCases(ts);
    Join(Normalized(ts))
  }

  /** The text of `extract` on an empty range, and on a single leaf. */
  lemma RenderBaseCases(ts: seq<Token>)
    ensures ts == [] ==> Join(Normalized(ts)) == ""
    ensures |ts| == 1 && ts[0].Leaf? ==>
              Join(Normalized(ts)) == if ts[0].kind == Whitespace then " " else ts[0].text
  {
    if |ts| == 1 && ts[0].Leaf? {
      FlattenLeaves(ts);
      assert Normalized(ts) == [Blank(ts[0])];
      JoinSingle(Blank(ts[0]));
    }
  }

  /** The loop of `extract`: rewrite every whitespace leaf of the list in place. */
  method BlankWhitespace(leaves: array<Token>)
    modifies leaves
    ensures leaves[..] == Blanked(old(leaves[..]))
  {
    for i := 0 to leaves.Length
      invariant forall j :: 0 <= j < i ==> leaves[j] == Blank(old(leaves[j]))
      invariant forall j :: i <= j < leaves.Length ==> leaves[j] == old(leaves[j])
    {
      if leaves[i].Leaf? && leaves[i].kind == Whitespace {
        leaves[i] := Leaf(Whitespace, " ");
      }
    }
  }

  /** `extract`: flatten the range into a fresh list, then normalise its whitespace leaves. */
  method Extract(ts: seq<Token>) returns (r: seq<Token>)
    ensures r == Normalized(ts)
  {
    var flat := Flatten(ts);
    var leaves := new Token[|flat|](i requires 0 <= i < |flat| => flat[i]);
    BlankWhitespace(leaves);
    r := leaves[..];
  }

  /**
   * `extract` yields exactly the leaves of its input, in order and with the
   * same count: each whitespace leaf as a single space, each other leaf unchanged.
   */
  lemma ExtractKeepsLeaves(ts: seq<Token>)
    ensures |Normalized(ts)| == |Flatten(ts)|
    ensures AllLeaves(Normalized(ts))
    ensures forall i :: 0 <= i < |Flatten(ts)| && Flatten(ts)[i].kind == Whitespace ==>
              Normalized(ts)[i] == Leaf(Whitespace, " ")
    ensures forall i :: 0 <= i < |Flatten(ts)| && Flatten(ts)[i].kind != Whitespace ==>
              Normalized(ts)[i] == Flatten(ts)[i]
  {
  }

  /** Applying `extract` to what `extract` returned changes nothing. */
  lemma ExtractIdempotent(ts: seq<Token>)
    ensures Normalized(Normalized(ts)) == Normalized(ts)
  {
    var once := Normalized(ts);
    ExtractKeepsLeaves(ts);
    FlattenLeaves(once);
    assert Normalized(once) == Blanked(once);
    assert forall i :: 0 <= i < |once| ==> Blank(once[i]) == once[i];
  }

  /** Extraction works range by range: the list for `a + b` is the list for `a` followed by that for `b`. */
  lemma ExtractAppend(a: seq<Token>, b: seq<Token>)
    ensures Normalized(a + b) == Normalized(a) + Normalized(b)
  {
    FlattenAppend(a, b);
  }

  /** The text for `a + b` is the text for `a` followed by the text for `b`. */
  lemma RenderAppend(a: seq<Token>, b: seq<Token>)
    ensures Render(a + b) == Render(a) + Render(b)
  {
    ExtractAppend(a, b);
    JoinAppend(Normalized(a), Normalized(b));
  }

  /** Extracting the leaf list `extract` returned again gives the same text. */
  lemma RenderIdempotent(ts: seq<Token>)
    ensures Render(Normalized(ts)) == Render(ts)
  {
    ExtractIdempotent(ts);
  }

  /** Whitespace runs are not collapsed: a newline leaf followed by a spaces leaf gives two spaces. */
  lemma AdjacentWhitespaceKept()
    ensures Render([Leaf(Whitespace, "\n"), Leaf(Whitespace, "    ")]) == "  "
  {
    var ts := [Leaf(Whitespace, "\n"), Leaf(Whitespace, "    ")];
    FlattenLeaves(ts);
    assert Normalized(ts) == [Leaf(Whitespace, " "), Leaf(Whitespace, " ")];
  }
}

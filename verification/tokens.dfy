/**
 * The token tree the SQL tokenizer hands to the clause extractor.
 *
 * A statement is a sequence of top-level tokens. A token is either a leaf,
 * which carries a kind and its literal text, or a group (a WHERE clause, an
 * identifier, an identifier list, or any other grouping the tokenizer makes),
 * which owns an ordered sequence of child tokens. The tokenizer itself is not
 * part of this model: its output is an input here.
 */
module Tokens {

  /** Kinds of leaf tokens that the extractor tells apart; every other lexical class is `Other`. */
  datatype LeafKind = Keyword | DML | Whitespace | Punctuation | Other

  /** Kinds of group tokens that the extractor tells apart. */
  datatype GroupKind = Where | Identifier | IdentifierList | OtherGroup

  datatype Token =
    | Leaf(kind: LeafKind, text: string)
    | Group(group: GroupKind, children: seq<Token>)

  /** Upper-casing of one character (ASCII letters only). */
  function UpperChar(c: char): char
  {
    if 'a' <= c <= 'z' then (c as int - 32) as char else c
  }

  /** Upper-casing of a keyword's text, character by character. */
  function Upper(s: string): (r: string)
    ensures |r| == |s|
    ensures forall i :: 0 <= i < |s| ==> r[i] == UpperChar(s[i])
  {
    seq(|s|, i requires 0 <= i < |s| => UpperChar(s[i]))
  }

  /**
   * The leaves of a token range, depth first and left to right: the
   * tokenizer's `flatten`.
   */
  function Flatten(ts: seq<Token>): (leaves: seq<Token>)
    ensures forall i :: 0 <= i < |leaves| ==> leaves[i].Leaf?
    decreases ts
  {
    if ts == [] then []
    else
      var head := match ts[0]
        case Leaf(_, _) => [ts[0]]
        case Group(_, children) => Flatten(children);
      head + Flatten(ts[1..])
  }

  /** The text of a token range: the concatenated text of all its leaves. */
  function Join(ts: seq<Token>): string
    decreases ts
  {
    if ts == [] then ""
    else
      var head := match ts[0]
        case Leaf(_, text) => text
        case Group(_, children) => Join(children);
      head + Join(ts[1..])
  }

  /** The text of one token (the tokenizer's `value`, fixed when the statement is parsed). */
  function Value(t: Token): (r: string)
    ensures t.Leaf? ==> r == t.text
    ensures t.Group? ==> r == Join(t.children)
  {
    JoinSingle(t);
    Join([t])
  }

  /** The text of a one-token range is the leaf's own text, or the text of the group's children. */
  lemma JoinSingle(t: Token)
    ensures Join([t]) == if t.Leaf? then t.text else Join(t.children)
  {
    var head := if t.Leaf? then t.text else Join(t.children);
    assert [t][1..] == [];
    assert head + "" == head;
  }

  predicate AllLeaves(ts: seq<Token>)
  {
    forall i :: 0 <= i < |ts| ==> ts[i].Leaf?
  }

  /** Flattening distributes over concatenation of token ranges. */
  lemma {:induction false} FlattenAppend(a: seq<Token>, b: seq<Token>)
    ensures Flatten(a + b) == Flatten(a) + Flatten(b)
    decreases |a|
  {
    if a == [] {
      assert a + b == b;
    } else {
      assert (a + b)[0] == a[0];
      assert (a + b)[1..] == a[1..] + b;
      FlattenAppend(a[1..], b);
    }
  }

  /** A range that holds only leaves flattens to itself. */
  lemma {:induction false} FlattenLeaves(ts: seq<Token>)
    requires AllLeaves(ts)
    ensures Flatten(ts) == ts
    decreases |ts|
  {
    if ts != [] {
      FlattenLeaves(ts[1..]);
    }
  }

  /** The text of a concatenation is the concatenation of the texts. */
  lemma {:induction false} JoinAppend(a: seq<Token>, b: seq<Token>)
    ensures Join(a + b) == Join(a) + Join(b)
    decreases |a|
  {
    if a == [] {
      assert a + b == b;
    } else {
      assert (a + b)[0] == a[0];
      assert (a + b)[1..] == a[1..] + b;
      JoinAppend(a[1..], b);
    }
  }

  /** A group flattens to the leaves of its children. */
  lemma FlattenGroup(g: GroupKind, children: seq<Token>)
    ensures Flatten([Group(g, children)]) == Flatten(children)
  {
    assert [Group(g, children)][1..] == [];
  }

  /** Flattening keeps the text: the leaves of a range spell the same text as the range. */
  lemma {:induction false} JoinFlatten(ts: seq<Token>)
    ensures Join(Flatten(ts)) == Join(ts)
    decreases ts
  {
    if ts != [] {
      var head := match ts[0]
        case Leaf(_, _) => [ts[0]]
        case Group(_, children) => Flatten(children);
      assert Flatten(ts) == head + Flatten(ts[1..]);
      JoinAppend(head, Flatten(ts[1..]));
      JoinFlatten(ts[1..]);
      JoinSingle(ts[0]);
      if ts[0].Group? {
        JoinFlatten(ts[0].children);
      }
      assert ts == [ts[0]] + ts[1..];
      JoinAppend([ts[0]], ts[1..]);
    }
  }
}

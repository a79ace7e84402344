/** Concrete statements, written out as the tokenizer's top-level tokens. */
module Scenarios {
  import opened Wrappers
  import opened Tokens
  import opened Extraction
  import opened Keywords
  import opened SqlParser

  const Space := Leaf(Whitespace, " ")

  /** `FROM t LIMIT 1 LIMIT`: a source clause followed by two LIMIT keywords. */
  const DuplicateLimit: seq<Token> := [
    Leaf(Keyword, "FROM"), Space, Leaf(Other, "t"), Space,
    Leaf(Keyword, "LIMIT"), Space, Leaf(Other, "1"), Space,
    Leaf(Keyword, "LIMIT")]

  /** The keyword table of `FROM t LIMIT 1 LIMIT` keeps the second LIMIT. */
  lemma DuplicateLimitTable()
    ensures Table(DuplicateLimit, AllSupportedKeywords) == map["FROM" := 0, "LIMIT" := 8]
  {
    var m := map["FROM" := 0, "LIMIT" := 8];
    assert Upper("FROM") == "FROM";
    assert Upper("LIMIT") == "LIMIT";
    assert forall j :: 0 <= j < |DuplicateLimit| ==>
      Mark(DuplicateLimit[j], AllSupportedKeywords) ==
        if j == 0 then Some("FROM") else if j == 4 || j == 8 then Some("LIMIT") else None;
    LastOccurrencesDetermineTable(DuplicateLimit, AllSupportedKeywords, m);
  }

  /** `SELECT a FROM t FETCH FIRST 5 ROWS ONLY`, with FETCH, FIRST, ROWS and ONLY tokenized as keywords. */
  const FetchFirst: seq<Token> := [
    Leaf(DML, "SELECT"), Space, Group(Identifier, [Leaf(Other, "a")]), Space,
    Leaf(Keyword, "FROM"), Space, Group(Identifier, [Leaf(Other, "t")]), Space,
    Leaf(Keyword, "FETCH"), Space, Leaf(Keyword, "FIRST"), Space, Leaf(Other, "5"), Space,
    Leaf(Keyword, "ROWS"), Space, Leaf(Keyword, "ONLY")]

  /**
   * Construction rejects `SELECT a FROM t FETCH FIRST 5 ROWS ONLY`: FETCH is
   * the first keyword outside the vocabulary.
   */
  lemma FetchFirstRejected()
    ensures Rejects(FetchFirst[8], AllSupportedKeywords)
    ensures forall j :: 0 <= j < 8 ==> !Rejects(FetchFirst[j], AllSupportedKeywords)
    ensures Upper(FetchFirst[8].text) == "FETCH"
  {
    assert Upper("FETCH") == "FETCH";
    assert Upper("FROM") == "FROM";
  }
}

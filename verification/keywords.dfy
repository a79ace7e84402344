/**
 * `find_keywords`: build the table from keyword to token offset for one
 * token sequence, optionally rejecting keywords outside the vocabulary.
 */
module Keywords {
  import opened Wrappers
  import opened Tokens

  /**
   * The exceptions the extractor raises: `find_keywords` raises
   * `UnsupportedKeyword`; the parser's queries raise the other two.
   */
  datatype Error =
    | UnsupportedKeyword(word: string)  // a keyword outside the vocabulary, in strict mode
    | MissingKeyword(key: string)       // a lookup of a keyword the statement does not have
    | NotAGroup                         // asking a leaf token for its children

  /**
   * The key a token records in the table, if any: a WHERE group records
   * "WHERE" (when that is in the vocabulary); a Keyword or DML leaf records
   * its upper-cased text when that is in the vocabulary.
   */
  function Mark(t: Token, supported: seq<string>): (key: Option<string>)
    ensures key.Some? ==> key.value in supported
  {
    match t
    case Group(group, _) =>
      if group == Where && "WHERE" in supported then Some("WHERE") else None
    case Leaf(kind, text) =>
      if (kind == Keyword || kind == DML) && Upper(text) in supported then Some(Upper(text)) else None
  }

  /** A token strict mode rejects: a Keyword leaf whose upper-cased text is outside the vocabulary. */
  predicate Rejects(t: Token, supported: seq<string>): (b: bool)
    ensures b ==> Mark(t, supported).None?
    ensures t.Leaf? && t.kind == Keyword ==> (b <==> Mark(t, supported).None?)
  {
    t.Leaf? && t.kind == Keyword && Upper(t.text) !in supported
  }

  /** The table after scanning `tokens` from left to right, a later match overwriting an earlier one. */
  function Table(tokens: seq<Token>, supported: seq<string>): (m: map<string, nat>)
    ensures forall k :: k in m ==> k in supported && m[k] < |tokens|
    decreases |tokens|
  {
    if |tokens| == 0 then map[]
    else
      var last := |tokens| - 1;
      var m := Table(tokens[..last], supported);
      match Mark(tokens[last], supported)
      case None => m
      case Some(k) => m[k := last]
  }

  /**
   * Every key of `m` sits at a token that records it, and no later token
   * records it again.
   */
  ghost predicate PointsAtLast(tokens: seq<Token>, supported: seq<string>, m: map<string, nat>)
  {
    forall k :: k in m ==>
      && m[k] < |tokens|
      && Mark(tokens[m[k]], supported) == Some(k)
      && forall j :: m[k] < j < |tokens| ==> Mark(tokens[j], supported) != Some(k)
  }

  /** Every key some token of `tokens` records is a key of `m`. */
  ghost predicate CoversMarks(tokens: seq<Token>, supported: seq<string>, m: map<string, nat>)
  {
    forall j :: 0 <= j < |tokens| && Mark(tokens[j], supported).Some? ==> Mark(tokens[j], supported).value in m
  }

  /**
   * `m` maps each key some token of `tokens` records to the offset of the
   * LAST token that records it, and has no other keys.
   */
  ghost predicate RecordsLastOccurrences(tokens: seq<Token>, supported: seq<string>, m: map<string, nat>)
  {
    PointsAtLast(tokens, supported, m) && CoversMarks(tokens, supported, m)
  }

  /** The table records, for every key, the offset of its last occurrence. */
  lemma {:induction false} TableRecordsLastOccurrences(tokens: seq<Token>, supported: seq<string>)
    ensures RecordsLastOccurrences(tokens, supported, Table(tokens, supported))
    decreases |tokens|
  {
    if |tokens| > 0 {
      var last := |tokens| - 1;
      var prefix := tokens[..last];
      var before := Table(prefix, supported);
      var m := Table(tokens, supported);
      TableRecordsLastOccurrences(prefix, supported);
      assert forall j :: 0 <= j < last ==> prefix[j] == tokens[j];
      var mark := Mark(tokens[last], supported);
      assert m == if mark.Some? then before[mark.value := last] else before;
      forall k | k in m
        ensures m[k] < |tokens| && Mark(tokens[m[k]], supported) == Some(k)
        ensures forall j :: m[k] < j < |tokens| ==> Mark(tokens[j], supported) != Some(k)
      {
        if mark != Some(k) {
          assert k in before && m[k] == before[k];
          assert Mark(prefix[before[k]], supported) == Some(k);
        }
      }
      forall j | 0 <= j < |tokens| && Mark(tokens[j], supported).Some?
        ensures Mark(tokens[j], supported).value in m
      {
        if j < last {
          assert Mark(prefix[j], supported).value in before;
        }
      }
    }
  }

  /**
   * Every entry of the table is a vocabulary keyword at a valid offset. It
   * points at a Keyword or DML leaf whose upper-cased text is the key, or,
   * for "WHERE", possibly at a WHERE group.
   */
  lemma TableEntryPointsAtKeyword(tokens: seq<Token>, supported: seq<string>, k: string)
    requires k in Table(tokens, supported)
    ensures k in supported && Table(tokens, supported)[k] < |tokens|
    ensures var t := tokens[Table(tokens, supported)[k]];
            || (t.Leaf? && (t.kind == Keyword || t.kind == DML) && Upper(t.text) == k)
            || (t.Group? && t.group == Where && k == "WHERE")
  {
    TableRecordsLastOccurrences(tokens, supported);
  }

  /** The last-occurrence description determines the table: any map meeting it is the table. */
  lemma LastOccurrencesDetermineTable(tokens: seq<Token>, supported: seq<string>, m: map<string, nat>)
    requires RecordsLastOccurrences(tokens, supported, m)
    ensures m == Table(tokens, supported)
  {
    var t := Table(tokens, supported);
    TableRecordsLastOccurrences(tokens, supported);
    forall k | k in m
      ensures k in t && t[k] == m[k]
    {
      assert Mark(tokens[m[k]], supported).value in t;
    }
    forall k | k in t
      ensures k in m
    {
      assert Mark(tokens[t[k]], supported).value in m;
    }
  }

  /**
   * `find_keywords(tokens, supported, raiseIfUnknown)`. In strict mode the
   * first rejected keyword aborts the scan; otherwise the scan always
   * finishes and yields the table.
   */
  method FindKeywords(tokens: seq<Token>, supported: seq<string>, raiseIfUnknown: bool)
    returns (r: Result<map<string, nat>, Error>)
    ensures r.Failure? <==> raiseIfUnknown && exists i :: 0 <= i < |tokens| && Rejects(tokens[i], supported)
    ensures r.Failure? ==>
              exists i :: 0 <= i < |tokens| && Rejects(tokens[i], supported)
                && (forall j :: 0 <= j < i ==> !Rejects(tokens[j], supported))
                && r.error == UnsupportedKeyword(Upper(tokens[i].text))
    ensures r.Success? ==> r.value == Table(tokens, supported)
  {
    var offsets: map<string, nat> := map[];
    var idx := 0;
    while idx < |tokens|
      invariant 0 <= idx <= |tokens|
      invariant offsets == Table(tokens[..idx], supported)
      invariant raiseIfUnknown ==> forall j :: 0 <= j < idx ==> !Rejects(tokens[j], supported)
    {
      var token := tokens[idx];
      if raiseIfUnknown && token.Leaf? && token.kind == Keyword && Upper(token.text) !in supported {
        return Failure(UnsupportedKeyword(Upper(token.text)));
      }
      if token.Group? && token.group == Where && "WHERE" in supported {
        offsets := offsets["WHERE" := idx];
      }
      if token.Leaf? && (token.kind == Keyword || token.kind == DML) && Upper(token.text) in supported {
        offsets := offsets[Upper(token.text) := idx];
      }
      assert tokens[..idx + 1][..idx] == tokens[..idx];
      idx := idx + 1;
    }
    assert tokens[..idx] == tokens;
    return Success(offsets);
  }
}

/**
 * `SqlParser`: a statement's top-level tokens together with its keyword
 * table, and the queries that cut clauses out of them.
 */
module SqlParser {
  import opened Wrappers
  import opened Tokens
  import opened Extraction
  import opened Keywords

  /** Keywords that come before the source clause. */
  const BeforeFromKeywords: seq<string> := ["SELECT"]

  /** Keywords of the source clause: FROM, the joins and the join conditions. */
  const FromKeywords: seq<string> :=
    ["FROM", "INNER JOIN", "CROSS JOIN", "LEFT OUTER JOIN", "RIGHT OUTER JOIN", "FULL OUTER JOIN", "ON", "AND", "OR"]

  /** Keywords that end the source clause. */
  const AfterFromKeywords: seq<string> :=
    ["WHERE", "GROUP", "BY", "HAVING", "ORDER", "UNION", "LIMIT", "OFFSET"]

  /** The whole vocabulary a statement may use. */
  const AllSupportedKeywords: seq<string> := BeforeFromKeywords + FromKeywords + AfterFromKeywords

  /** A parsed statement: its top-level tokens and its keyword table. */
  datatype Parser = Parser(tokens: seq<Token>, keywords: map<string, nat>)

  /** What construction establishes: the table is the strict scan of the tokens over the whole vocabulary. */
  ghost predicate Valid(p: Parser)
  {
    p.keywords == Table(p.tokens, AllSupportedKeywords)
  }

  /**
   * The constructor: scan the statement's tokens in strict mode with the
   * whole vocabulary, failing on the first unsupported keyword.
   */
  method Create(tokens: seq<Token>) returns (r: Result<Parser, Error>)
    ensures r.Success? <==> forall i :: 0 <= i < |tokens| ==> !Rejects(tokens[i], AllSupportedKeywords)
    ensures r.Success? ==> r.value.tokens == tokens && Valid(r.value)
    ensures r.Failure? ==>
              exists i :: 0 <= i < |tokens| && Rejects(tokens[i], AllSupportedKeywords)
                && (forall j :: 0 <= j < i ==> !Rejects(tokens[j], AllSupportedKeywords))
                && r.error == UnsupportedKeyword(Upper(tokens[i].text))
  {
    var offsets := FindKeywords(tokens, AllSupportedKeywords, true);
    if offsets.Failure? {
      return Failure(offsets.error);
    }
    return Success(Parser(tokens, offsets.value));
  }

  /** Slicing `tokens[lo:hi]` with both bounds in range: empty when `hi < lo`. */
  function Between(tokens: seq<Token>, lo: nat, hi: nat): (r: seq<Token>)
    requires lo <= |tokens| && hi <= |tokens|
    ensures |r| == if lo <= hi then hi - lo else 0
    ensures forall i :: 0 <= i < |r| ==> r[i] == tokens[lo + i]
  {
    if lo <= hi then tokens[lo..hi] else []
  }

  /** `min(keywords.get(kw, default) for kw in keys)`. */
  function MinOffset(keys: seq<string>, keywords: map<string, nat>, default: nat): (hi: nat)
    ensures hi <= default
    ensures forall kw :: kw in keys && kw in keywords ==> hi <= keywords[kw]
    ensures hi == default || exists kw :: kw in keys && kw in keywords && hi == keywords[kw]
    decreases |keys|
  {
    if |keys| == 0 then default
    else
      var rest := MinOffset(keys[1..], keywords, default);
      var here := if keys[0] in keywords then keywords[keys[0]] else default;
      if here < rest then here else rest
  }

  /**
   * `hi` is where the source clause ends: no later than the end of the
   * statement and than any recorded terminating keyword, and equal to the end
   * of the statement or to one of those offsets.
   */
  ghost predicate IsClauseEnd(p: Parser, hi: nat)
  {
    && hi <= |p.tokens|
    && (forall kw :: kw in AfterFromKeywords && kw in p.keywords ==> hi <= p.keywords[kw])
    && (hi == |p.tokens| || exists kw :: kw in AfterFromKeywords && kw in p.keywords && hi == p.keywords[kw])
  }

  /**
   * Where the source clause ends: the earliest recorded offset of a
   * terminating keyword, or the end of the statement when none is recorded.
   */
  function ClauseEnd(p: Parser): (hi: nat)
    requires Valid(p)
    ensures IsClauseEnd(p, hi)
  {
    MinOffset(AfterFromKeywords, p.keywords, |p.tokens|)
  }

  /** Only one offset is the end of the source clause. */
  lemma ClauseEndUnique(p: Parser, hi: nat)
    requires Valid(p) && IsClauseEnd(p, hi)
    ensures hi == ClauseEnd(p)
  {
    var end := ClauseEnd(p);
    if hi != |p.tokens| {
      var kw :| kw in AfterFromKeywords && kw in p.keywords && hi == p.keywords[kw];
      assert end <= hi;
    }
    if end != |p.tokens| {
      var kw :| kw in AfterFromKeywords && kw in p.keywords && end == p.keywords[kw];
      assert hi <= end;
    }
  }

  /**
   * `from_`: the text of the tokens strictly after FROM and before the end
   * of the source clause. A statement without FROM raises.
   */
  function FromClause(p: Parser): (r: Result<string, Error>)
    requires Valid(p)
    ensures "FROM" !in p.keywords ==> r == Failure(MissingKeyword("FROM"))
    ensures "FROM" in p.keywords ==>
              && p.keywords["FROM"] < |p.tokens|
              && forall hi :: IsClauseEnd(p, hi) ==> r == Success(Render(Between(p.tokens, p.keywords["FROM"] + 1, hi)))
  {
    if "FROM" !in p.keywords then Failure(MissingKeyword("FROM"))
    else
      assert forall hi :: IsClauseEnd(p, hi) ==> hi == ClauseEnd(p) by {
        forall hi | IsClauseEnd(p, hi)
          ensures hi == ClauseEnd(p)
        {
          ClauseEndUnique(p, hi);
        }
      }
      Success(Render(Between(p.tokens, p.keywords["FROM"] + 1, ClauseEnd(p))))
  }

  /**
   * The tokens `from_` covers stop before every recorded terminator, so any
   * terminating keyword inside them is one that occurs again later; when
   * each terminating keyword occurs at most once, none is inside.
   */
  lemma FromClauseStopsAtTerminators(p: Parser)
    requires Valid(p)
    ensures "FROM" in p.keywords ==>
              forall j :: p.keywords["FROM"] < j < ClauseEnd(p) && Mark(p.tokens[j], AllSupportedKeywords).Some?
                          && Mark(p.tokens[j], AllSupportedKeywords).value in AfterFromKeywords ==>
                exists later :: j < later < |p.tokens|
                                && Mark(p.tokens[later], AllSupportedKeywords) == Mark(p.tokens[j], AllSupportedKeywords)
  {
    if "FROM" in p.keywords {
      TableRecordsLastOccurrences(p.tokens, AllSupportedKeywords);
      forall j | p.keywords["FROM"] < j < ClauseEnd(p) && Mark(p.tokens[j], AllSupportedKeywords).Some?
                 && Mark(p.tokens[j], AllSupportedKeywords).value in AfterFromKeywords
        ensures exists later :: j < later < |p.tokens|
                                && Mark(p.tokens[later], AllSupportedKeywords) == Mark(p.tokens[j], AllSupportedKeywords)
      {
        var kw := Mark(p.tokens[j], AllSupportedKeywords).value;
        assert kw in p.keywords;
        var later := p.keywords[kw];
        assert j < later;
      }
    }
  }

  /**
   * `where`: absent when the statement has no WHERE; otherwise the text of
   * the WHERE group's children after the first (the WHERE keyword). A WHERE
   * recorded at a bare keyword leaf has no children and raises.
   */
  function WhereClause(p: Parser): (r: Result<Option<string>, Error>)
    requires Valid(p)
    ensures r == Success(None) <==> "WHERE" !in p.keywords
    ensures "WHERE" in p.keywords ==>
              var t := p.tokens[p.keywords["WHERE"]];
              && (t.Group? ==>
                    && t.group == Where
                    && r.Success? && r.value.Some?
                    && (|t.children| == 0 ==> r == Success(Some("")))
                    && (|t.children| > 0 ==> Render(t.children[..1]) + r.value.value == Render(t.children)))
              && (t.Leaf? ==> r == Failure(NotAGroup) && Upper(t.text) == "WHERE")
  {
    if "WHERE" !in p.keywords then Success(None)
    else
      TableRecordsLastOccurrences(p.tokens, AllSupportedKeywords);
      var t := p.tokens[p.keywords["WHERE"]];
      match t
      case Leaf(_, _) => Failure(NotAGroup)
      case Group(_, children) =>
        var rest := if |children| == 0 then [] else children[1..];
        if |children| > 0 then
          assert children == children[..1] + rest;
          RenderAppend(children[..1], rest);
          Success(Some(Render(rest)))
        else
          Success(Some(Render(rest)))
  }

  /**
   * `sql_without_limit`: the text of the statement up to, not including, the
   * LIMIT keyword; the whole statement's text when there is no LIMIT.
   */
  function SqlWithoutLimit(p: Parser): (r: string)
    requires Valid(p)
    ensures "LIMIT" !in p.keywords ==> r == Render(p.tokens)
    ensures "LIMIT" in p.keywords ==>
              var limit := p.keywords["LIMIT"];
              && r == Render(p.tokens[..limit])
              && Mark(p.tokens[limit], AllSupportedKeywords) == Some("LIMIT")
              && r + Render(p.tokens[limit..]) == Render(p.tokens)
  {
    if "LIMIT" in p.keywords then
      var limit := p.keywords["LIMIT"];
      TableRecordsLastOccurrences(p.tokens, AllSupportedKeywords);
      assert p.tokens == p.tokens[..limit] + p.tokens[limit..];
      RenderAppend(p.tokens[..limit], p.tokens[limit..]);
      Render(p.tokens[..limit])
    else
      Render(p.tokens)
  }

  /** An AS keyword among an identifier's children. */
  predicate IsAs(t: Token)
  {
    Mark(t, ["AS"]) == Some("AS")
  }

  /** The (expression, alias) pair `parse_columns` yields for one identifier. */
  function Column(t: Token): (string, string)
    requires t.Group?
  {
    var offsets := Table(t.children, ["AS"]);
    if "AS" in offsets then
      (Render(t.children[..offsets["AS"]]), Render(t.children[offsets["AS"] + 1..]))
    else
      (Value(t), Value(t))
  }

  /**
   * An identifier's pair splits it around its last AS keyword; without an AS
   * both components are its raw text.
   */
  lemma ColumnSplitsAtLastAs(t: Token)
    requires t.Group?
    ensures (forall j :: 0 <= j < |t.children| ==> !IsAs(t.children[j])) ==> Column(t) == (Value(t), Value(t))
    ensures forall k :: 0 <= k < |t.children| && IsAs(t.children[k])
                        && (forall j :: k < j < |t.children| ==> !IsAs(t.children[j])) ==>
              Column(t) == (Render(t.children[..k]), Render(t.children[k + 1..]))
  {
    TableRecordsLastOccurrences(t.children, ["AS"]);
  }

  /**
   * `parse_columns`: one pair per identifier, in order. An identifier that is
   * a bare leaf has no children and raises.
   */
  method ParseColumns(ts: seq<Token>) returns (r: Result<seq<(string, string)>, Error>)
    ensures r.Success? <==> forall i :: 0 <= i < |ts| ==> ts[i].Group?
    ensures r.Failure? ==> r.error == NotAGroup
    ensures r.Success? ==> |r.value| == |ts| && forall i :: 0 <= i < |ts| ==> r.value[i] == Column(ts[i])
  {
    var columns: seq<(string, string)> := [];
    for i := 0 to |ts|
      invariant |columns| == i
      invariant forall j :: 0 <= j < i ==> ts[j].Group? && columns[j] == Column(ts[j])
    {
      var token := ts[i];
      if token.Leaf? {
        return Failure(NotAGroup);
      }
      var offsets := FindKeywords(token.children, ["AS"], false);
      var table := offsets.value;
      var column;
      if "AS" in table {
        var before := Extract(token.children[..table["AS"]]);
        var after := Extract(token.children[table["AS"] + 1..]);
        column := (Join(before), Join(after));
      } else {
        column := (Value(token), Value(token));
      }
      assert column == Column(token);
      columns := columns + [column];
    }
    return Success(columns);
  }

  /** A separator inside an identifier list: whitespace, or a comma. */
  predicate IsSeparator(t: Token)
  {
    t.Leaf? && (t.kind == Whitespace || (t.kind == Punctuation && t.text == ","))
  }

  /** The identifiers of an identifier list: its children without the separators. */
  function GetIdentifiers(children: seq<Token>): (r: seq<Token>)
    ensures forall t :: t in r <==> t in children && !IsSeparator(t)
    decreases |children|
  {
    if children == [] then []
    else (if IsSeparator(children[0]) then [] else [children[0]]) + GetIdentifiers(children[1..])
  }

  /**
   * The identifiers are taken range by range, so they keep the order and
   * the multiplicity they have among the children.
   */
  lemma {:induction false} GetIdentifiersAppend(a: seq<Token>, b: seq<Token>)
    ensures GetIdentifiers(a + b) == GetIdentifiers(a) + GetIdentifiers(b)
    decreases |a|
  {
    if a == [] {
      assert a + b == b;
    } else {
      assert (a + b)[0] == a[0];
      assert (a + b)[1..] == a[1..] + b;
      GetIdentifiersAppend(a[1..], b);
    }
  }

  /** A single child is kept exactly when it is not a separator. */
  lemma GetIdentifiersSingle(t: Token)
    ensures GetIdentifiers([t]) == if IsSeparator(t) then [] else [t]
  {
    assert [t][1..] == [];
  }

  /** A token `fields` takes as the select list: an identifier or an identifier list. */
  predicate IsSelectList(t: Token)
  {
    t.Group? && (t.group == Identifier || t.group == IdentifierList)
  }

  /** The identifiers of a select list: the identifier itself, or the list's identifiers. */
  function Candidates(t: Token): (r: seq<Token>)
    requires IsSelectList(t)
    ensures t.group == Identifier ==> r == [t]
    ensures t.group == IdentifierList ==> r == GetIdentifiers(t.children)
    ensures t.group == IdentifierList ==> forall u :: u in r <==> u in t.children && !IsSeparator(u)
  {
    if t.group == Identifier then [t] else GetIdentifiers(t.children)
  }

  /** The tokens strictly between SELECT and FROM. */
  function SelectRegion(p: Parser): seq<Token>
    requires Valid(p) && "SELECT" in p.keywords && "FROM" in p.keywords
  {
    Between(p.tokens, p.keywords["SELECT"] + 1, p.keywords["FROM"])
  }

  /** `i` is the first select-list token of `region`. */
  ghost predicate FirstSelectList(region: seq<Token>, i: int)
  {
    0 <= i < |region| && IsSelectList(region[i]) && forall j :: 0 <= j < i ==> !IsSelectList(region[j])
  }

  /**
   * The loop of `fields`: the columns of the first identifier or identifier
   * list of `region`; absent when there is none.
   */
  method SelectListColumns(region: seq<Token>) returns (r: Result<Option<seq<(string, string)>>, Error>)
    ensures r == Success(None) <==> forall j :: 0 <= j < |region| ==> !IsSelectList(region[j])
    ensures forall i :: FirstSelectList(region, i) ==>
              var ids := Candidates(region[i]);
              && (r.Failure? <==> exists j :: 0 <= j < |ids| && ids[j].Leaf?)
              && (r.Failure? ==> r.error == NotAGroup)
              && (r.Success? ==>
                    && r.value.Some? && |r.value.value| == |ids|
                    && forall k :: 0 <= k < |ids| ==> ids[k].Group? && r.value.value[k] == Column(ids[k]))
  {
    for i := 0 to |region|
      invariant forall j :: 0 <= j < i ==> !IsSelectList(region[j])
    {
      var token := region[i];
      if IsSelectList(token) {
        assert forall first :: FirstSelectList(region, first) ==> first == i;
        var columns := ParseColumns(Candidates(token));
        if columns.Failure? {
          return Failure(columns.error);
        }
        return Success(Some(columns.value));
      }
    }
    return Success(None);
  }

  /**
   * `fields`: the columns of the first identifier or identifier list
   * between SELECT and FROM; absent when there is none. A statement
   * without SELECT or FROM raises.
   */
  method Fields(p: Parser) returns (r: Result<Option<seq<(string, string)>>, Error>)
    requires Valid(p)
    ensures "SELECT" !in p.keywords ==> r == Failure(MissingKeyword("SELECT"))
    ensures "SELECT" in p.keywords && "FROM" !in p.keywords ==> r == Failure(MissingKeyword("FROM"))
    ensures "SELECT" in p.keywords && "FROM" in p.keywords ==>
              (r == Success(None) <==> forall j :: 0 <= j < |SelectRegion(p)| ==> !IsSelectList(SelectRegion(p)[j]))
    ensures "SELECT" in p.keywords && "FROM" in p.keywords ==>
              forall i :: FirstSelectList(SelectRegion(p), i) ==>
                var ids := Candidates(SelectRegion(p)[i]);
                && (r.Failure? <==> exists j :: 0 <= j < |ids| && ids[j].Leaf?)
                && (r.Failure? ==> r.error == NotAGroup)
                && (r.Success? ==>
                      && r.value.Some? && |r.value.value| == |ids|
                      && forall k :: 0 <= k < |ids| ==> ids[k].Group? && r.value.value[k] == Column(ids[k]))
  {
    if "SELECT" !in p.keywords {
      return Failure(MissingKeyword("SELECT"));
    }
    if "FROM" !in p.keywords {
      return Failure(MissingKeyword("FROM"));
    }
    r := SelectListColumns(SelectRegion(p));
  }

  /** One row of `fields_with_types`: column name, column type and the expression that selects it. */
  datatype TypedField = TypedField(name: string, dataType: string, expression: string)

  /**
   * The positional pairing of `fields_with_types`, over the (name, type)
   * rows the database reports: with no parsed fields each row's expression
   * is its name in double quotes; otherwise rows and fields are zipped,
   * stopping at the shorter of the two.
   */
  function PairFieldTypes(fields: Option<seq<(string, string)>>, rows: seq<(string, string)>): (r: seq<TypedField>)
    ensures fields.None? ==> |r| == |rows|
    ensures fields.Some? ==> |r| == if |rows| <= |fields.value| then |rows| else |fields.value|
    ensures forall i :: 0 <= i < |r| ==> r[i].name == rows[i].0 && r[i].dataType == rows[i].1
    ensures fields.None? ==> forall i :: 0 <= i < |r| ==> r[i].expression == "\"" + rows[i].0 + "\""
    ensures fields.Some? ==> forall i :: 0 <= i < |r| ==> r[i].expression == fields.value[i].0
    decreases |rows|
  {
    if rows == [] then []
    else match fields
      case None =>
        [TypedField(rows[0].0, rows[0].1, "\"" + rows[0].0 + "\"")] + PairFieldTypes(None, rows[1..])
      case Some(fs) =>
        if fs == [] then []
        else [TypedField(rows[0].0, rows[0].1, fs[0].0)] + PairFieldTypes(Some(fs[1..]), rows[1..])
  }
}

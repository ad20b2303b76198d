/** The catalogue search predicate and the relevance score: two separately written SQL expressions over the
    same rows, in SQL's three-valued logic. */
module Relevance {
  import opened Journal
  import opened Like

  datatype Truth = Yes | No | Unknown

  function Lift(b: bool): Truth {
    if b then Yes else No
  }

  function Or(a: Truth, b: Truth): Truth {
    if a == Yes || b == Yes then Yes
    else if a == Unknown || b == Unknown then Unknown
    else No
  }

  datatype AttributeRow = AttributeRow(
    text: Option<string>, option: Option<string>, integer: Option<int>, decimal: Option<real>, boolean: Option<bool>,
    searchable: bool)

  datatype ItemRow = ItemRow(name: string, model: Option<string>, manufacturer: Option<Id>, attributes: seq<AttributeRow>)

  /** A search token with its reading as a safe integer and as a storable decimal, where it has one. */
  datatype Token = Token(text: string, integer: Option<int>, decimal: Option<real>)

  /** manufacturers maps the key to the normalised name; `lower` is ILIKE's case mapping. */
  datatype Env = Env(manufacturers: map<Id, string>, lower: char -> char)

  function Equal<T(==)>(column: Option<T>, value: T): Truth {
    if column.None? then Unknown else Lift(column.value == value)
  }

  function LikeColumn(column: Option<string>, pattern: string): Truth {
    if column.None? then Unknown else Lift(Matches(pattern, column.value))
  }

  function ILikeColumn(column: Option<string>, pattern: string, env: Env): Truth {
    if column.None? then Unknown else Lift(MatchesFolded(pattern, column.value, env.lower))
  }

  // ----- _search_predicate -----

  /** The conditions on one attribute row that the token's text and readings give rise to. */
  function AttributeCondition(row: AttributeRow, token: Token, env: Env): Truth {
    var pattern := ContainsPattern(token.text);
    var texts := Or(ILikeColumn(row.text, pattern, env), ILikeColumn(row.option, pattern, env));
    var withInteger := if token.integer.None? then texts else Or(texts, Equal(row.integer, token.integer.value));
    var withDecimal := if token.decimal.None? then withInteger else Or(withInteger, Equal(row.decimal, token.decimal.value));
    if token.text == "true" || token.text == "false"
    then Or(withDecimal, Lift(row.boolean == Some(token.text == "true")))
    else withDecimal
  }

  /** EXISTS over manufacturers: a null key joins nothing. */
  predicate ManufacturerExists(item: ItemRow, token: Token, env: Env) {
    && item.manufacturer.Some? && item.manufacturer.value in env.manufacturers
    && Matches(ContainsPattern(token.text), env.manufacturers[item.manufacturer.value])
  }

  predicate SearchableExists(item: ItemRow, token: Token, env: Env) {
    exists k :: 0 <= k < |item.attributes| && item.attributes[k].searchable
                && AttributeCondition(item.attributes[k], token, env) == Yes
  }

  /** WHERE keeps a row only where the predicate is true. */
  predicate Accepts(item: ItemRow, token: Token, env: Env) {
    var pattern := ContainsPattern(token.text);
    var common := Or(Or(LikeColumn(Some(item.name), pattern), LikeColumn(item.model, pattern)),
                     Lift(ManufacturerExists(item, token, env)));
    Or(common, Lift(SearchableExists(item, token, env))) == Yes
  }

  // ----- The score -----

  /** _normalized_text_relevance: CASE takes the first branch that is true. */
  function TextRelevance(column: Option<string>, token: string, exact: int, prefix: int, contains: int): int {
    if Equal(column, token) == Yes then exact
    else if LikeColumn(column, PrefixPattern(token)) == Yes then prefix
    else if LikeColumn(column, ContainsPattern(token)) == Yes then contains
    else 0
  }

  function EitherText(row: AttributeRow, pattern: string, env: Env): Truth {
    Or(ILikeColumn(row.text, pattern, env), ILikeColumn(row.option, pattern, env))
  }

  function AttributeCase(row: AttributeRow, token: Token, env: Env): int {
    if token.integer.Some? && Equal(row.integer, token.integer.value) == Yes then 100
    else if token.decimal.Some? && Equal(row.decimal, token.decimal.value) == Yes then 100
    else if (token.text == "true" || token.text == "false") && row.boolean == Some(token.text == "true") then 100
    else if EitherText(row, Escape(token.text), env) == Yes then 100
    else if EitherText(row, PrefixPattern(token.text), env) == Yes then 75
    else if EitherText(row, ContainsPattern(token.text), env) == Yes then 45
    else 0
  }

  /** max over the searchable rows, null when there is none */
  function BestAttribute(rows: seq<AttributeRow>, token: Token, env: Env): Option<int> {
    if |rows| == 0 then None
    else
      var rest, row := BestAttribute(rows[..|rows| - 1], token, env), rows[|rows| - 1];
      if !row.searchable then rest
      else
        var score := AttributeCase(row, token, env);
        Some(if rest.Some? && rest.value > score then rest.value else score)
  }

  /** _searchable_attribute_relevance */
  function AttributeRelevance(rows: seq<AttributeRow>, token: Token, env: Env): int {
    var best := BestAttribute(rows, token, env);
    if best.None? then 0 else best.value
  }

  /** The outer join's manufacturer name. */
  function JoinedManufacturer(item: ItemRow, env: Env): Option<string> {
    if item.manufacturer.Some? && item.manufacturer.value in env.manufacturers
    then Some(env.manufacturers[item.manufacturer.value]) else None
  }

  function TokenScore(item: ItemRow, token: Token, env: Env): int {
    TextRelevance(item.model, token.text, 160, 120, 80)
    + TextRelevance(Some(item.name), token.text, 150, 110, 70)
    + TextRelevance(JoinedManufacturer(item, env), token.text, 120, 90, 60)
    + AttributeRelevance(item.attributes, token, env)
  }

  function TotalScore(item: ItemRow, tokens: seq<Token>, env: Env): int {
    if |tokens| == 0 then 0
    else TotalScore(item, tokens[..|tokens| - 1], env) + TokenScore(item, tokens[|tokens| - 1], env)
  }

  /** _search_relevance_score */
  method SearchRelevanceScore(item: ItemRow, tokens: seq<Token>, env: Env) returns (score: int)
    ensures score == TotalScore(item, tokens, env)
  {
    score := 0;
    for n := 0 to |tokens|
      invariant score == TotalScore(item, tokens[..n], env)
    {
      assert tokens[..n + 1][..n] == tokens[..n];
      score := score
        + TextRelevance(item.model, tokens[n].text, 160, 120, 80)
        + TextRelevance(Some(item.name), tokens[n].text, 150, 110, 70)
        + TextRelevance(JoinedManufacturer(item, env), tokens[n].text, 120, 90, 60)
        + AttributeRelevance(item.attributes, tokens[n], env);
    }
    assert tokens[..|tokens|] == tokens;
  }

  // ----- What the score means -----

  ghost predicate Within(column: Option<string>, v: string) {
    column.Some? && Contains(column.value, v)
  }

  lemma PrefixIsWithin(text: string, v: string)
    requires v <= text
    ensures Contains(text, v)
  {
    assert text == "" + v + text[|v|..];
  }

  /** The CASE of a text column in terms of equality, prefix and substring. */
  lemma TextRelevanceMeans(column: Option<string>, token: string, exact: int, prefix: int, contains: int)
    requires exact > prefix > contains > 0
    ensures var r := TextRelevance(column, token, exact, prefix, contains);
            && (r == exact <==> column == Some(token))
            && (r >= prefix <==> column.Some? && token <= column.value)
            && (r >= contains <==> Within(column, token))
            && r in {0, contains, prefix, exact}
  {
    if column.Some? {
      PrefixMeansPrefix(token, column.value);
      ContainsMeansSubstring(token, column.value);
      if token <= column.value {
        PrefixIsWithin(column.value, token);
      }
    }
  }

  /** A row's exact reading as a number or boolean. */
  predicate ReadAs(row: AttributeRow, token: Token) {
    || (token.integer.Some? && row.integer == token.integer)
    || (token.decimal.Some? && row.decimal == token.decimal)
    || (token.text == "true" && row.boolean == Some(true))
    || (token.text == "false" && row.boolean == Some(false))
  }

  ghost predicate FoldedWithin(column: Option<string>, v: string, env: Env) {
    column.Some? && Contains(Fold(column.value, env.lower), Fold(v, env.lower))
  }

  ghost predicate FoldedEqual(column: Option<string>, v: string, env: Env) {
    column.Some? && Fold(column.value, env.lower) == Fold(v, env.lower)
  }

  ghost predicate FoldedPrefix(column: Option<string>, v: string, env: Env) {
    column.Some? && Fold(v, env.lower) <= Fold(column.value, env.lower)
  }

  lemma ColumnPatterns(column: Option<string>, token: string, env: Env)
    requires KeepsSpecials(env.lower)
    ensures ILikeColumn(column, Escape(token), env) == Yes <==> FoldedEqual(column, token, env)
    ensures ILikeColumn(column, PrefixPattern(token), env) == Yes <==> FoldedPrefix(column, token, env)
    ensures ILikeColumn(column, ContainsPattern(token), env) == Yes <==> FoldedWithin(column, token, env)
    ensures FoldedPrefix(column, token, env) ==> FoldedWithin(column, token, env)
  {
    if column.Some? {
      FoldedMeanings(token, column.value, env.lower);
      if Fold(token, env.lower) <= Fold(column.value, env.lower) {
        PrefixIsWithin(Fold(column.value, env.lower), Fold(token, env.lower));
      }
    }
  }

  /** How well a row matches, in plain terms. */
  ghost predicate RowReaches(row: AttributeRow, token: Token, env: Env, grade: int) {
    || ReadAs(row, token)
    || FoldedEqual(row.text, token.text, env) || FoldedEqual(row.option, token.text, env)
    || (grade <= 75 && (FoldedPrefix(row.text, token.text, env) || FoldedPrefix(row.option, token.text, env)))
    || (grade <= 45 && (FoldedWithin(row.text, token.text, env) || FoldedWithin(row.option, token.text, env)))
  }

  /** The row condition of the predicate and the row's CASE agree, grade by grade. */
  lemma RowAgrees(row: AttributeRow, token: Token, env: Env)
    requires KeepsSpecials(env.lower)
    ensures AttributeCondition(row, token, env) == Yes <==> RowReaches(row, token, env, 45)
    ensures AttributeCase(row, token, env) in {0, 45, 75, 100}
    ensures forall grade :: grade in {45, 75, 100} ==>
              (AttributeCase(row, token, env) >= grade <==> RowReaches(row, token, env, grade))
  {
    ColumnPatterns(row.text, token.text, env);
    ColumnPatterns(row.option, token.text, env);
  }

  /** The best searchable row decides the attribute part of the score. */
  lemma {:induction false} BestAgrees(rows: seq<AttributeRow>, token: Token, env: Env, grade: int)
    requires KeepsSpecials(env.lower) && grade in {45, 75, 100}
    ensures AttributeRelevance(rows, token, env) in {0, 45, 75, 100}
    ensures AttributeRelevance(rows, token, env) >= grade
       <==> exists k :: 0 <= k < |rows| && rows[k].searchable && RowReaches(rows[k], token, env, grade)
  {
    if |rows| != 0 {
      var front := rows[..|rows| - 1];
      BestAgrees(front, token, env, grade);
      RowAgrees(rows[|rows| - 1], token, env);
      assert forall k :: 0 <= k < |front| ==> front[k] == rows[k];
      BestBounds(front, token, env);
    }
  }

  lemma {:induction false} BestBounds(rows: seq<AttributeRow>, token: Token, env: Env)
    ensures BestAttribute(rows, token, env).Some? ==> BestAttribute(rows, token, env).value >= 0
  {
    if |rows| != 0 {
      BestBounds(rows[..|rows| - 1], token, env);
    }
  }

  /** The item matches a token in plain terms: name, model or manufacturer contains it, or a searchable
      attribute equals or contains it. */
  ghost predicate ItemMatches(item: ItemRow, token: Token, env: Env) {
    || Contains(item.name, token.text) || Within(item.model, token.text) || Within(JoinedManufacturer(item, env), token.text)
    || exists k :: 0 <= k < |item.attributes| && item.attributes[k].searchable && RowReaches(item.attributes[k], token, env, 45)
  }

  lemma AcceptsMeans(item: ItemRow, token: Token, env: Env)
    requires KeepsSpecials(env.lower)
    ensures Accepts(item, token, env) <==> ItemMatches(item, token, env)
  {
    ContainsMeansSubstring(token.text, item.name);
    if item.model.Some? {
      ContainsMeansSubstring(token.text, item.model.value);
    }
    if JoinedManufacturer(item, env).Some? {
      ContainsMeansSubstring(token.text, JoinedManufacturer(item, env).value);
    }
    forall k | 0 <= k < |item.attributes|
      ensures AttributeCondition(item.attributes[k], token, env) == Yes <==> RowReaches(item.attributes[k], token, env, 45)
    {
      RowAgrees(item.attributes[k], token, env);
    }
  }

  lemma ScoreMeans(item: ItemRow, token: Token, env: Env)
    requires KeepsSpecials(env.lower)
    ensures TokenScore(item, token, env) >= 0
    ensures TokenScore(item, token, env) >= 45 <==> ItemMatches(item, token, env)
    ensures TokenScore(item, token, env) > 0 <==> ItemMatches(item, token, env)
  {
    TextRelevanceMeans(item.model, token.text, 160, 120, 80);
    TextRelevanceMeans(Some(item.name), token.text, 150, 110, 70);
    TextRelevanceMeans(JoinedManufacturer(item, env), token.text, 120, 90, 60);
    BestAgrees(item.attributes, token, env, 45);
  }

  /** A token's score is positive, and then at least 45, exactly when the search predicate accepts the item. */
  lemma ScoreDecidesMatch(item: ItemRow, token: Token, env: Env)
    requires KeepsSpecials(env.lower)
    ensures TokenScore(item, token, env) > 0 <==> Accepts(item, token, env)
    ensures Accepts(item, token, env) <==> TokenScore(item, token, env) >= 45
    ensures TokenScore(item, token, env) >= 0
  {
    AcceptsMeans(item, token, env);
    ScoreMeans(item, token, env);
  }

  /** Over all tokens: the total is positive exactly when some token is accepted, and an item that the search
      returns, being accepted for each token, scores at least 45 per token. */
  lemma {:induction false} TotalDecidesMatch(item: ItemRow, tokens: seq<Token>, env: Env)
    requires KeepsSpecials(env.lower)
    ensures TotalScore(item, tokens, env) >= 0
    ensures TotalScore(item, tokens, env) > 0 <==> exists k :: 0 <= k < |tokens| && Accepts(item, tokens[k], env)
    ensures (forall k :: 0 <= k < |tokens| ==> Accepts(item, tokens[k], env)) ==> TotalScore(item, tokens, env) >= 45 * |tokens|
  {
    if |tokens| != 0 {
      var front := tokens[..|tokens| - 1];
      TotalDecidesMatch(item, front, env);
      ScoreDecidesMatch(item, tokens[|tokens| - 1], env);
      assert forall k :: 0 <= k < |front| ==> front[k] == tokens[k];
    }
  }

  // ----- The score in plain terms -----

  /** The grade of a text column: equal, beginning with, containing. */
  ghost function TextGrade(column: Option<string>, token: string, equal: int, begins: int, contains: int): int {
    if column == Some(token) then equal
    else if column.Some? && |token| <= |column.value| && column.value[..|token|] == token then begins
    else if Within(column, token) then contains
    else 0
  }

  /** The best grade any searchable attribute reaches. */
  ghost function AttributeGrade(rows: seq<AttributeRow>, token: Token, env: Env): int {
    if AnyReaches(rows, token, env, 100) then 100
    else if AnyReaches(rows, token, env, 75) then 75
    else if AnyReaches(rows, token, env, 45) then 45
    else 0
  }

  ghost predicate AnyReaches(rows: seq<AttributeRow>, token: Token, env: Env, grade: int) {
    exists k :: 0 <= k < |rows| && rows[k].searchable && RowReaches(rows[k], token, env, grade)
  }

  lemma TextGradeIs(column: Option<string>, token: string, exact: int, prefix: int, contains: int)
    requires exact > prefix > contains > 0
    ensures TextRelevance(column, token, exact, prefix, contains) == TextGrade(column, token, exact, prefix, contains)
  {
    TextRelevanceMeans(column, token, exact, prefix, contains);
    if column.Some? {
      assert token <= column.value <==> |token| <= |column.value| && column.value[..|token|] == token;
    }
  }

  lemma AttributeGradeIs(rows: seq<AttributeRow>, token: Token, env: Env)
    requires KeepsSpecials(env.lower)
    ensures AttributeRelevance(rows, token, env) == AttributeGrade(rows, token, env)
  {
    BestAgrees(rows, token, env, 100);
    BestAgrees(rows, token, env, 75);
    BestAgrees(rows, token, env, 45);
  }

  /** The name of the item's manufacturer, if it has one. */
  ghost predicate IsManufacturer(item: ItemRow, env: Env, name: Option<string>) {
    name == if item.manufacturer.Some? && item.manufacturer.value in env.manufacturers
            then Some(env.manufacturers[item.manufacturer.value]) else None
  }

  /** A token's score: 160, 120 or 80 for the model, 150, 110 or 70 for the name, 120, 90 or 60 for the manufacturer,
      and 100, 75 or 45 for the best searchable attribute. */
  lemma ScoreIs(item: ItemRow, token: Token, env: Env, manufacturer: Option<string>)
    requires KeepsSpecials(env.lower) && IsManufacturer(item, env, manufacturer)
    ensures TokenScore(item, token, env) ==
              TextGrade(item.model, token.text, 160, 120, 80) + TextGrade(Some(item.name), token.text, 150, 110, 70)
              + TextGrade(manufacturer, token.text, 120, 90, 60) + AttributeGrade(item.attributes, token, env)
  {
    TextGradeIs(item.model, token.text, 160, 120, 80);
    TextGradeIs(Some(item.name), token.text, 150, 110, 70);
    TextGradeIs(manufacturer, token.text, 120, 90, 60);
    AttributeGradeIs(item.attributes, token, env);
  }
}

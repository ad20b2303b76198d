/** LIKE patterns (section 8.5 of ISO/IEC 9075-2) and the escaping that turns user text into them. */
module Like {
  import opened Strings

  /** text LIKE pattern ESCAPE '\': '%' stands for any text, '_' for any character, '\' takes the next
      character literally. A pattern that ends inside an escape matches nothing. */
  predicate Matches(pattern: string, text: string)
    decreases |pattern| + |text|
  {
    if pattern == "" then text == ""
    else if pattern[0] == '%' then Matches(pattern[1..], text) || (text != "" && Matches(pattern, text[1..]))
    else if text == "" then false
    else if pattern[0] == '_' then Matches(pattern[1..], text[1..])
    else if pattern[0] == '\\' then |pattern| > 1 && pattern[1] == text[0] && Matches(pattern[2..], text[1..])
    else pattern[0] == text[0] && Matches(pattern[1..], text[1..])
  }

  // ----- Escaping -----

  /** str.replace with a one-character needle */
  function Replace(s: string, c: char, r: string): string {
    if s == "" then "" else (if s[0] == c then r else [s[0]]) + Replace(s[1..], c, r)
  }

  /** _escaped_like_fragment */
  function Escape(v: string): string {
    Replace(Replace(Replace(v, '\\', "\\\\"), '%', "\\%"), '_', "\\_")
  }

  /** _escaped_contains_pattern */
  function ContainsPattern(v: string): string {
    "%" + Escape(v) + "%"
  }

  /** _escaped_prefix_pattern */
  function PrefixPattern(v: string): string {
    Escape(v) + "%"
  }

  predicate Special(c: char) {
    c == '\\' || c == '%' || c == '_'
  }

  /** Every special character behind one backslash, the others as they are. */
  function EscapeEach(v: string): string {
    if v == "" then "" else (if Special(v[0]) then ['\\', v[0]] else [v[0]]) + EscapeEach(v[1..])
  }

  lemma {:induction false} ReplaceConcat(a: string, b: string, c: char, r: string)
    ensures Replace(a + b, c, r) == Replace(a, c, r) + Replace(b, c, r)
  {
    if a == "" {
      assert a + b == b;
    } else {
      ReplaceConcat(a[1..], b, c, r);
      TailOfConcat(a, b);
      Assoc(if a[0] == c then r else [a[0]], Replace(a[1..], c, r), Replace(b, c, r));
    }
  }

  lemma ReplaceOne(x: char, c: char, r: string)
    ensures Replace([x], c, r) == if x == c then r else [x]
  {
    assert [x][1..] == "";
    assert Replace("", c, r) == "";
  }

  lemma ReplacePair(x: char, y: char, c: char, r: string)
    ensures Replace([x, y], c, r) == (if x == c then r else [x]) + (if y == c then r else [y])
  {
    ReplaceOne(x, c, r);
    ReplaceOne(y, c, r);
    ReplaceConcat([x], [y], c, r);
    assert [x] + [y] == [x, y];
  }

  /** The three replacements of one character. */
  lemma EscapeOne(x: char)
    ensures Escape([x]) == if Special(x) then ['\\', x] else [x]
  {
    ReplaceOne(x, '\\', "\\\\");
    ReplaceOne(x, '%', "\\%");
    ReplaceOne(x, '_', "\\_");
    ReplacePair('\\', '\\', '%', "\\%");
    ReplacePair('\\', '\\', '_', "\\_");
    ReplacePair('\\', '%', '_', "\\_");
  }

  lemma EscapeConcat(a: string, b: string)
    ensures Escape(a + b) == Escape(a) + Escape(b)
  {
    ReplaceConcat(a, b, '\\', "\\\\");
    var (a1, b1) := (Replace(a, '\\', "\\\\"), Replace(b, '\\', "\\\\"));
    ReplaceConcat(a1, b1, '%', "\\%");
    ReplaceConcat(Replace(a1, '%', "\\%"), Replace(b1, '%', "\\%"), '_', "\\_");
  }

  /** The three chained replacements act as one map over the characters: the later ones never touch a
      backslash the first one wrote. */
  lemma {:induction false} EscapeIsPerCharacter(v: string)
    ensures Escape(v) == EscapeEach(v)
  {
    if v != "" {
      EscapeIsPerCharacter(v[1..]);
      EscapeOne(v[0]);
      EscapeConcat([v[0]], v[1..]);
      assert v == [v[0]] + v[1..];
    }
  }

  // ----- What the patterns mean -----

  ghost predicate Contains(text: string, v: string) {
    exists a, b :: text == a + v + b
  }

  /** Escaped text at the head of a pattern matches itself and nothing else. */
  lemma {:induction false} EscapedHead(v: string, pattern: string, text: string)
    ensures Matches(EscapeEach(v) + pattern, text) <==> v <= text && Matches(pattern, text[|v|..])
  {
    if v == "" {
      assert EscapeEach(v) + pattern == pattern && text[0..] == text;
    } else {
      var head := if Special(v[0]) then ['\\', v[0]] else [v[0]];
      var rest := EscapeEach(v[1..]) + pattern;
      assert EscapeEach(v) + pattern == head + rest;
      assert (head + rest)[|head|..] == rest;
      if text != "" {
        EscapedHead(v[1..], pattern, text[1..]);
        assert text == [text[0]] + text[1..];
        assert v == [v[0]] + v[1..];
        assert v <= text <==> v[0] == text[0] && v[1..] <= text[1..];
        assert v <= text ==> text[1..][|v[1..]|..] == text[|v|..];
      }
    }
  }

  lemma {:induction false} PercentMatchesAll(text: string)
    ensures Matches("%", text)
  {
    if text != "" {
      PercentMatchesAll(text[1..]);
    }
  }

  /** Unescaped, '_' is one character of any kind. */
  lemma UnderscoreMatchesOne(text: string)
    ensures Matches("_", text) <==> |text| == 1
  {
    assert "_"[1..] == "";
    if text != "" {
      assert Matches("", text[1..]) <==> text[1..] == "";
    }
  }

  /** A pattern behind '%' may match any tail of the text. */
  lemma {:induction false} PercentHead(pattern: string, text: string)
    ensures Matches(['%'] + pattern, text) <==> exists k :: 0 <= k <= |text| && Matches(pattern, text[k..])
  {
    assert (['%'] + pattern)[1..] == pattern;
    assert text[0..] == text;
    if text != "" {
      PercentHead(pattern, text[1..]);
      if k :| 0 <= k <= |text[1..]| && Matches(pattern, text[1..][k..]) {
        assert text[1..][k..] == text[k + 1..];
      }
      forall k | 1 <= k <= |text| && Matches(pattern, text[k..])
        ensures Matches(pattern, text[1..][k - 1..])
      {
        assert text[1..][k - 1..] == text[k..];
      }
    }
  }

  lemma BareMeansEqual(v: string, text: string)
    ensures Matches(Escape(v), text) <==> text == v
  {
    EscapeIsPerCharacter(v);
    EscapedHead(v, "", text);
    assert EscapeEach(v) + "" == EscapeEach(v);
    assert v <= text ==> text == v + text[|v|..];
  }

  lemma PrefixMeansPrefix(v: string, text: string)
    ensures Matches(PrefixPattern(v), text) <==> v <= text
  {
    EscapeIsPerCharacter(v);
    EscapedHead(v, "%", text);
    if v <= text {
      PercentMatchesAll(text[|v|..]);
    }
  }

  lemma ContainsAt(v: string, text: string)
    ensures Contains(text, v) <==> exists k :: 0 <= k <= |text| && v <= text[k..]
  {
    if k :| 0 <= k <= |text| && v <= text[k..] {
      assert text == text[..k] + v + text[k..][|v|..];
    }
    if a, b :| text == a + v + b {
      assert text[|a|..] == v + b;
    }
  }

  lemma ContainsMeansSubstring(v: string, text: string)
    ensures Matches(ContainsPattern(v), text) <==> Contains(text, v)
  {
    assert ContainsPattern(v) == ['%'] + PrefixPattern(v);
    PercentHead(PrefixPattern(v), text);
    forall k | 0 <= k <= |text| ensures Matches(PrefixPattern(v), text[k..]) <==> v <= text[k..] {
      PrefixMeansPrefix(v, text[k..]);
    }
    ContainsAt(v, text);
  }

  // ----- Case-insensitive matching -----

  function Fold(s: string, lower: char -> char): string {
    seq(|s|, k requires 0 <= k < |s| => lower(s[k]))
  }

  /** Lower-casing leaves the three special characters alone and maps nothing else onto them. */
  ghost predicate KeepsSpecials(lower: char -> char) {
    forall c :: if Special(c) then lower(c) == c else !Special(lower(c))
  }

  /** text ILIKE pattern */
  predicate MatchesFolded(pattern: string, text: string, lower: char -> char) {
    Matches(Fold(pattern, lower), Fold(text, lower))
  }

  lemma {:induction false} FoldEscaped(v: string, lower: char -> char)
    requires KeepsSpecials(lower)
    ensures Fold(EscapeEach(v), lower) == EscapeEach(Fold(v, lower))
  {
    if v != "" {
      FoldEscaped(v[1..], lower);
      assert Fold(v, lower)[1..] == Fold(v[1..], lower);
      assert Fold(v, lower)[0] == lower(v[0]);
      assert Special('\\');
      var head := if Special(v[0]) then ['\\', v[0]] else [v[0]];
      assert Fold(EscapeEach(v), lower) == Fold(head, lower) + Fold(EscapeEach(v[1..]), lower);
      assert Fold(head, lower) == if Special(v[0]) then ['\\', lower(v[0])] else [lower(v[0])];
    }
  }

  lemma FoldedPatterns(v: string, lower: char -> char)
    requires KeepsSpecials(lower)
    ensures Fold(Escape(v), lower) == Escape(Fold(v, lower))
    ensures Fold(PrefixPattern(v), lower) == PrefixPattern(Fold(v, lower))
    ensures Fold(ContainsPattern(v), lower) == ContainsPattern(Fold(v, lower))
  {
    FoldEscaped(v, lower);
    EscapeIsPerCharacter(v);
    EscapeIsPerCharacter(Fold(v, lower));
    assert Special('%');
    assert Fold("%", lower) == "%";
    assert Fold(PrefixPattern(v), lower) == Fold(Escape(v), lower) + Fold("%", lower);
    assert ContainsPattern(v) == "%" + PrefixPattern(v);
    assert Fold(ContainsPattern(v), lower) == Fold("%", lower) + Fold(PrefixPattern(v), lower);
    assert ContainsPattern(Fold(v, lower)) == "%" + PrefixPattern(Fold(v, lower));
  }

  /** The same three meanings up to case. */
  lemma FoldedMeanings(v: string, text: string, lower: char -> char)
    requires KeepsSpecials(lower)
    ensures MatchesFolded(Escape(v), text, lower) <==> Fold(text, lower) == Fold(v, lower)
    ensures MatchesFolded(PrefixPattern(v), text, lower) <==> Fold(v, lower) <= Fold(text, lower)
    ensures MatchesFolded(ContainsPattern(v), text, lower) <==> Contains(Fold(text, lower), Fold(v, lower))
  {
    FoldedPatterns(v, lower);
    BareMeansEqual(Fold(v, lower), Fold(text, lower));
    PrefixMeansPrefix(Fold(v, lower), Fold(text, lower));
    ContainsMeansSubstring(Fold(v, lower), Fold(text, lower));
  }
}

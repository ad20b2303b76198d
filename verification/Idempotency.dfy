/** Request keys and canonical payloads: what makes two submissions the same request. */
module Idempotency {
  import opened Journal

  /** The characters str.split() separates on. */
  predicate IsSpace(c: char) {
    var n := c as int;
    (9 <= n <= 13) || (28 <= n <= 32) || n == 0x85 || n == 0xA0 || n == 0x1680 || (0x2000 <= n <= 0x200A)
    || n == 0x2028 || n == 0x2029 || n == 0x202F || n == 0x205F || n == 0x3000
  }

  /** value.split(): the maximal runs of other characters, `word` being the run in progress. */
  function Words(value: string, word: string): seq<string> {
    if |value| == 0 then if word == "" then [] else [word]
    else if IsSpace(value[0]) then (if word == "" then [] else [word]) + Words(value[1..], "")
    else Words(value[1..], word + [value[0]])
  }

  function Join(words: seq<string>): string {
    if |words| == 0 then ""
    else if |words| == 1 then words[0]
    else words[0] + " " + Join(words[1..])
  }

  /** normalize_idempotency_key */
  function Normalize(value: string): string {
    Join(Words(value, ""))
  }

  predicate IsWord(word: string) {
    word != "" && forall k :: 0 <= k < |word| ==> !IsSpace(word[k])
  }

  predicate AreWords(words: seq<string>) {
    forall k :: 0 <= k < |words| ==> IsWord(words[k])
  }

  lemma {:induction false} WordsAreWords(value: string, word: string)
    requires word == "" || IsWord(word)
    ensures AreWords(Words(value, word))
    decreases |value|
  {
    if |value| != 0 {
      if IsSpace(value[0]) {
        WordsAreWords(value[1..], "");
      } else {
        WordsAreWords(value[1..], word + [value[0]]);
      }
    }
  }

  /** A run of other characters is only taken over into the word in progress. */
  lemma {:induction false} WordsAbsorb(run: string, rest: string, word: string)
    requires forall k :: 0 <= k < |run| ==> !IsSpace(run[k])
    ensures Words(run + rest, word) == Words(rest, word + run)
    decreases |run|
  {
    if |run| == 0 {
      assert run + rest == rest && word + run == word;
    } else {
      assert (run + rest)[0] == run[0] && (run + rest)[1..] == run[1..] + rest;
      WordsAbsorb(run[1..], rest, word + [run[0]]);
      assert (word + [run[0]]) + run[1..] == word + run;
    }
  }

  lemma {:induction false} WordsOfJoin(words: seq<string>)
    requires AreWords(words)
    ensures Words(Join(words), "") == words
  {
    if |words| == 1 {
      WordsAbsorb(words[0], "", "");
      assert words[0] + "" == words[0] && "" + words[0] == words[0];
    } else if |words| > 1 {
      var rest := " " + Join(words[1..]);
      WordsOfJoin(words[1..]);
      WordsAbsorb(words[0], rest, "");
      assert Join(words) == words[0] + rest && "" + words[0] == words[0];
      assert rest[0] == ' ' && rest[1..] == Join(words[1..]);
      assert words == [words[0]] + words[1..];
    }
  }

  /** Two keys normalise alike exactly when they have the same words; normalising again changes nothing. */
  lemma NormalizeByWords(a: string, b: string)
    ensures Normalize(a) == Normalize(b) <==> Words(a, "") == Words(b, "")
    ensures Normalize(Normalize(a)) == Normalize(a)
  {
    WordsAreWords(a, "");
    WordsAreWords(b, "");
    WordsOfJoin(Words(a, ""));
    WordsOfJoin(Words(b, ""));
  }

  // ----- Line order -----

  datatype Line = Line(item: Id, quantity: int)

  function Insert(line: Line, sorted: seq<Line>): seq<Line> {
    if |sorted| == 0 || line.item < sorted[0].item then [line] + sorted
    else [sorted[0]] + Insert(line, sorted[1..])
  }

  /** sorted(lines, key=item_id), stable */
  function SortLines(lines: seq<Line>): seq<Line> {
    if |lines| == 0 then [] else Insert(lines[|lines| - 1], SortLines(lines[..|lines| - 1]))
  }

  predicate OneLinePerItem(lines: seq<Line>) {
    forall i, k :: 0 <= i < k < |lines| ==> lines[i].item != lines[k].item
  }

  predicate Ascending(lines: seq<Line>) {
    forall i, k :: 0 <= i < k < |lines| ==> lines[i].item <= lines[k].item
  }

  lemma {:induction false} InsertCounts(line: Line, sorted: seq<Line>)
    ensures multiset(Insert(line, sorted)) == multiset(sorted) + multiset{line}
    ensures |Insert(line, sorted)| == |sorted| + 1
  {
    if |sorted| != 0 && line.item >= sorted[0].item {
      InsertCounts(line, sorted[1..]);
      assert sorted == [sorted[0]] + sorted[1..];
    }
  }

  lemma {:induction false} InsertAscending(line: Line, sorted: seq<Line>)
    requires Ascending(sorted)
    ensures Ascending(Insert(line, sorted))
  {
    if |sorted| != 0 && line.item >= sorted[0].item {
      var tail := sorted[1..];
      InsertAscending(line, tail);
      InsertCounts(line, tail);
      var rest := Insert(line, tail);
      forall k | 0 <= k < |rest| ensures sorted[0].item <= rest[k].item {
        assert rest[k] in multiset(rest);
        assert rest[k] in tail || rest[k] == line;
      }
    }
  }

  lemma LastLine(lines: seq<Line>)
    requires |lines| > 0
    ensures multiset(lines) == multiset(lines[..|lines| - 1]) + multiset{lines[|lines| - 1]}
  {
    assert lines == lines[..|lines| - 1] + [lines[|lines| - 1]];
  }

  lemma {:induction false} SortOk(lines: seq<Line>)
    ensures Ascending(SortLines(lines)) && multiset(SortLines(lines)) == multiset(lines) && |SortLines(lines)| == |lines|
  {
    if |lines| != 0 {
      var front := lines[..|lines| - 1];
      LastLine(lines);
      SortOk(front);
      InsertCounts(lines[|lines| - 1], SortLines(front));
      InsertAscending(lines[|lines| - 1], SortLines(front));
    }
  }

  /** Items occur once in a sequence exactly when they do in a permutation of it. */
  lemma PermutedOncePerItem(a: seq<Line>, b: seq<Line>)
    requires multiset(a) == multiset(b) && OneLinePerItem(a)
    ensures OneLinePerItem(b)
  {
    forall i, k | 0 <= i < k < |b| ensures b[i].item != b[k].item {
      SameItemOnce(a, b, i, k);
    }
  }

  lemma SameItemOnce(a: seq<Line>, b: seq<Line>, i: nat, k: nat)
    requires multiset(a) == multiset(b) && OneLinePerItem(a) && i < k < |b|
    ensures b[i].item != b[k].item
  {
    assert b[i] in multiset(a) && b[k] in multiset(a);
    var x :| 0 <= x < |a| && a[x] == b[i];
    var y :| 0 <= y < |a| && a[y] == b[k];
    if x == y {
      TwiceInB(b, i, k);
      OnceInA(a, x);
    }
  }

  lemma TwiceInB(b: seq<Line>, i: nat, k: nat)
    requires i < k < |b| && b[i] == b[k]
    ensures multiset(b)[b[i]] >= 2
  {
    assert b == b[..k] + [b[k]] + b[k + 1..];
    assert b[..k][i] == b[i];
    assert b[i] in multiset(b[..k]);
  }

  lemma OnceInA(a: seq<Line>, x: nat)
    requires x < |a| && OneLinePerItem(a)
    ensures multiset(a)[a[x]] == 1
  {
    assert a == a[..x] + [a[x]] + a[x + 1..];
    assert a[x] !in a[..x] && a[x] !in a[x + 1..];
  }

  lemma SameHead(a: seq<Line>, b: seq<Line>)
    requires Ascending(a) && Ascending(b) && OneLinePerItem(b) && multiset(a) == multiset(b) && |a| > 0 && |b| > 0
    ensures a[0] == b[0]
  {
    assert a[0] in multiset(b) && b[0] in multiset(a);
    var i :| 0 <= i < |b| && b[i] == a[0];
    var k :| 0 <= k < |a| && a[k] == b[0];
    assert i == 0 by {
      assert a[0].item <= a[k].item && b[0].item <= b[i].item;
    }
  }

  lemma Tail(a: seq<Line>)
    requires Ascending(a) && OneLinePerItem(a) && |a| > 0
    ensures Ascending(a[1..]) && OneLinePerItem(a[1..]) && multiset(a[1..]) == multiset(a) - multiset{a[0]}
  {
    assert a == [a[0]] + a[1..];
  }

  lemma SameSize(a: seq<Line>, b: seq<Line>)
    requires multiset(a) == multiset(b)
    ensures |a| == |b|
  {
    assert |a| == |multiset(a)| && |b| == |multiset(b)|;
  }

  lemma SameParts(a: seq<Line>, b: seq<Line>)
    requires |a| > 0 && |b| > 0 && a[0] == b[0] && a[1..] == b[1..]
    ensures a == b
  {
    assert a == [a[0]] + a[1..] && b == [b[0]] + b[1..];
  }

  /** An ascending sequence with one line per item is determined by its lines. */
  lemma {:induction false} AscendingUnique(a: seq<Line>, b: seq<Line>)
    requires Ascending(a) && Ascending(b) && OneLinePerItem(a) && OneLinePerItem(b) && multiset(a) == multiset(b)
    ensures a == b
    decreases |a|
  {
    SameSize(a, b);
    if |a| != 0 {
      SameHead(a, b);
      Tail(a);
      Tail(b);
      AscendingUnique(a[1..], b[1..]);
      SameParts(a, b);
    }
  }

  /** Permuting the lines of a payload does not change its canonical order. */
  lemma SortPermuted(a: seq<Line>, b: seq<Line>)
    requires multiset(a) == multiset(b) && OneLinePerItem(a)
    ensures SortLines(a) == SortLines(b)
  {
    SortOk(a);
    SortOk(b);
    PermutedOncePerItem(a, SortLines(a));
    PermutedOncePerItem(a, SortLines(b));
    AscendingUnique(SortLines(a), SortLines(b));
  }
}

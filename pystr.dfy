/** The Python `str` operations the tournament engine relies on, over `seq<char>`. */
module PyStr {

  /** `s.startswith(p)` */
  predicate StartsWith(s: string, p: string) {
    |p| <= |s| && s[..|p|] == p
  }

  /** `p in s` for two strings: p occurs in s as a contiguous block. */
  predicate Contains(s: string, p: string)
    decreases |s|
  {
    StartsWith(s, p) || (|s| > 0 && Contains(s[1..], p))
  }

  /** `s.count(p)`: non-overlapping occurrences of p, scanning from the left. */
  function Count(s: string, p: string): nat
    requires p != ""
    decreases |s|
  {
    if |s| < |p| then 0
    else if s[..|p|] == p then 1 + Count(s[|p|..], p)
    else Count(s[1..], p)
  }

  lemma {:induction false} NotContainsShorter(s: string, p: string)
    requires |s| < |p|
    ensures !Contains(s, p)
    decreases |s|
  {
    if |s| > 0 {
      NotContainsShorter(s[1..], p);
    }
  }

  /** `s.count(p)` is zero exactly when `p in s` is false. */
  lemma {:induction false} CountPositiveIff(s: string, p: string)
    requires p != ""
    ensures Count(s, p) > 0 <==> Contains(s, p)
    decreases |s|
  {
    if |s| < |p| {
      NotContainsShorter(s, p);
    } else if s[..|p|] == p {
      assert StartsWith(s, p);
    } else {
      CountPositiveIff(s[1..], p);
    }
  }

  /** `s.split(c)` for a one-character separator c: the pieces between the
      separators, an empty piece where two separators touch or at either end. */
  function Split(s: string, c: char): (parts: seq<string>)
    ensures |parts| >= 1
    ensures forall i :: 0 <= i < |parts| ==> c !in parts[i]
    ensures parts[0] <= s
    ensures |parts[0]| < |s| ==> s[|parts[0]|] == c
    decreases |s|
  {
    if s == "" then [""]
    else
      var rest := Split(s[1..], c);
      if s[0] == c then [""] + rest
      else [[s[0]] + rest[0]] + rest[1..]
  }

  /** `c.join(parts)` */
  function Join(parts: seq<string>, c: char): string
    decreases |parts|
  {
    if parts == [] then ""
    else if |parts| == 1 then parts[0]
    else parts[0] + [c] + Join(parts[1..], c)
  }

  /** Joining the pieces of a split with the same separator gives the string back. */
  lemma {:induction false} JoinSplit(s: string, c: char)
    ensures Join(Split(s, c), c) == s
    decreases |s|
  {
    if s != "" {
      var rest := Split(s[1..], c);
      JoinSplit(s[1..], c);
      if s[0] == c {
        assert Split(s, c) == [""] + rest;
        assert ([""] + rest)[1..] == rest;
      } else {
        var parts := [[s[0]] + rest[0]] + rest[1..];
        assert Split(s, c) == parts;
        if |rest| == 1 {
          assert Join(rest, c) == rest[0];
        } else {
          assert parts[1..] == rest[1..];
          assert Join(rest, c) == rest[0] + [c] + Join(rest[1..], c);
        }
      }
    }
  }

  /** A string without the separator splits into itself alone. */
  lemma {:induction false} SplitWithoutSeparator(s: string, c: char)
    requires c !in s
    ensures Split(s, c) == [s]
    decreases |s|
  {
    if s != "" {
      assert s[0] != c && c !in s[1..];
      SplitWithoutSeparator(s[1..], c);
      assert [s[0]] + s[1..] == s;
    }
  }

  /** The first separator ends the first piece. */
  lemma {:induction false} SplitAtFirst(a: string, c: char, b: string)
    requires c !in a
    ensures Split(a + [c] + b, c) == [a] + Split(b, c)
    decreases |a|
  {
    if a == "" {
      assert a + [c] + b == [c] + b;
      assert ([c] + b)[1..] == b;
    } else {
      assert (a + [c] + b)[1..] == a[1..] + [c] + b;
      SplitAtFirst(a[1..], c, b);
      assert [a[0]] + a[1..] == a;
    }
  }

  /** Splitting a join of separator-free pieces gives the pieces back. */
  lemma {:induction false} SplitJoin(parts: seq<string>, c: char)
    requires |parts| >= 1
    requires forall i :: 0 <= i < |parts| ==> c !in parts[i]
    ensures Split(Join(parts, c), c) == parts
    decreases |parts|
  {
    if |parts| == 1 {
      SplitWithoutSeparator(parts[0], c);
    } else {
      SplitJoin(parts[1..], c);
      SplitAtFirst(parts[0], c, Join(parts[1..], c));
      assert [parts[0]] + parts[1..] == parts;
    }
  }

  /** Python's `str.isspace` for one character. */
  predicate IsSpace(ch: char) {
    var n := ch as int;
    (9 <= n <= 13) || (28 <= n <= 32) || n == 133 || n == 160 || n == 5760 ||
    (8192 <= n <= 8202) || n == 8232 || n == 8233 || n == 8239 || n == 8287 || n == 12288
  }

  predicate NoSpace(w: string) {
    forall i :: 0 <= i < |w| ==> !IsSpace(w[i])
  }

  function Flush(cur: string): seq<string> {
    if cur == "" then [] else [cur]
  }

  /** Words of s, the word under construction being cur. */
  function WordsFrom(s: string, cur: string): (ws: seq<string>)
    requires NoSpace(cur)
    ensures forall i :: 0 <= i < |ws| ==> ws[i] != "" && NoSpace(ws[i])
    decreases |s|
  {
    if s == "" then Flush(cur)
    else if IsSpace(s[0]) then Flush(cur) + WordsFrom(s[1..], "")
    else WordsFrom(s[1..], cur + [s[0]])
  }

  /** `s.split()`: the maximal runs of non-whitespace characters. */
  function Words(s: string): (ws: seq<string>)
    ensures forall i :: 0 <= i < |ws| ==> ws[i] != "" && NoSpace(ws[i])
  {
    WordsFrom(s, "")
  }

  lemma {:induction false} WordsFromCat(a: string, ch: char, b: string, cur: string)
    requires NoSpace(cur) && IsSpace(ch)
    ensures WordsFrom(a + [ch] + b, cur) == WordsFrom(a, cur) + WordsFrom(b, "")
    decreases |a|
  {
    if a == "" {
      assert a + [ch] + b == [ch] + b;
      assert ([ch] + b)[1..] == b;
    } else {
      assert (a + [ch] + b)[0] == a[0];
      assert (a + [ch] + b)[1..] == a[1..] + [ch] + b;
      if IsSpace(a[0]) {
        WordsFromCat(a[1..], ch, b, "");
      } else {
        WordsFromCat(a[1..], ch, b, cur + [a[0]]);
      }
    }
  }

  lemma {:induction false} WordsFromToken(s: string, cur: string)
    requires NoSpace(cur) && NoSpace(s) && cur + s != ""
    ensures WordsFrom(s, cur) == [cur + s]
    decreases |s|
  {
    if s == "" {
      assert cur + s == cur;
    } else {
      assert !IsSpace(s[0]) && NoSpace(s[1..]);
      assert cur + [s[0]] + s[1..] == cur + s;
      WordsFromToken(s[1..], cur + [s[0]]);
    }
  }

  /** A whitespace character separates the words on its two sides. */
  lemma WordsCat(a: string, ch: char, b: string)
    requires IsSpace(ch)
    ensures Words(a + [ch] + b) == Words(a) + Words(b)
  {
    WordsFromCat(a, ch, b, "");
  }

  /** A non-empty run without whitespace is one word. */
  lemma WordsToken(s: string)
    requires s != "" && NoSpace(s)
    ensures Words(s) == [s]
  {
    WordsFromToken(s, "");
    assert "" + s == s;
  }

  lemma {:induction false} WordsFromNonEmpty(s: string, cur: string, k: nat)
    requires NoSpace(cur)
    requires k < |s| && !IsSpace(s[k])
    ensures WordsFrom(s, cur) != []
    decreases |s|
  {
    if k > 0 {
      if IsSpace(s[0]) {
        WordsFromNonEmpty(s[1..], "", k - 1);
      } else {
        WordsFromNonEmpty(s[1..], cur + [s[0]], k - 1);
      }
    } else if !IsSpace(s[0]) && s[1..] != "" {
      WordsFromNotEmptyCur(s[1..], cur + [s[0]]);
    }
  }

  /** A character found neither in the input nor in the pending word is in no word. */
  lemma {:induction false} WordsFromAvoid(s: string, cur: string, ch: char)
    requires NoSpace(cur) && ch !in s && ch !in cur
    ensures forall i :: 0 <= i < |WordsFrom(s, cur)| ==> ch !in WordsFrom(s, cur)[i]
    decreases |s|
  {
    if s != "" {
      if IsSpace(s[0]) {
        WordsFromAvoid(s[1..], "", ch);
      } else {
        WordsFromAvoid(s[1..], cur + [s[0]], ch);
      }
    }
  }

  lemma {:induction false} WordsFromNotEmptyCur(s: string, cur: string)
    requires NoSpace(cur) && cur != ""
    ensures WordsFrom(s, cur) != []
    decreases |s|
  {
    if s != "" && !IsSpace(s[0]) {
      WordsFromNotEmptyCur(s[1..], cur + [s[0]]);
    }
  }

  /** `s.rstrip(cs)`: drop trailing characters that belong to the SET cs. */
  function RStrip(s: string, cs: set<char>): (r: string)
    ensures r <= s
    ensures r == "" || r[|r| - 1] !in cs
    ensures forall i :: |r| <= i < |s| ==> s[i] in cs
    decreases |s|
  {
    if s != "" && s[|s| - 1] in cs then RStrip(s[..|s| - 1], cs) else s
  }
}

/** The functions of Go's `strings` package that the clients use, on
    Dafny strings (sequences of Unicode scalar values). Prefix and search
    functions are generic so that they serve byte strings as well. */
module GoStrings {

  /** `strings.HasPrefix`. */
  predicate HasPrefix<T(==)>(s: seq<T>, prefix: seq<T>) {
    |prefix| <= |s| && s[..|prefix|] == prefix
  }

  /** `strings.HasSuffix`. */
  predicate HasSuffix<T(==)>(s: seq<T>, suffix: seq<T>) {
    |suffix| <= |s| && s[|s| - |suffix|..] == suffix
  }

  /** `sub` occurs in `s` starting at index `i`. */
  predicate OccursAt<T(==)>(s: seq<T>, sub: seq<T>, i: int) {
    0 <= i && i + |sub| <= |s| && s[i..i + |sub|] == sub
  }

  predicate Contains<T(==)>(s: seq<T>, sub: seq<T>) {
    exists i | 0 <= i <= |s| - |sub| :: OccursAt(s, sub, i)
  }

  /** The first occurrence of `sub` in `s` at or after `from`, or -1. */
  function IndexFrom<T(==)>(s: seq<T>, sub: seq<T>, from: nat): (r: int)
    requires from <= |s|
    ensures r == -1 || (from <= r && OccursAt(s, sub, r))
    ensures forall j :: from <= j && (r == -1 || j < r) ==> !OccursAt(s, sub, j)
    decreases |s| - from
  {
    if from + |sub| > |s| then -1
    else if s[from..from + |sub|] == sub then from
    else IndexFrom(s, sub, from + 1)
  }

  /** `strings.Index`: the index of the first occurrence of `sub` in `s`,
      or -1 when there is none. */
  function Index<T(==)>(s: seq<T>, sub: seq<T>): (r: int)
    ensures r >= 0 ==> OccursAt(s, sub, r) && forall j :: 0 <= j < r ==> !OccursAt(s, sub, j)
    ensures r == -1 || r >= 0
    ensures r >= 0 <==> Contains(s, sub)
  {
    IndexFrom(s, sub, 0)
  }

  /** A string occurs in no text that lacks one of its characters. */
  lemma AbsentChar<T>(s: seq<T>, sub: seq<T>, c: T)
    requires c in sub && c !in s
    ensures !Contains(s, sub)
  {
    var k :| 0 <= k < |sub| && sub[k] == c;
    forall i | 0 <= i <= |s| - |sub| ensures !OccursAt(s, sub, i) {
      assert i + k < |s| && s[i + k] != c;
    }
  }

  /** `strings.Replace(s, pattern, replacement, -1)` for a non-empty pattern:
      scanning from the left, every occurrence of the pattern that does not
      overlap an occurrence already replaced is replaced. */
  function ReplaceAll(s: string, pattern: string, replacement: string): string
    requires |pattern| > 0
    decreases |s|
  {
    if |s| < |pattern| then s
    else if s[..|pattern|] == pattern then replacement + ReplaceAll(s[|pattern|..], pattern, replacement)
    else [s[0]] + ReplaceAll(s[1..], pattern, replacement)
  }

  /** Replacing a string that does not occur leaves the text unchanged. */
  lemma {:induction false} ReplaceAbsent(s: string, pattern: string, replacement: string)
    requires |pattern| > 0 && !Contains(s, pattern)
    ensures ReplaceAll(s, pattern, replacement) == s
  {
    if |s| >= |pattern| {
      assert !OccursAt(s, pattern, 0);
      forall i | 0 <= i <= |s| - 1 - |pattern| ensures !OccursAt(s[1..], pattern, i) {
        assert s[1..][i..i + |pattern|] == s[i + 1..i + 1 + |pattern|];
        assert !OccursAt(s, pattern, i + 1);
      }
      ReplaceAbsent(s[1..], pattern, replacement);
    }
  }

  /** Replacing in a text that has none of the characters of `pattern`. */
  lemma ReplaceAbsentChar(s: string, pattern: string, replacement: string, c: char)
    requires |pattern| > 0 && c in pattern && c !in s
    ensures ReplaceAll(s, pattern, replacement) == s
  {
    AbsentChar(s, pattern, c);
    ReplaceAbsent(s, pattern, replacement);
  }

  /** `w` has no border: no proper non-empty prefix of `w` is also a suffix,
      so two occurrences of `w` can never overlap. */
  predicate Borderless(w: string) {
    forall k :: 0 < k < |w| ==> w[..k] != w[|w| - k..]
  }

  /** A text that starts and ends with `pattern` but is shorter than two copies of it
      shows that `pattern` has a border. */
  lemma OverlapMeansBorder(s: string, pattern: string)
    requires HasPrefix(s, pattern) && HasSuffix(s, pattern)
    ensures |pattern| < |s| < 2 * |pattern| ==> !Borderless(pattern)
  {
    var n := |pattern|;
    if n < |s| < 2 * n {
      var k := |s| - n;
      var m := n - k;
      assert pattern[..m] == s[k..n];
      assert pattern[n - m..] == s[..n][k..] == s[k..n];
    }
  }

  /** A suffix of `b` is a suffix of `a + b`. */
  lemma SuffixOfConcat<T>(a: seq<T>, b: seq<T>, suffix: seq<T>)
    requires HasSuffix(b, suffix)
    ensures HasSuffix(a + b, suffix)
  {
    assert (a + b)[|a + b| - |suffix|..] == b[|b| - |suffix|..];
  }

  /** A text that ends with a borderless `pattern` ends with `replacement` once every
      occurrence of `pattern` is replaced. */
  lemma {:induction false} ReplaceKeepsSuffix(s: string, pattern: string, replacement: string)
    requires |pattern| > 0 && Borderless(pattern) && HasSuffix(s, pattern)
    ensures HasSuffix(ReplaceAll(s, pattern, replacement), replacement)
    decreases |s|
  {
    var n := |pattern|;
    if s[..n] == pattern {
      OverlapMeansBorder(s, pattern);
      var rest := s[n..];
      if |s| == n {
        assert rest == [];
        assert ReplaceAll(s, pattern, replacement) == replacement + [];
      } else {
        assert rest[|rest| - n..] == s[|s| - n..];
        ReplaceKeepsSuffix(rest, pattern, replacement);
        SuffixOfConcat(replacement, ReplaceAll(rest, pattern, replacement), replacement);
      }
    } else {
      var rest := s[1..];
      assert rest[|rest| - n..] == s[|s| - n..];
      ReplaceKeepsSuffix(rest, pattern, replacement);
      SuffixOfConcat([s[0]], ReplaceAll(rest, pattern, replacement), replacement);
    }
  }

  /** `strings.Join`. */
  function Join(parts: seq<string>, sep: string): string {
    if |parts| == 0 then ""
    else if |parts| == 1 then parts[0]
    else parts[0] + sep + Join(parts[1..], sep)
  }

  /** Joining one more part appends the separator and the part. */
  lemma {:induction false} JoinSnoc(parts: seq<string>, p: string, sep: string)
    requires |parts| > 0
    ensures Join(parts + [p], sep) == Join(parts, sep) + sep + p
  {
    if |parts| > 1 {
      assert (parts + [p])[1..] == parts[1..] + [p];
      JoinSnoc(parts[1..], p, sep);
    } else {
      assert (parts + [p])[1..] == [p];
    }
  }

  /** `strings.Split(s, string(c))`: the pieces between the occurrences of `c`
      (the empty string splits into one empty piece). */
  function Split(s: string, c: char): (r: seq<string>)
    ensures |r| >= 1
  {
    if s == [] then [""]
    else
      var rest := Split(s[1..], c);
      if s[0] == c then [""] + rest else [[s[0]] + rest[0]] + rest[1..]
  }

  /** A text without the separator splits into itself. */
  lemma {:induction false} SplitWithoutSeparator(s: string, c: char)
    requires c !in s
    ensures Split(s, c) == [s]
  {
    if s != [] {
      SplitWithoutSeparator(s[1..], c);
      assert [s[0]] + s[1..] == s;
    }
  }

  /** Splitting stops at the first separator. */
  lemma {:induction false} SplitAtSeparator(a: string, t: string, c: char)
    requires c !in a
    ensures Split(a + [c] + t, c) == [a] + Split(t, c)
  {
    if a == [] {
      assert a + [c] + t == [c] + t;
      assert ([c] + t)[1..] == t;
    } else {
      assert (a + [c] + t)[1..] == a[1..] + [c] + t;
      SplitAtSeparator(a[1..], t, c);
      assert [a[0]] + a[1..] == a;
    }
  }

  /** Split undoes Join when no part contains the separator. */
  lemma {:induction false} SplitJoin(parts: seq<string>, c: char)
    requires |parts| >= 1
    requires forall i :: 0 <= i < |parts| ==> c !in parts[i]
    ensures Split(Join(parts, [c]), c) == parts
  {
    if |parts| == 1 {
      SplitWithoutSeparator(parts[0], c);
    } else {
      SplitJoin(parts[1..], c);
      SplitAtSeparator(parts[0], Join(parts[1..], [c]), c);
      assert [parts[0]] + parts[1..] == parts;
    }
  }

  /** The number of occurrences of `c` in `s`. */
  function CountChar(s: string, c: char): nat {
    if s == [] then 0 else (if s[0] == c then 1 else 0) + CountChar(s[1..], c)
  }

  lemma {:induction false} CountCharConcat(a: string, b: string, c: char)
    ensures CountChar(a + b, c) == CountChar(a, c) + CountChar(b, c)
  {
    if a != [] {
      assert (a + b)[1..] == a[1..] + b;
      CountCharConcat(a[1..], b, c);
    } else {
      assert a + b == b;
    }
  }

  lemma {:induction false} CountCharAbsent(s: string, c: char)
    requires c !in s
    ensures CountChar(s, c) == 0
  {
    if s != [] { CountCharAbsent(s[1..], c); }
  }

  /** Joining n parts that lack the separator character puts exactly n - 1
      separators into the result. */
  lemma {:induction false} JoinSeparatorCount(parts: seq<string>, c: char)
    requires |parts| >= 1
    requires forall i :: 0 <= i < |parts| ==> c !in parts[i]
    ensures CountChar(Join(parts, [c]), c) == |parts| - 1
  {
    if |parts| == 1 {
      CountCharAbsent(parts[0], c);
    } else {
      JoinSeparatorCount(parts[1..], c);
      CountCharAbsent(parts[0], c);
      CountCharConcat(parts[0] + [c], Join(parts[1..], [c]), c);
      CountCharConcat(parts[0], [c], c);
    }
  }

  /** Splitting at the first `c`: the text before it and the text after it
      (the whole text and "" when `c` does not occur). */
  function Cut(s: string, c: char): (string, string) {
    if s == [] then ("", "")
    else if s[0] == c then ("", s[1..])
    else var (before, after) := Cut(s[1..], c); ([s[0]] + before, after)
  }

  lemma {:induction false} CutAtFirst(key: string, value: string, c: char)
    requires c !in key
    ensures Cut(key + [c] + value, c) == (key, value)
  {
    if key == [] {
      assert key + [c] + value == [c] + value;
      assert ([c] + value)[1..] == value;
    } else {
      assert (key + [c] + value)[1..] == key[1..] + [c] + value;
      CutAtFirst(key[1..], value, c);
      assert [key[0]] + key[1..] == key;
    }
  }

  /** Without `c`, the whole text comes before it and nothing after. */
  lemma {:induction false} CutAbsent(s: string, c: char)
    requires c !in s
    ensures Cut(s, c) == (s, "")
  {
    if s != [] {
      CutAbsent(s[1..], c);
      assert [s[0]] + s[1..] == s;
    }
  }

  /** `strings.ToUpper` on ASCII letters; every other character is kept. */
  function ToUpperChar(c: char): char {
    if 'a' <= c <= 'z' then (c as int - 32) as char else c
  }

  function ToUpper(s: string): (r: string)
    ensures |r| == |s|
    ensures forall i :: 0 <= i < |s| ==> r[i] == ToUpperChar(s[i])
  {
    if s == [] then "" else [ToUpperChar(s[0])] + ToUpper(s[1..])
  }
}

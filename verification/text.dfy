/** The Python string operations the description parser relies on: `str.split()`,
    `str.split(' ', 1)`, `str.lower()` and the ordering `sorted()` uses on names. */
module Text {
  import opened Base

  /** Python's `str.isspace()`: the separators of `str.split()` called with no argument. */
  predicate IsSpace(c: char) {
    || c == ' '
    || ('\t' <= c <= '\r')
    || ('\U{1c}' <= c <= '\U{1f}')
    || c == '\U{85}' || c == '\U{a0}' || c == '\U{1680}'
    || ('\U{2000}' <= c <= '\U{200a}')
    || c == '\U{2028}' || c == '\U{2029}' || c == '\U{202f}' || c == '\U{205f}' || c == '\U{3000}'
  }

  predicate NoSpace(s: string) {
    forall i :: 0 <= i < |s| ==> !IsSpace(s[i])
  }

  /** A token of `str.split()`: non-empty and free of whitespace. */
  predicate IsToken(s: string) {
    |s| > 0 && NoSpace(s)
  }

  predicate AllTokens(ws: seq<string>) {
    forall i :: 0 <= i < |ws| ==> IsToken(ws[i])
  }

  /** The length of the longest whitespace-free prefix of `s`. */
  function WordLen(s: string): (n: nat)
    ensures n <= |s|
    ensures NoSpace(s[..n])
    ensures n < |s| ==> IsSpace(s[n])
  {
    if s == [] || IsSpace(s[0]) then 0
    else
      var n := 1 + WordLen(s[1..]);
      assert s[..n] == [s[0]] + s[1..][..n - 1];
      n
  }

  /** Python's `s.split()`: the maximal runs of non-whitespace characters, in order. */
  function Words(s: string): (ws: seq<string>)
    ensures AllTokens(ws)
    decreases |s|
  {
    if s == [] then []
    else if IsSpace(s[0]) then Words(s[1..])
    else
      var n := WordLen(s);
      [s[..n]] + Words(s[n..])
  }

  /** Tokens written out separated by single spaces, as a description line holds them. */
  function Join(ws: seq<string>): string {
    if ws == [] then ""
    else if |ws| == 1 then ws[0]
    else ws[0] + " " + Join(ws[1..])
  }

  lemma {:induction false} WordLenOfToken(w: string, rest: string)
    requires NoSpace(w)
    requires rest == [] || IsSpace(rest[0])
    ensures WordLen(w + rest) == |w|
  {
    if w != [] {
      assert (w + rest)[1..] == w[1..] + rest;
      WordLenOfToken(w[1..], rest);
    }
  }

  /** Splitting tokens joined by spaces gives the tokens back. */
  lemma {:induction false} WordsJoin(ws: seq<string>)
    requires AllTokens(ws)
    ensures Words(Join(ws)) == ws
  {
    if ws == [] {
    } else if |ws| == 1 {
      var w := ws[0];
      WordLenOfToken(w, []);
      assert w + [] == w;
      assert w[..|w|] == w;
      assert w[|w|..] == [];
    } else {
      var w := ws[0];
      var rest := Join(ws[1..]);
      var s := w + " " + rest;
      assert s == w + (" " + rest);
      WordLenOfToken(w, " " + rest);
      assert s[..|w|] == w;
      assert s[|w|..] == " " + rest;
      assert (" " + rest)[1..] == rest;
      WordsJoin(ws[1..]);
      assert ws == [w] + ws[1..];
    }
  }

  /** Together with `WordsSpace`, these pin `Words` down on every string: the empty string has
      no words, a single token is one word. */
  lemma WordsBase(w: string)
    ensures Words("") == []
    ensures IsToken(w) ==> Words(w) == [w]
  {
    if IsToken(w) {
      WordsJoin([w]);
    }
  }

  /** Any whitespace character separates: the words on either side of it are split apart and
      kept in order, and the character itself yields none. */
  lemma {:induction false} WordsSpace(a: string, c: char, b: string)
    requires IsSpace(c)
    ensures Words(a + [c] + b) == Words(a) + Words(b)
    decreases |a|
  {
    if a == [] {
      var s := a + [c] + b;
      assert s == [c] + b && s[1..] == b;
    } else if IsSpace(a[0]) {
      WordsSpace(a[1..], c, b);
      WordsSpaceLead(a, c, b);
    } else {
      var k := WordLen(a);
      WordsSpace(a[k..], c, b);
      WordsSpaceWord(a, c, b);
    }
  }

  lemma CutAt(a: string, k: nat, rest: string)
    requires k <= |a|
    ensures a + rest == a[..k] + (a[k..] + rest)
  {
    assert a == a[..k] + a[k..];
  }

  lemma WordsSpaceLead(a: string, c: char, b: string)
    requires a != [] && IsSpace(a[0])
    requires Words(a[1..] + [c] + b) == Words(a[1..]) + Words(b)
    ensures Words(a + [c] + b) == Words(a) + Words(b)
  {
    var s := a + [c] + b;
    assert s[0] == a[0] && s[1..] == a[1..] + [c] + b;
  }

  lemma WordsSpaceWord(a: string, c: char, b: string)
    requires a != [] && !IsSpace(a[0]) && IsSpace(c)
    requires Words(a[WordLen(a)..] + [c] + b) == Words(a[WordLen(a)..]) + Words(b)
    ensures Words(a + [c] + b) == Words(a) + Words(b)
  {
    var s := a + [c] + b;
    var k := WordLen(a);
    var tail := a[k..] + [c] + b;
    CutAt(a, k, [c] + b);
    assert s == a + ([c] + b) && tail == a[k..] + ([c] + b);
    WordLenOfToken(a[..k], tail);
    assert s[0] == a[0];
    assert WordLen(s) == k;
    assert s[..k] == a[..k] && s[k..] == tail;
    assert Words(s) == [s[..k]] + Words(s[k..]);
    assert Words(a) == [a[..k]] + Words(a[k..]);
  }

  /** Python's `line.split(' ', 1)`: the text before the first space character and, when
      the line holds one, the text after it. */
  function SplitAtSpace(line: string): (r: (string, Option<string>))
    ensures ' ' !in r.0
    ensures r.1.None? ==> r.0 == line
    ensures r.1.Some? ==> line == r.0 + " " + r.1.value
  {
    if line == [] then ("", None)
    else if line[0] == ' ' then ("", Some(line[1..]))
    else
      var (head, tail) := SplitAtSpace(line[1..]);
      ([line[0]] + head, tail)
  }

  /** A keyword free of spaces, a space and the rest: `split(' ', 1)` cuts at that space. */
  lemma {:induction false} SplitKeyword(kw: string, rest: string)
    requires ' ' !in kw
    ensures SplitAtSpace(kw + " " + rest) == (kw, Some(rest))
  {
    var line := kw + " " + rest;
    if kw == [] {
      assert line == " " + rest;
      assert line[1..] == rest;
    } else {
      assert line[0] == kw[0] && kw[0] != ' ';
      assert line[1..] == kw[1..] + " " + rest;
      SplitKeyword(kw[1..], rest);
      assert [kw[0]] + kw[1..] == kw;
    }
  }

  /** `str.lower()` on one character; only ASCII letters are mapped. */
  function LowerChar(c: char): char {
    if 'A' <= c <= 'Z' then (c as int - 'A' as int + 'a' as int) as char else c
  }

  function Lower(s: string): (r: string)
    ensures |r| == |s|
    ensures forall i :: 0 <= i < |s| ==> r[i] == LowerChar(s[i])
  {
    seq(|s|, i requires 0 <= i < |s| => LowerChar(s[i]))
  }

  /** Python's `<` on strings: lexicographic by code point. */
  predicate Below(a: string, b: string) {
    if a == [] then b != []
    else b != [] && (if a[0] == b[0] then Below(a[1..], b[1..]) else a[0] < b[0])
  }

  lemma {:induction false} BelowIrreflexive(a: string)
    ensures !Below(a, a)
  {
    if a != [] {
      BelowIrreflexive(a[1..]);
    }
  }

  lemma {:induction false} BelowTransitive(a: string, b: string, c: string)
    requires Below(a, b) && Below(b, c)
    ensures Below(a, c)
  {
    if a != [] && a[0] == b[0] && b[0] == c[0] {
      BelowTransitive(a[1..], b[1..], c[1..]);
    }
  }

  lemma {:induction false} BelowTotal(a: string, b: string)
    requires a != b
    ensures Below(a, b) || Below(b, a)
  {
    if a != [] && b != [] && a[0] == b[0] {
      assert a == [a[0]] + a[1..] && b == [b[0]] + b[1..];
      BelowTotal(a[1..], b[1..]);
    }
  }

  lemma BelowAsymmetric(a: string, b: string)
    ensures !(Below(a, b) && Below(b, a))
  {
    if Below(a, b) && Below(b, a) {
      BelowTransitive(a, b, a);
      BelowIrreflexive(a);
    }
  }

  /** Strictly ascending, hence also free of duplicates. */
  predicate Sorted(s: seq<string>) {
    forall i, j :: 0 <= i < j < |s| ==> Below(s[i], s[j])
  }

  lemma SortedDistinct(s: seq<string>, i: nat, j: nat)
    requires Sorted(s)
    requires i < j < |s|
    ensures s[i] != s[j]
  {
    BelowIrreflexive(s[i]);
  }

  lemma HeadLeast(s: seq<string>, e: string)
    requires Sorted(s)
    requires e in s
    ensures e == s[0] || Below(s[0], e)
  {
  }

  lemma SortedCons(h: string, t: seq<string>)
    requires Sorted(t)
    requires forall x :: x in t ==> Below(h, x)
    ensures Sorted([h] + t)
  {
    var s := [h] + t;
    forall i, j | 0 <= i < j < |s|
      ensures Below(s[i], s[j])
    {
      if i == 0 {
        assert s[j] == t[j - 1];
      } else {
        assert s[i] == t[i - 1] && s[j] == t[j - 1];
      }
    }
  }

  /** Inserts `a` before the first name above it, unless it meets itself first; on a
      strictly ascending list the result is ascending and a name already present leaves the
      list as it is. */
  function Insert(s: seq<string>, a: string): (r: seq<string>)
    ensures forall x :: x in r <==> x in s || x == a
    ensures Sorted(s) ==> Sorted(r)
    ensures Sorted(s) && a in s ==> r == s
  {
    if s == [] then [a]
    else if a == s[0] then s
    else if Below(a, s[0]) then
      assert Sorted(s) ==> Sorted([a] + s) by {
        if Sorted(s) {
          forall x | x in s
            ensures Below(a, x)
          {
            var k :| 0 <= k < |s| && s[k] == x;
            if k > 0 {
              BelowTransitive(a, s[0], x);
            }
          }
          SortedCons(a, s);
        }
      }
      assert Sorted(s) ==> a !in s by {
        if Sorted(s) && a in s {
          HeadLeast(s, a);
          BelowAsymmetric(a, s[0]);
        }
      }
      [a] + s
    else
      assert s == [s[0]] + s[1..];
      var r := Insert(s[1..], a);
      assert Sorted(s) ==> Sorted([s[0]] + r) by {
        if Sorted(s) {
          BelowTotal(a, s[0]);
          forall x | x in r
            ensures Below(s[0], x)
          {
            if x != a {
              var k :| 0 <= k < |s[1..]| && s[1..][k] == x;
              assert s[k + 1] == x;
            }
          }
          SortedCons(s[0], r);
        }
      }
      assert Sorted(s) && a in s ==> a in s[1..];
      [s[0]] + r
  }

  /** Two strictly ascending lists with the same elements are equal: whatever sorting
      routine produced an ascending duplicate-free list, the list is determined. */
  lemma {:induction false} SortedUnique(x: seq<string>, y: seq<string>)
    requires Sorted(x) && Sorted(y)
    requires forall e :: e in x <==> e in y
    ensures x == y
  {
    assert y != [] ==> y[0] in y;
    if x != [] {
      assert x[0] in x;
      assert y != [] && x[0] in y && y[0] in x;
      HeadLeast(x, y[0]);
      HeadLeast(y, x[0]);
      BelowAsymmetric(x[0], y[0]);
      assert x[0] == y[0];
      forall e
        ensures e in x[1..] <==> e in y[1..]
      {
        if e in x[1..] {
          var k :| 0 <= k < |x[1..]| && x[1..][k] == e;
          SortedDistinct(x, 0, k + 1);
          assert e in y;
          var l :| 0 <= l < |y| && y[l] == e;
          assert l != 0;
          assert y[1..][l - 1] == e;
        }
        if e in y[1..] {
          var k :| 0 <= k < |y[1..]| && y[1..][k] == e;
          SortedDistinct(y, 0, k + 1);
          assert e in x;
          var l :| 0 <= l < |x| && x[l] == e;
          assert l != 0;
          assert x[1..][l - 1] == e;
        }
      }
      SortedUnique(x[1..], y[1..]);
      assert x == [x[0]] + x[1..] && y == [y[0]] + y[1..];
    }
  }
}

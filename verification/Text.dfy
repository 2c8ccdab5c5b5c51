/**
 The functions of Go's `strings` package that the repository relies on. A Go string is a sequence
 of bytes, so where lengths or slices matter (`CreateJID`) a `char` stands for one byte. Go's
 `strings.Map` decodes runes, but every byte of a multi-byte rune is at least 0x80 and is dropped
 by the digit filters either way, so filtering bytes and filtering runes agree.
 */
module Text {

  predicate OccursAt(s: string, sub: string, i: int) {
    0 <= i <= |s| - |sub| && s[i..i + |sub|] == sub
  }

  /** `strings.Contains(s, sub)`. */
  predicate Contains(s: string, sub: string) {
    exists i | 0 <= i <= |s| - |sub| :: OccursAt(s, sub, i)
  }

  /** `strings.Map` with a mapping that keeps the characters satisfying `keep` and drops the rest. */
  function Filter(s: string, keep: char -> bool): string {
    if s == [] then []
    else if keep(s[0]) then [s[0]] + Filter(s[1..], keep)
    else Filter(s[1..], keep)
  }

  /** `strings.ReplaceAll(s, string(c), "")`. */
  function Delete(s: string, c: char): string {
    Filter(s, x => x != c)
  }

  /** `strings.Split(s, string(c))[0]`: everything before the first `c`. */
  function UpTo(s: string, c: char): (r: string)
    ensures c !in r
    ensures r <= s
    ensures r != s ==> s[|r|] == c
  {
    if s == [] || s[0] == c then [] else [s[0]] + UpTo(s[1..], c)
  }

  /** Only characters of the text that are to be kept are left. */
  lemma {:induction false} FilterOnly(s: string, keep: char -> bool)
    ensures |Filter(s, keep)| <= |s|
    ensures forall i :: 0 <= i < |Filter(s, keep)| ==> keep(Filter(s, keep)[i]) && Filter(s, keep)[i] in s
  {
    if s != [] {
      FilterOnly(s[1..], keep);
    }
  }

  lemma {:induction false} FilterAppend(a: string, b: string, keep: char -> bool)
    ensures Filter(a + b, keep) == Filter(a, keep) + Filter(b, keep)
  {
    if a == [] {
      assert a + b == b;
    } else {
      assert (a + b)[1..] == a[1..] + b;
      FilterAppend(a[1..], b, keep);
    }
  }

  lemma {:induction false} FilterAll(s: string, keep: char -> bool)
    requires forall i :: 0 <= i < |s| ==> keep(s[i])
    ensures Filter(s, keep) == s
  {
    if s != [] {
      FilterAll(s[1..], keep);
    }
  }

  lemma {:induction false} FilterNone(s: string, keep: char -> bool)
    requires forall i :: 0 <= i < |s| ==> !keep(s[i])
    ensures Filter(s, keep) == []
  {
    if s != [] {
      FilterNone(s[1..], keep);
    }
  }

  lemma {:induction false} FilterKeeps(s: string, keep: char -> bool, i: nat)
    requires i < |s| && keep(s[i])
    ensures s[i] in Filter(s, keep)
  {
    if i > 0 {
      FilterKeeps(s[1..], keep, i - 1);
    }
  }

  /** Two filters in a row are the filter of their conjunction. */
  lemma {:induction false} FilterTwice(s: string, p: char -> bool, q: char -> bool, both: char -> bool)
    requires forall c :: both(c) <==> p(c) && q(c)
    ensures Filter(Filter(s, p), q) == Filter(s, both)
  {
    if s != [] {
      FilterTwice(s[1..], p, q, both);
      if p(s[0]) {
        FilterAppend([s[0]], Filter(s[1..], p), q);
      }
    }
  }

  /** Only which characters are kept matters. */
  lemma {:induction false} FilterSame(s: string, p: char -> bool, q: char -> bool)
    requires forall c :: p(c) <==> q(c)
    ensures Filter(s, p) == Filter(s, q)
  {
    if s != [] {
      FilterSame(s[1..], p, q);
    }
  }

  /** A filter that keeps the separator commutes with cutting at the separator. */
  lemma {:induction false} FilterUpTo(s: string, keep: char -> bool, c: char)
    requires keep(c)
    ensures UpTo(Filter(s, keep), c) == Filter(UpTo(s, c), keep)
  {
    if s != [] {
      FilterUpTo(s[1..], keep, c);
    }
  }

  lemma {:induction false} UpToAppend(a: string, c: char, b: string)
    requires c !in a
    ensures UpTo(a + [c] + b, c) == a
  {
    if a != [] {
      assert (a + [c] + b)[1..] == a[1..] + [c] + b;
      UpToAppend(a[1..], c, b);
    }
  }

  lemma UpToAbsent(s: string, c: char)
    requires c !in s
    ensures UpTo(s, c) == s
  {
  }

  lemma {:induction false} ContainsSuffix(a: string, sub: string)
    ensures Contains(a + sub, sub)
  {
    assert OccursAt(a + sub, sub, |a|);
  }

  /** Containing a text is having it somewhere between two others. */
  lemma {:induction false} ContainsMeaning(s: string, sub: string)
    ensures Contains(s, sub) <==> exists a, b :: s == a + sub + b
  {
    if Contains(s, sub) {
      var i :| 0 <= i <= |s| - |sub| && OccursAt(s, sub, i);
      assert s == s[..i] + sub + s[i + |sub|..];
    }
    if exists a, b :: s == a + sub + b {
      var a, b :| s == a + sub + b;
      assert OccursAt(s, sub, |a|);
    }
  }

  /** Without the first character of the pattern there is no occurrence of the pattern. */
  lemma ContainsNeedsHead(s: string, sub: string)
    requires sub != [] && sub[0] !in s
    ensures !Contains(s, sub)
  {
  }
}

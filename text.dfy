/** The string operations the battery resolver relies on: ordinal substring search
    (`string.Contains`), the same search ignoring case (`StringComparison.OrdinalIgnoreCase`)
    and the last piece of a `Split` (`Split('#').LastOrDefault()`). */
module Text {

  /** `sub` occurs in `s` starting at index `i`. */
  ghost predicate OccursAt(s: string, sub: string, i: int) {
    0 <= i && i + |sub| <= |s| && s[i..i + |sub|] == sub
  }

  lemma {:induction false} OccursAtShift(s: string, sub: string)
    requires |sub| <= |s| && s[..|sub|] != sub
    ensures (exists i :: OccursAt(s[1..], sub, i)) <==> (exists i :: OccursAt(s, sub, i))
  {
    if i :| OccursAt(s[1..], sub, i) {
      assert s[i + 1..i + 1 + |sub|] == s[1..][i..i + |sub|];
      assert OccursAt(s, sub, i + 1);
    }
    if i :| OccursAt(s, sub, i) {
      assert i != 0 by { assert s[0..|sub|] == s[..|sub|]; }
      assert s[1..][i - 1..i - 1 + |sub|] == s[i..i + |sub|];
      assert OccursAt(s[1..], sub, i - 1);
    }
  }

  /** Ordinal `s.Contains(sub)`. */
  function Contains(s: string, sub: string): bool
    decreases |s|
  {
    if |sub| > |s| then false
    else if s[..|sub|] == sub then true
    else Contains(s[1..], sub)
  }

  /** `Contains` holds exactly when `sub` occurs somewhere in `s`; in particular the
      empty string occurs in every string. */
  lemma {:induction false} ContainsOccurs(s: string, sub: string)
    ensures Contains(s, sub) <==> exists i :: OccursAt(s, sub, i)
    decreases |s|
  {
    if |sub| > |s| {
    } else if s[..|sub|] == sub {
      assert OccursAt(s, sub, 0);
    } else {
      ContainsOccurs(s[1..], sub);
      OccursAtShift(s, sub);
    }
  }

  /** Simple upper-case mapping of a character (ASCII letters only). */
  function UpperChar(c: char): char {
    if 'a' <= c <= 'z' then (c as int - 'a' as int + 'A' as int) as char else c
  }

  function Upper(s: string): string {
    seq(|s|, i requires 0 <= i < |s| => UpperChar(s[i]))
  }

  /** `s.Contains(sub, StringComparison.OrdinalIgnoreCase)`: both sides are compared
      after mapping every character to upper case. */
  function ContainsIgnoreCase(s: string, sub: string): bool {
    Contains(Upper(s), Upper(sub))
  }

  /** An exact occurrence is also an occurrence when case is ignored. */
  lemma {:induction false} ContainsThenContainsIgnoreCase(s: string, sub: string)
    requires Contains(s, sub)
    ensures ContainsIgnoreCase(s, sub)
  {
    ContainsOccurs(s, sub);
    var i :| OccursAt(s, sub, i);
    var us, usub := Upper(s), Upper(sub);
    forall k | 0 <= k < |sub|
      ensures us[i..i + |sub|][k] == usub[k]
    {
      assert s[i..i + |sub|][k] == sub[k];
    }
    assert us[i..i + |sub|] == usub;
    assert OccursAt(us, usub, i);
    ContainsOccurs(us, usub);
  }

  /** The last element of `s.Split(sep)`: the text after the last `sep`, all of `s`
      when `sep` does not occur, and the empty string when `s` ends with `sep`. */
  function AfterLast(s: string, sep: char): string
    decreases |s|
  {
    if s == [] then []
    else if s[|s| - 1] == sep then []
    else AfterLast(s[..|s| - 1], sep) + [s[|s| - 1]]
  }

  /** `AfterLast(s, sep)` is the longest suffix of `s` free of `sep`: a suffix, without
      `sep`, and either all of `s` or preceded by `sep`. */
  lemma {:induction false} AfterLastSuffix(s: string, sep: char)
    ensures var r := AfterLast(s, sep);
      && sep !in r
      && |r| <= |s| && r == s[|s| - |r|..]
      && (|r| < |s| ==> s[|s| - |r| - 1] == sep)
    decreases |s|
  {
    if s != [] && s[|s| - 1] != sep {
      var front := AfterLast(s[..|s| - 1], sep);
      AfterLastSuffix(s[..|s| - 1], sep);
      assert s[..|s| - 1][|s| - 1 - |front|..] + [s[|s| - 1]] == s[|s| - 1 - |front|..];
    }
  }

  /** Without a separator the whole string is kept. */
  lemma AfterLastNoSeparator(s: string, sep: char)
    requires sep !in s
    ensures AfterLast(s, sep) == s
  {
    AfterLastSuffix(s, sep);
  }

  /** A string that ends in the separator leaves the empty string. */
  lemma AfterLastTrailingSeparator(s: string, sep: char)
    requires |s| > 0 && s[|s| - 1] == sep
    ensures AfterLast(s, sep) == []
  {
  }

  /** The empty string occurs in every string. */
  lemma ContainsEmpty(s: string)
    ensures Contains(s, [])
  {
    assert OccursAt(s, [], 0);
    ContainsOccurs(s, []);
  }
}

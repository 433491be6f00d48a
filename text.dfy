/**
 * String operations the source takes from its languages' standard libraries:
 * JavaScript's `toLowerCase` and `indexOf`, Python's `lstrip`, `rstrip`,
 * `strip`, `split` and `join`. Strings are sequences of characters.
 */
module Text {

  /** ASCII-only stand-in for `toLowerCase`: only 'A'..'Z' change. */
  function LowerChar(c: char): char {
    if 'A' <= c <= 'Z' then (c as int + 32) as char else c
  }

  function Lower(s: string): string {
    seq(|s|, i requires 0 <= i < |s| => LowerChar(s[i]))
  }

  /** Lower-casing keeps the length, leaves no upper-case ASCII letter,
      changes nothing else, and is idempotent. */
  lemma {:induction false} LowerCases(s: string)
    ensures |Lower(s)| == |s|
    ensures forall i :: 0 <= i < |s| ==> !('A' <= Lower(s)[i] <= 'Z')
    ensures forall i :: 0 <= i < |s| && !('A' <= s[i] <= 'Z') ==> Lower(s)[i] == s[i]
    ensures Lower(Lower(s)) == Lower(s)
  {
    var t := Lower(s);
    forall i | 0 <= i < |s|
      ensures !('A' <= t[i] <= 'Z') && LowerChar(t[i]) == t[i]
    {
      assert t[i] == LowerChar(s[i]);
    }
  }

  /** `sub` occurs in `s` starting at position `i`. */
  predicate OccursAt(s: string, sub: string, i: int) {
    0 <= i && i + |sub| <= |s| && s[i..i + |sub|] == sub
  }

  /** JavaScript's `s.indexOf(sub, from)` for `from <= |s|`: the first
      position at or after `from` where `sub` occurs, or -1. (For `from`
      beyond the end JavaScript finds the empty string at `|s|`; this
      function gives -1 there.) */
  function IndexOf(s: string, sub: string, from: nat): (r: int)
    decreases |s| - from
    ensures r == -1 || from <= r
  {
    if from + |sub| > |s| then -1
    else if s[from..from + |sub|] == sub then from
    else IndexOf(s, sub, from + 1)
  }

  /** `IndexOf` finds the first occurrence at or after `from`, and -1
      exactly when there is none. */
  lemma {:induction false} IndexOfFirst(s: string, sub: string, from: nat)
    decreases |s| - from
    ensures var r := IndexOf(s, sub, from);
            (r == -1 || OccursAt(s, sub, r))
            && (r != -1 ==> forall i :: from <= i < r ==> !OccursAt(s, sub, i))
            && (r == -1 <==> forall i :: from <= i ==> !OccursAt(s, sub, i))
  {
    if from + |sub| <= |s| && s[from..from + |sub|] != sub {
      IndexOfFirst(s, sub, from + 1);
    }
  }

  /** `indexOf(sub) > -1` holds exactly when `sub` is a substring of `s`;
      the empty string is a substring of every string. */
  lemma {:induction false} IndexOfFindsSubstring(s: string, sub: string)
    ensures IndexOf(s, sub, 0) > -1 <==> exists i :: OccursAt(s, sub, i)
    ensures sub == "" ==> IndexOf(s, sub, 0) == 0
  {
    IndexOfFirst(s, sub, 0);
    if sub == "" {
      assert OccursAt(s, sub, 0);
    }
  }

  /** Python's `s.lstrip(chars)`: drops the longest prefix made of `chars`. */
  function LStrip(s: string, chars: set<char>): (r: string)
    ensures |r| <= |s| && r == s[|s| - |r|..]
    ensures forall i :: 0 <= i < |s| - |r| ==> s[i] in chars
    ensures r != [] ==> r[0] !in chars
  {
    if s != [] && s[0] in chars then LStrip(s[1..], chars) else s
  }

  /** Python's `s.rstrip(chars)`: drops the longest suffix made of `chars`. */
  function RStrip(s: string, chars: set<char>): (r: string)
    ensures |r| <= |s| && r == s[..|r|]
    ensures forall i :: |r| <= i < |s| ==> s[i] in chars
    ensures r != [] ==> r[|r| - 1] !in chars
  {
    if s != [] && s[|s| - 1] in chars then RStrip(s[..|s| - 1], chars) else s
  }

  /** The characters Python's argument-less `strip()` removes, restricted to
      ASCII: tab, line feed, vertical tab, form feed, carriage return, the
      four separators 0x1C..0x1F and space. */
  predicate IsSpace(c: char) {
    c == ' ' || ('\t' <= c <= '\r') || (28 as char <= c <= 31 as char)
  }

  const Whitespace: set<char> := set c: char | '\t' <= c <= ' ' && IsSpace(c)

  /** Python's `s.strip()`: what is left once leading and trailing whitespace
      are gone; it neither starts nor ends with whitespace. */
  function Strip(s: string): (r: string)
    ensures r != [] ==> r[0] !in Whitespace && r[|r| - 1] !in Whitespace
  {
    RStrip(LStrip(s, Whitespace), Whitespace)
  }

  /** `strip()` keeps a contiguous middle part of its input and removes only
      whitespace on either side of it. */
  lemma {:induction false} StripKeepsMiddle(s: string)
    ensures var r := Strip(s); var k := |s| - |LStrip(s, Whitespace)|;
            k + |r| <= |s| && r == s[k..k + |r|]
            && (forall i :: 0 <= i < k ==> s[i] in Whitespace)
            && (forall i :: k + |r| <= i < |s| ==> s[i] in Whitespace)
  {
    var t := LStrip(s, Whitespace);
    var r := RStrip(t, Whitespace);
    var k := |s| - |t|;
    assert t == s[k..];
    assert r == s[k..k + |r|] by {
      assert t == s[k..];
      assert r == t[..|r|];
    }
    assert forall i :: k + |r| <= i < |s| ==> s[i] in Whitespace by {
      forall i | k + |r| <= i < |s|
        ensures s[i] in Whitespace
      {
        assert s[i] == t[i - k];
      }
    }
  }

  /** A string without leading or trailing whitespace is its own `strip()`. */
  lemma {:induction false} StripStripped(s: string)
    requires s != [] ==> s[0] !in Whitespace && s[|s| - 1] !in Whitespace
    ensures Strip(s) == s
  {
  }

  /** Number of occurrences of `c` in `s`. */
  function Count(s: string, c: char): nat {
    if s == [] then 0 else (if s[0] == c then 1 else 0) + Count(s[1..], c)
  }

  /** Python's `s.split(sep)` for a one-character separator: the pieces between
      separators, including empty ones; `"".split(",")` is `[""]`. */
  function Split(s: string, sep: char): (r: seq<string>)
    ensures |r| >= 1
    ensures forall k :: 0 <= k < |r| ==> sep !in r[k]
  {
    if s == [] then [""]
    else
      var rest := Split(s[1..], sep);
      if s[0] == sep then [""] + rest else [[s[0]] + rest[0]] + rest[1..]
  }

  /** Python's `sep.join(parts)`. */
  function Join(sep: string, parts: seq<string>): string {
    if parts == [] then ""
    else if |parts| == 1 then parts[0]
    else parts[0] + sep + Join(sep, parts[1..])
  }

  /** Splitting yields one more piece than there are separators. */
  lemma {:induction false} SplitCount(s: string, sep: char)
    ensures |Split(s, sep)| == Count(s, sep) + 1
  {
    if s != [] {
      SplitCount(s[1..], sep);
    }
  }

  /** Joining the pieces with the separator gives back the original string. */
  lemma {:induction false} JoinSplit(s: string, sep: char)
    ensures Join([sep], Split(s, sep)) == s
  {
    if s != [] {
      var rest := Split(s[1..], sep);
      JoinSplit(s[1..], sep);
      if s[0] == sep {
        assert Split(s, sep) == [""] + rest;
        assert Join([sep], Split(s, sep)) == "" + [sep] + Join([sep], rest);
      } else {
        var head := [s[0]] + rest[0];
        assert Split(s, sep) == [head] + rest[1..];
        if |rest| == 1 {
          assert Join([sep], rest) == rest[0];
        } else {
          assert rest == [rest[0]] + rest[1..];
          assert Join([sep], rest) == rest[0] + [sep] + Join([sep], rest[1..]);
        }
      }
    }
  }

  /** Splitting a join of separator-free pieces gives back the pieces. */
  lemma {:induction false} SplitJoin(parts: seq<string>, sep: char)
    requires |parts| >= 1
    requires forall k :: 0 <= k < |parts| ==> sep !in parts[k]
    ensures Split(Join([sep], parts), sep) == parts
  {
    if |parts| == 1 {
      SplitPlain(parts[0], sep);
    } else {
      SplitJoin(parts[1..], sep);
      SplitAround(parts[0], Join([sep], parts[1..]), sep);
      assert parts == [parts[0]] + parts[1..];
    }
  }

  /** A separator-free string splits into itself. */
  lemma {:induction false} SplitPlain(s: string, sep: char)
    requires sep !in s
    ensures Split(s, sep) == [s]
  {
    if s != [] {
      SplitPlain(s[1..], sep);
      assert [s[0]] + s[1..] == s;
    }
  }

  /** Splitting `a + sep + b`, where `a` has no separator, puts `a` first. */
  lemma {:induction false} SplitAround(a: string, b: string, sep: char)
    requires sep !in a
    ensures Split(a + [sep] + b, sep) == [a] + Split(b, sep)
  {
    if a == [] {
      assert a + [sep] + b == [sep] + b;
      assert ([sep] + b)[1..] == b;
    } else {
      SplitAround(a[1..], b, sep);
      assert (a + [sep] + b)[1..] == a[1..] + [sep] + b;
      assert [a[0]] + a[1..] == a;
    }
  }
}

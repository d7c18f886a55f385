/**
 * String operations the source takes from JavaScript's `String.prototype`:
 * `split` on one character, `join`, `trim` (as a blank test), ASCII
 * `toLowerCase`/`toUpperCase`, `includes`, number-to-string, and the default
 * order of `Array.prototype.sort()` without a comparator, taken here as the
 * order of characters (strings of UTF-16 code units are not modelled).
 */
module Text {
  import opened Seqs

  /** `s.split(sep)`: the pieces between separators; `""` splits to `[""]`. */
  function Split(s: string, sep: char): (r: seq<string>)
    ensures |r| >= 1
    ensures forall i :: 0 <= i < |r| ==> sep !in r[i]
  {
    if |s| == 0 then [""]
    else
      var rest := Split(s[1..], sep);
      if s[0] == sep then [""] + rest
      else [[s[0]] + rest[0]] + rest[1..]
  }

  /** `parts.join(sep)`. */
  function Join(parts: seq<string>, sep: string): string {
    if |parts| == 0 then ""
    else if |parts| == 1 then parts[0]
    else parts[0] + sep + Join(parts[1..], sep)
  }

  /** Splitting at a separator that follows a separator-free prefix peels that prefix off. */
  lemma {:induction false} SplitAfterPrefix(a: string, sep: char, b: string)
    requires sep !in a
    ensures Split(a + [sep] + b, sep) == [a] + Split(b, sep)
  {
    if |a| == 0 {
      assert a + [sep] + b == [sep] + b;
      assert ([sep] + b)[1..] == b;
    } else {
      assert (a + [sep] + b)[1..] == a[1..] + [sep] + b;
      SplitAfterPrefix(a[1..], sep, b);
      assert [a[0]] + a[1..] == a;
    }
  }

  /** Joining the pieces of a split with the same separator gives back the string. */
  lemma {:induction false} JoinSplit(s: string, sep: char)
    ensures Join(Split(s, sep), [sep]) == s
  {
    if |s| > 0 {
      JoinSplit(s[1..], sep);
      var rest := Split(s[1..], sep);
      if s[0] == sep {
        assert Join([""] + rest, [sep]) == "" + [sep] + Join(rest, [sep]);
      } else {
        var r := [[s[0]] + rest[0]] + rest[1..];
        if |rest| == 1 {
          assert Join(r, [sep]) == [s[0]] + rest[0];
        } else {
          assert r[1..] == rest[1..];
          assert Join(rest, [sep]) == rest[0] + [sep] + Join(rest[1..], [sep]);
        }
      }
    }
  }

  /** Splitting a join of separator-free parts gives back the parts. */
  lemma {:induction false} SplitJoin(parts: seq<string>, sep: char)
    requires |parts| >= 1
    requires forall i :: 0 <= i < |parts| ==> sep !in parts[i]
    ensures Split(Join(parts, [sep]), sep) == parts
  {
    if |parts| == 1 {
      SplitNoSeparator(parts[0], sep);
    } else {
      SplitJoin(parts[1..], sep);
      SplitAfterPrefix(parts[0], sep, Join(parts[1..], [sep]));
      assert parts == [parts[0]] + parts[1..];
    }
  }

  lemma {:induction false} SplitNoSeparator(s: string, sep: char)
    requires sep !in s
    ensures Split(s, sep) == [s]
  {
    if |s| > 0 {
      SplitNoSeparator(s[1..], sep);
      assert [s[0]] + s[1..] == s;
    }
  }

  /** The text after the first `n` line breaks: what `split('\n').slice(n).join('\n')` keeps. */
  function DropLines(s: string, n: nat): string {
    Join(Split(s, '\n')[if n <= |Split(s, '\n')| then n else |Split(s, '\n')|..], "\n")
  }

  /** Removing two lines from a text that begins with two lines leaves exactly the remainder. */
  lemma DropTwoLines(line1: string, line2: string, rest: string)
    requires '\n' !in line1 && '\n' !in line2
    ensures DropLines(line1 + "\n" + line2 + "\n" + rest, 2) == rest
  {
    var s := line1 + "\n" + line2 + "\n" + rest;
    assert s == line1 + ['\n'] + (line2 + ['\n'] + rest);
    SplitAfterPrefix(line1, '\n', line2 + ['\n'] + rest);
    SplitAfterPrefix(line2, '\n', rest);
    assert Split(s, '\n')[2..] == Split(rest, '\n');
    JoinSplit(rest, '\n');
  }

  /** A text whose first line is empty loses exactly that line and the next one. */
  lemma DropBlankAndTitle(title: string, rest: string)
    requires '\n' !in title
    ensures DropLines("\n" + title + "\n" + rest, 2) == rest
  {
    assert "\n" + title + "\n" + rest == "" + "\n" + title + "\n" + rest;
    DropTwoLines("", title, rest);
  }

  /** ASCII `toLowerCase` of one character. */
  function LowerChar(c: char): char {
    if 'A' <= c <= 'Z' then (c as int + 32) as char else c
  }

  /** ASCII `toUpperCase` of one character. */
  function UpperChar(c: char): char {
    if 'a' <= c <= 'z' then (c as int - 32) as char else c
  }

  /** ASCII `toLowerCase`. */
  function Lower(s: string): (r: string)
    ensures |r| == |s|
    ensures forall i :: 0 <= i < |s| ==> r[i] == LowerChar(s[i])
  {
    if |s| == 0 then "" else [LowerChar(s[0])] + Lower(s[1..])
  }

  /** `t` is a prefix of `s`. */
  predicate IsPrefix(t: string, s: string) {
    |t| <= |s| && s[..|t|] == t
  }

  lemma PrefixOfAppend(t: string, u: string)
    ensures IsPrefix(t, t + u)
  {
    assert (t + u)[..|t|] == t;
  }

  /** `t` occurs in `s` starting at position `i`. */
  predicate OccursAt(s: string, t: string, i: int) {
    0 <= i && i + |t| <= |s| && s[i..i + |t|] == t
  }

  /** `s.includes(t)`: `t` occurs in `s` at some position. */
  function Includes(s: string, t: string): (r: bool)
    ensures r <==> exists i :: OccursAt(s, t, i)
  {
    if IsPrefix(t, s) then
      assert OccursAt(s, t, 0);
      true
    else if |s| == 0 then
      assert forall i :: !OccursAt(s, t, i);
      false
    else
      var r := Includes(s[1..], t);
      assert forall i :: OccursAt(s, t, i) && i > 0 ==> OccursAt(s[1..], t, i - 1);
      if r then
        var i :| OccursAt(s[1..], t, i);
        assert s[i + 1..i + 1 + |t|] == s[1..][i..i + |t|];
        assert OccursAt(s, t, i + 1);
        true
      else
        assert !OccursAt(s, t, 0);
        false
  }

  /** Text that occurs in a piece occurs in any text built around that piece. */
  lemma IncludesWithin(a: string, x: string, c: string, t: string)
    requires Includes(x, t)
    ensures Includes(a + x + c, t)
  {
    var i :| OccursAt(x, t, i);
    assert (a + x + c)[|a| + i..|a| + i + |t|] == x[i..i + |t|];
    assert OccursAt(a + x + c, t, |a| + i);
  }

  lemma IncludesTransitive(s: string, x: string, t: string)
    requires Includes(s, x) && Includes(x, t)
    ensures Includes(s, t)
  {
    var i :| OccursAt(s, x, i);
    var j :| OccursAt(x, t, j);
    assert forall k :: 0 <= k < |x| ==> s[i + k] == x[k];
    assert forall k :: 0 <= k < |t| ==> x[j + k] == t[k];
    assert s[i + j..i + j + |t|] == t;
    assert OccursAt(s, t, i + j);
  }

  lemma IncludesSelf(t: string)
    ensures Includes(t, t)
  {
    assert OccursAt(t, t, 0);
  }

  /**
   * In `parts.join(sep)` followed by `c`, every part occurs followed by what
   * comes after it: the separator, or `c` after the last part.
   */
  lemma {:induction false} JoinIncludes(parts: seq<string>, sep: string, c: string, i: nat)
    requires i < |parts|
    ensures Includes(Join(parts, sep) + c, parts[i] + (if i + 1 < |parts| then sep else c))
  {
    var t := parts[i] + (if i + 1 < |parts| then sep else c);
    var rest := if |parts| == 1 then "" else Join(parts[1..], sep) + c;
    if i == 0 {
      assert Join(parts, sep) + c == t + rest;
      PrefixOfAppend(t, rest);
      assert OccursAt(t + rest, t, 0);
    } else {
      JoinIncludes(parts[1..], sep, c, i - 1);
      assert Join(parts, sep) + c == parts[0] + sep + rest + "";
      IncludesWithin(parts[0] + sep, rest, "", t);
    }
  }

  /** Every part occurs in `parts.join(sep)`. */
  lemma JoinIncludesPart(parts: seq<string>, sep: string, i: nat)
    requires i < |parts|
    ensures Includes(Join(parts, sep), parts[i])
  {
    var next := if i + 1 < |parts| then sep else "";
    JoinIncludes(parts, sep, "", i);
    assert Join(parts, sep) + "" == Join(parts, sep);
    IncludesSelf(parts[i]);
    IncludesWithin("", parts[i], next, parts[i]);
    assert "" + parts[i] + next == parts[i] + next;
    IncludesTransitive(Join(parts, sep), parts[i] + next, parts[i]);
  }

  /** A white-space character as `String.prototype.trim` removes it. */
  predicate IsJsWhiteSpace(c: char) {
    || c == ' ' || c == '\t' || c == '\n' || c == '\r'
    || c == '\U{000B}' || c == '\U{000C}' || c == '\U{00A0}' || c == '\U{FEFF}'
    || c == '\U{1680}' || ('\U{2000}' <= c <= '\U{200A}')
    || c == '\U{2028}' || c == '\U{2029}' || c == '\U{202F}' || c == '\U{205F}' || c == '\U{3000}'
  }

  /** `s.trim()` is the empty string. */
  predicate IsBlank(s: string) {
    forall i :: 0 <= i < |s| ==> IsJsWhiteSpace(s[i])
  }

  /** Decimal digit for 0..9. */
  function Digit(d: nat): char
    requires d < 10
  {
    ('0' as int + d) as char
  }

  /** `String(n)` for a natural number. */
  function NatToString(n: nat): (r: string)
    ensures |r| >= 1
    ensures forall i :: 0 <= i < |r| ==> '0' <= r[i] <= '9'
  {
    if n < 10 then [Digit(n)] else NatToString(n / 10) + [Digit(n % 10)]
  }

  /** Reads a string of decimal digits back as a number (`*10 + digit` from the left). */
  function DigitsValue(s: string): nat
    requires forall i :: 0 <= i < |s| ==> '0' <= s[i] <= '9'
  {
    if |s| == 0 then 0
    else DigitsValue(s[..|s| - 1]) * 10 + (s[|s| - 1] as int - '0' as int)
  }

  /** `String(n)` spells n: its digits read back as n, with no leading zero. */
  lemma {:induction false} NatToStringValue(n: nat)
    ensures DigitsValue(NatToString(n)) == n
    ensures n > 0 ==> NatToString(n)[0] != '0'
  {
    if n >= 10 {
      NatToStringValue(n / 10);
      var r := NatToString(n);
      assert r[..|r| - 1] == NatToString(n / 10);
    }
  }

  /** Distinct numbers are shown as distinct strings. */
  lemma NatToStringInjective(m: nat, n: nat)
    requires NatToString(m) == NatToString(n)
    ensures m == n
  {
    NatToStringValue(m);
    NatToStringValue(n);
  }

  /** JavaScript's default string order (element-wise, a prefix first). */
  predicate LexLeq(a: string, b: string) {
    |a| == 0 || (|b| > 0 && (a[0] < b[0] || (a[0] == b[0] && LexLeq(a[1..], b[1..]))))
  }

  lemma {:induction false} LexLeqTotal(a: string, b: string)
    ensures LexLeq(a, b) || LexLeq(b, a)
  {
    if |a| > 0 && |b| > 0 && a[0] == b[0] {
      LexLeqTotal(a[1..], b[1..]);
    }
  }

  lemma {:induction false} LexLeqTransitive(a: string, b: string, c: string)
    requires LexLeq(a, b) && LexLeq(b, c)
    ensures LexLeq(a, c)
  {
    if |a| > 0 && a[0] == b[0] && b[0] == c[0] {
      LexLeqTransitive(a[1..], b[1..], c[1..]);
    }
  }

  lemma {:induction false} LexLeqAntisymmetric(a: string, b: string)
    requires LexLeq(a, b) && LexLeq(b, a)
    ensures a == b
  {
    if |a| > 0 {
      LexLeqAntisymmetric(a[1..], b[1..]);
      assert a == [a[0]] + a[1..] && b == [b[0]] + b[1..];
    }
  }

  /** The default string order is a valid sort order. */
  lemma LexLeqIsTotalPreorder()
    ensures TotalPreorder(LexLeq)
  {
    forall a, b ensures LexLeq(a, b) || LexLeq(b, a) {
      LexLeqTotal(a, b);
    }
    forall a, b, c | LexLeq(a, b) && LexLeq(b, c) ensures LexLeq(a, c) {
      LexLeqTransitive(a, b, c);
    }
  }
}

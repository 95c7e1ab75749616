/**
 * The JavaScript string operations the portfolio code relies on, over
 * `string` (`seq<char>`): `split` on a one-character separator, `join`,
 * `trim`, ASCII `toLowerCase`, `includes`, `indexOf` and `replace` with a
 * string pattern.
 */
module Text {

  // ---------------------------------------------------------------------
  // split and join
  // ---------------------------------------------------------------------

  /** Number of occurrences of `c` in `s`. */
  function CountChar(s: string, c: char): nat
  {
    if s == [] then 0 else (if s[0] == c then 1 else 0) + CountChar(s[1..], c)
  }

  /**
   * `s.split(c)`: the maximal `c`-free pieces between occurrences of `c`.
   * There is always one piece more than there are separators, so the empty
   * string splits into `[""]`; the first piece is the longest `c`-free
   * prefix of `s`.
   */
  function Split(s: string, c: char): (r: seq<string>)
    ensures |r| == CountChar(s, c) + 1
    ensures forall i :: 0 <= i < |r| ==> c !in r[i]
    ensures r[0] <= s && (|r[0]| < |s| ==> s[|r[0]|] == c)
  {
    if s == [] then [""]
    else if s[0] == c then [""] + Split(s[1..], c)
    else
      var t := Split(s[1..], c);
      [[s[0]] + t[0]] + t[1..]
  }

  /** `parts.join(sep)`; the empty list joins to the empty string. */
  function Join(parts: seq<string>, sep: string): string
  {
    if |parts| == 0 then ""
    else if |parts| == 1 then parts[0]
    else parts[0] + sep + Join(parts[1..], sep)
  }

  /** A string without the separator splits into itself alone. */
  lemma {:induction false} SplitWithoutSeparator(s: string, c: char)
    requires c !in s
    ensures Split(s, c) == [s]
  {
    if s != [] {
      SplitWithoutSeparator(s[1..], c);
      assert s[0] != c;
      assert [s[0]] + s[1..] == s;
    }
  }

  /** A separator-free prefix sticks to the first piece of what follows it. */
  lemma {:induction false} SplitPrefix(a: string, t: string, c: char)
    requires c !in a
    ensures Split(a + t, c) == [a + Split(t, c)[0]] + Split(t, c)[1..]
  {
    var s := Split(t, c);
    if a == [] {
      assert a + t == t && a + s[0] == s[0];
      assert [a + s[0]] + s[1..] == s;
    } else {
      assert (a + t)[0] == a[0] != c;
      assert (a + t)[1..] == a[1..] + t;
      SplitPrefix(a[1..], t, c);
      var tail := Split(a[1..] + t, c);
      assert tail[0] == a[1..] + s[0] && tail[1..] == s[1..];
      assert Split(a + t, c) == [[a[0]] + tail[0]] + tail[1..];
      assert [a[0]] + (a[1..] + s[0]) == a + s[0];
    }
  }

  /** Splitting right after a separator-free piece yields that piece first. */
  lemma SplitAtSeparator(a: string, b: string, c: char)
    requires c !in a
    ensures Split(a + [c] + b, c) == [a] + Split(b, c)
  {
    assert a + [c] + b == a + ([c] + b);
    SplitPrefix(a, [c] + b, c);
    assert ([c] + b)[0] == c && ([c] + b)[1..] == b;
    assert Split([c] + b, c) == [""] + Split(b, c);
    assert a + "" == a;
  }

  /** Only a string without the separator has no separator to count. */
  lemma {:induction false} CountCharZero(s: string, c: char)
    ensures CountChar(s, c) == 0 <==> c !in s
  {
    if s != [] {
      CountCharZero(s[1..], c);
      assert s == [s[0]] + s[1..];
    }
  }

  /** Splitting at a separator splits each side on its own. */
  lemma {:induction false} SplitConcat(a: string, b: string, c: char)
    ensures Split(a + [c] + b, c) == Split(a, c) + Split(b, c)
  {
    if a == [] {
      assert a + [c] + b == [c] + b;
      SplitSeparatorFirst(b, c);
    } else {
      SplitConcat(a[1..], b, c);
      ConcatStep(a, b, c);
    }
  }

  /** The inductive step of `SplitConcat`, on the first character of `a`. */
  lemma ConcatStep(a: string, b: string, c: char)
    requires a != []
    requires Split(a[1..] + [c] + b, c) == Split(a[1..], c) + Split(b, c)
    ensures Split(a + [c] + b, c) == Split(a, c) + Split(b, c)
  {
    var x, t := a[0], a[1..];
    Regroup(a, c, b);
    if x == c {
      ConcatAfterSeparator(t, b, c);
    } else {
      ConcatAfterOther(x, t, b, c);
    }
  }

  lemma Regroup(a: string, c: char, b: string)
    requires a != []
    ensures a == [a[0]] + a[1..]
    ensures a + [c] + b == [a[0]] + (a[1..] + [c] + b)
  {
  }

  /** The step of `SplitConcat` for a leading separator. */
  lemma ConcatAfterSeparator(a: string, b: string, c: char)
    requires Split(a + [c] + b, c) == Split(a, c) + Split(b, c)
    ensures Split([c] + (a + [c] + b), c) == Split([c] + a, c) + Split(b, c)
  {
    SplitSeparatorFirst(a + [c] + b, c);
    SplitSeparatorFirst(a, c);
  }

  /** The step of `SplitConcat` for any other leading character. */
  lemma ConcatAfterOther(x: char, a: string, b: string, c: char)
    requires x != c
    requires Split(a + [c] + b, c) == Split(a, c) + Split(b, c)
    ensures Split([x] + (a + [c] + b), c) == Split([x] + a, c) + Split(b, c)
  {
    SplitOtherFirst(x, a + [c] + b, c);
    SplitOtherFirst(x, a, c);
    ExtendFirstPiece([x], Split(a, c), Split(b, c));
  }

  /** Extending the first piece of `head + tail` extends the first piece of `head`. */
  lemma ExtendFirstPiece(x: string, head: seq<string>, tail: seq<string>)
    requires head != []
    ensures [x + (head + tail)[0]] + (head + tail)[1..] == ([x + head[0]] + head[1..]) + tail
  {
    assert (head + tail)[1..] == head[1..] + tail;
  }

  /** A leading separator closes an empty first piece. */
  lemma SplitSeparatorFirst(t: string, c: char)
    ensures Split([c] + t, c) == [""] + Split(t, c)
  {
    assert ([c] + t)[1..] == t;
  }

  /** Any other leading character joins the first piece of the rest. */
  lemma SplitOtherFirst(x: char, t: string, c: char)
    requires x != c
    ensures Split([x] + t, c) == [[x] + Split(t, c)[0]] + Split(t, c)[1..]
  {
    assert ([x] + t)[1..] == t;
  }

  /** Joining the pieces back with the separator restores the string. */
  lemma {:induction false} JoinSplit(s: string, c: char)
    ensures Join(Split(s, c), [c]) == s
  {
    if s != [] {
      var t := Split(s[1..], c);
      JoinSplit(s[1..], c);
      if s[0] == c {
        assert Split(s, c) == [""] + t;
        assert ([""] + t)[1..] == t;
        assert Join([""] + t, [c]) == "" + [c] + Join(t, [c]);
      } else {
        var r := [[s[0]] + t[0]] + t[1..];
        assert Split(s, c) == r;
        if |t| == 1 {
          assert Join(r, [c]) == [s[0]] + t[0];
        } else {
          assert r[1..] == t[1..];
          assert Join(r, [c]) == [s[0]] + t[0] + [c] + Join(t[1..], [c]);
          assert Join(t, [c]) == t[0] + [c] + Join(t[1..], [c]);
        }
      }
    }
  }

  /** Splitting a join of separator-free pieces gives the pieces back. */
  lemma {:induction false} SplitJoin(parts: seq<string>, c: char)
    requires |parts| >= 1
    requires forall i :: 0 <= i < |parts| ==> c !in parts[i]
    ensures Split(Join(parts, [c]), c) == parts
  {
    if |parts| == 1 {
      SplitWithoutSeparator(parts[0], c);
    } else {
      SplitJoin(parts[1..], c);
      SplitAtSeparator(parts[0], Join(parts[1..], [c]), c);
      assert [parts[0]] + parts[1..] == parts;
    }
  }

  /**
   * `email.split("@")[0]`: the part of an e-mail address before its first
   * `@` (the whole string when it has none).
   */
  function LocalPart(email: string): (r: string)
    ensures '@' !in r
    ensures r <= email
    ensures |r| < |email| ==> email[|r|] == '@'
  {
    Split(email, '@')[0]
  }

  /**
   * `s.length`: JavaScript counts UTF-16 code units, so a character beyond
   * the Basic Multilingual Plane counts twice.
   */
  function Utf16Length(s: string): (r: nat)
    ensures |s| <= r <= 2 * |s|
  {
    if s == [] then 0 else (if s[0] as int > 0xFFFF then 2 else 1) + Utf16Length(s[1..])
  }

  /** `s || fallback` on strings: the empty string is falsy. */
  function Or(s: string, fallback: string): (r: string)
    ensures s != "" ==> r == s
    ensures s == "" ==> r == fallback
  {
    if s != "" then s else fallback
  }

  /** `name || email.split("@")[0]`: the given name, or the e-mail's local part when it is empty. */
  function NameOrLocalPart(name: string, email: string): (r: string)
    ensures name != "" ==> r == name
    ensures name == "" ==> r <= email && '@' !in r
  {
    if name != "" then name else LocalPart(email)
  }

  // ---------------------------------------------------------------------
  // trim
  // ---------------------------------------------------------------------

  /** ECMAScript's WhiteSpace and LineTerminator code points, which `trim` removes. */
  predicate IsSpace(ch: char)
  {
    ch == ' ' || ch == '\t' || ch == '\n' || ch == '\r' || ch == '\U{000B}' || ch == '\U{000C}'
    || ch == '\U{00A0}' || ch == '\U{1680}' || ('\U{2000}' <= ch <= '\U{200A}')
    || ch == '\U{2028}' || ch == '\U{2029}' || ch == '\U{202F}' || ch == '\U{205F}'
    || ch == '\U{3000}' || ch == '\U{FEFF}'
  }

  /** Neither end of `s` is white space. */
  predicate IsTrimmed(s: string)
  {
    s == [] || (!IsSpace(s[0]) && !IsSpace(s[|s| - 1]))
  }

  function TrimStart(s: string): (r: string)
    ensures r == [] || !IsSpace(r[0])
    ensures |r| <= |s| && r == s[|s| - |r|..]
    ensures AllSpace(s[..|s| - |r|])
  {
    if s != [] && IsSpace(s[0]) then TrimStart(s[1..]) else s
  }

  function TrimEnd(s: string): (r: string)
    ensures r == [] || !IsSpace(r[|r| - 1])
    ensures |r| <= |s| && r == s[..|r|]
    ensures AllSpace(s[|r|..])
  {
    if s != [] && IsSpace(s[|s| - 1]) then TrimEnd(s[..|s| - 1]) else s
  }

  /** Every character of `s` is white space. */
  predicate AllSpace(s: string)
  {
    forall k :: 0 <= k < |s| ==> IsSpace(s[k])
  }

  /** `r` is the piece of `s` starting at `i`, with only white space around it. */
  predicate CutAt(s: string, i: int, r: string)
  {
    0 <= i <= |s| - |r| && r == s[i..i + |r|] && AllSpace(s[..i]) && AllSpace(s[i + |r|..])
  }

  /**
   * `s.trim()`: `s` without leading and trailing white space. The result
   * is a contiguous piece of `s`, trimmed, and everything cut off either
   * side of it is white space.
   */
  function Trim(s: string): (r: string)
    ensures IsTrimmed(r)
    ensures exists i :: CutAt(s, i, r)
  {
    TrimLeavesNoSpace(s);
    TrimCutsBetweenSpace(s);
    TrimEnd(TrimStart(s))
  }

  lemma TrimLeavesNoSpace(s: string)
    ensures IsTrimmed(TrimEnd(TrimStart(s)))
  {
  }

  lemma TrimCutsBetweenSpace(s: string)
    ensures CutAt(s, |s| - |TrimStart(s)|, TrimEnd(TrimStart(s)))
  {
    var a := TrimStart(s);
    TrimCut(s, a, TrimEnd(a));
  }

  /**
   * `a` is `s` after a run of leading white space, and `r` is `a` before a
   * run of trailing white space: `r` is cut out of `s` with only white
   * space around it.
   */
  lemma TrimCut(s: string, a: string, r: string)
    requires |a| <= |s| && a == s[|s| - |a|..] && AllSpace(s[..|s| - |a|])
    requires |r| <= |a| && r == a[..|r|] && AllSpace(a[|r|..])
    ensures CutAt(s, |s| - |a|, r)
  {
    var i := |s| - |a|;
    assert r == s[i..i + |r|];
    assert s[i + |r|..] == a[|r|..];
  }

  /** Trimming a trimmed string changes nothing. */
  lemma TrimTrimmed(s: string)
    requires IsTrimmed(s)
    ensures Trim(s) == s
  {
  }

  /** A leading space is dropped by `trim`. */
  lemma TrimLeadingSpace(s: string)
    ensures Trim(" " + s) == Trim(s)
  {
    assert (" " + s)[1..] == s;
  }

  // ---------------------------------------------------------------------
  // lower case and substrings
  // ---------------------------------------------------------------------

  /** `toLowerCase` on one character, for the ASCII letters. */
  function LowerChar(ch: char): char
  {
    if 'A' <= ch <= 'Z' then (ch as int + 32) as char else ch
  }

  /** `s.toLowerCase()`, character by character (ASCII letters only). */
  function Lower(s: string): (r: string)
    ensures |r| == |s|
    ensures forall i :: 0 <= i < |s| ==> r[i] == LowerChar(s[i])
  {
    seq(|s|, i requires 0 <= i < |s| => LowerChar(s[i]))
  }

  /** Lower-casing twice is lower-casing once. */
  lemma LowerIdempotent(s: string)
    ensures Lower(Lower(s)) == Lower(s)
  {
  }

  /** `s.includes(sub)`: `sub` occurs at some position of `s`. */
  predicate Contains(s: string, sub: string)
  {
    exists i :: 0 <= i <= |s| && sub <= s[i..]
  }

  /** Every string contains the empty string. */
  lemma ContainsEmpty(s: string)
    ensures Contains(s, "")
  {
    assert "" <= s[0..];
  }

  /** A substring of a substring is a substring. */
  lemma ContainsTransitive(s: string, mid: string, sub: string)
    requires Contains(s, mid) && Contains(mid, sub)
    ensures Contains(s, sub)
  {
    var i :| 0 <= i <= |s| && mid <= s[i..];
    var j :| 0 <= j <= |mid| && sub <= mid[j..];
    assert sub <= s[i + j..] by {
      forall k | 0 <= k < |sub|
        ensures sub[k] == s[i + j..][k]
      {
        assert sub[k] == mid[j + k] == s[i..][j + k];
      }
    }
  }

  /** Lower-casing both sides keeps an occurrence. */
  lemma LowerKeepsContains(s: string, sub: string)
    requires Contains(s, sub)
    ensures Contains(Lower(s), Lower(sub))
  {
    var i :| 0 <= i <= |s| && sub <= s[i..];
    assert Lower(sub) <= Lower(s)[i..] by {
      forall k | 0 <= k < |sub|
        ensures Lower(sub)[k] == Lower(s)[i..][k]
      {
        assert sub[k] == s[i + k];
      }
    }
  }

  // ---------------------------------------------------------------------
  // indexOf and replace
  // ---------------------------------------------------------------------

  /**
   * `s.indexOf(pat)`: the first position where `pat` occurs, or -1 when it
   * does not occur at all.
   */
  function IndexOf(s: string, pat: string): (r: int)
    requires pat != []
    ensures r == -1 ==> !Contains(s, pat)
    ensures r != -1 ==> 0 <= r <= |s| - |pat| && pat <= s[r..]
    ensures r != -1 ==> forall j :: 0 <= j < r ==> !(pat <= s[j..])
  {
    if pat <= s then 0
    else if s == [] then -1
    else
      var k := IndexOf(s[1..], pat);
      ContainsTail(s, pat);
      if k == -1 then -1 else k + 1
  }

  /** Where the pattern does not start `s`, its occurrences are those of `s[1..]`, one place on. */
  lemma ContainsTail(s: string, pat: string)
    requires s != [] && !(pat <= s)
    ensures Contains(s, pat) <==> Contains(s[1..], pat)
    ensures !(pat <= s[0..])
    ensures forall j :: 1 <= j <= |s| ==> s[j..] == s[1..][j - 1..]
  {
    assert s[0..] == s;
    if Contains(s, pat) {
      var j :| 0 <= j <= |s| && pat <= s[j..];
      assert s[1..][j - 1..] == s[j..];
    }
    if Contains(s[1..], pat) {
      var i :| 0 <= i <= |s[1..]| && pat <= s[1..][i..];
      assert s[1..][i..] == s[i + 1..];
    }
  }

  /** `indexOf` answers -1 exactly when the pattern does not occur. */
  lemma IndexOfAbsent(s: string, pat: string)
    requires pat != []
    ensures IndexOf(s, pat) == -1 <==> !Contains(s, pat)
  {
    var r := IndexOf(s, pat);
    if r != -1 {
      assert pat <= s[r..];
    }
  }

  /** The first position where the pattern occurs is the one `indexOf` returns. */
  lemma IndexOfFirst(s: string, pat: string, i: int)
    requires pat != [] && 0 <= i <= |s|
    requires pat <= s[i..]
    requires forall j :: 0 <= j < i ==> !(pat <= s[j..])
    ensures IndexOf(s, pat) == i
  {
    assert Contains(s, pat);
  }

  /** `s.replace(pat, rep)` with a string pattern: only the FIRST occurrence is replaced. */
  function ReplaceFirst(s: string, pat: string, rep: string): (r: string)
    requires pat != []
    ensures !Contains(s, pat) ==> r == s
    ensures Contains(s, pat) ==> |r| == |s| - |pat| + |rep|
    ensures Contains(s, pat) ==>
              exists i :: && 0 <= i <= |s| - |pat| && pat <= s[i..]
                          && (forall j :: 0 <= j < i ==> !(pat <= s[j..]))
                          && r == s[..i] + rep + s[i + |pat|..]
  {
    var i := IndexOf(s, pat);
    if i == -1 then s else s[..i] + rep + s[i + |pat|..]
  }

  /**
   * Where the first occurrence of `pat` starts at `i`, `replace` cuts out
   * that occurrence and puts `rep` in its place.
   */
  lemma ReplaceAt(s: string, pat: string, rep: string, i: nat)
    requires pat != [] && i <= |s| && pat <= s[i..]
    requires forall j :: 0 <= j < i ==> !(pat <= s[j..])
    ensures ReplaceFirst(s, pat, rep) == s[..i] + rep + s[i + |pat|..]
  {
    IndexOfFirst(s, pat, i);
  }

  /** Removing `.git` from `name + ".git"` gives `name` back when `name` holds no `.git`. */
  lemma StripGitSuffix(name: string)
    requires !Contains(name, ".git")
    ensures ReplaceFirst(name + ".git", ".git", "") == name
  {
    var s := name + ".git";
    assert ".git" <= s[|name|..];
    forall j | 0 <= j < |name|
      ensures !(".git" <= s[j..])
    {
      if j + 4 <= |name| {
        assert s[j..][..4] == name[j..][..4];
        assert !(".git" <= name[j..]);
      } else {
        // The '.' of the pattern would have to sit inside the suffix "git".
        assert s[|name|] == '.' && s[|name| + 1..] == "git";
      }
    }
    ReplaceAt(s, ".git", "", |name|);
    assert s[..|name|] == name && s[|name| + 4..] == "";
  }

  /**
   * The pattern is not anchored at the end: for a GitHub Pages repository
   * such as `me.github.io` the `.git` of `.github` is the first occurrence,
   * so it is that one that goes and `me.github.io` becomes `mehub.io`.
   */
  lemma ReplaceHitsInnerGit(user: string)
    requires '.' !in user
    ensures ReplaceFirst(user + ".github.io", ".git", "") == user + "hub.io"
  {
    var s := user + ".github.io";
    FirstGitInPagesRepo(user);
    ReplaceAt(s, ".git", "", |user|);
    PagesRepoTail(user);
    assert s[..|user|] == user;
  }

  /** In `user.github.io`, with no `.` in `user`, the first `.git` starts right after `user`. */
  lemma FirstGitInPagesRepo(user: string)
    requires '.' !in user
    ensures ".git" <= (user + ".github.io")[|user|..]
    ensures forall j :: 0 <= j < |user| ==> !(".git" <= (user + ".github.io")[j..])
  {
    var s := user + ".github.io";
    forall j | 0 <= j < |user|
      ensures !(".git" <= s[j..])
    {
      assert s[j] == user[j] != '.';
    }
    assert s[|user|..] == ".github.io";
  }

  lemma PagesRepoTail(user: string)
    ensures (user + ".github.io")[|user| + 4..] == "hub.io"
  {
    assert (user + ".github.io")[|user|..] == ".github.io";
  }
}

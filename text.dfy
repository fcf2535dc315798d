/**
 * The Python string operations the converters rely on, written out over
 * `seq<char>`: strip, lower, startswith/endswith/in, replace, split, join,
 * str(int), os.path.basename / os.path.splitext, and the markup escaping of
 * `&`, `<` and `>` (the characters section 2.4 of XML 1.0 reserves).
 */
module Text {

  // ---------------------------------------------------------------------------
  // Characters

  /** The characters for which Python's `str.isspace()` holds. */
  const Whitespace: set<char> := {
    ' ', '\t', '\n', '\U{b}', '\U{c}', '\r', '\U{1c}', '\U{1d}', '\U{1e}', '\U{1f}',
    '\U{85}', '\U{a0}', '\U{1680}',
    '\U{2000}', '\U{2001}', '\U{2002}', '\U{2003}', '\U{2004}', '\U{2005}',
    '\U{2006}', '\U{2007}', '\U{2008}', '\U{2009}', '\U{200a}',
    '\U{2028}', '\U{2029}', '\U{202f}', '\U{205f}', '\U{3000}'}

  predicate IsSpace(c: char) { c in Whitespace }

  predicate IsDigit(c: char) { '0' <= c <= '9' }

  function LowerChar(c: char): char {
    if 'A' <= c <= 'Z' then (c as int + 32) as char else c
  }

  /** `s.lower()`, restricted to the ASCII letters. */
  function Lower(s: string): (r: string)
    ensures |r| == |s|
    ensures forall i :: 0 <= i < |s| ==> r[i] == LowerChar(s[i])
  {
    if s == [] then [] else [LowerChar(s[0])] + Lower(s[1..])
  }

  // ---------------------------------------------------------------------------
  // Prefixes, suffixes, containment

  predicate StartsWith(s: string, prefix: string) {
    |prefix| <= |s| && s[..|prefix|] == prefix
  }

  predicate EndsWith(s: string, suffix: string) {
    |suffix| <= |s| && s[|s| - |suffix|..] == suffix
  }

  /** Python's `sub in s`. */
  predicate Contains(s: string, sub: string)
    decreases |s|
  {
    StartsWith(s, sub) || (s != [] && Contains(s[1..], sub))
  }

  /** A string shorter than `sub` cannot contain it. */
  lemma {:induction false} ContainsShort(s: string, sub: string)
    requires |s| < |sub|
    ensures !Contains(s, sub)
    decreases |s|
  {
    if s != [] {
      ContainsShort(s[1..], sub);
    }
  }

  // ---------------------------------------------------------------------------
  // Stripping

  /** Drops the leading characters that are in `drop`. */
  function TrimStart(s: string, drop: set<char>): string {
    if s == [] || s[0] !in drop then s else TrimStart(s[1..], drop)
  }

  /** What TrimStart keeps is a suffix of its input that does not start with a dropped character. */
  lemma {:induction false} TrimStartShape(s: string, drop: set<char>)
    ensures var r := TrimStart(s, drop);
      |r| <= |s| && r == s[|s| - |r|..] && (r == [] || r[0] !in drop)
  {
    if s != [] && s[0] in drop {
      TrimStartShape(s[1..], drop);
    }
  }

  /** Every character TrimStart drops is in `drop`. */
  lemma {:induction false} TrimStartDropped(s: string, drop: set<char>)
    ensures forall i :: 0 <= i < |s| - |TrimStart(s, drop)| ==> s[i] in drop
  {
    TrimStartShape(s, drop);
    if s != [] && s[0] in drop {
      TrimStartDropped(s[1..], drop);
      forall i | 0 <= i < |s| - |TrimStart(s, drop)| ensures s[i] in drop {
        if i > 0 {
          assert s[i] == s[1..][i - 1];
        }
      }
    }
  }

  /** Drops the trailing characters that are in `drop`. */
  function TrimEnd(s: string, drop: set<char>): string {
    if s == [] || s[|s| - 1] !in drop then s else TrimEnd(s[..|s| - 1], drop)
  }

  /** What TrimEnd keeps is a prefix of its input that does not end with a dropped character. */
  lemma {:induction false} TrimEndShape(s: string, drop: set<char>)
    ensures var r := TrimEnd(s, drop);
      |r| <= |s| && r == s[..|r|] && (r == [] || r[|r| - 1] !in drop)
  {
    if s != [] && s[|s| - 1] in drop {
      TrimEndShape(s[..|s| - 1], drop);
    }
  }

  /** Every character TrimEnd drops is in `drop`. */
  lemma {:induction false} TrimEndDropped(s: string, drop: set<char>)
    ensures forall i :: |TrimEnd(s, drop)| <= i < |s| ==> s[i] in drop
  {
    TrimEndShape(s, drop);
    if s != [] && s[|s| - 1] in drop {
      TrimEndDropped(s[..|s| - 1], drop);
      forall i | |TrimEnd(s, drop)| <= i < |s| ensures s[i] in drop {
        if i < |s| - 1 {
          assert s[i] == s[..|s| - 1][i];
        }
      }
    }
  }

  /** A string made only of dropped characters trims to nothing. */
  lemma {:induction false} TrimStartAll(s: string, drop: set<char>)
    requires forall k :: 0 <= k < |s| ==> s[k] in drop
    ensures TrimStart(s, drop) == []
  {
    if s != [] {
      assert forall k :: 0 <= k < |s[1..]| ==> s[1..][k] == s[k + 1];
      TrimStartAll(s[1..], drop);
    }
  }

  /** Python's `s.strip(chars)`. */
  function Trim(s: string, drop: set<char>): string {
    TrimEnd(TrimStart(s, drop), drop)
  }

  /**
   * Whatever `strip` keeps comes from its input: it avoids what the input
   * avoids, and its ends are outside the stripped set.
   */
  lemma {:induction false} TrimAvoids(s: string, drop: set<char>, bad: set<char>)
    requires forall k :: 0 <= k < |s| ==> s[k] !in bad
    ensures var t := Trim(s, drop);
      && (forall i :: 0 <= i < |t| ==> t[i] !in bad)
      && (t == [] || (t[0] !in drop && t[|t| - 1] !in drop))
  {
    var u := TrimStart(s, drop);
    var t := TrimEnd(u, drop);
    TrimStartShape(s, drop);
    TrimEndShape(u, drop);
    var d := |s| - |u|;
    assert u == s[d..];
    assert t == u[..|t|];
    forall i | 0 <= i < |t| ensures t[i] !in bad {
      assert t[i] == u[i] == s[d + i];
    }
  }

  /** Python's `s.strip()`. */
  function Strip(s: string): string {
    Trim(s, Whitespace)
  }

  predicate IsStripped(s: string) {
    s == [] || (!IsSpace(s[0]) && !IsSpace(s[|s| - 1]))
  }

  /** A stripped string is the input minus a whitespace prefix and suffix. */
  lemma {:induction false} StripShape(s: string)
    ensures IsStripped(Strip(s))
    ensures exists i, j :: 0 <= i <= j <= |s| && Strip(s) == s[i..j]
                           && (forall k :: 0 <= k < i ==> IsSpace(s[k]))
                           && (forall k :: j <= k < |s| ==> IsSpace(s[k]))
  {
    var t := TrimStart(s, Whitespace);
    var i := |s| - |t|;
    var u := TrimEnd(t, Whitespace);
    TrimStartShape(s, Whitespace);
    TrimEndShape(t, Whitespace);
    TrimStartDropped(s, Whitespace);
    TrimEndDropped(t, Whitespace);
    assert u == s[i..i + |u|];
    assert forall k :: i + |u| <= k < |s| ==> IsSpace(s[k]) by {
      forall k | i + |u| <= k < |s| ensures IsSpace(s[k]) {
        assert s[k] == t[k - i];
      }
    }
  }

  lemma {:induction false} TrimStartStripped(s: string, drop: set<char>)
    requires s == [] || s[0] !in drop
    ensures TrimStart(s, drop) == s
  {
  }

  lemma {:induction false} TrimEndStripped(s: string, drop: set<char>)
    requires s == [] || s[|s| - 1] !in drop
    ensures TrimEnd(s, drop) == s
  {
  }

  /** Stripping a stripped string changes nothing. */
  lemma {:induction false} StripStripped(s: string)
    requires IsStripped(s)
    ensures Strip(s) == s
  {
    TrimStartStripped(s, Whitespace);
    TrimEndStripped(s, Whitespace);
  }

  lemma {:induction false} StripIdempotent(s: string)
    ensures Strip(Strip(s)) == Strip(s)
  {
    StripShape(s);
    StripStripped(Strip(s));
  }

  /** Strip(s) is empty exactly when every character of `s` is whitespace. */
  lemma {:induction false} StripEmpty(s: string)
    ensures Strip(s) == [] <==> forall k :: 0 <= k < |s| ==> IsSpace(s[k])
  {
    var t := TrimStart(s, Whitespace);
    TrimStartShape(s, Whitespace);
    TrimStartDropped(s, Whitespace);
    if t != [] {
      TrimEndShape(t, Whitespace);
      assert !IsSpace(t[0]) && t[0] == s[|s| - |t|];
      TrimEndDropped(t, Whitespace);
      assert TrimEnd(t, Whitespace) != [];
    }
  }

  /** A string with a non-whitespace character does not strip to nothing. */
  lemma {:induction false} StripNonBlank(s: string, k: nat)
    requires k < |s| && !IsSpace(s[k])
    ensures Strip(s) != []
  {
    StripEmpty(s);
  }

  /** The pieces whose stripped text is not empty, stripped, in order (`[x.strip() for x in xs if x.strip()]`). */
  function NonBlank(xs: seq<string>): seq<string> {
    if xs == [] then []
    else
      var t := Strip(xs[|xs| - 1]);
      NonBlank(xs[..|xs| - 1]) + (if t == [] then [] else [t])
  }

  /** A single piece that is already stripped and not empty is kept as it is. */
  lemma {:induction false} NonBlankSingle(t: string)
    requires t != [] && IsStripped(t)
    ensures NonBlank([t]) == [t]
  {
    StripStripped(t);
    assert [t][..0] == [];
  }

  /** A text with no line break that is already stripped is one blank-line block, itself. */
  lemma {:induction false} OneBlock(t: string)
    requires t != [] && '\n' !in t && IsStripped(t)
    ensures NonBlank(Split(t, "\n\n")) == [t]
  {
    assert "\n\n"[0] == '\n';
    SplitNoSep(t, "\n\n");
    NonBlankSingle(t);
  }

  /** A piece that does not strip to nothing appears, stripped, in the result. */
  lemma {:induction false} NonBlankKeeps(xs: seq<string>, i: nat)
    requires i < |xs| && Strip(xs[i]) != []
    ensures Strip(xs[i]) in NonBlank(xs)
  {
    NonBlankExact(xs);
  }

  /** Every kept piece is a non-empty stripped input piece; every input piece that does not strip to nothing is kept. */
  lemma {:induction false} NonBlankExact(xs: seq<string>)
    ensures forall e :: e in NonBlank(xs) ==> e != [] && exists i :: 0 <= i < |xs| && e == Strip(xs[i])
    ensures forall i :: 0 <= i < |xs| && Strip(xs[i]) != [] ==> Strip(xs[i]) in NonBlank(xs)
  {
    if xs != [] {
      var init := xs[..|xs| - 1];
      NonBlankExact(init);
      forall i | 0 <= i < |init| ensures init[i] == xs[i] { }
    }
  }

  /** Filtering keeps order: the kept pieces of a + b are those of a, then those of b. */
  lemma {:induction false} NonBlankAppend(a: seq<string>, b: seq<string>)
    ensures NonBlank(a + b) == NonBlank(a) + NonBlank(b)
    decreases |b|
  {
    if b == [] {
      assert a + b == a;
    } else {
      var ab := a + b;
      assert ab[..|ab| - 1] == a + b[..|b| - 1];
      assert ab[|ab| - 1] == b[|b| - 1];
      NonBlankAppend(a, b[..|b| - 1]);
    }
  }

  /** Kept pieces are stripped: filtering again keeps all of them unchanged. */
  lemma {:induction false} NonBlankIdempotent(xs: seq<string>)
    ensures NonBlank(NonBlank(xs)) == NonBlank(xs)
  {
    if xs != [] {
      var init := xs[..|xs| - 1];
      var t := Strip(xs[|xs| - 1]);
      NonBlankIdempotent(init);
      NonBlankAppend(NonBlank(init), if t == [] then [] else [t]);
      if t != [] {
        StripIdempotent(xs[|xs| - 1]);
        assert [t][..0] == [];
      }
    }
  }

  // ---------------------------------------------------------------------------
  // Replacement

  /** `s.replace(c, rep)` for a one-character pattern. */
  function ReplaceChar(s: string, c: char, rep: string): (r: string)
    ensures c !in rep ==> c !in r
  {
    if s == [] then [] else (if s[0] == c then rep else [s[0]]) + ReplaceChar(s[1..], c, rep)
  }

  lemma {:induction false} ReplaceCharAppend(a: string, b: string, c: char, rep: string)
    ensures ReplaceChar(a + b, c, rep) == ReplaceChar(a, c, rep) + ReplaceChar(b, c, rep)
  {
    if a != [] {
      assert (a + b)[1..] == a[1..] + b;
      ReplaceCharAppend(a[1..], b, c, rep);
    } else {
      assert a + b == b;
    }
  }

  /** Replacing a character that does not occur changes nothing. */
  lemma {:induction false} ReplaceCharAbsent(s: string, c: char, rep: string)
    requires c !in s
    ensures ReplaceChar(s, c, rep) == s
  {
    if s != [] {
      ReplaceCharAbsent(s[1..], c, rep);
    }
  }

  /**
   * `s.replace(pat, rep)` for a non-empty pattern: the leftmost occurrence is
   * replaced first and scanning resumes after it.
   */
  function ReplaceAll(s: string, pat: string, rep: string): string
    requires pat != []
    decreases |s|
  {
    if |s| < |pat| then s
    else if s[..|pat|] == pat then rep + ReplaceAll(s[|pat|..], pat, rep)
    else [s[0]] + ReplaceAll(s[1..], pat, rep)
  }

  lemma {:induction false} ReplaceAllAbsent(s: string, pat: string, rep: string)
    requires pat != [] && !Contains(s, pat)
    ensures ReplaceAll(s, pat, rep) == s
    decreases |s|
  {
    if |s| >= |pat| {
      assert !StartsWith(s, pat);
      ReplaceAllAbsent(s[1..], pat, rep);
    }
  }

  /** Removes every character of `bad`, as `re.sub` with a character class and "" does. */
  function RemoveAll(s: string, bad: set<char>): (r: string)
    ensures |r| <= |s|
    ensures forall i :: 0 <= i < |r| ==> r[i] !in bad
  {
    if s == [] then [] else (if s[0] in bad then [] else [s[0]]) + RemoveAll(s[1..], bad)
  }

  /**
   * Removal works part by part: on a concatenation it is the removal from
   * each part. With `RemoveAllOne`, the characters outside `bad` are kept in
   * their order.
   */
  lemma {:induction false} RemoveAllAppend(a: string, b: string, bad: set<char>)
    ensures RemoveAll(a + b, bad) == RemoveAll(a, bad) + RemoveAll(b, bad)
  {
    if a != [] {
      assert (a + b)[1..] == a[1..] + b;
      RemoveAllAppend(a[1..], b, bad);
      var head := if a[0] in bad then [] else [a[0]];
      assert RemoveAll(a + b, bad) == head + RemoveAll(a[1..] + b, bad);
    } else {
      assert a + b == b;
    }
  }

  /** A single character is dropped exactly when it is in `bad`. */
  lemma {:induction false} RemoveAllOne(c: char, bad: set<char>)
    ensures RemoveAll([c], bad) == if c in bad then [] else [c]
  {
    assert [c][1..] == [];
  }

  /** Every character outside `bad` occurs as often after the removal as before. */
  lemma {:induction false} RemoveAllKeeps(s: string, bad: set<char>)
    ensures forall c :: c !in bad ==> multiset(RemoveAll(s, bad))[c] == multiset(s)[c]
  {
    if s != [] {
      RemoveAllKeeps(s[1..], bad);
      assert s == [s[0]] + s[1..];
      var head := if s[0] in bad then [] else [s[0]];
      assert multiset(RemoveAll(s, bad)) == multiset(head) + multiset(RemoveAll(s[1..], bad));
      assert multiset(s) == multiset([s[0]]) + multiset(s[1..]);
    }
  }

  /** Removing characters that do not occur changes nothing. */
  lemma {:induction false} RemoveAllAbsent(s: string, bad: set<char>)
    requires forall i :: 0 <= i < |s| ==> s[i] !in bad
    ensures RemoveAll(s, bad) == s
  {
    if s != [] {
      RemoveAllAbsent(s[1..], bad);
    }
  }

  /** Removing one more character after a set of them is removing the union. */
  lemma {:induction false} RemoveCharAfterAll(s: string, bad: set<char>, c: char)
    ensures ReplaceChar(RemoveAll(s, bad), c, "") == RemoveAll(s, bad + {c})
  {
    if s != [] {
      var head := if s[0] in bad then [] else [s[0]];
      ReplaceCharAppend(head, RemoveAll(s[1..], bad), c, "");
      RemoveCharAfterAll(s[1..], bad, c);
      if s[0] !in bad {
        ReplaceCharOne(s[0], c, "");
      } else {
        assert ReplaceChar([], c, "") == [];
      }
    }
  }

  /** Replaces every character of `bad` by `x`, as a chain of `replace(c, x)` calls does. */
  function Substitute(s: string, bad: set<char>, x: char): (r: string)
    ensures |r| == |s|
    ensures forall i :: 0 <= i < |s| ==> r[i] == if s[i] in bad then x else s[i]
  {
    if s == [] then [] else [if s[0] in bad then x else s[0]] + Substitute(s[1..], bad, x)
  }

  /** After the substitution no character of `bad` is left, unless `x` itself is one. */
  lemma {:induction false} SubstituteAvoids(s: string, bad: set<char>, x: char)
    requires x !in bad
    ensures forall k :: 0 <= k < |s| ==> Substitute(s, bad, x)[k] !in bad
  {
  }

  /** Substituting nothing changes nothing. */
  lemma {:induction false} SubstituteNone(s: string, x: char)
    ensures Substitute(s, {}, x) == s
  {
    var r := Substitute(s, {}, x);
    assert forall i :: 0 <= i < |s| ==> r[i] == s[i];
  }

  /** Replacing one more character by `x` after a set of them is substituting the union. */
  lemma {:induction false} ReplaceCharAfterSubstitute(s: string, bad: set<char>, c: char, x: char)
    requires x != c
    ensures ReplaceChar(Substitute(s, bad, x), c, [x]) == Substitute(s, bad + {c}, x)
  {
    if s != [] {
      var head := [if s[0] in bad then x else s[0]];
      ReplaceCharAppend(head, Substitute(s[1..], bad, x), c, [x]);
      ReplaceCharAfterSubstitute(s[1..], bad, c, x);
      ReplaceCharOne(head[0], c, [x]);
    }
  }

  lemma {:induction false} LowerAppend(a: string, b: string)
    ensures Lower(a + b) == Lower(a) + Lower(b)
  {
    var ab, l := a + b, Lower(a) + Lower(b);
    forall i | 0 <= i < |ab| ensures Lower(ab)[i] == l[i] {
      if i < |a| {
        assert ab[i] == a[i] && l[i] == Lower(a)[i];
      } else {
        assert ab[i] == b[i - |a|] && l[i] == Lower(b)[i - |a|];
      }
    }
  }

  // ---------------------------------------------------------------------------
  // Split and join

  /** Python's `s.split(sep)` for a non-empty separator. */
  function Split(s: string, sep: string): (r: seq<string>)
    requires sep != []
    ensures |r| >= 1
    decreases |s|
  {
    if |s| < |sep| then [s]
    else if s[..|sep|] == sep then [""] + Split(s[|sep|..], sep)
    else
      var rest := Split(s[1..], sep);
      [[s[0]] + rest[0]] + rest[1..]
  }

  /** A string without the separator's first character splits into itself alone. */
  lemma {:induction false} SplitNoSep(s: string, sep: string)
    requires sep != [] && sep[0] !in s
    ensures Split(s, sep) == [s]
    decreases |s|
  {
    if |s| >= |sep| {
      assert s[..|sep|][0] == s[0] != sep[0];
      SplitNoSep(s[1..], sep);
      assert [s[0]] + s[1..] == s;
    }
  }

  /** Python's `sep.join(xs)`. */
  function Join(sep: string, xs: seq<string>): string {
    if |xs| == 0 then ""
    else if |xs| == 1 then xs[0]
    else xs[0] + sep + Join(sep, xs[1..])
  }

  /** `"".join(xs)`: the pieces one after the other. */
  function Concat(xs: seq<string>): string {
    if xs == [] then "" else Concat(xs[..|xs| - 1]) + xs[|xs| - 1]
  }

  lemma {:induction false} JoinConsPrefix(sep: string, c: char, xs: seq<string>)
    requires |xs| >= 1
    ensures Join(sep, [[c] + xs[0]] + xs[1..]) == [c] + Join(sep, xs)
  {
    var ys := [[c] + xs[0]] + xs[1..];
    if |xs| > 1 {
      assert ys[1..] == xs[1..];
    }
  }

  /** Joining the pieces of a split with the same separator gives back the input. */
  lemma {:induction false} JoinSplit(s: string, sep: string)
    requires sep != []
    ensures Join(sep, Split(s, sep)) == s
    decreases |s|
  {
    if |s| < |sep| {
    } else if s[..|sep|] == sep {
      var rest := Split(s[|sep|..], sep);
      JoinSplit(s[|sep|..], sep);
      assert Split(s, sep) == [""] + rest;
      assert ([""] + rest)[1..] == rest;
      assert s == s[..|sep|] + s[|sep|..];
    } else {
      var rest := Split(s[1..], sep);
      JoinSplit(s[1..], sep);
      JoinConsPrefix(sep, s[0], rest);
      assert s == [s[0]] + s[1..];
    }
  }

  /** A join starts with its first item, so it is empty only when that item is. */
  lemma {:induction false} JoinFirst(sep: string, xs: seq<string>)
    requires |xs| >= 1
    ensures StartsWith(Join(sep, xs), xs[0])
  {
    if |xs| > 1 {
      var j := Join(sep, xs);
      assert j == xs[0] + (sep + Join(sep, xs[1..]));
      assert j[..|xs[0]|] == xs[0];
    }
  }

  /** Appending one more item to a joined list adds the separator and the item. */
  lemma {:induction false} JoinSnoc(sep: string, xs: seq<string>, x: string)
    requires |xs| >= 1
    ensures Join(sep, xs + [x]) == Join(sep, xs) + sep + x
    decreases |xs|
  {
    if |xs| == 1 {
      assert xs + [x] == [xs[0], x];
    } else {
      assert (xs + [x])[1..] == xs[1..] + [x];
      JoinSnoc(sep, xs[1..], x);
    }
  }

  // ---------------------------------------------------------------------------
  // Line endings

  /**
   * What reading a file in text mode returns for its contents (Python's
   * universal newlines): every "\r\n" becomes "\n", then every remaining
   * '\r' becomes "\n".
   */
  function Universal(s: string): (r: string)
    ensures r == ReplaceChar(ReplaceAll(s, "\r\n", "\n"), '\r', "\n")
    ensures '\r' !in r
    ensures |r| <= |s|
    ensures r == [] <==> s == []
    decreases |s|
  {
    if s == [] then []
    else if s[0] == '\r' then
      if |s| > 1 && s[1] == '\n' then
        UniversalStep("\n", s[2..]);
        assert s[..2] == "\r\n";
        "\n" + Universal(s[2..])
      else
        UniversalStep([s[0]], s[1..]);
        assert |s| >= 2 ==> s[..2] != "\r\n";
        "\n" + Universal(s[1..])
    else
      UniversalStep([s[0]], s[1..]);
      assert |s| >= 2 ==> s[..2] != "\r\n";
      [s[0]] + Universal(s[1..])
  }

  /** One step of the replacement: a one-character head is replaced on its own. */
  lemma {:induction false} UniversalStep(head: string, rest: string)
    requires |head| == 1
    ensures ReplaceChar(head + ReplaceAll(rest, "\r\n", "\n"), '\r', "\n")
         == (if head[0] == '\r' then "\n" else head) + ReplaceChar(ReplaceAll(rest, "\r\n", "\n"), '\r', "\n")
  {
    ReplaceCharAppend(head, ReplaceAll(rest, "\r\n", "\n"), '\r', "\n");
    assert head == [head[0]];
    ReplaceCharOne(head[0], '\r', "\n");
  }

  /** Text without carriage returns reads back unchanged. */
  lemma {:induction false} UniversalNoCr(s: string)
    requires '\r' !in s
    ensures Universal(s) == s
    decreases |s|
  {
    if s != [] {
      UniversalNoCr(s[1..]);
    }
  }

  // ---------------------------------------------------------------------------
  // Decimal integers

  function DigitChar(d: nat): char
    requires d < 10
  {
    "0123456789"[d]
  }

  /** Python's `str(n)` for a natural number. */
  function NatStr(n: nat): (r: string)
    ensures |r| >= 1
    ensures forall i :: 0 <= i < |r| ==> IsDigit(r[i])
    ensures |r| > 1 ==> r[0] != '0'
  {
    if n < 10 then [DigitChar(n)] else NatStr(n / 10) + [DigitChar(n % 10)]
  }

  /** Python's `str(i)`. */
  function IntStr(i: int): string {
    if i < 0 then "-" + NatStr(-i) else NatStr(i)
  }

  /** Python's `int(s)` for a string of decimal digits. */
  function ParseNat(s: string): nat
    requires forall i :: 0 <= i < |s| ==> IsDigit(s[i])
  {
    if s == [] then 0 else 10 * ParseNat(s[..|s| - 1]) + DigitValue(s[|s| - 1])
  }

  function DigitValue(c: char): nat
    requires IsDigit(c)
  {
    c as int - '0' as int
  }

  /** Decimal rendering is injective: parsing it back gives the number. */
  lemma {:induction false} ParseNatStr(n: nat)
    ensures ParseNat(NatStr(n)) == n
  {
    if n >= 10 {
      var s := NatStr(n);
      assert s[..|s| - 1] == NatStr(n / 10);
      ParseNatStr(n / 10);
    }
  }

  // ---------------------------------------------------------------------------
  // Paths

  /** Index of the last occurrence of `c` in `s`, or -1. */
  function LastIndexOf(s: string, c: char): (r: int)
    ensures -1 <= r < |s|
    ensures r >= 0 ==> s[r] == c
    ensures forall k :: r < k < |s| ==> s[k] != c
  {
    if s == [] then -1
    else if s[|s| - 1] == c then |s| - 1
    else LastIndexOf(s[..|s| - 1], c)
  }

  /** `os.path.basename`: the part after the last '/'. */
  function Basename(p: string): string {
    p[LastIndexOf(p, '/') + 1..]
  }

  /** The basename is a suffix of the path that holds no '/'. */
  lemma {:induction false} BasenameShape(p: string)
    ensures EndsWith(p, Basename(p))
    ensures '/' !in Basename(p)
  {
    var i := LastIndexOf(p, '/');
    forall k | 0 <= k < |Basename(p)| ensures Basename(p)[k] != '/' {
      assert Basename(p)[k] == p[i + 1 + k];
    }
  }

  /** Index where `os.path.splitext` cuts `p`; `|p|` when there is no extension. */
  function ExtIndex(p: string): (r: nat)
    ensures r <= |p|
  {
    var sep := LastIndexOf(p, '/');
    var dot := LastIndexOf(p, '.');
    if dot > sep && exists k :: sep + 1 <= k < dot && p[k] != '.' then dot else |p|
  }

  /** `os.path.splitext(p)[0]`. */
  function Stem(p: string): string {
    p[..ExtIndex(p)]
  }

  /** `os.path.splitext(p)[1]`. */
  function Ext(p: string): string {
    p[ExtIndex(p)..]
  }

  /**
   * The stem and the extension partition the path; a non-empty extension is a
   * dot followed by no further dot or '/', and it never is the whole basename.
   */
  lemma {:induction false} SplitExtShape(p: string)
    ensures Stem(p) + Ext(p) == p
    ensures Ext(p) == [] || (Ext(p)[0] == '.' && '.' !in Ext(p)[1..] && '/' !in Ext(p))
    ensures Ext(p) != [] ==> exists k :: 0 <= k < |Stem(p)| && Stem(p)[k] != '.' && Stem(p)[k] != '/'
  {
    var e := ExtIndex(p);
    if e < |p| {
      var dot := LastIndexOf(p, '.');
      var sep := LastIndexOf(p, '/');
      assert e == dot;
      forall k | 0 <= k < |Ext(p)[1..]| ensures Ext(p)[1..][k] != '.' {
        assert Ext(p)[1..][k] == p[dot + 1 + k];
      }
      forall k | 0 <= k < |Ext(p)| ensures Ext(p)[k] != '/' {
        assert Ext(p)[k] == p[dot + k];
      }
      var k :| sep + 1 <= k < dot && p[k] != '.';
      assert Stem(p)[k] == p[k];
    }
  }

  // ---------------------------------------------------------------------------
  // XML text

  /**
   * The characters lxml accepts in element text: tab, line feed, carriage
   * return and everything from ' ' on, except U+FFFE and U+FFFF.
   */
  predicate XmlChar(c: char) {
    (c >= ' ' || c == '\t' || c == '\n' || c == '\r') && c != '\U{fffe}' && c != '\U{ffff}'
  }

  /** Text lxml stores; python-docx raises a ValueError on any other. */
  predicate XmlCompatible(s: string) {
    forall i :: 0 <= i < |s| ==> XmlChar(s[i])
  }

  /** Every text of the list is one lxml stores. */
  predicate AllXml(xs: seq<string>) {
    forall k :: 0 <= k < |xs| ==> XmlCompatible(xs[k])
  }

  /** Appending XML text to a list of XML text keeps it so. */
  lemma {:induction false} XmlCompatibleList(xs: seq<string>, e: string)
    requires AllXml(xs) && XmlCompatible(e)
    ensures AllXml(xs + [e])
  {
    forall k | 0 <= k < |xs + [e]| ensures XmlCompatible((xs + [e])[k]) {
      if k < |xs| {
        assert (xs + [e])[k] == xs[k];
      }
    }
  }

  /** One piece that is not XML text spoils the whole list. */
  lemma {:induction false} AllXmlMember(xs: seq<string>, e: string)
    requires e in xs && !XmlCompatible(e)
    ensures !AllXml(xs)
  {
    var k :| 0 <= k < |xs| && xs[k] == e;
  }

  /** The message of lxml's ValueError. */
  const XmlError: string := "All strings must be XML compatible: Unicode or ASCII, no NULL bytes or control characters"

  /** Text is compatible exactly when both of its parts are. */
  lemma {:induction false} XmlCompatibleAppend(a: string, b: string)
    ensures XmlCompatible(a + b) <==> XmlCompatible(a) && XmlCompatible(b)
  {
    if XmlCompatible(a) && XmlCompatible(b) {
      forall i | 0 <= i < |a + b| ensures XmlChar((a + b)[i]) {
        if i >= |a| {
          assert (a + b)[i] == b[i - |a|];
        }
      }
    }
    if XmlCompatible(a + b) {
      forall i | 0 <= i < |b| ensures XmlChar(b[i]) {
        assert (a + b)[|a| + i] == b[i];
      }
      forall i | 0 <= i < |a| ensures XmlChar(a[i]) {
        assert (a + b)[i] == a[i];
      }
    }
  }

  // ---------------------------------------------------------------------------
  // Markup escaping

  /** What one character becomes in the escaped text. */
  function EscapeChar(c: char): string {
    if c == '&' then "&amp;" else if c == '<' then "&lt;" else if c == '>' then "&gt;" else [c]
  }

  function EscapeEach(s: string): string {
    if s == [] then [] else EscapeChar(s[0]) + EscapeEach(s[1..])
  }

  /** `s.replace('&','&amp;').replace('<','&lt;').replace('>','&gt;')`. */
  function Escape(s: string): string {
    ReplaceChar(ReplaceChar(ReplaceChar(s, '&', "&amp;"), '<', "&lt;"), '>', "&gt;")
  }

  /**
   * Because '&' is replaced first, the three passes act character by character:
   * no entity produced by one pass is rewritten by a later one.
   */
  lemma {:induction false} EscapeIsPerChar(s: string)
    ensures Escape(s) == EscapeEach(s)
  {
    if s != [] {
      assert s == [s[0]] + s[1..];
      EscapeAppend([s[0]], s[1..]);
      EscapeOne(s[0]);
      EscapeIsPerChar(s[1..]);
    }
  }

  lemma {:induction false} EscapeAppend(a: string, b: string)
    ensures Escape(a + b) == Escape(a) + Escape(b)
  {
    ReplaceCharAppend(a, b, '&', "&amp;");
    var a1, b1 := ReplaceChar(a, '&', "&amp;"), ReplaceChar(b, '&', "&amp;");
    ReplaceCharAppend(a1, b1, '<', "&lt;");
    ReplaceCharAppend(ReplaceChar(a1, '<', "&lt;"), ReplaceChar(b1, '<', "&lt;"), '>', "&gt;");
  }

  lemma {:induction false} ReplaceCharOne(d: char, c: char, rep: string)
    ensures ReplaceChar([d], c, rep) == if d == c then rep else [d]
  {
    assert [d][1..] == [];
    assert ReplaceChar([], c, rep) == [];
  }

  lemma {:induction false} EscapeOne(c: char)
    ensures Escape([c]) == EscapeChar(c)
  {
    ReplaceCharOne(c, '&', "&amp;");
    if c == '&' {
      ReplaceCharAbsent("&amp;", '<', "&lt;");
      ReplaceCharAbsent("&amp;", '>', "&gt;");
    } else {
      ReplaceCharOne(c, '<', "&lt;");
      if c == '<' {
        ReplaceCharAbsent("&lt;", '>', "&gt;");
      } else {
        ReplaceCharOne(c, '>', "&gt;");
      }
    }
  }

  /** Reverses the escaping: the three entities become their characters again. */
  function Unescape(s: string): string
    decreases |s|
  {
    if s == [] then []
    else if StartsWith(s, "&amp;") then "&" + Unescape(s[5..])
    else if StartsWith(s, "&lt;") then "<" + Unescape(s[4..])
    else if StartsWith(s, "&gt;") then ">" + Unescape(s[4..])
    else [s[0]] + Unescape(s[1..])
  }

  /** Escaping loses nothing, and leaves no raw '<' or '>'. */
  lemma {:induction false} EscapeRoundTrip(s: string)
    ensures Unescape(Escape(s)) == s
    ensures '<' !in Escape(s) && '>' !in Escape(s)
  {
    EscapeIsPerChar(s);
    EscapeEachRoundTrip(s);
  }

  lemma {:induction false} EscapeEachRoundTrip(s: string)
    ensures Unescape(EscapeEach(s)) == s
    ensures '<' !in EscapeEach(s) && '>' !in EscapeEach(s)
  {
    if s != [] {
      var c, t := s[0], s[1..];
      EscapeEachRoundTrip(t);
      var e := EscapeEach(t);
      assert EscapeEach(s) == EscapeChar(c) + e;
      if c == '&' {
        assert ("&amp;" + e)[..5] == "&amp;";
        assert ("&amp;" + e)[5..] == e;
      } else if c == '<' {
        assert ("&lt;" + e)[..4] == "&lt;";
        assert ("&lt;" + e)[1] == 'l';
        assert ("&lt;" + e)[4..] == e;
      } else if c == '>' {
        assert ("&gt;" + e)[..4] == "&gt;";
        assert ("&gt;" + e)[1] == 'g';
        assert ("&gt;" + e)[4..] == e;
      } else {
        assert ([c] + e)[1..] == e;
        assert !StartsWith([c] + e, "&amp;") && !StartsWith([c] + e, "&lt;") && !StartsWith([c] + e, "&gt;") by {
          if c != '&' {} else {}
        }
      }
      assert s == [c] + t;
    }
  }
}

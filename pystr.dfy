/**
 * The Python string built-ins both aggregation scripts rely on:
 * `str.strip()`, `str.startswith(p)`, `str.split(sep)` (and its last part,
 * `split(':')[-1]`), the joining done by repeated `+= "," + x`, and `str(k)`
 * for a non-negative run number.
 */
module PyStr {

  /** The characters of Python's `str.isspace()`, which `strip()` removes. */
  const Whitespace: set<char> := {'\t', '\n', '\U{B}', '\U{C}', '\r', '\U{1C}', '\U{1D}', '\U{1E}',
          '\U{1F}', ' ', '\U{85}', '\U{A0}', '\U{1680}', '\U{2000}', '\U{2001}', '\U{2002}',
          '\U{2003}', '\U{2004}', '\U{2005}', '\U{2006}', '\U{2007}', '\U{2008}', '\U{2009}', '\U{200A}',
          '\U{2028}', '\U{2029}', '\U{202F}', '\U{205F}', '\U{3000}'}

  predicate IsSpace(c: char) {
    c in Whitespace
  }

  lemma ColonNotSpace()
    ensures !IsSpace(':')
  {
  }

  predicate AllSpace(s: string) {
    forall i :: 0 <= i < |s| ==> IsSpace(s[i])
  }

  /** `s.lstrip()`: the whitespace at the front of `s` removed. */
  function TrimStart(s: string): (r: string)
    ensures |r| <= |s|
    decreases |s|
  {
    if s != [] && IsSpace(s[0]) then TrimStart(s[1..]) else s
  }

  /** `lstrip()` gives the longest suffix of `s` that does not start with whitespace. */
  lemma {:induction false} TrimStartSpec(s: string)
    ensures |TrimStart(s)| <= |s| && TrimStart(s) == s[|s| - |TrimStart(s)|..]
    ensures forall i :: 0 <= i < |s| - |TrimStart(s)| ==> IsSpace(s[i])
    ensures TrimStart(s) != [] ==> !IsSpace(TrimStart(s)[0])
    decreases |s|
  {
    if s != [] && IsSpace(s[0]) {
      var r := TrimStart(s[1..]);
      TrimStartSpec(s[1..]);
      assert TrimStart(s) == r;
      assert s[1..][|s| - 1 - |r|..] == s[|s| - |r|..];
      forall i | 0 <= i < |s| - |r|
        ensures IsSpace(s[i])
      {
        if i > 0 {
          assert s[i] == s[1..][i - 1];
        }
      }
    }
  }

  /** `s.rstrip()`: the whitespace at the end of `s` removed. */
  function TrimEnd(s: string): (r: string)
    ensures |r| <= |s|
    decreases |s|
  {
    if s != [] && IsSpace(s[|s| - 1]) then TrimEnd(s[..|s| - 1]) else s
  }

  /** `rstrip()` gives the longest prefix of `s` that does not end with whitespace. */
  lemma {:induction false} TrimEndSpec(s: string)
    ensures |TrimEnd(s)| <= |s| && TrimEnd(s) == s[..|TrimEnd(s)|]
    ensures forall i :: |TrimEnd(s)| <= i < |s| ==> IsSpace(s[i])
    ensures TrimEnd(s) != [] ==> !IsSpace(TrimEnd(s)[|TrimEnd(s)| - 1])
    decreases |s|
  {
    if s != [] && IsSpace(s[|s| - 1]) {
      var front := s[..|s| - 1];
      var r := TrimEnd(front);
      TrimEndSpec(front);
      assert TrimEnd(s) == r;
      assert front[..|r|] == s[..|r|];
      forall i | |r| <= i < |s|
        ensures IsSpace(s[i])
      {
        if i < |s| - 1 {
          assert s[i] == front[i];
        }
      }
    }
  }

  /**
   * `r` is the slice of `s` starting at `a`, and everything around it in `s`
   * is whitespace.
   */
  predicate Padded(s: string, a: nat, r: string) {
    a + |r| <= |s| && r == s[a..a + |r|] &&
    (forall i :: 0 <= i < a ==> IsSpace(s[i])) &&
    (forall i :: a + |r| <= i < |s| ==> IsSpace(s[i]))
  }

  /** `r` neither starts nor ends with whitespace. */
  predicate Trimmed(r: string) {
    r != [] ==> !IsSpace(r[0]) && !IsSpace(r[|r| - 1])
  }

  /** `s.strip()`: `lstrip()`, then `rstrip()`. */
  function Strip(s: string): string {
    TrimEnd(TrimStart(s))
  }

  /**
   * `strip()` gives the slice of `s` left once the whitespace at both ends
   * is gone (it starts where `lstrip()` would start): everything removed is
   * whitespace and the slice neither starts nor ends with whitespace.
   */
  lemma StripSpec(s: string)
    ensures Padded(s, |s| - |TrimStart(s)|, Strip(s)) && Trimmed(Strip(s))
  {
    var t := TrimStart(s);
    var r := TrimEnd(t);
    TrimStartSpec(s);
    TrimEndSpec(t);
    assert t[..|r|] == s[|s| - |t|..|s| - |t| + |r|];
    assert forall i :: |r| <= i < |t| ==> t[i] == s[|s| - |t| + i];
    if r != [] {
      assert r[0] == t[0];
    }
  }

  /** A string is a whitespace-padded trimmed slice in at most one way. */
  lemma PaddedUnique(s: string, a: nat, r: string, b: nat, q: string)
    requires Padded(s, a, r) && Trimmed(r)
    requires Padded(s, b, q) && Trimmed(q)
    ensures r == q
  {
    if r != [] && q != [] {
      assert r[0] == s[a] && q[0] == s[b];
      assert r[|r| - 1] == s[a + |r| - 1] && q[|q| - 1] == s[b + |q| - 1];
    }
  }

  /**
   * The surrounding whitespace is exactly what `strip()` removes: whatever
   * whitespace pads a core that starts and ends with a non-space character,
   * stripping gives back that core.
   */
  lemma StripSurrounded(pre: string, core: string, post: string)
    requires AllSpace(pre) && AllSpace(post) && Trimmed(core)
    ensures Strip(pre + core + post) == core
  {
    var s := pre + core + post;
    StripSpec(s);
    assert s[|pre|..|pre| + |core|] == core;
    assert Padded(s, |pre|, core);
    PaddedUnique(s, |s| - |TrimStart(s)|, Strip(s), |pre|, core);
  }

  /** Whitespace appended after a padded slice only widens the padding. */
  lemma PaddedExtend(u: string, a: nat, r: string, v: string)
    requires Padded(u, a, r) && AllSpace(v)
    ensures Padded(u + v, a, r)
  {
    var s := u + v;
    assert s[a..a + |r|] == u[a..a + |r|];
    assert forall i :: a + |r| <= i < |s| ==> IsSpace(s[i]) by {
      forall i | a + |r| <= i < |s|
        ensures IsSpace(s[i])
      {
        if i >= |u| {
          assert s[i] == v[i - |u|];
        }
      }
    }
  }

  /** Whitespace added after a string does not change what `strip()` gives. */
  lemma StripIgnoresTrailingSpace(u: string, v: string)
    requires AllSpace(v)
    ensures Strip(u + v) == Strip(u)
  {
    var s := u + v;
    StripSpec(u);
    StripSpec(s);
    PaddedExtend(u, |u| - |TrimStart(u)|, Strip(u), v);
    PaddedUnique(s, |s| - |TrimStart(s)|, Strip(s), |u| - |TrimStart(u)|, Strip(u));
  }

  /** Whitespace added around a string does not change what `strip()` gives. */
  lemma StripIgnoresPadding(pre: string, s: string, post: string)
    requires AllSpace(pre) && AllSpace(post)
    ensures Strip(pre + s + post) == Strip(s)
  {
    var a := |s| - |TrimStart(s)|;
    var r := Strip(s);
    StripSpec(s);
    var left, right := pre + s[..a], s[a + |r|..] + post;
    assert AllSpace(left) by {
      forall i | 0 <= i < |left| ensures IsSpace(left[i]) {
        if i >= |pre| {
          assert left[i] == s[i - |pre|];
        }
      }
    }
    assert AllSpace(right) by {
      forall i | 0 <= i < |right| ensures IsSpace(right[i]) {
        if i < |s| - a - |r| {
          assert right[i] == s[a + |r| + i];
        }
      }
    }
    assert s == s[..a] + r + s[a + |r|..];
    assert pre + s + post == left + r + right;
    StripSurrounded(left, r, right);
  }

  /**
   * A padded slice around a non-space character keeps it: whatever follows
   * that character in the slice is what follows it in the string, less some
   * trailing whitespace.
   */
  lemma PaddedKeeps(s: string, a: nat, r: string, k: nat) returns (e: nat)
    requires Padded(s, a, r) && k < |s| && !IsSpace(s[k])
    ensures a <= k && k + 1 + e == a + |r|
    ensures r == s[a..k] + [s[k]] + s[k + 1..k + 1 + e]
    ensures forall i :: k + 1 + e <= i < |s| ==> IsSpace(s[i])
  {
    e := a + |r| - k - 1;
    assert s[a..a + |r|] == s[a..k] + [s[k]] + s[k + 1..k + 1 + e];
  }

  /** Stripping keeps every non-space character, with what lies between them. */
  lemma StripKeeps(s: string, k: nat) returns (front: string, e: nat)
    requires k < |s| && !IsSpace(s[k])
    ensures k + 1 + e <= |s| && Strip(s) == front + [s[k]] + s[k + 1..k + 1 + e]
    ensures forall i :: k + 1 + e <= i < |s| ==> IsSpace(s[i])
  {
    var a := |s| - |TrimStart(s)|;
    StripSpec(s);
    e := PaddedKeeps(s, a, Strip(s), k);
    front := s[a..k];
  }

  /**
   * Stripping a line that holds a colon keeps the colon; what followed the
   * colon loses only trailing whitespace.
   */
  lemma StripKeepsColon(head: string, tail: string) returns (front: string, e: nat)
    ensures e <= |tail| && Strip(head + [':'] + tail) == front + [':'] + tail[..e]
    ensures AllSpace(tail[e..])
  {
    var s := head + [':'] + tail;
    ColonNotSpace();
    front, e := StripKeepsAt(s, head, tail);
    SpaceAfter(head, tail, e);
  }

  lemma StripKeepsAt(s: string, head: string, tail: string) returns (front: string, e: nat)
    requires s == head + [':'] + tail && !IsSpace(':')
    ensures e <= |tail| && Strip(s) == front + [':'] + tail[..e]
    ensures forall i :: |head| + 1 + e <= i < |s| ==> IsSpace(s[i])
  {
    assert s[|head|] == ':';
    front, e := StripKeeps(s, |head|);
    assert s[|head| + 1..|head| + 1 + e] == tail[..e];
  }

  /** The whitespace after position `e` of the tail of `head + ":" + tail`. */
  lemma SpaceAfter(head: string, tail: string, e: nat)
    requires e <= |tail|
    requires forall i :: |head| + 1 + e <= i < |head| + 1 + |tail| ==> IsSpace((head + [':'] + tail)[i])
    ensures AllSpace(tail[e..])
  {
    var s := head + [':'] + tail;
    forall i | 0 <= i < |tail| - e ensures IsSpace(tail[e..][i]) {
      assert tail[e..][i] == s[|head| + 1 + e + i];
    }
  }

  /** A common front cancels. */
  lemma CancelPrefix(p: string, x: string, y: string)
    requires p + x == p + y
    ensures x == y
  {
    assert x == (p + x)[|p|..];
    assert y == (p + y)[|p|..];
  }

  /** A common front and a common back cancel. */
  lemma CancelAround(p: string, x: string, y: string, q: string)
    requires p + x + q == p + y + q
    ensures x == y
  {
    assert |x| == |y|;
    assert x == (p + x + q)[|p|..|p| + |x|];
    assert y == (p + y + q)[|p|..|p| + |y|];
  }

  /** `s.startswith(p)`. */
  predicate StartsWith(s: string, p: string) {
    |p| <= |s| && s[..|p|] == p
  }

  /**
   * `sep.join(parts)` for a one-character separator; `Join([p]) == p` and
   * `Join([]) == ""`.
   */
  function Join(parts: seq<string>, sep: char): string
    decreases |parts|
  {
    if parts == [] then ""
    else if |parts| == 1 then parts[0]
    else parts[0] + [sep] + Join(parts[1..], sep)
  }

  /** `s.split(sep)` for a one-character separator: always at least one part. */
  function Split(s: string, sep: char): (parts: seq<string>)
    ensures |parts| >= 1
    decreases |s|
  {
    if s == [] then [""]
    else
      var rest := Split(s[1..], sep);
      if s[0] == sep then [""] + rest
      else [[s[0]] + rest[0]] + rest[1..]
  }

  /** No part of a split holds the separator. */
  lemma {:induction false} SplitParts(s: string, sep: char)
    ensures forall i :: 0 <= i < |Split(s, sep)| ==> sep !in Split(s, sep)[i]
    decreases |s|
  {
    if s != [] {
      var rest := Split(s[1..], sep);
      SplitParts(s[1..], sep);
      if s[0] != sep {
        var parts := Split(s, sep);
        assert parts[0] == [s[0]] + rest[0];
        assert forall i :: 1 <= i < |parts| ==> parts[i] == rest[i];
      }
    }
  }

  /** Joining the parts of a split gives back the string. */
  lemma {:induction false} JoinSplit(s: string, sep: char)
    ensures Join(Split(s, sep), sep) == s
    decreases |s|
  {
    if s != [] {
      var rest := Split(s[1..], sep);
      JoinSplit(s[1..], sep);
      if s[0] == sep {
        assert Split(s, sep) == [""] + rest;
        assert Join([""] + rest, sep) == "" + [sep] + Join(rest, sep);
      } else if |rest| == 1 {
        assert Split(s, sep) == [[s[0]] + rest[0]];
      } else {
        var parts := Split(s, sep);
        assert parts == [[s[0]] + rest[0]] + rest[1..];
        assert parts[1..] == rest[1..];
        assert Join(rest, sep) == rest[0] + [sep] + Join(rest[1..], sep);
      }
    }
  }

  /** A string without the separator splits into itself alone. */
  lemma {:induction false} SplitWithoutSep(p: string, sep: char)
    requires sep !in p
    ensures Split(p, sep) == [p]
    decreases |p|
  {
    if p != [] {
      SplitWithoutSep(p[1..], sep);
      assert [p[0]] + p[1..] == p;
    }
  }

  /** A first part free of the separator splits off in front. */
  lemma {:induction false} SplitCons(p: string, t: string, sep: char)
    requires sep !in p
    ensures Split(p + [sep] + t, sep) == [p] + Split(t, sep)
    decreases |p|
  {
    if p == [] {
      assert p + [sep] + t == [sep] + t;
      assert ([sep] + t)[1..] == t;
    } else {
      SplitCons(p[1..], t, sep);
      assert (p + [sep] + t)[1..] == p[1..] + [sep] + t;
      assert [p[0]] + p[1..] == p;
    }
  }

  /** Splitting a join of separator-free parts gives back the parts. */
  lemma {:induction false} SplitJoin(parts: seq<string>, sep: char)
    requires |parts| >= 1
    requires forall i :: 0 <= i < |parts| ==> sep !in parts[i]
    ensures Split(Join(parts, sep), sep) == parts
    decreases |parts|
  {
    if |parts| == 1 {
      SplitWithoutSep(parts[0], sep);
    } else {
      SplitJoin(parts[1..], sep);
      SplitCons(parts[0], Join(parts[1..], sep), sep);
      assert [parts[0]] + parts[1..] == parts;
    }
  }

  /** Appending one part to a non-empty join adds the separator and the part. */
  lemma {:induction false} JoinSnoc(parts: seq<string>, q: string, sep: char)
    requires |parts| >= 1
    ensures Join(parts + [q], sep) == Join(parts, sep) + [sep] + q
    decreases |parts|
  {
    if |parts| > 1 {
      JoinSnoc(parts[1..], q, sep);
      assert (parts + [q])[1..] == parts[1..] + [q];
    }
  }

  /**
   * `s.split(':')[-1]`: the text after the last colon, or all of `s` when it
   * holds none.
   */
  function AfterLastColon(s: string): string {
    var parts := Split(s, ':');
    parts[|parts| - 1]
  }

  /** The last part of a split on `:` is a colon-free suffix that follows a colon or is the whole string. */
  lemma AfterLastColonSpec(s: string)
    ensures var r := AfterLastColon(s);
      ':' !in r && |r| <= |s| && r == s[|s| - |r|..] &&
      (|r| < |s| ==> s[|s| - |r| - 1] == ':')
  {
    var parts := Split(s, ':');
    var r := parts[|parts| - 1];
    SplitParts(s, ':');
    JoinSplit(s, ':');
    if |parts| > 1 {
      var init := parts[..|parts| - 1];
      JoinSnoc(init, r, ':');
      assert init + [r] == parts;
      ColonThenTail(Join(init, ':'), r);
    }
  }

  /** The tail of `a + ":" + r` is `r`, right after the colon. */
  lemma ColonThenTail(a: string, r: string)
    ensures var s := a + [':'] + r;
      |r| < |s| && r == s[|s| - |r|..] && s[|s| - |r| - 1] == ':'
  {
  }

  /** The text after the last colon is exactly the colon-free tail. */
  lemma AfterLastColonOf(x: string, y: string)
    requires ':' !in y
    ensures AfterLastColon(x + [':'] + y) == y
  {
    var s := x + [':'] + y;
    var r := AfterLastColon(s);
    AfterLastColonSpec(s);
    assert s[|x|] == ':';
  }

  /** The digit after `c`, for the digits `0` to `8`. */
  function NextDigit(c: char): char {
    if '0' <= c < '9' then ((c as int) + 1) as char else '0'
  }

  /** Adding one to a string of decimal digits, carrying from the last digit. */
  function Succ(s: string): string
    decreases |s|
  {
    if s == [] then "1"
    else if s[|s| - 1] == '9' then Succ(s[..|s| - 1]) + "0"
    else s[..|s| - 1] + [NextDigit(s[|s| - 1])]
  }

  predicate IsDigits(s: string) {
    forall i :: 0 <= i < |s| ==> '0' <= s[i] <= '9'
  }

  /** The number a string of decimal digits denotes. */
  function DigitsValue(s: string): nat
    requires IsDigits(s)
    decreases |s|
  {
    if s == [] then 0
    else 10 * DigitsValue(s[..|s| - 1]) + ((s[|s| - 1] as int) - 48)
  }

  lemma FrontDigits(s: string)
    requires IsDigits(s) && s != []
    ensures IsDigits(s[..|s| - 1])
  {
    assert forall i :: 0 <= i < |s| - 1 ==> s[..|s| - 1][i] == s[i];
  }

  /** Adding one to a decimal string gives a decimal string. */
  lemma {:induction false} SuccDigits(s: string)
    requires IsDigits(s)
    ensures IsDigits(Succ(s)) && |Succ(s)| >= 1
    decreases |s|
  {
    if s != [] {
      FrontDigits(s);
      if s[|s| - 1] == '9' {
        SuccDigits(s[..|s| - 1]);
      }
    }
  }

  /** Adding one to a decimal string adds one to the number it denotes. */
  lemma {:induction false} SuccValue(s: string)
    requires IsDigits(s)
    ensures IsDigits(Succ(s)) && DigitsValue(Succ(s)) == DigitsValue(s) + 1
    decreases |s|
  {
    SuccDigits(s);
    if s != [] {
      var front := s[..|s| - 1];
      FrontDigits(s);
      if s[|s| - 1] == '9' {
        SuccValue(front);
        var r := Succ(front) + "0";
        assert r[..|r| - 1] == Succ(front);
      } else {
        var r := front + [NextDigit(s[|s| - 1])];
        assert r[..|r| - 1] == front;
      }
    }
  }

  /** Adding one to a decimal string without a leading zero brings in none. */
  lemma {:induction false} SuccLead(s: string)
    requires IsDigits(s)
    ensures |Succ(s)| >= 1 && ((|s| <= 1 || s[0] != '0') ==> Succ(s)[0] != '0')
    decreases |s|
  {
    SuccDigits(s);
    if s != [] {
      var front := s[..|s| - 1];
      FrontDigits(s);
      if s[|s| - 1] == '9' {
        SuccLead(front);
        var r := Succ(front) + "0";
        assert r[0] == Succ(front)[0];
      } else if front != [] {
        var r := front + [NextDigit(s[|s| - 1])];
        assert r[0] == s[0];
      }
    }
  }

  /** `str(n)` for a non-negative integer: `"0"`, counted up `n` times. */
  function Decimal(n: nat): string
    decreases n
  {
    if n == 0 then "0" else Succ(Decimal(n - 1))
  }

  /** `str(n)` is decimal digits without a leading zero, reading back as `n`. */
  lemma {:induction false} DecimalDigits(n: nat)
    ensures |Decimal(n)| >= 1 && IsDigits(Decimal(n))
    ensures Decimal(n)[0] == '0' ==> n == 0
    ensures DigitsValue(Decimal(n)) == n
    decreases n
  {
    if n == 0 {
      assert Decimal(0) == "0";
    } else {
      DecimalDigits(n - 1);
      SuccValue(Decimal(n - 1));
      SuccLead(Decimal(n - 1));
    }
  }

  /** Distinct numbers have distinct decimal forms. */
  lemma DecimalInjective(m: nat, n: nat)
    requires Decimal(m) == Decimal(n)
    ensures m == n
  {
    DecimalDigits(m);
    DecimalDigits(n);
  }

  /**
   * A decimal number followed by `/` can be read back from the front of the
   * string: the first `/` ends it.
   */
  lemma DecimalThenSlash(m: nat, x: string, n: nat, y: string)
    requires Decimal(m) + "/" + x == Decimal(n) + "/" + y
    ensures m == n && x == y
  {
    var a, b := Decimal(m), Decimal(n);
    var s := a + "/" + x;
    DecimalDigits(m);
    DecimalDigits(n);
    assert s[|a|] == '/' && s[|b|] == '/';
    assert a == s[..|a|] == b;
    DecimalInjective(m, n);
    assert x == s[|a| + 1..] == y;
  }
}

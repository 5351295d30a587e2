/** The string operations of Python's `str` that the core relies on,
    restricted to ASCII where Python's behaviour depends on Unicode tables:
    `lower`, `title`, `replace` of one character, `strip`, `split` and
    `join` on a one-character separator, `startswith`/`endswith`, and
    `str()` of an integer. */
module Text {

  // ---------------------------------------------------------------------
  // Characters

  predicate IsAsciiUpper(c: char) { 'A' <= c <= 'Z' }

  predicate IsAsciiLower(c: char) { 'a' <= c <= 'z' }

  predicate IsAsciiLetter(c: char) { IsAsciiUpper(c) || IsAsciiLower(c) }

  function LowerChar(c: char): (r: char)
    ensures !IsAsciiUpper(r)
    ensures IsAsciiLetter(r) == IsAsciiLetter(c)
    ensures !IsAsciiUpper(c) ==> r == c
  {
    if IsAsciiUpper(c) then (c as int + 32) as char else c
  }

  function UpperChar(c: char): (r: char)
    ensures !IsAsciiLower(r)
    ensures IsAsciiLetter(r) == IsAsciiLetter(c)
    ensures !IsAsciiLower(c) ==> r == c
  {
    if IsAsciiLower(c) then (c as int - 32) as char else c
  }

  /** The characters Python's `str.strip()` removes, restricted to ASCII. */
  predicate IsSpace(c: char) {
    c == ' ' || c == '\t' || c == '\n' || c == '\r' || c == '\U{000B}' || c == '\U{000C}'
    || ('\U{001C}' <= c <= '\U{001F}')
  }

  // ---------------------------------------------------------------------
  // Whole-string maps

  /** `s.lower()` on ASCII; other characters are kept. */
  function Lower(s: string): (r: string)
    ensures |r| == |s|
    ensures forall i :: 0 <= i < |s| ==> r[i] == LowerChar(s[i])
  {
    seq(|s|, i requires 0 <= i < |s| => LowerChar(s[i]))
  }

  /** `s.replace(from, to)` for one-character `from` and `to`. */
  function ReplaceChar(s: string, from: char, to: char): (r: string)
    ensures |r| == |s|
    ensures forall i :: 0 <= i < |s| ==> r[i] == if s[i] == from then to else s[i]
  {
    seq(|s|, i requires 0 <= i < |s| => if s[i] == from then to else s[i])
  }

  /** `s.title()` on ASCII: a letter is upper-cased when it starts a run of
      letters and lower-cased otherwise; every other character is kept. */
  function TitleCase(s: string): (r: string)
    ensures |r| == |s|
    ensures forall i :: 0 <= i < |s| ==> IsAsciiLetter(r[i]) == IsAsciiLetter(s[i])
    ensures forall i :: 0 <= i < |s| && IsAsciiLetter(s[i]) ==>
      (IsAsciiUpper(r[i]) <==> (i == 0 || !IsAsciiLetter(s[i - 1])))
    ensures forall i :: 0 <= i < |s| && !IsAsciiLetter(s[i]) ==> r[i] == s[i]
  {
    var r := seq(|s|, i requires 0 <= i < |s| => TitleCharAt(s, i));
    assert forall i :: 0 <= i < |s| ==> r[i] == TitleCharAt(s, i);
    r
  }

  function TitleCharAt(s: string, i: nat): (c: char)
    requires i < |s|
    ensures IsAsciiLetter(c) == IsAsciiLetter(s[i])
    ensures IsAsciiLetter(s[i]) ==> (IsAsciiUpper(c) <==> (i == 0 || !IsAsciiLetter(s[i - 1])))
    ensures !IsAsciiLetter(s[i]) ==> c == s[i]
  {
    if i == 0 || !IsAsciiLetter(s[i - 1]) then UpperChar(s[i]) else LowerChar(s[i])
  }

  /** A list of strings without repetitions (the keys of a dict, say). */
  predicate Distinct(s: seq<string>) {
    forall i, j :: 0 <= i < j < |s| ==> s[i] != s[j]
  }

  // ---------------------------------------------------------------------
  // Prefixes, suffixes, strip

  /** No later position of `ids` holds the same string as position `j`. */
  predicate LastOccurrence(ids: seq<string>, j: nat)
    requires j < |ids|
  {
    forall l :: j < l < |ids| ==> ids[l] != ids[j]
  }

  predicate StartsWith(s: string, prefix: string) {
    |prefix| <= |s| && s[..|prefix|] == prefix
  }

  predicate EndsWith(s: string, suffix: string) {
    |suffix| <= |s| && s[|s| - |suffix|..] == suffix
  }

  /** A text that starts with `p` starts with `p + q` exactly when what
      follows `p` starts with `q`. */
  lemma StartsWithConcat(s: string, p: string, q: string)
    requires StartsWith(s, p)
    ensures StartsWith(s, p + q) <==> StartsWith(s[|p|..], q)
  {
    if |p| + |q| <= |s| {
      var x := s[|p|..][..|q|];
      assert s[..|p| + |q|] == p + x;
      if x != q {
        var i :| 0 <= i < |q| && x[i] != q[i];
        assert (p + x)[|p| + i] != (p + q)[|p| + i];
      }
    }
  }

  /** A text that ends with `q` ends with `p + q` exactly when what
      precedes `q` ends with `p`. */
  /** A text ending in `p + q` ends in `q`. */
  lemma EndsWithLonger(s: string, p: string, q: string)
    ensures EndsWith(s, p + q) ==> EndsWith(s, q)
  {
    if EndsWith(s, p + q) {
      assert s[|s| - |q|..] == s[|s| - |p + q|..][|p|..];
      assert (p + q)[|p|..] == q;
    }
  }

  lemma EndsWithConcat(s: string, p: string, q: string)
    requires EndsWith(s, q)
    ensures EndsWith(s, p + q) <==> EndsWith(s[..|s| - |q|], p)
  {
    if |p| + |q| <= |s| {
      var n := |s| - |q|;
      var x := s[..n][n - |p|..];
      assert s[|s| - |p| - |q|..] == x + q;
      if x != p {
        var i :| 0 <= i < |p| && x[i] != p[i];
        assert (x + q)[i] != (p + q)[i];
      }
    }
  }

  predicate AllSpace(s: string) {
    forall i :: 0 <= i < |s| ==> IsSpace(s[i])
  }

  function StripLeft(s: string): (r: string)
    ensures |r| <= |s| && r == s[|s| - |r|..]
    ensures AllSpace(s[..|s| - |r|])
    ensures r == [] || !IsSpace(r[0])
    decreases |s|
  {
    if |s| > 0 && IsSpace(s[0]) then
      var r := StripLeft(s[1..]);
      assert s[..|s| - |r|] == [s[0]] + s[1..][..|s| - 1 - |r|];
      r
    else s
  }

  function StripRight(s: string): (r: string)
    ensures |r| <= |s| && r == s[..|r|]
    ensures AllSpace(s[|r|..])
    ensures r == [] || !IsSpace(r[|r| - 1])
    decreases |s|
  {
    if |s| > 0 && IsSpace(s[|s| - 1]) then
      var n := |s| - 1;
      var r := StripRight(s[..n]);
      assert s[|r|..] == s[..n][|r|..] + [s[n]];
      r
    else s
  }

  /** `r` is the slice of `s` at `i`, with only whitespace around it. */
  predicate StrippedAt(s: string, r: string, i: int) {
    && 0 <= i <= |s| - |r|
    && r == s[i..i + |r|]
    && AllSpace(s[..i])
    && AllSpace(s[i + |r|..])
  }

  /** `s.strip()`: the longest slice of `s` that neither starts nor ends with
      whitespace, obtained by removing whitespace only. */
  function Strip(s: string): (r: string)
    ensures exists i :: StrippedAt(s, r, i)
    ensures r == [] || (!IsSpace(r[0]) && !IsSpace(r[|r| - 1]))
  {
    StripWitness(s);
    StripRight(StripLeft(s))
  }

  lemma StripWitness(s: string)
    ensures StrippedAt(s, StripRight(StripLeft(s)), |s| - |StripLeft(s)|)
  {
    var l := StripLeft(s);
    StripsCompose(s, l, StripRight(l), |s| - |l|);
  }

  /** Whitespace removed on the left, then on the right, leaves a slice. */
  lemma StripsCompose(s: string, l: string, r: string, i: nat)
    requires i <= |s| && l == s[i..] && AllSpace(s[..i])
    requires |r| <= |l| && r == l[..|r|] && AllSpace(l[|r|..])
    ensures StrippedAt(s, r, i)
  {
    assert l[|r|..] == s[i + |r|..];
  }

  /** Surrounding a text that has no outer whitespace with whitespace only
      is undone by `Strip`. */
  lemma {:induction false} StripPadded(left: string, t: string, right: string)
    requires AllSpace(left) && AllSpace(right)
    requires t == [] || (!IsSpace(t[0]) && !IsSpace(t[|t| - 1]))
    ensures Strip(left + t + right) == t
  {
    if t == [] {
      assert left + t + right == (left + right) + [];
      StripLeftPadded(left + right, []);
    } else {
      StripLeftPadded(left, t + right);
      assert StripLeft(left + t + right) == t + right by {
        assert left + t + right == left + (t + right);
      }
      StripRightPadded(t, right);
    }
  }

  lemma {:induction false} StripLeftPadded(left: string, t: string)
    requires AllSpace(left)
    requires t == [] || !IsSpace(t[0])
    ensures StripLeft(left + t) == t
    decreases |left|
  {
    if |left| > 0 {
      assert (left + t)[1..] == left[1..] + t;
      StripLeftPadded(left[1..], t);
    } else {
      assert left + t == t;
    }
  }

  lemma {:induction false} StripRightPadded(t: string, right: string)
    requires AllSpace(right)
    requires t == [] || !IsSpace(t[|t| - 1])
    ensures StripRight(t + right) == t
    decreases |right|
  {
    if |right| > 0 {
      var n := |right|;
      assert (t + right)[..|t + right| - 1] == t + right[..n - 1];
      StripRightPadded(t, right[..n - 1]);
    } else {
      assert t + right == t;
    }
  }

  // ---------------------------------------------------------------------
  // split and join on one separator character

  /** `s.split(sep)` for a one-character separator: the pieces between
      separators, so never an empty list (`"".split("/") == [""]`). */
  function Split(s: string, sep: char): (parts: seq<string>)
    ensures |parts| >= 1
    decreases |s|
  {
    if |s| == 0 then [""]
    else
      var init := Split(s[..|s| - 1], sep);
      var c := s[|s| - 1];
      if c == sep then init + [""]
      else init[..|init| - 1] + [init[|init| - 1] + [c]]
  }

  /** `sep.join(xs)`. */
  function Join(sep: char, xs: seq<string>): (r: string)
    decreases |xs|
  {
    if |xs| == 0 then ""
    else if |xs| == 1 then xs[0]
    else Join(sep, xs[..|xs| - 1]) + [sep] + xs[|xs| - 1]
  }

  function Last(parts: seq<string>): string
    requires |parts| >= 1
  {
    parts[|parts| - 1]
  }

  /** `piece` is the longest suffix of `s` free of `sep`: it holds no
      separator, it ends `s`, and it is either all of `s` or preceded by a
      separator. */
  predicate IsLastPiece(piece: string, s: string, sep: char) {
    && sep !in piece
    && EndsWith(s, piece)
    && (|piece| == |s| || s[|s| - |piece| - 1] == sep)
  }

  /** At most one string is the last piece of `s`. */
  lemma LastPieceUnique(a: string, b: string, s: string, sep: char)
    requires IsLastPiece(a, s, sep) && IsLastPiece(b, s, sep)
    ensures a == b
  {
  }

  /** The last piece of a split is the last piece of the string. */
  lemma {:induction false} LastPieceOfSplit(s: string, sep: char)
    ensures IsLastPiece(Last(Split(s, sep)), s, sep)
    decreases |s|
  {
    if |s| > 0 {
      var init := s[..|s| - 1];
      var c := s[|s| - 1];
      assert s == init + [c];
      if c == sep {
        LastPieceAfterSeparator(init, sep);
      } else {
        LastPieceOfSplit(init, sep);
        LastPieceStep(init, c, sep);
      }
    }
  }

  /** A trailing separator leaves an empty last piece. */
  lemma LastPieceAfterSeparator(init: string, sep: char)
    ensures IsLastPiece(Last(Split(init + [sep], sep)), init + [sep], sep)
  {
    var s := init + [sep];
    assert s[..|s| - 1] == init;
    assert Last(Split(s, sep)) == "";
    assert s[|s|..] == "";
  }

  /** A character other than the separator keeps the last piece the last piece. */
  lemma LastPieceStep(init: string, c: char, sep: char)
    requires c != sep
    requires IsLastPiece(Last(Split(init, sep)), init, sep)
    ensures IsLastPiece(Last(Split(init + [c], sep)), init + [c], sep)
  {
    var p := Split(init, sep);
    SplitSnocOther(init, c, sep);
    assert Last(Split(init + [c], sep)) == Last(p) + [c];
    LastPieceSnoc(Last(p), init, c, sep);
  }

  /** A character other than the separator extends the last piece. */
  lemma LastPieceSnoc(prev: string, init: string, c: char, sep: char)
    requires IsLastPiece(prev, init, sep) && c != sep
    ensures IsLastPiece(prev + [c], init + [c], sep)
  {
    var s := init + [c];
    var k := |init| - |prev|;
    assert init[k..] == prev;
    assert s[k..] == prev + [c];
    assert k > 0 ==> s[k - 1] == init[k - 1];
  }

  /** Joining the pieces of a split gives back the string. */
  lemma {:induction false} JoinSplit(s: string, sep: char)
    ensures Join(sep, Split(s, sep)) == s
    decreases |s|
  {
    if |s| > 0 {
      var init := s[..|s| - 1];
      var c := s[|s| - 1];
      var parts := Split(init, sep);
      JoinSplit(init, sep);
      assert s == init + [c];
      if c == sep {
        JoinSnoc(parts, "", sep);
      } else {
        JoinExtendLast(parts, c, sep);
      }
    }
  }

  /** Joining one more piece adds a separator and the piece. */
  lemma JoinSnoc(xs: seq<string>, x: string, sep: char)
    requires |xs| >= 1
    ensures Join(sep, xs + [x]) == Join(sep, xs) + [sep] + x
  {
    assert (xs + [x])[..|xs|] == xs;
  }

  /** Extending the last piece extends the join. */
  lemma JoinExtendLast(parts: seq<string>, c: char, sep: char)
    requires |parts| >= 1
    ensures Join(sep, parts[..|parts| - 1] + [parts[|parts| - 1] + [c]]) == Join(sep, parts) + [c]
  {
    var n := |parts|;
    var last := parts[n - 1];
    var q := parts[..n - 1] + [last + [c]];
    if n > 1 {
      assert q[..n - 1] == parts[..n - 1];
      assert Join(sep, q) == Join(sep, parts[..n - 1]) + [sep] + (last + [c]);
      assert Join(sep, parts) == Join(sep, parts[..n - 1]) + [sep] + last;
    }
  }

  /** Appending separator-free text extends the last piece of a split. */
  lemma {:induction false} SplitAppend(a: string, b: string, sep: char)
    requires sep !in b
    ensures var p := Split(a, sep);
      Split(a + b, sep) == p[..|p| - 1] + [Last(p) + b]
    decreases |b|
  {
    if |b| == 0 {
      SplitAppendNothing(a, b, sep);
    } else {
      var b' := b[..|b| - 1];
      var c := b[|b| - 1];
      assert b == b' + [c];
      SplitAppend(a, b', sep);
      SplitAppendStep(a, b', c, sep);
    }
  }

  lemma SplitAppendNothing(a: string, b: string, sep: char)
    requires b == []
    ensures var p := Split(a, sep);
      Split(a + b, sep) == p[..|p| - 1] + [Last(p) + b]
  {
    var p := Split(a, sep);
    assert a + b == a;
    assert Last(p) + b == Last(p);
    assert p == p[..|p| - 1] + [Last(p)];
  }

  /** One more separator-free character extends the last piece again. */
  lemma SplitAppendStep(a: string, b: string, c: char, sep: char)
    requires c != sep
    requires var p := Split(a, sep);
      Split(a + b, sep) == p[..|p| - 1] + [Last(p) + b]
    ensures var p := Split(a, sep);
      Split(a + (b + [c]), sep) == p[..|p| - 1] + [Last(p) + (b + [c])]
  {
    var p := Split(a, sep);
    var s := a + b;
    AppendSnoc(a, b, c);
    SplitSnocOther(s, c, sep);
    SnocCompose(p[..|p| - 1], Last(p) + b, Split(s, sep), c, Split(s + [c], sep));
    AppendSnoc(Last(p), b, c);
  }

  /** `(x + y) + [z] == x + (y + [z])` */
  lemma AppendSnoc<T>(x: seq<T>, y: seq<T>, z: T)
    ensures (x + y) + [z] == x + (y + [z])
  {
  }

  /** Extending the last piece of `xs + [y]` by `c` gives `xs + [y + [c]]`. */
  lemma SnocCompose(xs: seq<string>, y: string, q: seq<string>, c: char, z: seq<string>)
    requires q == xs + [y]
    requires z == q[..|q| - 1] + [Last(q) + [c]]
    ensures z == xs + [y + [c]]
  {
    assert q[..|q| - 1] == xs;
  }

  /** A character other than the separator extends the last piece. */
  lemma SplitSnocOther(s: string, c: char, sep: char)
    requires c != sep
    ensures var p := Split(s, sep);
      Split(s + [c], sep) == p[..|p| - 1] + [Last(p) + [c]]
  {
    assert (s + [c])[..|s|] == s;
  }

  /** A separator followed by separator-free text adds one piece. */
  lemma {:induction false} SplitAfterSeparator(front: string, x: string, sep: char)
    requires sep !in x
    ensures Split(front + [sep] + x, sep) == Split(front, sep) + [x]
  {
    var withSep := front + [sep];
    assert withSep[..|withSep| - 1] == front;
    var p := Split(front, sep) + [""];
    assert Split(withSep, sep) == p;
    SplitAppend(withSep, x, sep);
    assert p[..|p| - 1] == Split(front, sep);
    assert Last(p) + x == x;
  }

  /** Splitting a join gives back the pieces when none holds the separator. */
  lemma {:induction false} SplitJoin(xs: seq<string>, sep: char)
    requires |xs| >= 1
    requires forall i :: 0 <= i < |xs| ==> sep !in xs[i]
    ensures Split(Join(sep, xs), sep) == xs
    decreases |xs|
  {
    var n := |xs|;
    if n == 1 {
      SplitAppend("", xs[0], sep);
      assert "" + xs[0] == xs[0];
    } else {
      SplitJoin(xs[..n - 1], sep);
      SplitJoinStep(xs, sep);
    }
  }

  /** Joining one more separator-free piece splits into one more piece. */
  lemma SplitJoinStep(xs: seq<string>, sep: char)
    requires |xs| >= 2 && sep !in xs[|xs| - 1]
    requires Split(Join(sep, xs[..|xs| - 1]), sep) == xs[..|xs| - 1]
    ensures Split(Join(sep, xs), sep) == xs
  {
    var front := xs[..|xs| - 1];
    SplitAfterSeparator(Join(sep, front), xs[|xs| - 1], sep);
    FrontAndLast(xs);
  }

  /** `s[..len(s)]` is `s`. */
  lemma TakeAll<T>(s: seq<T>)
    ensures s[..|s|] == s
  {
  }

  /** `(x + y) + z == x + (y + z)` */
  lemma AppendAssoc<T>(x: seq<T>, y: seq<T>, z: seq<T>)
    ensures (x + y) + z == x + (y + z)
  {
  }

  /** Appending an empty sequence changes nothing. */
  lemma AppendNothing<T>(xs: seq<T>, ys: seq<T>)
    requires |ys| == 0
    ensures xs + ys == xs
  {
  }

  /** The front of `xs + [y]` is `xs`. */
  lemma FrontOfSnoc<T>(xs: seq<T>, y: T)
    ensures (xs + [y])[..|xs|] == xs
  {
  }

  /** A non-empty sequence is its front followed by its last element. */
  lemma FrontAndLast<T>(xs: seq<T>)
    requires |xs| > 0
    ensures xs == xs[..|xs| - 1] + [xs[|xs| - 1]]
  {
  }

  // ---------------------------------------------------------------------
  // str() of integers

  function DigitChar(d: nat): (c: char)
    requires d < 10
    ensures '0' <= c <= '9' && c as int - '0' as int == d
  {
    ('0' as int + d) as char
  }

  predicate AllDigits(s: string) {
    forall i :: 0 <= i < |s| ==> '0' <= s[i] <= '9'
  }

  /** `str(n)` for a non-negative integer. */
  function DecimalString(n: nat): (r: string)
    ensures |r| >= 1 && AllDigits(r)
    ensures |r| > 1 ==> r[0] != '0'
    decreases n
  {
    if n < 10 then [DigitChar(n)] else DecimalString(n / 10) + [DigitChar(n % 10)]
  }

  /** `str(i)` for any integer. */
  function IntString(i: int): (r: string)
    ensures |r| >= 1
    ensures i >= 0 ==> r == DecimalString(i)
    ensures i < 0 ==> r[0] == '-' && r[1..] == DecimalString(-i)
  {
    if i < 0 then "-" + DecimalString(-i) else DecimalString(i)
  }
}

/** String helpers shared by the model: the order JavaScript's default
    `Array.prototype.sort` uses on strings, `join`, `split` on one
    separator character, `trim`, and decimal rendering of a number. */
module Text {

  /** `a` sorts no later than `b` under the default sort comparison:
      lexicographic on characters, a proper prefix first. */
  predicate LessEq(a: string, b: string)
  {
    if a == [] then true
    else if b == [] then false
    else if a[0] != b[0] then a[0] < b[0]
    else LessEq(a[1..], b[1..])
  }

  lemma {:induction false} LessEqTotal(a: string, b: string)
    ensures LessEq(a, b) || LessEq(b, a)
  {
    if a != [] && b != [] && a[0] == b[0] {
      LessEqTotal(a[1..], b[1..]);
    }
  }

  lemma {:induction false} LessEqAntisymmetric(a: string, b: string)
    requires LessEq(a, b) && LessEq(b, a)
    ensures a == b
  {
    if a != [] && b != [] {
      LessEqAntisymmetric(a[1..], b[1..]);
      assert a == [a[0]] + a[1..];
      assert b == [b[0]] + b[1..];
    }
  }

  /** `[a, b].sort()`: the two strings in ascending order. The
      insertion step moves `b` in front of `a` only when `b` sorts
      strictly before `a`. */
  function Sort2(a: string, b: string): (r: seq<string>)
    ensures |r| == 2 && LessEq(r[0], r[1])
    ensures r == [a, b] || r == [b, a]
  {
    LessEqTotal(a, b);
    if LessEq(a, b) then [a, b] else [b, a]
  }

  /** The sorted pair does not depend on the order of the arguments. */
  lemma Sort2Symmetric(a: string, b: string)
    ensures Sort2(a, b) == Sort2(b, a)
  {
    LessEqTotal(a, b);
    if LessEq(a, b) && LessEq(b, a) {
      LessEqAntisymmetric(a, b);
    }
  }

  /** `xs.join(sep)`. */
  function Join(xs: seq<string>, sep: string): string
  {
    if |xs| == 0 then ""
    else if |xs| == 1 then xs[0]
    else xs[0] + sep + Join(xs[1..], sep)
  }

  /** `s.split(sep)` for a one-character separator: the maximal pieces
      between separators, always at least one (`"".split(",")` is `[""]`). */
  function Split(s: string, sep: char): (r: seq<string>)
    ensures |r| >= 1
    ensures forall i :: 0 <= i < |r| ==> sep !in r[i]
  {
    if s == [] then [""]
    else
      var rest := Split(s[1..], sep);
      if s[0] == sep then [""] + rest
      else [[s[0]] + rest[0]] + rest[1..]
  }

  /** A string without the separator splits into itself alone. */
  lemma {:induction false} SplitNoSeparator(s: string, sep: char)
    requires sep !in s
    ensures Split(s, sep) == [s]
  {
    if s != [] {
      SplitNoSeparator(s[1..], sep);
      assert s == [s[0]] + s[1..];
    }
  }

  /** `Split` unfolded once at a leading separator. */
  lemma SplitUnfoldSep(s: string, sep: char)
    requires s != [] && s[0] == sep
    ensures Split(s, sep) == [""] + Split(s[1..], sep)
  {
  }

  /** `Split` unfolded once at a leading character that is not a separator. */
  lemma SplitUnfoldChar(s: string, sep: char)
    requires s != [] && s[0] != sep
    ensures Split(s, sep) == [[s[0]] + Split(s[1..], sep)[0]] + Split(s[1..], sep)[1..]
  {
  }

  /** The step of `SplitAppend` for a first character that is a separator. */
  lemma SplitAppendAtSep(a: string, sep: char, b: string)
    requires a != [] && a[0] == sep
    requires Split(a[1..] + [sep] + b, sep) == Split(a[1..], sep) + Split(b, sep)
    ensures Split(a + [sep] + b, sep) == Split(a, sep) + Split(b, sep)
  {
    var s := a + [sep] + b;
    assert s[0] == sep && s[1..] == a[1..] + [sep] + b;
    SplitUnfoldSep(s, sep);
    SplitUnfoldSep(a, sep);
    PrependPiece("", Split(a[1..], sep), Split(b, sep));
  }

  /** Putting a piece in front commutes with appending more pieces. */
  lemma PrependPiece(x: string, pt: seq<string>, pb: seq<string>)
    ensures [x] + (pt + pb) == ([x] + pt) + pb
  {
  }

  /** Prepending a character to the first piece commutes with appending
      more pieces. */
  lemma PrependToFirst(c: char, pt: seq<string>, pb: seq<string>)
    requires |pt| >= 1
    ensures [[c] + (pt + pb)[0]] + (pt + pb)[1..] == ([[c] + pt[0]] + pt[1..]) + pb
  {
    assert (pt + pb)[0] == pt[0];
    assert (pt + pb)[1..] == pt[1..] + pb;
  }

  /** The step of `SplitAppend` for a first character that joins the
      first piece. */
  lemma SplitAppendInPiece(a: string, sep: char, b: string)
    requires a != [] && a[0] != sep
    requires Split(a[1..] + [sep] + b, sep) == Split(a[1..], sep) + Split(b, sep)
    ensures Split(a + [sep] + b, sep) == Split(a, sep) + Split(b, sep)
  {
    var s := a + [sep] + b;
    assert s[0] == a[0] && s[1..] == a[1..] + [sep] + b;
    SplitUnfoldChar(s, sep);
    SplitUnfoldChar(a, sep);
    PrependToFirst(a[0], Split(a[1..], sep), Split(b, sep));
  }

  /** Splitting at one separator splits the two sides independently:
      the pieces of `a + sep + b` are those of `a` followed by those of `b`. */
  lemma {:induction false} SplitAppend(a: string, sep: char, b: string)
    ensures Split(a + [sep] + b, sep) == Split(a, sep) + Split(b, sep)
  {
    if a == [] {
      var s := a + [sep] + b;
      assert s[0] == sep && s[1..] == b;
      SplitUnfoldSep(s, sep);
    } else {
      SplitAppend(a[1..], sep, b);
      if a[0] == sep {
        SplitAppendAtSep(a, sep, b);
      } else {
        SplitAppendInPiece(a, sep, b);
      }
    }
  }

  /** The characters `String.prototype.trim` removes: white space and
      line terminators. */
  predicate IsSpace(c: char)
  {
    c == ' ' || c == '\t' || c == '\n' || c == '\r' || c == '\U{000B}' || c == '\U{000C}'
    || c == '\U{00A0}' || c == '\U{1680}' || ('\U{2000}' <= c <= '\U{200A}')
    || c == '\U{2028}' || c == '\U{2029}' || c == '\U{202F}' || c == '\U{205F}'
    || c == '\U{3000}' || c == '\U{FEFF}'
  }

  /** Neither end of `s` is white space. */
  predicate Trimmed(s: string)
  {
    s == [] || (!IsSpace(s[0]) && !IsSpace(s[|s| - 1]))
  }

  /** `s` without its leading white space. */
  function TrimStart(s: string): (r: string)
    ensures r == [] || !IsSpace(r[0])
    ensures |r| <= |s|
    ensures s != [] && !IsSpace(s[0]) ==> r == s
  {
    if s != [] && IsSpace(s[0]) then TrimStart(s[1..]) else s
  }

  /** `s` without its trailing white space. */
  function TrimEnd(s: string): (r: string)
    ensures r == [] || !IsSpace(r[|r| - 1])
    ensures |r| <= |s| && r == s[..|r|]
    ensures s != [] && !IsSpace(s[|s| - 1]) ==> r == s
  {
    if s != [] && IsSpace(s[|s| - 1]) then TrimEnd(s[..|s| - 1]) else s
  }

  /** Whether every character of `s` is white space. */
  predicate AllSpace(s: string)
  {
    forall c :: c in s ==> IsSpace(c)
  }

  /** Whether `s` is `r` with only white space around it. */
  predicate SpaceAround(s: string, pre: string, r: string, post: string)
  {
    s == pre + r + post && AllSpace(pre) && AllSpace(post)
  }

  /** What `TrimStart` removes is white space in front. */
  lemma {:induction false} TrimStartRemovesSpace(s: string)
    ensures var pre := s[..|s| - |TrimStart(s)|];
      s == pre + TrimStart(s) && AllSpace(pre)
  {
    if s != [] && IsSpace(s[0]) {
      TrimStartRemovesSpace(s[1..]);
      var r := TrimStart(s[1..]);
      var pre' := s[1..][..|s[1..]| - |r|];
      assert s[..|s| - |r|] == [s[0]] + pre';
    } else {
      assert s[..0] == [];
    }
  }

  /** What `TrimEnd` removes is white space behind. */
  lemma {:induction false} TrimEndRemovesSpace(s: string)
    ensures var post := s[|TrimEnd(s)|..];
      s == TrimEnd(s) + post && AllSpace(post)
  {
    if s != [] && IsSpace(s[|s| - 1]) {
      var s' := s[..|s| - 1];
      TrimEndRemovesSpace(s');
      var r := TrimEnd(s');
      assert TrimEnd(s) == r;
      var post := s[|r|..];
      assert post == s'[|r|..] + [s[|s| - 1]];
      assert s == s' + [s[|s| - 1]];
      assert s == r + post;
    } else {
      assert s[|s|..] == [];
    }
  }

  /** `s.trim()`: `s` with white space removed from both ends, and only
      there: `s` is the result with nothing but white space around it. */
  function Trim(s: string): (r: string)
    ensures Trimmed(r)
    ensures Trimmed(s) ==> r == s
    ensures forall c :: c in r ==> c in s
    ensures exists pre, post :: SpaceAround(s, pre, r, post)
  {
    var t := TrimStart(s);
    var r := TrimEnd(t);
    assert Trimmed(r) by {
      TrimEndsTrimmed(t, r);
    }
    assert Trimmed(s) ==> r == s by {
      if Trimmed(s) {
        assert t == s;
      }
    }
    var pre, post := s[..|s| - |t|], t[|r|..];
    assert SpaceAround(s, pre, r, post) && forall c :: c in r ==> c in s by {
      TrimStartRemovesSpace(s);
      TrimEndRemovesSpace(t);
      SpaceAroundCompose(s, pre, t, r, post);
    }
    r
  }

  /** Trimming the end of a string whose start is trimmed leaves both
      ends trimmed. */
  lemma TrimEndsTrimmed(t: string, r: string)
    requires t == [] || !IsSpace(t[0])
    requires r == TrimEnd(t)
    ensures Trimmed(r)
  {
    assert r != [] ==> r[0] == t[0];
  }

  /** White space in front of `t`, and `t` being `r` with white space
      behind, leave `r` with only white space around it. */
  lemma SpaceAroundCompose(s: string, pre: string, t: string, r: string, post: string)
    requires s == pre + t && AllSpace(pre)
    requires t == r + post && AllSpace(post)
    ensures SpaceAround(s, pre, r, post)
    ensures forall c :: c in r ==> c in s
  {
    assert pre + (r + post) == pre + r + post;
  }

  /** A space in front changes nothing once trimmed. */
  lemma TrimLeadingSpace(s: string)
    ensures Trim(" " + s) == Trim(s)
  {
    assert (" " + s)[1..] == s;
    assert TrimStart(" " + s) == TrimStart(s);
  }

  /** The number a run of decimal digits denotes. */
  function DigitsValue(r: string): int
  {
    if r == [] then 0 else DigitsValue(r[..|r| - 1]) * 10 + (r[|r| - 1] as int - '0' as int)
  }

  /** The decimal digits of `n`, as `String(n)` renders a non-negative
      integer: they denote `n`, with no leading zero. */
  function DecimalString(n: nat): (r: string)
    ensures |r| >= 1
    ensures forall i :: 0 <= i < |r| ==> '0' <= r[i] <= '9'
    ensures DigitsValue(r) == n
    ensures |r| > 1 ==> r[0] != '0'
  {
    var d := [(n % 10) as char + '0'];
    if n < 10 then
      assert d[..0] == [];
      d
    else
      var h := DecimalString(n / 10);
      assert (h + d)[..|h|] == h;
      h + d
  }
}

/**
  Character classes and string normalisation as the services use them:
  Python's whitespace (`str.isspace()`, the `\s` class of a `str` pattern),
  `str.strip()`, `str.upper()` and the case folding of `re.IGNORECASE`.
  Upper-casing and case folding are modelled on ASCII letters only.
 */
module Text {

  /** Python's `str.isspace()`, which is also what `\s` matches in a `str` pattern. */
  predicate IsSpace(c: char)
  {
    || c == ' ' || ('\t' <= c <= '\r') || ('\U{1C}' <= c <= '\U{1F}')
    || c == '\U{85}' || c == '\U{A0}' || c == '\U{1680}' || ('\U{2000}' <= c <= '\U{200A}')
    || c == '\U{2028}' || c == '\U{2029}' || c == '\U{202F}' || c == '\U{205F}' || c == '\U{3000}'
  }

  /** `\d`, on ASCII digits. */
  predicate IsDigit(c: char)
  {
    '0' <= c <= '9'
  }

  /** `[A-Z]` under `re.IGNORECASE`. */
  predicate IsLetter(c: char)
  {
    'a' <= c <= 'z' || 'A' <= c <= 'Z'
  }

  function ToUpper(c: char): char
  {
    if 'a' <= c <= 'z' then (c as int - 32) as char else c
  }

  function ToLower(c: char): char
  {
    if 'A' <= c <= 'Z' then (c as int + 32) as char else c
  }

  /** Two characters are equal for the pattern; `fold` is `re.IGNORECASE`. */
  predicate CharMatch(c: char, p: char, fold: bool)
  {
    if fold then ToLower(c) == ToLower(p) else c == p
  }

  predicate AllSpace(s: string)
  {
    forall i :: 0 <= i < |s| ==> IsSpace(s[i])
  }

  /** No whitespace at either end: what `str.strip()` returns. */
  predicate IsStripped(s: string)
  {
    s == [] || (!IsSpace(s[0]) && !IsSpace(s[|s| - 1]))
  }

  /** `lit` occurs in `s` at position `i` (compared with `CharMatch`). */
  predicate MatchesAt(s: string, i: nat, lit: string, fold: bool)
    decreases |lit|
  {
    if |lit| == 0 then i <= |s|
    else i < |s| && CharMatch(s[i], lit[0], fold) && MatchesAt(s, i + 1, lit[1..], fold)
  }

  /** `lit in s` (case-sensitive) or `re.search(lit, s, re.IGNORECASE)` for a literal pattern. */
  predicate Occurs(s: string, lit: string, fold: bool)
  {
    exists i: nat | i <= |s| :: MatchesAt(s, i, lit, fold)
  }

  /** `str.upper()` on ASCII letters. */
  function Upper(s: string): (r: string)
    ensures |r| == |s|
    ensures forall i :: 0 <= i < |s| ==> r[i] == ToUpper(s[i])
  {
    seq(|s|, i requires 0 <= i < |s| => ToUpper(s[i]))
  }

  /** `str.lstrip()`: the suffix left after the maximal leading whitespace. */
  function TrimStart(s: string): (r: string)
    ensures |r| <= |s| && r == s[|s| - |r|..]
    ensures AllSpace(s[..|s| - |r|])
    ensures r != [] ==> !IsSpace(r[0])
    decreases |s|
  {
    if |s| > 0 && IsSpace(s[0]) then
      var r := TrimStart(s[1..]);
      TrimStartStep(s, r);
      r
    else s
  }

  /** Dropping one more leading space keeps the suffix and the all-space prefix. */
  lemma {:induction false} TrimStartStep(s: string, r: string)
    requires |s| > 0 && IsSpace(s[0]) && |r| < |s|
    requires r == s[1..][|s| - 1 - |r|..] && AllSpace(s[1..][..|s| - 1 - |r|])
    ensures r == s[|s| - |r|..] && AllSpace(s[..|s| - |r|])
  {
    var n := |s| - |r|;
    assert s[1..][n - 1..] == s[n..];
    forall i | 0 <= i < n ensures IsSpace(s[..n][i]) {
      if i > 0 {
        assert s[..n][i] == s[1..][..n - 1][i - 1];
      }
    }
  }

  /** `str.rstrip()`: the prefix left after the maximal trailing whitespace. */
  function TrimEnd(s: string): (r: string)
    ensures |r| <= |s| && r == s[..|r|]
    ensures AllSpace(s[|r|..])
    ensures r != [] ==> !IsSpace(r[|r| - 1])
    decreases |s|
  {
    if |s| > 0 && IsSpace(s[|s| - 1]) then
      var r := TrimEnd(s[..|s| - 1]);
      TrimEndStep(s, r);
      r
    else s
  }

  /** Dropping one more trailing space keeps the prefix and the all-space suffix. */
  lemma {:induction false} TrimEndStep(s: string, r: string)
    requires |s| > 0 && IsSpace(s[|s| - 1]) && |r| < |s|
    requires r == s[..|s| - 1][..|r|] && AllSpace(s[..|s| - 1][|r|..])
    ensures r == s[..|r|] && AllSpace(s[|r|..])
  {
    var n := |r|;
    assert s[..|s| - 1][..n] == s[..n];
    forall i | 0 <= i < |s| - n ensures IsSpace(s[n..][i]) {
      if i < |s| - n - 1 {
        assert s[n..][i] == s[..|s| - 1][n..][i];
      }
    }
  }

  /** `str.strip()`: `s` with its whitespace margins removed; `StripMargins` says what it keeps. */
  function Strip(s: string): (r: string)
    ensures IsStripped(r) && |r| <= |s|
  {
    var t := TrimStart(s);
    var r := TrimEnd(t);
    assert r != [] ==> r[0] == t[0];
    r
  }

  /** `Strip` removes whitespace margins and nothing else: the result is a middle slice with only whitespace around it. */
  lemma {:induction false} StripMargins(s: string)
    ensures var r := Strip(s);
      exists a: nat, b: nat | a <= b <= |s| :: r == s[a..b] && AllSpace(s[..a]) && AllSpace(s[b..])
  {
    var t := TrimStart(s);
    TrimmedMiddle(s, t, TrimEnd(t));
  }

  /** The margins `TrimStart` and `TrimEnd` remove, one after the other, leave a stripped middle. */
  lemma {:induction false} TrimmedMiddle(s: string, t: string, r: string)
    requires |t| <= |s| && t == s[|s| - |t|..] && AllSpace(s[..|s| - |t|]) && (t != [] ==> !IsSpace(t[0]))
    requires |r| <= |t| && r == t[..|r|] && AllSpace(t[|r|..]) && (r != [] ==> !IsSpace(r[|r| - 1]))
    ensures exists a: nat, b: nat | a <= b <= |s| :: r == s[a..b] && AllSpace(s[..a]) && AllSpace(s[b..])
  {
    var a := |s| - |t|;
    var b := a + |r|;
    assert s[a..b] == s[a..][..|r|];
    assert s[b..] == t[|r|..];
    assert AllSpace(s[..a]) && AllSpace(s[b..]);
  }

  /** `re.sub(r'\s+', ' ', s)`: every maximal run of whitespace becomes one space. */
  function CollapseSpaces(s: string): (r: string)
    decreases |s|
  {
    if s == [] then []
    else if IsSpace(s[0]) then
      [' '] + CollapseSpaces(TrimStart(s[1..]))
    else [s[0]] + CollapseSpaces(s[1..])
  }

  /** A cleaned field value: stripped, with single spaces as its only whitespace. */
  predicate IsClean(s: string)
  {
    IsStripped(s) && SingleSpaced(s)
  }

  /** The only whitespace is the plain space, and never two whitespace characters in a row. */
  predicate SingleSpaced(s: string)
  {
    && (forall i :: 0 <= i < |s| && IsSpace(s[i]) ==> s[i] == ' ')
    && (forall i :: 0 <= i < |s| - 1 ==> !(IsSpace(s[i]) && IsSpace(s[i + 1])))
  }

  /** `re.sub(r'\s+', ' ', value.strip())`, the clean-up of every facility field. */
  function CleanField(raw: string): (r: string)
    ensures IsClean(r)
    ensures |r| <= |raw|
  {
    var t := Strip(raw);
    CollapseStripped(t);
    CollapseSpaces(t)
  }

  /** Collapsing a stripped text gives a clean one, no longer. */
  lemma {:induction false} CollapseStripped(t: string)
    requires IsStripped(t)
    ensures IsClean(CollapseSpaces(t)) && |CollapseSpaces(t)| <= |t|
  {
    CollapseShape(t);
    CollapseSingle(t);
  }

  /** Collapsing shortens, and keeps whether the text starts or ends with whitespace. */
  lemma {:induction false} CollapseShape(s: string)
    ensures var r := CollapseSpaces(s);
      && |r| <= |s| && (r == [] <==> s == [])
      && (s != [] ==> (IsSpace(r[0]) <==> IsSpace(s[0])))
      && (s != [] ==> (IsSpace(r[|r| - 1]) <==> IsSpace(s[|s| - 1])))
    decreases |s|
  {
    if s != [] {
      var r := CollapseSpaces(s);
      if IsSpace(s[0]) {
        var t := TrimStart(s[1..]);
        CollapseShape(t);
        assert r == [' '] + CollapseSpaces(t);
        if t == [] {
          assert AllSpace(s[1..][..|s[1..]|]);
          if |s| > 1 { assert s[|s| - 1] == s[1..][|s| - 2]; }
        } else {
          assert t[|t| - 1] == s[|s| - 1];
        }
      } else {
        CollapseShape(s[1..]);
        assert r == [s[0]] + CollapseSpaces(s[1..]);
        if |s| > 1 { assert s[1..][|s| - 2] == s[|s| - 1]; }
      }
    }
  }

  /** Collapsing leaves single spaces as the only whitespace, never two in a row. */
  lemma {:induction false} CollapseSingle(s: string)
    ensures SingleSpaced(CollapseSpaces(s))
    decreases |s|
  {
    if s != [] {
      if IsSpace(s[0]) {
        var t := TrimStart(s[1..]);
        CollapseSingle(t);
        CollapseShape(t);
        SingleSpacedCons(' ', CollapseSpaces(t));
      } else {
        CollapseSingle(s[1..]);
        SingleSpacedCons(s[0], CollapseSpaces(s[1..]));
      }
    }
  }

  lemma {:induction false} SingleSpacedCons(x: char, r: string)
    requires SingleSpaced(r)
    requires IsSpace(x) ==> x == ' ' && (r == [] || !IsSpace(r[0]))
    ensures SingleSpaced([x] + r)
  {
    var s := [x] + r;
    forall i | 0 <= i < |s| - 1 ensures !(IsSpace(s[i]) && IsSpace(s[i + 1])) {
      if i > 0 { assert s[i] == r[i - 1] && s[i + 1] == r[i]; }
    }
    forall i | 0 <= i < |s| && IsSpace(s[i]) ensures s[i] == ' ' {
      if i > 0 { assert s[i] == r[i - 1]; }
    }
  }

  /** Cleaning a value that is already clean changes nothing, so cleaning is idempotent. */
  lemma {:induction false} CleanFieldIdempotent(s: string)
    requires IsClean(s)
    ensures CleanField(s) == s
  {
    StripClean(s);
    CollapseClean(s);
  }

  lemma {:induction false} StripClean(s: string)
    requires IsStripped(s)
    ensures Strip(s) == s
  {
  }

  lemma {:induction false} CollapseClean(s: string)
    requires SingleSpaced(s)
    ensures CollapseSpaces(s) == s
    decreases |s|
  {
    if s != [] {
      var tail := s[1..];
      SingleSpacedTail(s);
      CollapseClean(tail);
      assert s == [s[0]] + tail;
      if IsSpace(s[0]) {
        assert s[0] == ' ';
        if tail != [] {
          assert tail[0] == s[1];
          assert !IsSpace(tail[0]);
        }
        TrimStartNoop(tail);
        assert CollapseSpaces(s) == [' '] + CollapseSpaces(tail);
      } else {
        assert CollapseSpaces(s) == [s[0]] + CollapseSpaces(tail);
      }
    }
  }

  lemma {:induction false} TrimStartNoop(s: string)
    requires s == [] || !IsSpace(s[0])
    ensures TrimStart(s) == s
  {
  }

  lemma {:induction false} SingleSpacedTail(s: string)
    requires SingleSpaced(s) && s != []
    ensures SingleSpaced(s[1..])
  {
    var tail := s[1..];
    forall i | 0 <= i < |tail| - 1 ensures !(IsSpace(tail[i]) && IsSpace(tail[i + 1])) {
      assert tail[i] == s[i + 1] && tail[i + 1] == s[i + 2];
    }
    forall i | 0 <= i < |tail| && IsSpace(tail[i]) ensures tail[i] == ' ' {
      assert tail[i] == s[i + 1];
    }
  }

  /** Cleaning is idempotent. */
  lemma {:induction false} CleanFieldTwice(raw: string)
    ensures CleanField(CleanField(raw)) == CleanField(raw)
  {
    CleanFieldIdempotent(CleanField(raw));
  }

  /** Upper-casing leaves whitespace alone, so a stripped text stays stripped. */
  lemma {:induction false} UpperStripped(s: string)
    requires IsStripped(s)
    ensures IsStripped(Upper(s))
  {
    if s != [] {
      UpperKeepsSpace(s[0]);
      UpperKeepsSpace(s[|s| - 1]);
    }
  }

  lemma {:induction false} UpperKeepsSpace(c: char)
    ensures IsSpace(ToUpper(c)) <==> IsSpace(c)
  {
    if 'a' <= c <= 'z' {
      assert 'A' <= ToUpper(c) <= 'Z';
    }
  }
}

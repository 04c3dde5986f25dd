/**
  A backtracking pattern matcher with the semantics of Python's `re` module,
  sufficient for the patterns of the verification services.

  Every repetition in those patterns is over a single character class
  (`\s*`, `[^<]+?`, `[\s\S]{0,200}?`, `\d{5}`, ...), so a pattern is written as a
  chain of the combinators below in continuation-passing style: each combinator
  receives the position where it starts and the continuation `k` (the rest of the
  pattern) and tries its alternatives in the order Python's engine does, stopping
  at the first one for which the rest of the pattern succeeds.  Greedy repetition
  tries the longest run first and gives back one character at a time; lazy
  repetition tries the shortest first.  `re.search` tries the start positions
  from left to right, from 0 up to and including `len(s)`.

  A successful match yields the captured group texts.
 */
module Matcher {
  import opened Base
  import opened Text

  /** The texts of the capturing groups of a match, in group order. */
  type Captures = seq<string>

  /** The rest of a pattern: given a position, the match it completes (if any). */
  type Cont = nat -> Option<Captures>

  /** `s[a:b]`, for the bounds a match produces. */
  function Slice(s: string, a: nat, b: nat): string
  {
    if a <= b <= |s| then s[a..b] else []
  }

  /** The end of the longest run of `c`-characters starting at `i`. */
  function RunEnd(s: string, i: nat, c: char -> bool): (e: nat)
    requires i <= |s|
    ensures i <= e <= |s|
    ensures forall j :: i <= j < e ==> c(s[j])
    ensures e == |s| || !c(s[e])
    decreases |s| - i
  {
    if i < |s| && c(s[i]) then RunEnd(s, i + 1, c) else i
  }

  /** The highest position in `lo..hi` at which `k` succeeds (greedy order). */
  function Downward(k: Cont, lo: nat, hi: nat): (r: Option<nat>)
    ensures r.Some? ==> lo <= r.value <= hi && k(r.value).Some?
    ensures r.Some? ==> forall e :: r.value < e <= hi ==> k(e).None?
    ensures r.None? ==> forall e :: lo <= e <= hi ==> k(e).None?
    decreases hi
  {
    if hi < lo then None
    else if k(hi).Some? then Some(hi)
    else if hi == lo then None
    else Downward(k, lo, hi - 1)
  }

  /** The lowest position in `lo..hi` at which `k` succeeds (lazy and search order). */
  function Upward(k: Cont, lo: nat, hi: nat): (r: Option<nat>)
    ensures r.Some? ==> lo <= r.value <= hi && k(r.value).Some?
    ensures r.Some? ==> forall e :: lo <= e < r.value ==> k(e).None?
    ensures r.None? ==> forall e :: lo <= e <= hi ==> k(e).None?
    decreases hi - lo
  {
    if hi < lo then None
    else if k(lo).Some? then Some(lo)
    else Upward(k, lo + 1, hi)
  }

  /** The literal `lit` (case-folded when `fold`), then `k`. */
  function Lit(s: string, i: nat, lit: string, fold: bool, k: Cont): Option<Captures>
  {
    if MatchesAt(s, i, lit, fold) then k(i + |lit|) else None
  }

  /**
    A literal, then `k` at the position `a` where it ends.  (Naming that
    position keeps the application of `k` cheap for the verifier.)
   */
  lemma {:induction false} LitAt(s: string, i: nat, lit: string, fold: bool, k: Cont, a: nat)
    requires a == i + |lit|
    ensures Lit(s, i, lit, fold, k) == if MatchesAt(s, i, lit, fold) then k(a) else None
  {
  }

  /** A literal followed by either of two continuations that agree everywhere. */
  lemma {:induction false} LitExt(s: string, i: nat, lit: string, fold: bool, k1: Cont, k2: Cont)
    requires forall a: nat :: k1(a) == k2(a)
    ensures Lit(s, i, lit, fold, k1) == Lit(s, i, lit, fold, k2)
  {
  }

  /** The furthest position a run of `c` of at most `hi` characters from `i` can reach. */
  function Reach(s: string, i: nat, c: char -> bool, hi: nat): nat
    requires i <= |s|
  {
    Min(RunEnd(s, i, c), i + hi)
  }

  /** Greedy `c{lo,hi}` then `k`. */
  function Greedy(s: string, i: nat, c: char -> bool, lo: nat, hi: nat, k: Cont): Option<Captures>
  {
    if i > |s| then None
    else match Downward(k, i + lo, Reach(s, i, c, hi))
      case None => None
      case Some(e) => k(e)
  }

  /** Lazy `c{lo,hi}?` then `k`. */
  function Lazy(s: string, i: nat, c: char -> bool, lo: nat, hi: nat, k: Cont): Option<Captures>
  {
    if i > |s| then None
    else match Upward(k, i + lo, Reach(s, i, c, hi))
      case None => None
      case Some(e) => k(e)
  }

  /** `c*` */
  function Star(s: string, i: nat, c: char -> bool, k: Cont): Option<Captures>
  {
    Greedy(s, i, c, 0, |s|, k)
  }

  /** `c+` */
  function Plus(s: string, i: nat, c: char -> bool, k: Cont): Option<Captures>
  {
    Greedy(s, i, c, 1, |s|, k)
  }

  /** `c+?` */
  function LazyPlus(s: string, i: nat, c: char -> bool, k: Cont): Option<Captures>
  {
    Lazy(s, i, c, 1, |s|, k)
  }

  /** A single `c` character, then `k`. */
  function One(s: string, i: nat, c: char -> bool, k: Cont): Option<Captures>
  {
    if i < |s| && c(s[i]) then k(i + 1) else None
  }

  /** `(?:a|b)`: the first alternative that completes the match wins. */
  function Or(a: Option<Captures>, b: Option<Captures>): Option<Captures>
  {
    if a.Some? then a else b
  }

  /** `re.search`: the match at the leftmost start position that has one. */
  function Search(s: string, at: Cont): (r: Option<Captures>)
    ensures r.Some? ==> exists i: nat :: i <= |s| && at(i) == r && forall j: nat :: j < i ==> at(j).None?
    ensures r.None? ==> forall i: nat :: i <= |s| ==> at(i).None?
  {
    match Upward(at, 0, |s|)
    case None => None
    case Some(i) => at(i)
  }

  /** `re.search` with a pattern that first matches at `p`. */
  lemma {:induction false} SearchAt(s: string, at: Cont, p: nat)
    requires p <= |s| && at(p).Some? && forall i: nat :: i < p ==> at(i).None?
    ensures Search(s, at) == at(p)
  {
  }

  /** A position where a successful search matched. */
  lemma {:induction false} SearchWitness(s: string, at: Cont) returns (i: nat)
    requires Search(s, at).Some?
    ensures i <= |s| && at(i) == Search(s, at)
  {
    i :| i <= |s| && at(i) == Search(s, at) && forall j: nat :: j < i ==> at(j).None?;
  }

  /** `re.search` with either of two patterns that match alike at every position. */
  lemma {:induction false} SearchExt(s: string, k1: Cont, k2: Cont)
    requires forall i: nat :: k1(i) == k2(i)
    ensures Search(s, k1) == Search(s, k2)
  {
    UpwardExt(k1, k2, 0, |s|);
  }

  lemma {:induction false} UpwardExt(k1: Cont, k2: Cont, lo: nat, hi: nat)
    requires forall i: nat :: k1(i) == k2(i)
    ensures Upward(k1, lo, hi) == Upward(k2, lo, hi)
    decreases hi - lo
  {
    if lo <= hi && k1(lo).None? {
      UpwardExt(k1, k2, lo + 1, hi);
    }
  }

  /** The pattern's first group, as `match.group(1)`. */
  function Group1(m: Option<Captures>): Option<string>
  {
    if m.Some? && |m.value| >= 1 then Some(m.value[0]) else None
  }

  // ---------------------------------------------------------------- character classes

  predicate AnyChar(c: char) { true }
  predicate NotLt(c: char) { c != '<' }
  predicate NotGt(c: char) { c != '>' }
  predicate NotNewlineOrLt(c: char) { c != '\n' && c != '<' }
  predicate NotQuote(c: char) { c != '\'' }
  predicate NotDoubleQuote(c: char) { c != '"' }
  predicate IsSlash(c: char) { c == '/' }
  predicate DigitOrDash(c: char) { IsDigit(c) || c == '-' }

  // ---------------------------------------------------------------- general facts

  /** A run of `c` is still the same run when entered part-way. */
  lemma {:induction false} RunEndSkip(s: string, a: nat, p: nat, c: char -> bool)
    requires a <= |s| && a <= p <= RunEnd(s, a, c)
    ensures RunEnd(s, p, c) == RunEnd(s, a, c)
    decreases p - a
  {
    if a < p {
      assert RunEnd(s, a, c) == RunEnd(s, a + 1, c);
      RunEndSkip(s, a + 1, p, c);
    }
  }

  /** A run of `c1` ends no later than the run of `c2` from the same place when every `c1`-character is a `c2`-character. */
  lemma {:induction false} RunEndWithin(s: string, a: nat, c1: char -> bool, c2: char -> bool)
    requires a <= |s| && forall x :: c1(x) ==> c2(x)
    ensures RunEnd(s, a, c1) <= RunEnd(s, a, c2)
  {
  }

  /** A literal matches exactly when the slice of `s` it covers equals it, letter by letter. */
  lemma {:induction false} MatchesAtIff(s: string, i: nat, lit: string, fold: bool)
    ensures MatchesAt(s, i, lit, fold) <==>
      i + |lit| <= |s| && forall j :: 0 <= j < |lit| ==> CharMatch(s[i + j], lit[j], fold)
    decreases |lit|
  {
    if |lit| > 0 {
      MatchesAtIff(s, i + 1, lit[1..], fold);
      var tail := lit[1..];
      if i + |lit| <= |s| && forall j :: 0 <= j < |lit| ==> CharMatch(s[i + j], lit[j], fold) {
        forall j | 0 <= j < |tail| ensures CharMatch(s[i + 1 + j], tail[j], fold) {
          assert CharMatch(s[i + (j + 1)], lit[j + 1], fold);
        }
        assert MatchesAt(s, i + 1, tail, fold);
      }
      if MatchesAt(s, i, lit, fold) {
        assert MatchesAt(s, i + 1, tail, fold);
        forall j | 0 <= j < |lit| ensures CharMatch(s[i + j], lit[j], fold) {
          if j > 0 { assert CharMatch(s[i + 1 + (j - 1)], tail[j - 1], fold); }
        }
      }
    }
  }

  /** A literal that matches fits in the text. */
  lemma {:induction false} MatchesAtFits(s: string, i: nat, lit: string, fold: bool)
    ensures MatchesAt(s, i, lit, fold) ==> i + |lit| <= |s|
    decreases |lit|
  {
    if |lit| > 0 {
      MatchesAtFits(s, i + 1, lit[1..], fold);
    }
  }

  /** A literal that occurs somewhere fits in the text. */
  lemma {:induction false} OccursFits(s: string, lit: string, fold: bool)
    requires Occurs(s, lit, fold)
    ensures |lit| <= |s|
  {
    var i: nat :| i <= |s| && MatchesAt(s, i, lit, fold);
    MatchesAtFits(s, i, lit, fold);
  }

  /** Case-sensitive literal match is slice equality. */
  lemma {:induction false} MatchesAtExact(s: string, i: nat, lit: string)
    ensures MatchesAt(s, i, lit, false) <==> i + |lit| <= |s| && s[i..i + |lit|] == lit
  {
    MatchesAtIff(s, i, lit, false);
    if i + |lit| <= |s| && s[i..i + |lit|] == lit {
      forall j | 0 <= j < |lit| ensures CharMatch(s[i + j], lit[j], false) {
        assert s[i..i + |lit|][j] == s[i + j];
      }
    }
  }

  /** A pattern that is just the literal `lit`, at each position. */
  function LitCont(s: string, lit: string, fold: bool): Cont
  {
    (i: nat) => Lit(s, i, lit, fold, (_: nat) => Some([]))
  }

  /** `re.search(lit, s)` for a pattern that is a literal: found iff it occurs. */
  function Found(s: string, lit: string, fold: bool): (r: bool)
    ensures r <==> Occurs(s, lit, fold)
  {
    SearchLiteral(s, lit, fold);
    Search(s, LitCont(s, lit, fold)).Some?
  }

  lemma {:induction false} SearchLiteral(s: string, lit: string, fold: bool)
    ensures Search(s, LitCont(s, lit, fold)).Some? <==> Occurs(s, lit, fold)
  {
    var at := LitCont(s, lit, fold);
    if Occurs(s, lit, fold) {
      var i: nat :| i <= |s| && MatchesAt(s, i, lit, fold);
      assert at(i).Some?;
    }
  }

  /** No character that the first letter of `lit` matches belongs to `c`. */
  ghost predicate Stops(c: char -> bool, lit: string, fold: bool)
  {
    lit != [] && forall x :: CharMatch(x, lit[0], fold) ==> !c(x)
  }

  /** A literal can only match where the text has a character its first letter matches. */
  lemma {:induction false} LitStart(s: string, e: nat, lit: string, fold: bool, k: Cont)
    requires lit != []
    ensures Lit(s, e, lit, fold, k).Some? ==> e < |s| && CharMatch(s[e], lit[0], fold)
  {
  }

  /**
    A greedy run of `c` gives nothing back when the rest of the pattern can
    only start on a `stop` character and `c` has none of those: the rest is
    tried once, at the end of the run.
   */
  lemma {:induction false} GreedyStops(s: string, i: nat, c: char -> bool, lo: nat, k: Cont, stop: char -> bool)
    requires i <= |s|
    requires forall x :: stop(x) ==> !c(x)
    requires forall e: nat :: k(e).Some? ==> e < |s| && stop(s[e])
    ensures Greedy(s, i, c, lo, |s|, k) == if i + lo <= RunEnd(s, i, c) then k(RunEnd(s, i, c)) else None
  {
    var end := RunEnd(s, i, c);
    assert Reach(s, i, c, |s|) == end;
    if i + lo <= end && k(end).None? {
      forall e | i + lo <= e <= end ensures k(e).None? {
        if e < end {
          assert c(s[e]);
        }
      }
    }
  }

  /** The same, for a rest of the pattern that starts with the literal `lit`, at which `c` stops. */
  lemma {:induction false} GreedyStopsAt(s: string, i: nat, c: char -> bool, lo: nat, k: Cont, lit: string, fold: bool)
    requires i <= |s| && Stops(c, lit, fold)
    requires forall e: nat :: k(e).Some? ==> MatchesAt(s, e, lit, fold)
    ensures Greedy(s, i, c, lo, |s|, k) == if i + lo <= RunEnd(s, i, c) then k(RunEnd(s, i, c)) else None
  {
    forall e: nat ensures k(e).Some? ==> e < |s| && CharMatch(s[e], lit[0], fold) {
      if k(e).Some? {
        assert MatchesAt(s, e, lit, fold);
      }
    }
    GreedyStops(s, i, c, lo, k, (x: char) => CharMatch(x, lit[0], fold));
  }

  /** A greedy run settles on `e` when the rest succeeds there and at no longer run. */
  lemma {:induction false} GreedyAt(s: string, i: nat, c: char -> bool, lo: nat, k: Cont, e: nat)
    requires i <= |s| && i + lo <= e <= RunEnd(s, i, c) && k(e).Some?
    requires forall q: nat :: e < q <= RunEnd(s, i, c) ==> k(q).None?
    ensures Greedy(s, i, c, lo, |s|, k) == k(e)
  {
    assert Reach(s, i, c, |s|) == RunEnd(s, i, c);
  }

  /** A greedy run fails when the rest fails after every run it may take. */
  lemma {:induction false} GreedyNone(s: string, i: nat, c: char -> bool, lo: nat, k: Cont)
    requires i <= |s|
    requires forall q: nat :: i + lo <= q <= RunEnd(s, i, c) ==> k(q).None?
    ensures Greedy(s, i, c, lo, |s|, k).None?
  {
    assert Reach(s, i, c, |s|) == RunEnd(s, i, c);
  }

  // ---------------------------------------------------------------- matching laid-out text

  /** A literal matches at the concatenation of two pieces exactly when each piece matches in turn. */
  lemma {:induction false} MatchesAtAppend(s: string, i: nat, x: string, y: string, fold: bool)
    ensures MatchesAt(s, i, x + y, fold) <==> MatchesAt(s, i, x, fold) && MatchesAt(s, i + |x|, y, fold)
    decreases |x|
  {
    if x == [] {
      assert x + y == y;
      MatchesAtFits(s, i, y, fold);
    } else {
      assert (x + y)[1..] == x[1..] + y;
      MatchesAtAppend(s, i + 1, x[1..], y, fold);
    }
  }

  /** Where the text holds `w` then `rest`, it holds `rest` right after `w`. */
  lemma {:induction false} After(s: string, i: nat, w: string, rest: string)
    requires i <= |s| && s[i..] == w + rest
    ensures i + |w| <= |s| && s[i + |w|..] == rest && s[i..i + |w|] == w
  {
    assert s[i + |w|..] == s[i..][|w|..] == (w + rest)[|w|..];
    assert s[i..i + |w|] == s[i..][..|w|] == (w + rest)[..|w|];
  }

  /** Where the text holds `lit` then `rest`, the literal consumes `lit` and the pattern goes on right after it, at `e`. */
  lemma {:induction false} LitOver(s: string, i: nat, lit: string, rest: string, fold: bool, k: Cont, e: nat)
    requires i <= |s| && s[i..] == lit + rest && e == i + |lit|
    ensures MatchesAt(s, i, lit, fold)
    ensures Lit(s, i, lit, fold, k) == k(e) && s[e..] == rest
  {
    MatchesAtIff(s, i, lit, fold);
    forall j | 0 <= j < |lit| ensures CharMatch(s[i + j], lit[j], fold) {
      assert s[i..][j] == (lit + rest)[j];
    }
    assert s[e..] == s[i..][|lit|..] == (lit + rest)[|lit|..];
  }

  /** Where the text holds a stretch `w` of `c` characters then `rest`, the run of `c` covers `w` and stops there if `rest` starts with another character. */
  lemma {:induction false} RunOver(s: string, i: nat, w: string, rest: string, c: char -> bool)
    requires i <= |s| && s[i..] == w + rest && forall j :: 0 <= j < |w| ==> c(w[j])
    ensures i + |w| <= RunEnd(s, i, c)
    ensures rest != [] && !c(rest[0]) ==> RunEnd(s, i, c) == i + |w|
  {
    if rest != [] && !c(rest[0]) {
      assert s[i..][|w|] == (w + rest)[|w|];
    }
  }

  /** Where the text holds whitespace `w` then a non-space, `\s*` takes all of `w`, up to `e`, when the pattern goes on there. */
  lemma {:induction false} SpacesOver(s: string, i: nat, w: string, rest: string, k: Cont, e: nat)
    requires i <= |s| && s[i..] == w + rest && AllSpace(w) && e == i + |w|
    requires rest != [] && !IsSpace(rest[0]) && k(e).Some?
    ensures Star(s, i, IsSpace, k) == k(e) && s[e..] == rest
  {
    RunOver(s, i, w, rest, IsSpace);
    GreedyAt(s, i, IsSpace, 0, k, e);
    assert s[e..] == s[i..][|w|..] == (w + rest)[|w|..];
  }

  /** Where the text holds `/` then `rest`, the optional slash `\/?` takes it when the pattern goes on after it, at `e`. */
  lemma {:induction false} SlashOver(s: string, i: nat, rest: string, k: Cont, e: nat)
    requires i <= |s| && s[i..] == "/" + rest && e == i + 1 && k(e).Some?
    ensures Greedy(s, i, IsSlash, 0, 1, k) == k(e) && s[e..] == rest
  {
    RunOver(s, i, "/", rest, IsSlash);
    assert Reach(s, i, IsSlash, 1) == e;
    assert s[e..] == s[i..][1..] == ("/" + rest)[1..];
  }

  /**
    Where the text holds a value `v` without `<` then `rest`, the group `[^<]+?`
    is all of `v`, up to `e`, when the pattern fails inside `v` and goes on at `e`.
   */
  lemma {:induction false} LazyOver(s: string, p: nat, v: string, rest: string, k: Cont, e: nat)
    requires p <= |s| && s[p..] == v + rest && v != [] && '<' !in v && e == p + |v|
    requires k(e).Some? && forall q: nat :: p < q < e ==> k(q).None?
    ensures LazyPlus(s, p, NotLt, k) == k(e) && s[e..] == rest
  {
    forall j | 0 <= j < |v| ensures NotLt(v[j]) {
      assert v[j] in v;
    }
    RunOver(s, p, v, rest, NotLt);
    assert Reach(s, p, NotLt, |s|) == RunEnd(s, p, NotLt);
    assert s[e..] == s[p..][|v|..] == (v + rest)[|v|..];
  }

  /**
    Strictly inside a value that has no `<` and ends in a non-space, `\s*`
    followed by a pattern that can only start at a `<` fails: the whitespace
    run stops inside the value, where there is no `<`.
   */
  lemma {:induction false} NoTagInside(s: string, p: nat, v: string, rest: string, q: nat, m: Cont)
    requires p <= |s| && s[p..] == v + rest && '<' !in v && IsStripped(v)
    requires p < q < p + |v|
    requires forall x: nat :: m(x).Some? ==> x < |s| && s[x] == '<'
    ensures Star(s, q, IsSpace, m).None?
  {
    var last := p + |v| - 1;
    assert s[last] == v[|v| - 1] by { assert s[p..][|v| - 1] == (v + rest)[|v| - 1]; }
    var r := RunEnd(s, q, IsSpace);
    assert r <= last;
    forall x: nat | q <= x <= r ensures m(x).None? {
      assert s[x] == v[x - p] by { assert s[p..][x - p] == (v + rest)[x - p]; }
      assert v[x - p] in v;
    }
    GreedyNone(s, q, IsSpace, 0, m);
  }

  /**
    A greedy `sp*` before a group that, from any start, runs to `end` and is
    accepted there or fails: the group starts after the whole run of `sp`,
    or, when it would be empty, takes back the last `sp` character.
   */
  lemma {:induction false} StarBackOne(s: string, a: nat, sp: char -> bool, k: Cont, end: nat, ok: bool)
    requires a <= |s| && RunEnd(s, a, sp) <= end <= |s|
    requires forall p: nat :: a <= p <= RunEnd(s, a, sp) ==> k(p) == if p < end && ok then Some([s[p..end]]) else None
    ensures var b := RunEnd(s, a, sp);
      Star(s, a, sp, k) == if ok && b < end then Some([s[b..end]]) else if ok && a < b then Some([s[b - 1..b]]) else None
  {
    var b := RunEnd(s, a, sp);
    if ok && b < end {
      GreedyAt(s, a, sp, 0, k, b);
    } else if ok && a < b {
      GreedyAt(s, a, sp, 0, k, b - 1);
    } else {
      GreedyNone(s, a, sp, 0, k);
    }
  }

  /**
    `sp*(c+)` followed by a check `ok` at the end of the group, where `sp`
    characters are all or none of them `c` characters: the group is the run of
    `c` after the `sp` run, or, when that is empty and `sp` characters are `c`
    characters, the last `sp` character.
   */
  lemma {:induction false} StarRun(s: string, d: nat, sp: char -> bool, c: char -> bool, k: Cont, ok: nat -> bool)
    requires d <= |s|
    requires (forall x :: sp(x) ==> c(x)) || (forall x :: sp(x) ==> !c(x))
    requires forall p: nat :: p <= |s| ==>
      k(p) == if p < RunEnd(s, p, c) && ok(RunEnd(s, p, c)) then Some([s[p..RunEnd(s, p, c)]]) else None
    ensures var b := RunEnd(s, d, sp); var e := RunEnd(s, b, c);
      Star(s, d, sp, k) ==
        if !ok(e) then None
        else if b < e then Some([s[b..e]])
        else if d < b && c(s[b - 1]) then Some([s[b - 1..b]])
        else None
  {
    var b := RunEnd(s, d, sp);
    var e := RunEnd(s, b, c);
    if forall x :: sp(x) ==> c(x) {
      forall p: nat | d <= p <= b ensures k(p) == if p < e && ok(e) then Some([s[p..e]]) else None {
        RunEndSkip(s, d, p, sp);
        RunEndWithin(s, p, sp, c);
        RunEndSkip(s, p, b, c);
      }
      StarBackOne(s, d, sp, k, e, ok(e));
    } else {
      if d < b {
        assert sp(s[b - 1]) && !c(s[b - 1]);
      }
      if ok(e) && b < e {
        GreedyAt(s, d, sp, 0, k, b);
      } else {
        forall p: nat | d <= p < b ensures k(p).None? {
          assert sp(s[p]) && !c(s[p]);
        }
        GreedyNone(s, d, sp, 0, k);
      }
    }
  }

  /** A one-character literal that is not a letter matches only itself, whatever the case folding. */
  lemma {:induction false} SymbolAt(s: string, e: nat, ch: char, fold: bool)
    requires !IsLetter(ch)
    ensures MatchesAt(s, e, [ch], fold) <==> e < |s| && s[e] == ch
  {
    MatchesAtIff(s, e, [ch], fold);
    if e < |s| {
      assert CharMatch(s[e + 0], [ch][0], fold) <==> s[e] == ch;
    }
  }

  /**
    `re.search(...).group(1)` of a one-group pattern that matches as `spec`
    says at every position: the group at the leftmost position with a match,
    or None when there is none.
   */
  lemma {:induction false} SearchBySpec(s: string, at: Cont, spec: Cont)
    requires forall i: nat :: at(i) == spec(i)
    requires forall i: nat :: spec(i).Some? ==> |spec(i).value| == 1
    ensures var r := Group1(Search(s, at));
      && (r.Some? ==> exists i: nat :: i <= |s| && spec(i) == Some([r.value]) && forall j: nat :: j < i ==> spec(j).None?)
      && (r.None? <==> forall i: nat :: i <= |s| ==> spec(i).None?)
  {
    SearchExt(s, at, spec);
    var m := Search(s, spec);
    if m.Some? {
      var i: nat :| i <= |s| && spec(i) == m && forall j: nat :: j < i ==> spec(j).None?;
      assert m.value == [m.value[0]];
    }
  }

  // ---------------------------------------------------------------- the `rel='...'` token

  /** `rel='([^']+)'`, at position `i`. */
  function RelAt(s: string, i: nat): Option<Captures>
  {
    Lit(s, i, "rel='", false, (p: nat) =>
    Plus(s, p, NotQuote, (e: nat) =>
    Lit(s, e, "'", false, (_: nat) =>
    Some([Slice(s, p, e)]))))
  }

  /** `s[i:]` starts with `rel='` + `t` + `'`, where `t` is non-empty and has no quote. */
  ghost predicate RelTokenAt(s: string, i: nat, t: string)
  {
    && i + |t| + 6 <= |s|
    && s[i..i + 5] == "rel='"
    && t != [] && '\'' !in t
    && s[i + 5..i + 5 + |t|] == t
    && s[i + 5 + |t|] == '\''
  }

  /** At each position the pattern matches exactly the token `RelTokenAt` describes. */
  lemma {:induction false} RelAtIff(s: string, i: nat)
    ensures RelAt(s, i).Some? <==> exists t :: RelTokenAt(s, i, t)
    ensures forall t :: RelTokenAt(s, i, t) ==> RelAt(s, i) == Some([t])
  {
    if RelAt(s, i).Some? {
      RelAtMatched(s, i);
    }
    forall t | RelTokenAt(s, i, t) ensures RelAt(s, i) == Some([t]) {
      RelAtToken(s, i, t);
    }
  }

  /** The token the pattern's continuation after `rel='` accepts: the whole run of non-quotes, then a quote. */
  function RelRest(s: string, p: nat): Cont
  {
    (e: nat) => Lit(s, e, "'", false, (_: nat) => Some([Slice(s, p, e)]))
  }

  lemma {:induction false} QuoteAt(s: string, e: nat)
    ensures MatchesAt(s, e, "'", false) <==> e < |s| && s[e] == '\''
  {
    MatchesAtIff(s, e, "'", false);
  }

  lemma {:induction false} RelAtMatched(s: string, i: nat)
    requires RelAt(s, i).Some?
    ensures exists t :: RelTokenAt(s, i, t)
  {
    MatchesAtExact(s, i, "rel='");
    var p := i + 5;
    var k := RelRest(s, p);
    assert RelAt(s, i) == Plus(s, p, NotQuote, k);
    var top := Reach(s, p, NotQuote, |s|);
    assert top == RunEnd(s, p, NotQuote);
    var e := Downward(k, p + 1, top).value;
    QuoteAt(s, e);
    assert e == top;
    var t := s[p..top];
    assert RelTokenAt(s, i, t);
  }

  lemma {:induction false} RelAtToken(s: string, i: nat, t: string)
    requires RelTokenAt(s, i, t)
    ensures RelAt(s, i) == Some([t])
  {
    MatchesAtExact(s, i, "rel='");
    var p := i + 5;
    var k := RelRest(s, p);
    assert RelAt(s, i) == Plus(s, p, NotQuote, k);
    assert forall j :: p <= j < p + |t| ==> s[j] == t[j - p];
    var top := Reach(s, p, NotQuote, |s|);
    assert top == RunEnd(s, p, NotQuote) == p + |t|;
    QuoteAt(s, top);
    assert s[p..top] == t;
    assert k(top) == Some([t]);
  }

  /** `RelAt` as the continuation `re.search` tries at every position. */
  function RelCont(s: string): Cont
  {
    (i: nat) => RelAt(s, i)
  }

  /** `t` is the token at the leftmost position that has one. */
  ghost predicate LeftmostRelToken(s: string, t: string)
  {
    exists i: nat :: RelTokenAt(s, i, t) && forall j: nat, t' :: j < i ==> !RelTokenAt(s, j, t')
  }

  /** `re.search(r"rel='([^']+)'", s).group(1)`: the leftmost token, or None. */
  function RelToken(s: string): (r: Option<string>)
    ensures r.Some? ==> LeftmostRelToken(s, r.value)
    ensures r.None? <==> forall i: nat, t :: !RelTokenAt(s, i, t)
  {
    RelTokenLeftmost(s);
    Group1(Search(s, RelCont(s)))
  }

  lemma {:induction false} RelTokenLeftmost(s: string)
    ensures var r := Group1(Search(s, RelCont(s)));
      && (r.Some? ==> exists i: nat :: RelTokenAt(s, i, r.value) &&
                        forall j: nat, t :: j < i ==> !RelTokenAt(s, j, t))
      && (r.None? <==> forall i: nat, t :: !RelTokenAt(s, i, t))
  {
    var at := RelCont(s);
    var pos := Upward(at, 0, |s|);
    if pos.Some? {
      var i := pos.value;
      RelAtIff(s, i);
      var t :| RelTokenAt(s, i, t);
      assert Search(s, at) == Some([t]);
      forall j: nat, t' | j < i ensures !RelTokenAt(s, j, t') {
        RelAtIff(s, j);
        assert at(j).None?;
      }
    } else {
      forall i: nat | i <= |s| ensures RelAt(s, i).None? { assert at(i).None?; }
      forall i: nat, t ensures !RelTokenAt(s, i, t) { RelAtIff(s, i); }
    }
  }

  // ---------------------------------------------------------------- shared pattern pieces

  /** `(?:Enrollment Number|Registration Number):` then `k`, case-insensitively. */
  function NumberLabel(s: string, a: nat, k: Cont): Option<Captures>
  {
    Or(Lit(s, a, "Enrollment Number", true, (b: nat) => Lit(s, b, ":", true, k)),
       Lit(s, a, "Registration Number", true, (b: nat) => Lit(s, b, ":", true, k)))
  }

  /**
    The label part matches at `a` exactly when the text there starts with one
    of the two labels and a colon, ignoring case, and the pattern goes on after
    the colon; the two labels never both match, as their first letters differ.
   */
  lemma {:induction false} NumberLabelIff(s: string, a: nat, k: Cont)
    ensures NumberLabel(s, a, k) ==
      if MatchesAt(s, a, "Enrollment Number:", true) then k(a + 18)
      else if MatchesAt(s, a, "Registration Number:", true) then k(a + 20)
      else None
    ensures !(MatchesAt(s, a, "Enrollment Number:", true) && MatchesAt(s, a, "Registration Number:", true))
  {
    var en, rn := "Enrollment Number", "Registration Number";
    LabelThenColon(s, a, en, k);
    LabelThenColon(s, a, rn, k);
    LabelsDiffer(s, a);
    assert en + ":" == "Enrollment Number:";
    assert rn + ":" == "Registration Number:";
  }

  /** The two labels start with different letters, so they never match at the same place. */
  lemma {:induction false} LabelsDiffer(s: string, a: nat)
    ensures !(MatchesAt(s, a, "Enrollment Number", true) && MatchesAt(s, a, "Registration Number", true))
  {
  }

  /** One label, then a colon, then `k`, as one literal. */
  lemma {:induction false} LabelThenColon(s: string, a: nat, word: string, k: Cont)
    ensures Lit(s, a, word, true, (b: nat) => Lit(s, b, ":", true, k)) ==
      if MatchesAt(s, a, word + ":", true) then k(a + |word| + 1) else None
    ensures MatchesAt(s, a, word + ":", true) ==> MatchesAt(s, a, word, true)
  {
    MatchesAtAppend(s, a, word, ":", true);
    LitAt(s, a, word, true, (b: nat) => Lit(s, b, ":", true, k), a + |word|);
    LitAt(s, a + |word|, ":", true, k, a + |word| + 1);
  }

  /** `\s*` then `k`, as the rest of a pattern. */
  function SpacesThen(s: string, k: Cont): Cont
  {
    (a: nat) => Star(s, a, IsSpace, k)
  }

  /** A case-insensitive literal then `k`, as the rest of a pattern. */
  function LitThen(s: string, lit: string, k: Cont): Cont
  {
    (a: nat) => Lit(s, a, lit, true, k)
  }

  /** A literal that starts with `<` can only match at a `<`. */
  lemma {:induction false} LitThenAtLt(s: string, lit: string, k: Cont)
    requires lit != [] && lit[0] == '<'
    ensures forall x: nat :: LitThen(s, lit, k)(x).Some? ==> x < |s| && s[x] == '<'
  {
    forall x: nat | LitThen(s, lit, k)(x).Some? ensures x < |s| && s[x] == '<' {
      LitStart(s, x, lit, true, k);
    }
  }

  // ---------------------------------------------------------------- `label:\s*(c+)` fields

  /** `\s*(c+)` at `d`: optional whitespace, then a captured run of `c`. */
  function ValueAt(s: string, d: nat, c: char -> bool): Option<Captures>
  {
    Star(s, d, IsSpace, ValueRunCont(s, c))
  }

  function ValueRunCont(s: string, c: char -> bool): Cont
  {
    (p: nat) => ValueRun(s, p, c)
  }

  /** `(c+)` at `p`. */
  function ValueRun(s: string, p: nat, c: char -> bool): Option<Captures>
  {
    Plus(s, p, c, (e: nat) => Some([Slice(s, p, e)]))
  }

  /**
    `label\s*(c+)` (the label ends with its colon) or, when `spaced`,
    `label\s*:\s*(c+)`; the label is matched case-insensitively.
   */
  function LabelAt(s: string, i: nat, head: string, spaced: bool, c: char -> bool): Option<Captures>
  {
    Lit(s, i, head, true, LabelRest(s, spaced, c))
  }

  /** What follows the label. */
  function LabelRest(s: string, spaced: bool, c: char -> bool): Cont
  {
    if spaced then ColonValueCont(s, c) else ValueAtCont(s, c)
  }

  function ColonValueCont(s: string, c: char -> bool): Cont
  {
    (a: nat) => ColonValueAt(s, a, c)
  }

  /** `\s*:\s*(c+)` at `a`. */
  function ColonValueAt(s: string, a: nat, c: char -> bool): Option<Captures>
  {
    Star(s, a, IsSpace, ColonThen(s, ValueAtCont(s, c)))
  }

  /** `:` at `b`, then `k`. */
  function ColonThen(s: string, k: Cont): Cont
  {
    (b: nat) => Lit(s, b, ":", true, k)
  }

  function ValueAtCont(s: string, c: char -> bool): Cont
  {
    (d: nat) => ValueAt(s, d, c)
  }

  /** The highest position in `lo..hi-1` holding a `c` character. */
  function LastIn(s: string, lo: nat, hi: nat, c: char -> bool): (r: Option<nat>)
    requires hi <= |s|
    ensures r.Some? ==> lo <= r.value < hi && c(s[r.value]) && forall q :: r.value < q < hi ==> !c(s[q])
    ensures r.None? ==> forall q :: lo <= q < hi ==> !c(s[q])
    decreases hi
  {
    if hi <= lo then None
    else if c(s[hi - 1]) then Some(hi - 1)
    else LastIn(s, lo, hi - 1, c)
  }

  /**
    What `\s*(c+)` captures at `d`: the run of `c` after the whitespace. When
    there is none, the greedy whitespace gives characters back, last first,
    until it reaches one that belongs to `c`; that character alone is the group,
    since the character after it is whitespace outside `c`, or the end of the
    run of whitespace where no run of `c` starts.
   */
  function ValueSpec(s: string, d: nat, c: char -> bool): (r: Option<Captures>)
    requires d <= |s|
    ensures r.Some? ==> |r.value| == 1 && r.value[0] != []
  {
    var b := RunEnd(s, d, IsSpace);
    var e := RunEnd(s, b, c);
    if b < e then Some([s[b..e]])
    else match LastIn(s, d, b, c)
      case Some(p) => Some([s[p..p + 1]])
      case None => None
  }

  /** `c` holds of every whitespace character or of none (`[^\n<]` is a class that does neither). */
  ghost predicate SpaceUniform(c: char -> bool)
  {
    (forall x :: IsSpace(x) ==> c(x)) || (forall x :: IsSpace(x) ==> !c(x))
  }

  /** For a class that takes all whitespace or none, only the last whitespace character can be given back. */
  lemma {:induction false} ValueSpecUniform(s: string, d: nat, c: char -> bool)
    requires d <= |s| && SpaceUniform(c)
    ensures var b := RunEnd(s, d, IsSpace); var e := RunEnd(s, b, c);
      ValueSpec(s, d, c) ==
        if b < e then Some([s[b..e]])
        else if d < b && c(s[b - 1]) then Some([s[b - 1..b]])
        else None
  {
    var b := RunEnd(s, d, IsSpace);
    var r := LastIn(s, d, b, c);
    if r.Some? {
      assert IsSpace(s[r.value]) && IsSpace(s[b - 1]);
    } else if d < b {
      assert !c(s[b - 1]);
    }
  }

  /** The run of `c` is captured whole. */
  lemma {:induction false} ValueRunIff(s: string, p: nat, c: char -> bool)
    requires p <= |s|
    ensures var e := RunEnd(s, p, c);
      ValueRun(s, p, c) == if p < e then Some([s[p..e]]) else None
  {
    var e := RunEnd(s, p, c);
    var k: Cont := (e: nat) => Some([Slice(s, p, e)]);
    assert ValueRun(s, p, c) == Greedy(s, p, c, 1, |s|, k);
    if p < e {
      GreedyAt(s, p, c, 1, k, e);
    } else {
      GreedyNone(s, p, c, 1, k);
    }
  }

  /** `\s*(c+)` captures as `ValueSpec` says, for every class `c`. */
  lemma {:induction false} ValueAtIff(s: string, d: nat, c: char -> bool)
    requires d <= |s|
    ensures ValueAt(s, d, c) == ValueSpec(s, d, c)
  {
    var b := RunEnd(s, d, IsSpace);
    var e := RunEnd(s, b, c);
    if b < e {
      assert ValueSpec(s, d, c) == Some([s[b..e]]);
      ValueRunAfter(s, d, b, e, c);
    } else {
      match LastIn(s, d, b, c)
      case Some(p) =>
        assert ValueSpec(s, d, c) == Some([s[p..p + 1]]);
        ValueGivenBack(s, d, b, c, p);
      case None =>
        assert ValueSpec(s, d, c).None?;
        ValueNone(s, d, b, c);
    }
  }

  /** The run of `c` after the whitespace is captured whole. */
  lemma {:induction false} ValueRunAfter(s: string, d: nat, b: nat, e: nat, c: char -> bool)
    requires d <= |s| && b == RunEnd(s, d, IsSpace) && e == RunEnd(s, b, c) && b < e
    ensures ValueAt(s, d, c) == Some([s[b..e]])
  {
    ValueRunIff(s, b, c);
    GreedyAt(s, d, IsSpace, 0, ValueRunCont(s, c), b);
  }

  /** With no run of `c` after the whitespace, the whitespace gives back its last `c` character. */
  lemma {:induction false} ValueGivenBack(s: string, d: nat, b: nat, c: char -> bool, p: nat)
    requires d <= |s| && b == RunEnd(s, d, IsSpace) && RunEnd(s, b, c) == b
    requires d <= p < b && c(s[p]) && forall q :: p < q < b ==> !c(s[q])
    ensures ValueAt(s, d, c) == Some([s[p..p + 1]])
  {
    var k := ValueRunCont(s, c);
    assert k(p) == Some([s[p..p + 1]]) by {
      ValueRunIff(s, p, c);
      RunEndOne(s, p, c);
    }
    forall q: nat | p < q <= b ensures k(q).None? {
      ValueRunIff(s, q, c);
    }
    GreedyAt(s, d, IsSpace, 0, k, p);
  }

  /** With no run of `c` after the whitespace and no `c` inside it, nothing is captured. */
  lemma {:induction false} ValueNone(s: string, d: nat, b: nat, c: char -> bool)
    requires d <= |s| && b == RunEnd(s, d, IsSpace) && RunEnd(s, b, c) == b
    requires forall q :: d <= q < b ==> !c(s[q])
    ensures ValueAt(s, d, c).None?
  {
    var k := ValueRunCont(s, c);
    forall q: nat | d <= q <= b ensures k(q).None? {
      ValueRunIff(s, q, c);
    }
    GreedyNone(s, d, IsSpace, 0, k);
  }

  /** A `c` character followed by a non-`c` character or the end is a run of one. */
  lemma {:induction false} RunEndOne(s: string, p: nat, c: char -> bool)
    requires p < |s| && c(s[p]) && (p + 1 == |s| || !c(s[p + 1]))
    ensures RunEnd(s, p, c) == p + 1
  {
    assert RunEnd(s, p + 1, c) == p + 1;
  }

  /** What `LabelAt` matches at `i`, written out position by position. */
  function LabelSpec(s: string, i: nat, head: string, spaced: bool, c: char -> bool): Option<Captures>
  {
    Lit(s, i, head, true, LabelRestSpecCont(s, spaced, c))
  }

  function LabelRestSpecCont(s: string, spaced: bool, c: char -> bool): Cont
  {
    (a: nat) => if a <= |s| then LabelRestSpec(s, a, spaced, c) else None
  }

  /** What follows the label at `a`: the value, after a colon when `spaced`. */
  function LabelRestSpec(s: string, a: nat, spaced: bool, c: char -> bool): Option<Captures>
    requires a <= |s|
  {
    if spaced then ColonSpec(s, a, c) else ValueSpec(s, a, c)
  }

  /** What `\s*:\s*(c+)` captures at `a`: the value after the colon that ends the whitespace. */
  function ColonSpec(s: string, a: nat, c: char -> bool): Option<Captures>
    requires a <= |s|
  {
    var b := RunEnd(s, a, IsSpace);
    if b < |s| && s[b] == ':' then ValueSpec(s, b + 1, c) else None
  }

  /** The colon spec at `a`, with `d` just past the whitespace run and the colon. */
  lemma {:induction false} ColonSpecAt(s: string, a: nat, c: char -> bool, d: nat)
    requires a <= |s| && d == RunEnd(s, a, IsSpace) + 1
    ensures ColonSpec(s, a, c) == if d <= |s| && s[d - 1] == ':' then ValueSpec(s, d, c) else None
  {
  }

  lemma {:induction false} LabelAtIff(s: string, i: nat, head: string, spaced: bool, c: char -> bool)
    ensures LabelAt(s, i, head, spaced, c) == LabelSpec(s, i, head, spaced, c)
  {
    forall a: nat ensures LabelRest(s, spaced, c)(a) == LabelRestSpecCont(s, spaced, c)(a) {
      if a <= |s| {
        LabelRestIff(s, a, spaced, c);
      }
    }
    LitExt(s, i, head, true, LabelRest(s, spaced, c), LabelRestSpecCont(s, spaced, c));
  }

  lemma {:induction false} LabelRestIff(s: string, a: nat, spaced: bool, c: char -> bool)
    requires a <= |s|
    ensures LabelRest(s, spaced, c)(a) == LabelRestSpec(s, a, spaced, c)
  {
    if spaced {
      ColonValueAtIff(s, a, c);
    } else {
      ValueAtIff(s, a, c);
    }
  }

  /** The colon can only follow the whole whitespace run, since it is not whitespace. */
  lemma {:induction false} ColonValueAtIff(s: string, a: nat, c: char -> bool)
    requires a <= |s|
    ensures ColonValueAt(s, a, c) == ColonSpec(s, a, c)
  {
    var b := RunEnd(s, a, IsSpace);
    var d := b + 1;
    ColonStar(s, a, IsSpace, ValueAtCont(s, c), d);
    if b < |s| && s[b] == ':' {
      assert ValueAtCont(s, c)(d) == ValueAt(s, d, c);
      ValueAtIff(s, d, c);
    }
    ColonSpecAt(s, a, c, d);
  }

  /** The colon can only follow the whole run of `sp`, when `sp` does not take it. */
  lemma {:induction false} ColonStar(s: string, a: nat, sp: char -> bool, k: Cont, d: nat)
    requires a <= |s| && !sp(':') && d == RunEnd(s, a, sp) + 1
    ensures var b := RunEnd(s, a, sp);
      Star(s, a, sp, ColonThen(s, k)) == if b < |s| && s[b] == ':' then k(d) else None
  {
    var b := RunEnd(s, a, sp);
    var colon := ColonThen(s, k);
    ColonThenAt(s, k, b, d);
    if b < |s| && s[b] == ':' && k(d).Some? {
      GreedyAt(s, a, sp, 0, colon, b);
    } else {
      forall e: nat | a <= e < b ensures colon(e).None? {
        ColonThenAt(s, k, e, e + 1);
        assert sp(s[e]);
      }
      GreedyNone(s, a, sp, 0, colon);
    }
  }

  /** `:` then `k` at `e`: `k` after the colon, when `e` holds one. */
  lemma {:induction false} ColonThenAt(s: string, k: Cont, e: nat, d: nat)
    requires d == e + 1
    ensures ColonThen(s, k)(e) == if e < |s| && s[e] == ':' then k(d) else None
  {
    ColonAt(s, e);
    LitAt(s, e, ":", true, k, d);
  }

  /** Matching the literal `:` case-insensitively. */
  lemma {:induction false} ColonAt(s: string, b: nat)
    ensures MatchesAt(s, b, ":", true) <==> b < |s| && s[b] == ':'
  {
    MatchesAtIff(s, b, ":", true);
  }

  /** `LabelAt` as the continuation `re.search` tries at every position. */
  function LabelCont(s: string, head: string, spaced: bool, c: char -> bool): Cont
  {
    (i: nat) => LabelAt(s, i, head, spaced, c)
  }

  /** A labelled field is found only where its label occurs, ignoring case. */
  lemma {:induction false} LabelFound(s: string, head: string, spaced: bool, c: char -> bool)
    requires Group1(Search(s, LabelCont(s, head, spaced, c))).Some?
    ensures Occurs(s, head, true)
  {
    var i: nat :| i <= |s| && LabelCont(s, head, spaced, c)(i).Some?;
    assert MatchesAt(s, i, head, true);
  }

  /**
    `re.search(head + r'\s*(c+)', s, re.IGNORECASE).group(1)` (with `\s*:` after
    the head when `spaced`): the value at the leftmost position where the field
    matches, or None when it matches nowhere.
   */
  function LabelField(s: string, head: string, spaced: bool, c: char -> bool): (r: Option<string>)
    ensures r.Some? ==> exists i: nat :: i <= |s| && LabelSpec(s, i, head, spaced, c) == Some([r.value])
                          && forall j: nat :: j < i ==> LabelSpec(s, j, head, spaced, c).None?
    ensures r.None? <==> forall i: nat :: i <= |s| ==> LabelSpec(s, i, head, spaced, c).None?
  {
    LabelFieldLeftmost(s, head, spaced, c);
    Group1(Search(s, LabelCont(s, head, spaced, c)))
  }

  lemma {:induction false} LabelFieldLeftmost(s: string, head: string, spaced: bool, c: char -> bool)
    ensures var r := Group1(Search(s, LabelCont(s, head, spaced, c)));
      && (r.Some? ==> exists i: nat :: i <= |s| && LabelSpec(s, i, head, spaced, c) == Some([r.value])
                        && forall j: nat :: j < i ==> LabelSpec(s, j, head, spaced, c).None?)
      && (r.None? <==> forall i: nat :: i <= |s| ==> LabelSpec(s, i, head, spaced, c).None?)
  {
    var at := LabelCont(s, head, spaced, c);
    var spec: Cont := (i: nat) => LabelSpec(s, i, head, spaced, c);
    forall i: nat ensures at(i) == spec(i) {
      LabelAtIff(s, i, head, spaced, c);
    }
    SearchBySpec(s, at, spec);
    var r := Group1(Search(s, at));
    if r.None? {
      forall i: nat | i <= |s| ensures LabelSpec(s, i, head, spaced, c).None? {
        assert spec(i).None?;
      }
    } else {
      var i: nat :| i <= |s| && spec(i) == Some([r.value]) && forall j: nat :: j < i ==> spec(j).None?;
      forall j: nat | j < i ensures LabelSpec(s, j, head, spaced, c).None? {
        assert spec(j).None?;
      }
    }
  }

  // ---------------------------------------------------------------- `open\s*([^<]+)\s*</b>` names

  const NameClose: string := "</b>"

  /** `open\s*([^<]+)\s*</b>` at `i`, case-insensitively. */
  function NameAt(s: string, i: nat, open: string): Option<Captures>
  {
    Lit(s, i, open, true, NameBodyCont(s))
  }

  function NameBodyCont(s: string): Cont
  {
    (a: nat) => NameBody(s, a)
  }

  function NameBody(s: string, a: nat): Option<Captures>
  {
    Star(s, a, IsSpace, NameRunCont(s))
  }

  function NameRunCont(s: string): Cont
  {
    (p: nat) => NameRun(s, p)
  }

  function NameRun(s: string, p: nat): Option<Captures>
  {
    Plus(s, p, NotLt, (e: nat) => NameTail(s, p, e))
  }

  function NameTail(s: string, p: nat, e: nat): Option<Captures>
  {
    Star(s, e, IsSpace, (f: nat) => Lit(s, f, NameClose, true, (_: nat) => Some([Slice(s, p, e)])))
  }

  /**
    What the name pattern captures at `i`.  The group runs to the first `<`
    after the tag, trailing whitespace included, and that `<` must begin
    `</b>`; the leading whitespace is skipped, except that when nothing but
    whitespace precedes the `<` the group is its last whitespace character.
   */
  function NameSpec(s: string, i: nat, open: string): Option<Captures>
  {
    Lit(s, i, open, true, NameBodySpecCont(s))
  }

  function NameBodySpecCont(s: string): Cont
  {
    (a: nat) => if a <= |s| then NameBodySpec(s, a, IsSpace) else None
  }

  /** What the name pattern captures after the opening tag ending at `a`. */
  function NameBodySpec(s: string, a: nat, sp: char -> bool): Option<Captures>
    requires a <= |s|
  {
    var b := RunEnd(s, a, sp);
    var e := RunEnd(s, a, NotLt);
    if !MatchesAt(s, e, NameClose, true) then None
    else if b < e then Some([s[b..e]])
    else if a < b then Some([s[b - 1..b]])
    else None
  }

  /** `</b>` can only match where the text has a `<`. */
  lemma {:induction false} CloseNeedsLt(s: string, f: nat)
    ensures MatchesAt(s, f, NameClose, true) ==> f < |s| && s[f] == '<'
  {
    MatchesAtIff(s, f, NameClose, true);
    if MatchesAt(s, f, NameClose, true) {
      assert CharMatch(s[f + 0], NameClose[0], true);
    }
  }

  /** After the run, only the whitespace reaching the `<` can be followed by `</b>`. */
  lemma {:induction false} NameTailIff(s: string, p: nat, e: nat)
    requires p <= |s| && p <= e <= RunEnd(s, p, NotLt)
    ensures var end := RunEnd(s, p, NotLt);
      NameTail(s, p, e) ==
        if RunEnd(s, e, IsSpace) == end && MatchesAt(s, end, NameClose, true) then Some([Slice(s, p, e)]) else None
  {
    var end := RunEnd(s, p, NotLt);
    var g := RunEnd(s, e, IsSpace);
    RunEndSkip(s, p, e, NotLt);
    RunEndWithin(s, e, IsSpace, NotLt);
    assert g <= end;
    var k: Cont := (f: nat) => Lit(s, f, NameClose, true, (_: nat) => Some([Slice(s, p, e)]));
    assert NameTail(s, p, e) == Star(s, e, IsSpace, k);
    assert Reach(s, e, IsSpace, |s|) == g;
    forall f | e <= f < end ensures k(f).None? {
      CloseNeedsLt(s, f);
    }
    if g == end {
      assert k(g) == if MatchesAt(s, end, NameClose, true) then Some([Slice(s, p, e)]) else None;
    }
  }

  /** The greedy run gives back nothing: the close must follow the whole run. */
  lemma {:induction false} NameRunIff(s: string, p: nat)
    requires p <= |s|
    ensures var end := RunEnd(s, p, NotLt);
      NameRun(s, p) == if p < end && MatchesAt(s, end, NameClose, true) then Some([s[p..end]]) else None
  {
    var end := RunEnd(s, p, NotLt);
    var k: Cont := (e: nat) => NameTail(s, p, e);
    assert NameRun(s, p) == Plus(s, p, NotLt, k);
    assert Reach(s, p, NotLt, |s|) == end;
    forall e | p <= e <= end ensures k(e) == if RunEnd(s, e, IsSpace) == end && MatchesAt(s, end, NameClose, true) then Some([Slice(s, p, e)]) else None {
      NameTailIff(s, p, e);
    }
    assert RunEnd(s, end, IsSpace) == end;
    if !MatchesAt(s, end, NameClose, true) {
      assert forall e | p + 1 <= e <= end :: k(e).None?;
    }
  }

  lemma {:induction false} NameAtIff(s: string, i: nat, open: string)
    ensures NameAt(s, i, open) == NameSpec(s, i, open)
  {
    forall a: nat ensures NameBodyCont(s)(a) == NameBodySpecCont(s)(a) {
      if a <= |s| {
        NameBodyIff(s, a);
      }
    }
    LitExt(s, i, open, true, NameBodyCont(s), NameBodySpecCont(s));
  }

  /** The greedy whitespace gives back at most one character, and only when the run after it is empty. */
  lemma {:induction false} NameBodyIff(s: string, a: nat)
    requires a <= |s|
    ensures NameBody(s, a) == NameBodySpec(s, a, IsSpace)
  {
    forall p: nat | p <= |s| ensures NameRunCont(s)(p) == NameRunSpec(s, p) {
      NameRunIff(s, p);
    }
    NameStar(s, a, IsSpace);
  }

  /** What `NameRun` yields: the whole run of non-`<` characters, when `</b>` follows it. */
  function NameRunSpec(s: string, p: nat): Option<Captures>
    requires p <= |s|
  {
    var end := RunEnd(s, p, NotLt);
    if p < end && MatchesAt(s, end, NameClose, true) then Some([s[p..end]]) else None
  }

  /** The greedy `sp*` before the name gives back at most one character. */
  lemma {:induction false} NameStar(s: string, a: nat, sp: char -> bool)
    requires a <= |s| && forall x :: sp(x) ==> NotLt(x)
    requires forall p: nat :: p <= |s| ==> NameRunCont(s)(p) == NameRunSpec(s, p)
    ensures Star(s, a, sp, NameRunCont(s)) == NameBodySpec(s, a, sp)
  {
    var end := RunEnd(s, a, NotLt);
    var m := MatchesAt(s, end, NameClose, true);
    RunEndWithin(s, a, sp, NotLt);
    NameRunsFrom(s, a, RunEnd(s, a, sp), end, m);
    StarBackOne(s, a, sp, NameRunCont(s), end, m);
  }

  /** From any point of the run of non-`<` characters, the name runs to its end. */
  lemma {:induction false} NameRunsFrom(s: string, a: nat, b: nat, end: nat, m: bool)
    requires a <= |s| && a <= b <= end == RunEnd(s, a, NotLt) && m == MatchesAt(s, end, NameClose, true)
    requires forall p: nat :: p <= |s| ==> NameRunCont(s)(p) == NameRunSpec(s, p)
    ensures forall p: nat :: a <= p <= b ==> NameRunCont(s)(p) == if p < end && m then Some([s[p..end]]) else None
  {
    forall p: nat | a <= p <= b ensures NameRunCont(s)(p) == if p < end && m then Some([s[p..end]]) else None {
      RunEndSkip(s, a, p, NotLt);
    }
  }

  function NameCont(s: string, open: string): Cont
  {
    (i: nat) => NameAt(s, i, open)
  }

  /** `re.search` of the name pattern: the group at the leftmost position where it matches. */
  function NameField(s: string, open: string): (r: Option<string>)
    ensures r.Some? ==> exists i: nat :: i <= |s| && NameSpec(s, i, open) == Some([r.value])
                          && forall j: nat :: j < i ==> NameSpec(s, j, open).None?
    ensures r.None? <==> forall i: nat :: i <= |s| ==> NameSpec(s, i, open).None?
  {
    NameFieldLeftmost(s, open);
    Group1(Search(s, NameCont(s, open)))
  }

  lemma {:induction false} NameFieldLeftmost(s: string, open: string)
    ensures var r := Group1(Search(s, NameCont(s, open)));
      && (r.Some? ==> exists i: nat :: i <= |s| && NameSpec(s, i, open) == Some([r.value])
                        && forall j: nat :: j < i ==> NameSpec(s, j, open).None?)
      && (r.None? <==> forall i: nat :: i <= |s| ==> NameSpec(s, i, open).None?)
  {
    var at := NameCont(s, open);
    var spec := NameSpecCont(s, open);
    forall i: nat ensures at(i) == spec(i) {
      NameAtIff(s, i, open);
    }
    SearchBySpec(s, at, spec);
    var r := Group1(Search(s, at));
    if r.None? {
      forall i: nat | i <= |s| ensures NameSpec(s, i, open).None? {
        assert spec(i).None?;
      }
    } else {
      var i: nat :| i <= |s| && spec(i) == Some([r.value]) && forall j: nat :: j < i ==> spec(j).None?;
      forall j: nat | j < i ensures NameSpec(s, j, open).None? {
        assert spec(j).None?;
      }
    }
  }

  function NameSpecCont(s: string, open: string): Cont
  {
    (i: nat) => NameSpec(s, i, open)
  }

  // ---------------------------------------------------------------- `head\s*(c+)tail` fields

  /** `head\s*(c+)tail` at `i`; the head and the tail are matched case-insensitively when `fold`. */
  function TailAt(s: string, i: nat, head: string, fold: bool, c: char -> bool, tail: string): Option<Captures>
  {
    Lit(s, i, head, fold, TailValueCont(s, c, tail, fold))
  }

  function TailValueCont(s: string, c: char -> bool, tail: string, fold: bool): Cont
  {
    (d: nat) => TailValue(s, d, c, tail, fold)
  }

  /** `\s*(c+)tail` at `d`. */
  function TailValue(s: string, d: nat, c: char -> bool, tail: string, fold: bool): Option<Captures>
  {
    Star(s, d, IsSpace, TailRunCont(s, c, tail, fold))
  }

  function TailRunCont(s: string, c: char -> bool, tail: string, fold: bool): Cont
  {
    (p: nat) => TailRun(s, p, c, tail, fold)
  }

  /** Whether the tail follows at `e`. */
  function TailOk(s: string, tail: string, fold: bool): nat -> bool
  {
    (e: nat) => MatchesAt(s, e, tail, fold)
  }

  /** `(c+)tail` at `p`. */
  function TailRun(s: string, p: nat, c: char -> bool, tail: string, fold: bool): Option<Captures>
  {
    Plus(s, p, c, (e: nat) => TailEnd(s, p, e, tail, fold))
  }

  /** `tail` at `e`, closing the group that started at `p`. */
  function TailEnd(s: string, p: nat, e: nat, tail: string, fold: bool): Option<Captures>
  {
    Lit(s, e, tail, fold, (_: nat) => Some([Slice(s, p, e)]))
  }

  /**
    What `head\s*(c+)tail` captures at `i`, when `c` stops at the tail: what
    `\s*(c+)` captures after the head, provided the tail follows the whole
    run of `c` after the whitespace.
   */
  function TailSpec(s: string, i: nat, head: string, fold: bool, c: char -> bool, tail: string): Option<Captures>
  {
    Lit(s, i, head, fold, TailRestCont(s, c, tail, fold))
  }

  function TailRestCont(s: string, c: char -> bool, tail: string, fold: bool): Cont
  {
    (d: nat) => if d <= |s| then TailRest(s, d, c, tail, fold) else None
  }

  /** What `\s*(c+)tail` captures at `d`. */
  function TailRest(s: string, d: nat, c: char -> bool, tail: string, fold: bool): Option<Captures>
    requires d <= |s|
  {
    var e := RunEnd(s, RunEnd(s, d, IsSpace), c);
    if MatchesAt(s, e, tail, fold) then ValueSpec(s, d, c) else None
  }

  /** The run gives nothing back: the tail must follow all of it. */
  lemma {:induction false} TailRunIff(s: string, p: nat, c: char -> bool, tail: string, fold: bool)
    requires p <= |s| && Stops(c, tail, fold)
    ensures var e := RunEnd(s, p, c);
      TailRun(s, p, c, tail, fold) == if p < e && MatchesAt(s, e, tail, fold) then Some([s[p..e]]) else None
  {
    var k: Cont := (e: nat) => TailEnd(s, p, e, tail, fold);
    assert TailRun(s, p, c, tail, fold) == Plus(s, p, c, k);
    GreedyStopsAt(s, p, c, 1, k, tail, fold);
  }

  /** The whitespace gives back at most its last character, as in `ValueSpec`. */
  lemma {:induction false} TailValueIff(s: string, d: nat, c: char -> bool, tail: string, fold: bool)
    requires d <= |s| && SpaceUniform(c) && Stops(c, tail, fold)
    ensures TailValue(s, d, c, tail, fold) == TailRest(s, d, c, tail, fold)
  {
    var ok := TailOk(s, tail, fold);
    forall p: nat | p <= |s| ensures TailRunCont(s, c, tail, fold)(p) ==
      if p < RunEnd(s, p, c) && ok(RunEnd(s, p, c)) then Some([s[p..RunEnd(s, p, c)]]) else None {
      TailRunIff(s, p, c, tail, fold);
    }
    StarRun(s, d, IsSpace, c, TailRunCont(s, c, tail, fold), ok);
    ValueSpecUniform(s, d, c);
  }

  lemma {:induction false} TailAtIff(s: string, i: nat, head: string, fold: bool, c: char -> bool, tail: string)
    requires SpaceUniform(c) && Stops(c, tail, fold)
    ensures TailAt(s, i, head, fold, c, tail) == TailSpec(s, i, head, fold, c, tail)
  {
    forall d: nat ensures TailValueCont(s, c, tail, fold)(d) == TailRestCont(s, c, tail, fold)(d) {
      if d <= |s| {
        TailValueIff(s, d, c, tail, fold);
      }
    }
    LitExt(s, i, head, fold, TailValueCont(s, c, tail, fold), TailRestCont(s, c, tail, fold));
  }

  /**
    `re.search(head + r'\s*(c+)' + tail, s).group(1)` (case-insensitive when
    `fold`): the value at the leftmost position where the field matches.
   */
  function TailField(s: string, head: string, fold: bool, c: char -> bool, tail: string): (r: Option<string>)
    requires SpaceUniform(c) && Stops(c, tail, fold)
    ensures r.Some? ==> exists i: nat :: i <= |s| && TailSpec(s, i, head, fold, c, tail) == Some([r.value])
                          && forall j: nat :: j < i ==> TailSpec(s, j, head, fold, c, tail).None?
    ensures r.None? <==> forall i: nat :: i <= |s| ==> TailSpec(s, i, head, fold, c, tail).None?
  {
    TailFieldLeftmost(s, head, fold, c, tail);
    Group1(Search(s, TailCont(s, head, fold, c, tail)))
  }

  function TailCont(s: string, head: string, fold: bool, c: char -> bool, tail: string): Cont
  {
    (i: nat) => TailAt(s, i, head, fold, c, tail)
  }

  lemma {:induction false} TailFieldLeftmost(s: string, head: string, fold: bool, c: char -> bool, tail: string)
    requires SpaceUniform(c) && Stops(c, tail, fold)
    ensures var r := Group1(Search(s, TailCont(s, head, fold, c, tail)));
      && (r.Some? ==> exists i: nat :: i <= |s| && TailSpec(s, i, head, fold, c, tail) == Some([r.value])
                        && forall j: nat :: j < i ==> TailSpec(s, j, head, fold, c, tail).None?)
      && (r.None? <==> forall i: nat :: i <= |s| ==> TailSpec(s, i, head, fold, c, tail).None?)
  {
    var spec: Cont := (i: nat) => TailSpec(s, i, head, fold, c, tail);
    forall i: nat ensures TailCont(s, head, fold, c, tail)(i) == spec(i) {
      TailAtIff(s, i, head, fold, c, tail);
    }
    SearchBySpec(s, TailCont(s, head, fold, c, tail), spec);
    var r := Group1(Search(s, TailCont(s, head, fold, c, tail)));
    if r.None? {
      forall i: nat | i <= |s| ensures TailSpec(s, i, head, fold, c, tail).None? {
        assert spec(i).None?;
      }
    } else {
      var i: nat :| i <= |s| && spec(i) == Some([r.value]) && forall j: nat :: j < i ==> spec(j).None?;
      forall j: nat | j < i ensures TailSpec(s, j, head, fold, c, tail).None? {
        assert spec(j).None?;
      }
    }
  }
}

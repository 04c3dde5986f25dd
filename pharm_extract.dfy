/**
  The pure steps of the two pharmacy-register services (pharmaceutical
  technologists and pharmacists), which differ only in the register's
  constants: the license number grammar, the search payload, the search
  page's "not found" test, and the fields read from the search row and from
  the details page.
 */
module PharmExtract {
  import opened Base
  import opened Text
  import opened Matcher

  // ---------------------------------------------------------------- the two registers

  /** The register a service verifies against. */
  datatype Register = PharmTech | Pharmacist

  /** The letters every license number of the register starts with. */
  function Prefix(reg: Register): string
  {
    match reg
    case PharmTech => "PT"
    case Pharmacist => "P"
  }

  /** The `cadre_id` the search payload names the register by. */
  function CadreId(reg: Register): string
  {
    match reg
    case PharmTech => "4"
    case Pharmacist => "2"
  }

  // ---------------------------------------------------------------- the license number format

  /** `[3-9]`, the last digit of the year. */
  predicate YearDigit(c: char)
  {
    '3' <= c <= '9'
  }

  /** `$` without MULTILINE: the end of the text, or a final newline just before it. */
  function End(s: string, e: nat): Option<Captures>
  {
    if e == |s| || (e + 1 == |s| && s[e] == '\n') then Some([]) else None
  }

  /**
    `validate_license_format`: `re.match(r'^PT202[3-9][A-Z]\d{5}$', s,
    re.IGNORECASE)` (with `P` for pharmacists).
   */
  function ValidateLicenseFormat(reg: Register, s: string): bool
  {
    Lit(s, 0, Prefix(reg) + "202", true, (a: nat) => YearThen(s, a)).Some?
  }

  /** `[3-9][A-Z]\d{5}$` at `a`. */
  function YearThen(s: string, a: nat): Option<Captures>
  {
    One(s, a, YearDigit, (b: nat) => LetterThen(s, b))
  }

  /** `[A-Z]\d{5}$` at `b`. */
  function LetterThen(s: string, b: nat): Option<Captures>
  {
    One(s, b, IsLetter, (c: nat) => Serial(s, c))
  }

  /** `\d{5}$` at `c`. */
  function Serial(s: string, c: nat): Option<Captures>
  {
    Greedy(s, c, IsDigit, 5, 5, (e: nat) => End(s, e))
  }

  /**
    The license numbers of the register, position by position: the prefix and
    "202" in either case, a year digit from 3 to 9, a letter, five digits, and
    at most a final newline after them.
   */
  ghost predicate ValidFormat(reg: Register, s: string)
  {
    var p := |Prefix(reg)|;
    && (|s| == p + 10 || (|s| == p + 11 && s[p + 10] == '\n'))
    && MatchesAt(s, 0, Prefix(reg) + "202", true)
    && YearDigit(s[p + 3])
    && IsLetter(s[p + 4])
    && forall j :: p + 5 <= j < p + 10 ==> IsDigit(s[j])
  }

  /** Five digits, then the end of the text or a final newline. */
  lemma {:induction false} SerialIff(s: string, c: nat)
    requires c <= |s|
    ensures Serial(s, c).Some? <==>
      (|s| == c + 5 || (|s| == c + 6 && s[c + 5] == '\n')) && forall j :: c <= j < c + 5 ==> IsDigit(s[j])
  {
    var k: Cont := (e: nat) => End(s, e);
    assert Serial(s, c) == Greedy(s, c, IsDigit, 5, 5, k);
    if c + 5 <= |s| && forall j :: c <= j < c + 5 ==> IsDigit(s[j]) {
      DigitsReach(s, c, 5);
      assert Reach(s, c, IsDigit, 5) == c + 5;
    } else {
      DigitsShort(s, c, 5);
      assert Reach(s, c, IsDigit, 5) < c + 5;
    }
  }

  /** The pattern accepts exactly the numbers of the grammar. */
  lemma {:induction false} FormatMatchIff(reg: Register, s: string)
    ensures ValidateLicenseFormat(reg, s) <==> ValidFormat(reg, s)
  {
    var p := |Prefix(reg)|;
    var lit := Prefix(reg) + "202";
    assert |lit| == p + 3;
    MatchesAtFits(s, 0, lit, true);
    if MatchesAt(s, 0, lit, true) {
      assert ValidateLicenseFormat(reg, s) == YearThen(s, p + 3).Some?;
      if p + 5 <= |s| && YearDigit(s[p + 3]) && IsLetter(s[p + 4]) {
        SerialIff(s, p + 5);
        assert YearThen(s, p + 3) == LetterThen(s, p + 4) == Serial(s, p + 5);
      }
    }
  }

  /** A run of `n` digits reaches `n` places. */
  lemma {:induction false} DigitsReach(s: string, c: nat, n: nat)
    requires c + n <= |s| && forall j :: c <= j < c + n ==> IsDigit(s[j])
    ensures RunEnd(s, c, IsDigit) >= c + n
    decreases n
  {
    if n > 0 {
      assert IsDigit(s[c]);
      DigitsReach(s, c + 1, n - 1);
    }
  }

  /** A gap among the next `n` places ends the run of digits before them. */
  lemma {:induction false} DigitsShort(s: string, c: nat, n: nat)
    requires c <= |s| && !(c + n <= |s| && forall j :: c <= j < c + n ==> IsDigit(s[j]))
    ensures RunEnd(s, c, IsDigit) < c + n
  {
  }

  /** The second character of a number: `T` (in either case) for pharmaceutical technologists, `2` for pharmacists. */
  lemma {:induction false} SecondCharacter(reg: Register, s: string)
    requires ValidFormat(reg, s)
    ensures reg == PharmTech ==> s[1] == 'T' || s[1] == 't'
    ensures reg == Pharmacist ==> s[1] == '2'
  {
    var lit := Prefix(reg) + "202";
    MatchesAtIff(s, 0, lit, true);
    assert CharMatch(s[1], lit[1], true);
  }

  /** No text is a license number of both registers. */
  lemma {:induction false} FormatsDisjoint(s: string)
    ensures !(ValidFormat(PharmTech, s) && ValidFormat(Pharmacist, s))
  {
    if ValidFormat(Pharmacist, s) {
      SecondCharacter(Pharmacist, s);
    }
  }

  /** Case folding sees a letter and its upper-case form alike. */
  lemma {:induction false} MatchesAtUpper(s: string, i: nat, lit: string)
    ensures MatchesAt(Upper(s), i, lit, true) <==> MatchesAt(s, i, lit, true)
  {
    MatchesAtIff(s, i, lit, true);
    MatchesAtIff(Upper(s), i, lit, true);
    if i + |lit| <= |s| {
      forall j | 0 <= j < |lit| ensures CharMatch(Upper(s)[i + j], lit[j], true) <==> CharMatch(s[i + j], lit[j], true) {
        assert Upper(s)[i + j] == ToUpper(s[i + j]);
      }
    }
  }

  /** The check ignores case, so it accepts a number exactly when it accepts its upper-cased form. */
  lemma {:induction false} FormatIgnoresCase(reg: Register, s: string)
    ensures ValidFormat(reg, Upper(s)) <==> ValidFormat(reg, s)
  {
    var p := |Prefix(reg)|;
    var u := Upper(s);
    MatchesAtUpper(s, 0, Prefix(reg) + "202");
    if |s| >= p + 10 {
      assert YearDigit(u[p + 3]) <==> YearDigit(s[p + 3]);
      assert IsLetter(u[p + 4]) <==> IsLetter(s[p + 4]);
      assert forall j :: p + 5 <= j < p + 10 ==> (IsDigit(u[j]) <==> IsDigit(s[j]));
      if |s| == p + 11 {
        assert u[p + 10] == '\n' <==> s[p + 10] == '\n';
      }
    }
  }

  /** A stripped number ends without a newline: one of the register has exactly its prefix's length plus ten characters. */
  lemma {:induction false} FormatLength(reg: Register, s: string)
    requires IsStripped(s) && ValidFormat(reg, s)
    ensures |s| == |Prefix(reg)| + 10
  {
    if |s| == |Prefix(reg)| + 11 {
      assert IsSpace(s[|s| - 1]);
    }
  }

  /** The numbers of the tests: accepted and rejected alike. */
  lemma {:induction false} FormatExamples()
    ensures ValidFormat(PharmTech, "PT2025D05614") && ValidFormat(PharmTech, "pt2023z99999")
    ensures ValidFormat(Pharmacist, "P2025D00463")
    ensures !ValidFormat(PharmTech, "PT2022A00000") && !ValidFormat(PharmTech, "PT2030A00000")
    ensures !ValidFormat(PharmTech, "PT2025D0561") && !ValidFormat(PharmTech, "PT2025D")
    ensures !ValidFormat(Pharmacist, "PT2025D05614")
  {
    TechExampleValid();
    LowerExampleValid();
    PharmacistExampleValid();
    YearTwoRejected();
    YearThirtyRejected();
    FormatsDisjoint("PT2025D05614");
  }

  lemma {:induction false} TechExampleValid()
    ensures ValidFormat(PharmTech, "PT2025D05614")
  {
    assert MatchesAt("PT2025D05614", 0, "PT202", true);
  }

  lemma {:induction false} LowerExampleValid()
    ensures ValidFormat(PharmTech, "pt2023z99999")
  {
    assert MatchesAt("pt2023z99999", 0, "PT202", true);
  }

  lemma {:induction false} PharmacistExampleValid()
    ensures ValidFormat(Pharmacist, "P2025D00463")
  {
    assert MatchesAt("P2025D00463", 0, "P202", true);
  }

  /** A year digit below 3 is refused. */
  lemma {:induction false} YearTwoRejected()
    ensures !ValidFormat(PharmTech, "PT2022A00000")
  {
    assert !YearDigit("PT2022A00000"[5]);
  }

  /** A year past 2029 is refused: the number must start with "202". */
  lemma {:induction false} YearThirtyRejected()
    ensures !ValidFormat(PharmTech, "PT2030A00000")
  {
    MatchesAtIff("PT2030A00000", 0, "PT202", true);
    assert !CharMatch("PT2030A00000"[4], "PT202"[4], true);
  }

  /** `license_number.strip().upper()`, the normalised number: no margins, no lower-case letters. */
  function Normalise(s: string): (r: string)
    ensures |r| <= |s|
    ensures IsStripped(r)
    ensures forall i :: 0 <= i < |r| ==> ToUpper(r[i]) == r[i]
  {
    var t := Strip(s);
    UpperNormal(t);
    Upper(t)
  }

  /** Upper-casing a stripped text keeps it stripped and leaves no lower-case letter. */
  lemma {:induction false} UpperNormal(t: string)
    requires IsStripped(t)
    ensures IsStripped(Upper(t))
    ensures forall i :: 0 <= i < |t| ==> ToUpper(Upper(t)[i]) == Upper(t)[i]
  {
    UpperStripped(t);
    forall i | 0 <= i < |t| ensures ToUpper(Upper(t)[i]) == Upper(t)[i] {
      UpperTwice(t[i]);
    }
  }

  lemma {:induction false} UpperTwice(c: char)
    ensures ToUpper(ToUpper(c)) == ToUpper(c)
  {
    if 'a' <= c <= 'z' {
      assert 'A' <= ToUpper(c) <= 'Z';
    }
  }

  /** Normalising a normalised number changes nothing: every spelling of a number has one normal form. */
  lemma {:induction false} NormaliseIdempotent(s: string)
    ensures Normalise(Normalise(s)) == Normalise(s)
  {
    var n := Normalise(s);
    StripClean(n);
    assert Upper(n) == n;
  }

  // ---------------------------------------------------------------- the search request

  /** The form the search posts: the register, and the normalised number to search for. */
  function SearchPayload(reg: Register, id: string): (r: map<string, string>)
    ensures r.Keys == {"search_register", "cadre_id", "search_text"}
    ensures r["search_register"] == "1" && r["cadre_id"] == CadreId(reg) && r["search_text"] == id
  {
    map["search_register" := "1", "cadre_id" := CadreId(reg), "search_text" := id]
  }

  /** A payload names its register and its number. */
  lemma {:induction false} PayloadInjective(r1: Register, a: string, r2: Register, b: string)
    ensures SearchPayload(r1, a) == SearchPayload(r2, b) <==> r1 == r2 && a == b
  {
    if SearchPayload(r1, a) == SearchPayload(r2, b) {
      assert SearchPayload(r1, a)["cadre_id"] == SearchPayload(r2, b)["cadre_id"];
      assert SearchPayload(r1, a)["search_text"] == SearchPayload(r2, b)["search_text"];
    }
  }

  /** The query of the details request for the encoded id. */
  function DetailsParams(id: string): (r: map<string, string>)
    ensures r.Keys == {"search_details", "id"} && r["search_details"] == "get" && r["id"] == id
  {
    map["search_details" := "get", "id" := id]
  }

  // ---------------------------------------------------------------- the search page

  const NoRecordsMarker: string := "No records found"

  /** `not search_html or "No records found" in search_html`. */
  function NoRecords(html: string): (r: bool)
    ensures r <==> html == [] || Occurs(html, NoRecordsMarker, false)
  {
    html == [] || Found(html, NoRecordsMarker, false)
  }

  // `<td[^>]*>`, the opening of a table cell.

  /** `<td[^>]*>` at `i`, case-insensitively, then `k`. */
  function CellOpen(s: string, i: nat, k: Cont): Option<Captures>
  {
    Lit(s, i, "<td", true, (a: nat) => CellRest(s, a, k))
  }

  /** `[^>]*>` at `a`, then `k`. */
  function CellRest(s: string, a: nat, k: Cont): Option<Captures>
  {
    Star(s, a, NotGt, (b: nat) => Lit(s, b, ">", true, k))
  }

  /** Where the cell's content starts: after the first `>` that follows `<td`. */
  function CellStart(s: string, i: nat): (r: Option<nat>)
    ensures r.Some? ==> MatchesAt(s, i, "<td", true) && i + 3 <= r.value - 1 < |s| && s[r.value - 1] == '>'
                        && forall j :: i + 3 <= j < r.value - 1 ==> s[j] != '>'
  {
    MatchesAtFits(s, i, "<td", true);
    if !MatchesAt(s, i, "<td", true) then None
    else
      var b := RunEnd(s, i + 3, NotGt);
      if b < |s| && s[b] == '>' then Some(b + 1) else None
  }

  /** The cell opening gives nothing back: the content starts after the first `>`. */
  lemma {:induction false} CellOpenIff(s: string, i: nat, k: Cont)
    ensures CellOpen(s, i, k) == match CellStart(s, i) case None => None case Some(p) => k(p)
  {
    MatchesAtFits(s, i, "<td", true);
    if MatchesAt(s, i, "<td", true) {
      var a := i + 3;
      var kk: Cont := (b: nat) => Lit(s, b, ">", true, k);
      assert CellRest(s, a, k) == Star(s, a, NotGt, kk);
      assert Stops(NotGt, ">", true);
      GreedyStopsAt(s, a, NotGt, 0, kk, ">", true);
      SymbolAt(s, RunEnd(s, a, NotGt), '>', true);
    }
  }

  /** A cell opening can only match where the text has `<td`. */
  lemma {:induction false} CellOpenStart(s: string, i: nat, k: Cont)
    ensures CellOpen(s, i, k).Some? ==> MatchesAt(s, i, "<td", true)
  {
  }

  // `<td[^>]*>([^<]+)</td>\s*<td[^>]*>PT`, the name cell before the license cell.

  function NameCellAt(s: string, i: nat, prefix: string): Option<Captures>
  {
    CellOpen(s, i, (p: nat) => NameCellRun(s, p, prefix))
  }

  function NameCellRun(s: string, p: nat, prefix: string): Option<Captures>
  {
    Plus(s, p, NotLt, (e: nat) => NameCellClose(s, p, e, prefix))
  }

  function NameCellClose(s: string, p: nat, e: nat, prefix: string): Option<Captures>
  {
    Lit(s, e, "</td>", true, (f: nat) => NameCellNext(s, p, e, f, prefix))
  }

  function NameCellNext(s: string, p: nat, e: nat, f: nat, prefix: string): Option<Captures>
  {
    Star(s, f, IsSpace, (g: nat) => CellOpen(s, g, (l: nat) => NameCellPrefix(s, p, e, l, prefix)))
  }

  function NameCellPrefix(s: string, p: nat, e: nat, l: nat, prefix: string): Option<Captures>
  {
    Lit(s, l, prefix, true, (_: nat) => Some([Slice(s, p, e)]))
  }

  /**
    What the name pattern captures at `i`: the first cell's text, up to its
    first `<`, which must begin `</td>`; then, past any whitespace, a second
    cell whose content starts with the register's prefix.
   */
  function NameCellSpec(s: string, i: nat, prefix: string): Option<Captures>
  {
    match CellStart(s, i)
    case None => None
    case Some(p) => NameCellBody(s, p, prefix)
  }

  /** The name cell's content from `p`: a non-empty run without `<`, closed by `</td>`. */
  function NameCellBody(s: string, p: nat, prefix: string): Option<Captures>
    requires p <= |s|
  {
    var e := RunEnd(s, p, NotLt);
    MatchesAtFits(s, e, "</td>", true);
    if p < e && MatchesAt(s, e, "</td>", true) then NameCellSecond(s, p, e, prefix) else None
  }

  /** After the name cell `s[p..e]` and its `</td>`: the license cell, starting with the prefix. */
  function NameCellSecond(s: string, p: nat, e: nat, prefix: string): Option<Captures>
    requires p <= e && e + 5 <= |s|
  {
    match CellStart(s, RunEnd(s, e + 5, IsSpace))
    case None => None
    case Some(l) => if MatchesAt(s, l, prefix, true) then Some([s[p..e]]) else None
  }

  lemma {:induction false} NameCellNextIff(s: string, p: nat, e: nat, f: nat, prefix: string)
    requires f <= |s|
    ensures NameCellNext(s, p, e, f, prefix) ==
      match CellStart(s, RunEnd(s, f, IsSpace))
      case None => None
      case Some(l) => NameCellPrefix(s, p, e, l, prefix)
  {
    var rest: Cont := (l: nat) => NameCellPrefix(s, p, e, l, prefix);
    var k: Cont := (g: nat) => CellOpen(s, g, rest);
    assert NameCellNext(s, p, e, f, prefix) == Star(s, f, IsSpace, k);
    forall g: nat ensures k(g).Some? ==> MatchesAt(s, g, "<td", true) {
      CellOpenStart(s, g, rest);
    }
    assert Stops(IsSpace, "<td", true);
    GreedyStopsAt(s, f, IsSpace, 0, k, "<td", true);
    CellOpenIff(s, RunEnd(s, f, IsSpace), rest);
  }

  lemma {:induction false} NameCellRunIff(s: string, p: nat, prefix: string)
    requires p <= |s|
    ensures var e := RunEnd(s, p, NotLt);
      NameCellRun(s, p, prefix) == if p < e then NameCellClose(s, p, e, prefix) else None
  {
    var k: Cont := (e: nat) => NameCellClose(s, p, e, prefix);
    assert NameCellRun(s, p, prefix) == Plus(s, p, NotLt, k);
    assert Stops(NotLt, "</td>", true);
    GreedyStopsAt(s, p, NotLt, 1, k, "</td>", true);
  }

  lemma {:induction false} NameCellSecondIff(s: string, p: nat, e: nat, prefix: string)
    requires p <= e && e + 5 <= |s|
    ensures NameCellNext(s, p, e, e + 5, prefix) == NameCellSecond(s, p, e, prefix)
  {
    NameCellNextIff(s, p, e, e + 5, prefix);
    var l := CellStart(s, RunEnd(s, e + 5, IsSpace));
    if l.Some? {
      assert NameCellPrefix(s, p, e, l.value, prefix)
          == if MatchesAt(s, l.value, prefix, true) then Some([s[p..e]]) else None;
    }
  }

  lemma {:induction false} NameCellCloseIff(s: string, p: nat, e: nat, prefix: string)
    requires p <= e <= |s|
    ensures MatchesAt(s, e, "</td>", true) ==> e + 5 <= |s|
    ensures NameCellClose(s, p, e, prefix)
         == if MatchesAt(s, e, "</td>", true) then NameCellSecond(s, p, e, prefix) else None
  {
    MatchesAtFits(s, e, "</td>", true);
    if MatchesAt(s, e, "</td>", true) {
      assert NameCellClose(s, p, e, prefix) == NameCellNext(s, p, e, e + 5, prefix);
      NameCellSecondIff(s, p, e, prefix);
    }
  }

  lemma {:induction false} NameCellBodyIff(s: string, p: nat, prefix: string)
    requires p <= |s|
    ensures NameCellRun(s, p, prefix) == NameCellBody(s, p, prefix)
  {
    NameCellRunIff(s, p, prefix);
    var e := RunEnd(s, p, NotLt);
    if p < e {
      NameCellCloseIff(s, p, e, prefix);
    }
  }

  lemma {:induction false} NameCellAtIff(s: string, i: nat, prefix: string)
    ensures NameCellAt(s, i, prefix) == NameCellSpec(s, i, prefix)
  {
    CellOpenIff(s, i, (p: nat) => NameCellRun(s, p, prefix));
    var start := CellStart(s, i);
    if start.Some? {
      NameCellBodyIff(s, start.value, prefix);
    }
  }

  function NameCellCont(s: string, prefix: string): Cont
  {
    (i: nat) => NameCellAt(s, i, prefix)
  }

  /** `re.search(r"<td[^>]*>([^<]+)</td>\s*<td[^>]*>PT", html, re.IGNORECASE).group(1)`, with the register's prefix. */
  function NameCellField(s: string, prefix: string): (r: Option<string>)
    ensures r.Some? ==> exists i: nat :: i <= |s| && NameCellSpec(s, i, prefix) == Some([r.value])
                          && forall j: nat :: j < i ==> NameCellSpec(s, j, prefix).None?
    ensures r.None? <==> forall i: nat :: i <= |s| ==> NameCellSpec(s, i, prefix).None?
  {
    NameCellLeftmost(s, prefix);
    Group1(Search(s, NameCellCont(s, prefix)))
  }

  function NameCellSpecCont(s: string, prefix: string): Cont
  {
    (i: nat) => NameCellSpec(s, i, prefix)
  }

  /** The pattern matches as its specification says, with one group. */
  lemma {:induction false} NameCellAgrees(s: string, prefix: string)
    ensures forall i: nat :: NameCellCont(s, prefix)(i) == NameCellSpecCont(s, prefix)(i)
    ensures forall i: nat :: NameCellSpecCont(s, prefix)(i).Some? ==> |NameCellSpecCont(s, prefix)(i).value| == 1
  {
    forall i: nat ensures NameCellCont(s, prefix)(i) == NameCellSpecCont(s, prefix)(i) {
      NameCellAtIff(s, i, prefix);
    }
  }

  lemma {:induction false} NameCellLeftmost(s: string, prefix: string)
    ensures var r := Group1(Search(s, NameCellCont(s, prefix)));
      && (r.Some? ==> exists i: nat :: i <= |s| && NameCellSpec(s, i, prefix) == Some([r.value])
                        && forall j: nat :: j < i ==> NameCellSpec(s, j, prefix).None?)
      && (r.None? <==> forall i: nat :: i <= |s| ==> NameCellSpec(s, i, prefix).None?)
  {
    NameCellAgrees(s, prefix);
    SearchExt(s, NameCellCont(s, prefix), NameCellSpecCont(s, prefix));
    NameCellSpecSearch(s, prefix);
  }

  lemma {:induction false} NameCellSpecSearch(s: string, prefix: string)
    ensures var r := Group1(Search(s, NameCellSpecCont(s, prefix)));
      && (r.Some? ==> exists i: nat :: i <= |s| && NameCellSpec(s, i, prefix) == Some([r.value])
                        && forall j: nat :: j < i ==> NameCellSpec(s, j, prefix).None?)
      && (r.None? <==> forall i: nat :: i <= |s| ==> NameCellSpec(s, i, prefix).None?)
  {
    var spec := NameCellSpecCont(s, prefix);
    NameCellAgrees(s, prefix);
    SearchBySpec(s, spec, spec);
    var r := Group1(Search(s, spec));
    if r.Some? {
      var i: nat :| i <= |s| && spec(i) == Some([r.value]) && forall j: nat :: j < i ==> spec(j).None?;
      NameCellSpecBefore(s, prefix, i);
    } else {
      NameCellSpecBefore(s, prefix, |s| + 1);
    }
  }

  /** The positions where the specification matches are those where its continuation does. */
  lemma {:induction false} NameCellSpecBefore(s: string, prefix: string, i: nat)
    ensures (forall j: nat :: j < i ==> NameCellSpecCont(s, prefix)(j).None?)
        <==> (forall j: nat :: j < i ==> NameCellSpec(s, j, prefix).None?)
  {
    var spec := NameCellSpecCont(s, prefix);
    forall j: nat | j < i ensures spec(j) == NameCellSpec(s, j, prefix) { }
  }


  // `<td[^>]*>(PT\d+[A-Z]\d+)</td>`, the license cell.

  function LicenseCellAt(s: string, i: nat, prefix: string): Option<Captures>
  {
    CellOpen(s, i, (p: nat) => LicenseCellPrefix(s, p, prefix))
  }

  function LicenseCellPrefix(s: string, p: nat, prefix: string): Option<Captures>
  {
    Lit(s, p, prefix, true, LicenseCellDigitsCont(s, p))
  }

  function LicenseCellDigitsCont(s: string, p: nat): Cont
  {
    (q: nat) => LicenseCellDigits(s, p, q)
  }

  function LicenseCellDigits(s: string, p: nat, q: nat): Option<Captures>
  {
    Plus(s, q, IsDigit, (d: nat) => LicenseCellLetter(s, p, d))
  }

  function LicenseCellLetter(s: string, p: nat, d: nat): Option<Captures>
  {
    One(s, d, IsLetter, (x: nat) => LicenseCellSerial(s, p, x))
  }

  function LicenseCellSerial(s: string, p: nat, x: nat): Option<Captures>
  {
    Plus(s, x, IsDigit, (e: nat) => LicenseCellEnd(s, p, e))
  }

  function LicenseCellEnd(s: string, p: nat, e: nat): Option<Captures>
  {
    Lit(s, e, "</td>", true, (_: nat) => Some([Slice(s, p, e)]))
  }

  /**
    What the license pattern captures at `i`: a cell whose whole content is
    the prefix (in either case), digits, one letter and digits, up to `</td>`.
   */
  function LicenseCellSpec(s: string, i: nat, prefix: string): Option<Captures>
  {
    match CellStart(s, i)
    case None => None
    case Some(p) => Lit(s, p, prefix, true, LicenseCellNumberCont(s, p))
  }

  /** The rest of the cell content that starts at `p`, from the end `q` of the prefix. */
  function LicenseCellNumberCont(s: string, p: nat): Cont
  {
    (q: nat) => if q <= |s| then LicenseCellNumber(s, p, q) else None
  }

  /** After the prefix, ending at `q`, of the cell content that starts at `p`: digits, a letter, digits, `</td>`. */
  function LicenseCellNumber(s: string, p: nat, q: nat): Option<Captures>
    requires q <= |s|
  {
    var d := RunEnd(s, q, IsDigit);
    if q < d && d < |s| && IsLetter(s[d]) then LicenseCellTail(s, p, d + 1) else None
  }

  /** The serial digits from `x`, then `</td>`, closing the cell content that starts at `p`. */
  function LicenseCellTail(s: string, p: nat, x: nat): Option<Captures>
    requires x <= |s|
  {
    var e := RunEnd(s, x, IsDigit);
    if x < e && MatchesAt(s, e, "</td>", true) then Some([Slice(s, p, e)]) else None
  }

  lemma {:induction false} LicenseCellSerialIff(s: string, p: nat, x: nat)
    requires x <= |s|
    ensures var e := RunEnd(s, x, IsDigit);
      LicenseCellSerial(s, p, x) == if x < e then LicenseCellEnd(s, p, e) else None
  {
    var k: Cont := (e: nat) => LicenseCellEnd(s, p, e);
    assert LicenseCellSerial(s, p, x) == Plus(s, x, IsDigit, k);
    assert Stops(IsDigit, "</td>", true);
    GreedyStopsAt(s, x, IsDigit, 1, k, "</td>", true);
  }

  lemma {:induction false} LicenseCellDigitsIff(s: string, p: nat, q: nat)
    requires q <= |s|
    ensures var d := RunEnd(s, q, IsDigit);
      LicenseCellDigits(s, p, q) == if q < d then LicenseCellLetter(s, p, d) else None
  {
    var k: Cont := (d: nat) => LicenseCellLetter(s, p, d);
    assert LicenseCellDigits(s, p, q) == Plus(s, q, IsDigit, k);
    GreedyStops(s, q, IsDigit, 1, k, IsLetter);
  }

  lemma {:induction false} LicenseCellTailIff(s: string, p: nat, x: nat)
    requires x <= |s|
    ensures LicenseCellSerial(s, p, x) == LicenseCellTail(s, p, x)
  {
    LicenseCellSerialIff(s, p, x);
    var e := RunEnd(s, x, IsDigit);
    if x < e {
      assert LicenseCellEnd(s, p, e) == if MatchesAt(s, e, "</td>", true) then Some([Slice(s, p, e)]) else None;
    }
  }

  lemma {:induction false} LicenseCellNumberIff(s: string, p: nat, q: nat)
    requires q <= |s|
    ensures LicenseCellDigits(s, p, q) == LicenseCellNumber(s, p, q)
  {
    LicenseCellDigitsIff(s, p, q);
    var d := RunEnd(s, q, IsDigit);
    if q < d {
      if d < |s| && IsLetter(s[d]) {
        assert LicenseCellLetter(s, p, d) == LicenseCellSerial(s, p, d + 1);
        LicenseCellTailIff(s, p, d + 1);
      } else {
        assert LicenseCellLetter(s, p, d).None?;
      }
    }
  }

  lemma {:induction false} LicenseCellAtIff(s: string, i: nat, prefix: string)
    ensures LicenseCellAt(s, i, prefix) == LicenseCellSpec(s, i, prefix)
  {
    CellOpenIff(s, i, (p: nat) => LicenseCellPrefix(s, p, prefix));
    var start := CellStart(s, i);
    if start.Some? {
      LicenseCellPrefixIff(s, start.value, prefix);
    }
  }

  lemma {:induction false} LicenseCellPrefixIff(s: string, p: nat, prefix: string)
    ensures LicenseCellPrefix(s, p, prefix) == Lit(s, p, prefix, true, LicenseCellNumberCont(s, p))
  {
    LicenseCellContAgree(s, p);
    LitExt(s, p, prefix, true, LicenseCellDigitsCont(s, p), LicenseCellNumberCont(s, p));
  }

  lemma {:induction false} LicenseCellContAgree(s: string, p: nat)
    ensures forall q: nat :: LicenseCellDigitsCont(s, p)(q) == LicenseCellNumberCont(s, p)(q)
  {
    forall q: nat ensures LicenseCellDigitsCont(s, p)(q) == LicenseCellNumberCont(s, p)(q) {
      if q <= |s| {
        LicenseCellNumberIff(s, p, q);
      }
    }
  }

  function LicenseCellCont(s: string, prefix: string): Cont
  {
    (i: nat) => LicenseCellAt(s, i, prefix)
  }

  /** `re.search(r"<td[^>]*>(PT\d+[A-Z]\d+)</td>", html, re.IGNORECASE).group(1)`, with the register's prefix. */
  function LicenseCellField(s: string, prefix: string): (r: Option<string>)
    ensures r.Some? ==> exists i: nat :: i <= |s| && LicenseCellSpec(s, i, prefix) == Some([r.value])
                          && forall j: nat :: j < i ==> LicenseCellSpec(s, j, prefix).None?
    ensures r.None? <==> forall i: nat :: i <= |s| ==> LicenseCellSpec(s, i, prefix).None?
  {
    LicenseCellLeftmost(s, prefix);
    Group1(Search(s, LicenseCellCont(s, prefix)))
  }

  function LicenseCellSpecCont(s: string, prefix: string): Cont
  {
    (i: nat) => LicenseCellSpec(s, i, prefix)
  }

  /** The pattern matches as its specification says, with one group. */
  lemma {:induction false} LicenseCellAgrees(s: string, prefix: string)
    ensures forall i: nat :: LicenseCellCont(s, prefix)(i) == LicenseCellSpecCont(s, prefix)(i)
    ensures forall i: nat :: LicenseCellSpecCont(s, prefix)(i).Some? ==> |LicenseCellSpecCont(s, prefix)(i).value| == 1
  {
    forall i: nat ensures LicenseCellCont(s, prefix)(i) == LicenseCellSpecCont(s, prefix)(i) {
      LicenseCellAtIff(s, i, prefix);
    }
  }

  lemma {:induction false} LicenseCellLeftmost(s: string, prefix: string)
    ensures var r := Group1(Search(s, LicenseCellCont(s, prefix)));
      && (r.Some? ==> exists i: nat :: i <= |s| && LicenseCellSpec(s, i, prefix) == Some([r.value])
                        && forall j: nat :: j < i ==> LicenseCellSpec(s, j, prefix).None?)
      && (r.None? <==> forall i: nat :: i <= |s| ==> LicenseCellSpec(s, i, prefix).None?)
  {
    LicenseCellAgrees(s, prefix);
    SearchExt(s, LicenseCellCont(s, prefix), LicenseCellSpecCont(s, prefix));
    LicenseCellSpecSearch(s, prefix);
  }

  lemma {:induction false} LicenseCellSpecSearch(s: string, prefix: string)
    ensures var r := Group1(Search(s, LicenseCellSpecCont(s, prefix)));
      && (r.Some? ==> exists i: nat :: i <= |s| && LicenseCellSpec(s, i, prefix) == Some([r.value])
                        && forall j: nat :: j < i ==> LicenseCellSpec(s, j, prefix).None?)
      && (r.None? <==> forall i: nat :: i <= |s| ==> LicenseCellSpec(s, i, prefix).None?)
  {
    var spec := LicenseCellSpecCont(s, prefix);
    LicenseCellAgrees(s, prefix);
    SearchBySpec(s, spec, spec);
    var r := Group1(Search(s, spec));
    if r.Some? {
      var i: nat :| i <= |s| && spec(i) == Some([r.value]) && forall j: nat :: j < i ==> spec(j).None?;
      LicenseCellSpecBefore(s, prefix, i);
    } else {
      LicenseCellSpecBefore(s, prefix, |s| + 1);
    }
  }

  /** The positions where the specification matches are those where its continuation does. */
  lemma {:induction false} LicenseCellSpecBefore(s: string, prefix: string, i: nat)
    ensures (forall j: nat :: j < i ==> LicenseCellSpecCont(s, prefix)(j).None?)
        <==> (forall j: nat :: j < i ==> LicenseCellSpec(s, j, prefix).None?)
  {
    var spec := LicenseCellSpecCont(s, prefix);
    forall j: nat | j < i ensures spec(j) == LicenseCellSpec(s, j, prefix) { }
  }


  // ---------------------------------------------------------------- the photo

  const PhotoOpen: string := "<img src=\""
  const PhotoWidth: string := "width=\"200\""

  /** `<img src="([^"]+)"\s+width="200"` at `i`, case-insensitively. */
  function PhotoAt(s: string, i: nat): Option<Captures>
  {
    Lit(s, i, PhotoOpen, true, (p: nat) => PhotoSource(s, p))
  }

  function PhotoSource(s: string, p: nat): Option<Captures>
  {
    Plus(s, p, NotDoubleQuote, (e: nat) => PhotoQuote(s, p, e))
  }

  function PhotoQuote(s: string, p: nat, e: nat): Option<Captures>
  {
    Lit(s, e, "\"", true, PhotoSpaceCont(s, p, e))
  }

  function PhotoSpaceCont(s: string, p: nat, e: nat): Cont
  {
    (f: nat) => PhotoSpace(s, p, e, f)
  }

  function PhotoSpace(s: string, p: nat, e: nat, f: nat): Option<Captures>
  {
    Plus(s, f, IsSpace, (g: nat) => PhotoEnd(s, p, e, g))
  }

  function PhotoEnd(s: string, p: nat, e: nat, g: nat): Option<Captures>
  {
    Lit(s, g, PhotoWidth, true, (_: nat) => Some([Slice(s, p, e)]))
  }

  /**
    What the photo pattern captures at `i`: the whole quoted source, which
    must be followed by whitespace and `width="200"`.
   */
  function PhotoSpec(s: string, i: nat): Option<Captures>
  {
    MatchesAtFits(s, i, PhotoOpen, true);
    if MatchesAt(s, i, PhotoOpen, true) then PhotoSourceSpec(s, i + |PhotoOpen|) else None
  }

  /** From the start `p` of the source: a non-empty run without `"`, then the closing quote. */
  function PhotoSourceSpec(s: string, p: nat): Option<Captures>
    requires p <= |s|
  {
    var e := RunEnd(s, p, NotDoubleQuote);
    if p < e && e < |s| && s[e] == '"' then PhotoWidthSpec(s, p, e) else None
  }

  /** After the source `s[p..e]` and its quote: whitespace, then `width="200"`. */
  function PhotoWidthSpec(s: string, p: nat, e: nat): Option<Captures>
    requires p <= e < |s|
  {
    var g := RunEnd(s, e + 1, IsSpace);
    if e + 1 < g && MatchesAt(s, g, PhotoWidth, true) then Some([s[p..e]]) else None
  }

  lemma {:induction false} PhotoSpaceIff(s: string, p: nat, e: nat, f: nat)
    requires f <= |s|
    ensures var g := RunEnd(s, f, IsSpace);
      PhotoSpace(s, p, e, f) == if f < g then PhotoEnd(s, p, e, g) else None
  {
    var k: Cont := (g: nat) => PhotoEnd(s, p, e, g);
    assert PhotoSpace(s, p, e, f) == Plus(s, f, IsSpace, k);
    assert Stops(IsSpace, PhotoWidth, true);
    GreedyStopsAt(s, f, IsSpace, 1, k, PhotoWidth, true);
  }

  lemma {:induction false} PhotoSourceIff(s: string, p: nat)
    requires p <= |s|
    ensures var e := RunEnd(s, p, NotDoubleQuote);
      PhotoSource(s, p) == if p < e then PhotoQuote(s, p, e) else None
  {
    var k: Cont := (e: nat) => PhotoQuote(s, p, e);
    assert PhotoSource(s, p) == Plus(s, p, NotDoubleQuote, k);
    assert Stops(NotDoubleQuote, "\"", true);
    GreedyStopsAt(s, p, NotDoubleQuote, 1, k, "\"", true);
  }

  lemma {:induction false} PhotoWidthIff(s: string, p: nat, e: nat)
    requires p <= e < |s|
    ensures PhotoSpace(s, p, e, e + 1) == PhotoWidthSpec(s, p, e)
  {
    PhotoSpaceIff(s, p, e, e + 1);
    var g := RunEnd(s, e + 1, IsSpace);
    if e + 1 < g {
      assert PhotoEnd(s, p, e, g) == if MatchesAt(s, g, PhotoWidth, true) then Some([s[p..e]]) else None;
    }
  }

  lemma {:induction false} PhotoQuoteIff(s: string, p: nat, e: nat)
    requires e < |s| && s[e] == '"'
    ensures PhotoQuote(s, p, e) == PhotoSpace(s, p, e, e + 1)
  {
    var f := e + 1;
    SymbolAt(s, e, '"', true);
    LitAt(s, e, "\"", true, PhotoSpaceCont(s, p, e), f);
  }

  lemma {:induction false} PhotoSourceSpecIff(s: string, p: nat)
    requires p <= |s|
    ensures PhotoSource(s, p) == PhotoSourceSpec(s, p)
  {
    PhotoSourceIff(s, p);
    var e := RunEnd(s, p, NotDoubleQuote);
    if p < e {
      SymbolAt(s, e, '"', true);
      if e < |s| && s[e] == '"' {
        PhotoQuoteIff(s, p, e);
        PhotoWidthIff(s, p, e);
      } else {
        assert PhotoQuote(s, p, e).None?;
      }
    }
  }

  lemma {:induction false} PhotoAtIff(s: string, i: nat)
    ensures PhotoAt(s, i) == PhotoSpec(s, i)
  {
    MatchesAtFits(s, i, PhotoOpen, true);
    if MatchesAt(s, i, PhotoOpen, true) {
      assert PhotoAt(s, i) == PhotoSource(s, i + |PhotoOpen|);
      PhotoSourceSpecIff(s, i + |PhotoOpen|);
    }
  }

  function PhotoCont(s: string): Cont
  {
    (i: nat) => PhotoAt(s, i)
  }

  /** `re.search(r'<img src="([^"]+)"\s+width="200"', html, re.IGNORECASE).group(1)`. */
  function PhotoField(s: string): (r: Option<string>)
    ensures r.Some? ==> exists i: nat :: i <= |s| && PhotoSpec(s, i) == Some([r.value])
                          && forall j: nat :: j < i ==> PhotoSpec(s, j).None?
    ensures r.None? <==> forall i: nat :: i <= |s| ==> PhotoSpec(s, i).None?
  {
    PhotoLeftmost(s);
    Group1(Search(s, PhotoCont(s)))
  }

  function PhotoSpecCont(s: string): Cont
  {
    (i: nat) => PhotoSpec(s, i)
  }

  /** The pattern matches as its specification says, with one group. */
  lemma {:induction false} PhotoAgrees(s: string)
    ensures forall i: nat :: PhotoCont(s)(i) == PhotoSpecCont(s)(i)
    ensures forall i: nat :: PhotoSpecCont(s)(i).Some? ==> |PhotoSpecCont(s)(i).value| == 1
  {
    forall i: nat ensures PhotoCont(s)(i) == PhotoSpecCont(s)(i) {
      PhotoAtIff(s, i);
    }
  }

  lemma {:induction false} PhotoLeftmost(s: string)
    ensures var r := Group1(Search(s, PhotoCont(s)));
      && (r.Some? ==> exists i: nat :: i <= |s| && PhotoSpec(s, i) == Some([r.value])
                        && forall j: nat :: j < i ==> PhotoSpec(s, j).None?)
      && (r.None? <==> forall i: nat :: i <= |s| ==> PhotoSpec(s, i).None?)
  {
    PhotoAgrees(s);
    SearchExt(s, PhotoCont(s), PhotoSpecCont(s));
    PhotoSpecSearch(s);
  }

  lemma {:induction false} PhotoSpecSearch(s: string)
    ensures var r := Group1(Search(s, PhotoSpecCont(s)));
      && (r.Some? ==> exists i: nat :: i <= |s| && PhotoSpec(s, i) == Some([r.value])
                        && forall j: nat :: j < i ==> PhotoSpec(s, j).None?)
      && (r.None? <==> forall i: nat :: i <= |s| ==> PhotoSpec(s, i).None?)
  {
    var spec := PhotoSpecCont(s);
    PhotoAgrees(s);
    SearchBySpec(s, spec, spec);
    var r := Group1(Search(s, spec));
    if r.Some? {
      var i: nat :| i <= |s| && spec(i) == Some([r.value]) && forall j: nat :: j < i ==> spec(j).None?;
      PhotoSpecBefore(s, i);
    } else {
      PhotoSpecBefore(s, |s| + 1);
    }
  }

  /** The positions where the photo specification matches are those where its continuation does. */
  lemma {:induction false} PhotoSpecBefore(s: string, i: nat)
    ensures (forall j: nat :: j < i ==> PhotoSpecCont(s)(j).None?) <==> (forall j: nat :: j < i ==> PhotoSpec(s, j).None?)
  {
    var spec := PhotoSpecCont(s);
    forall j: nat | j < i ensures spec(j) == PhotoSpec(s, j) { }
  }

  // ---------------------------------------------------------------- the fields of the two pages

  /** The value classes and tails of the register's field patterns fit the matcher's field shapes. */
  lemma {:induction false} FieldClassesFit()
    ensures SpaceUniform(NotLt) && SpaceUniform(DigitOrDash)
    ensures Stops(DigitOrDash, "</td>", false) && Stops(NotLt, "</span>", true)
  {
    assert forall x :: IsSpace(x) ==> NotLt(x);
    assert forall x :: IsSpace(x) ==> !DigitOrDash(x);
    assert forall x :: CharMatch(x, '<', true) ==> x == '<';
  }

  /**
    The keys of the record a verification reports: those of the search row,
    those of the details page (which shares `status` and `valid_till` with the
    row) and `verified_at`.  `KeyText` gives the dictionary key itself.
   */
  datatype Key = Name | LicenseNumber | Status | ValidTill | FullName | PracticeLicenseNumber | PhotoUrl | VerifiedAt

  function KeyText(k: Key): string
  {
    match k
    case Name => "name"
    case LicenseNumber => "license_number"
    case Status => "status"
    case ValidTill => "valid_till"
    case FullName => "full_name"
    case PracticeLicenseNumber => "practice_license_number"
    case PhotoUrl => "photo_url"
    case VerifiedAt => "verified_at"
  }

  /** Two keys never share a dictionary key. */
  lemma {:induction false} KeyTextInjective(k: Key, l: Key)
    ensures KeyText(k) == KeyText(l) <==> k == l
  {
  }

  /** The keys `extract_search_data` looks for, in its order. */
  const RowKeys: seq<Key> := [Name, LicenseNumber, Status, ValidTill]

  /** The keys `parse_detailed_html` looks for, in its order. */
  const PageKeys: seq<Key> := [FullName, PracticeLicenseNumber, Status, ValidTill, PhotoUrl]

  /**
    The raw match of a search-row field: the cell before the license cell,
    the license cell, the text after `Status:`, and the date between `&nbsp;`
    and `</td>` (the only pattern matched case-sensitively).
   */
  function RowMatch(reg: Register, html: string, k: Key): Option<string>
  {
    FieldClassesFit();
    match k
    case Name => NameCellField(html, Prefix(reg))
    case LicenseNumber => LicenseCellField(html, Prefix(reg))
    case Status => LabelField(html, "Status:", false, NotLt)
    case ValidTill => TailField(html, "&nbsp;", false, DigitOrDash, "</td>")
    case _ => None
  }

  /** The raw match of a details-page field, every pattern case-insensitive. */
  function PageMatch(html: string, k: Key): Option<string>
  {
    FieldClassesFit();
    match k
    case FullName => NameField(html, "<b style=\"font-size:30px;\">")
    case PracticeLicenseNumber => LabelField(html, "Practice License Number:", false, NotLt)
    case Status => TailField(html, "Status:", true, NotLt, "</span>")
    case ValidTill => LabelField(html, "Valid Till:", false, DigitOrDash)
    case PhotoUrl => PhotoField(html)
    case _ => None
  }

  /**
    The fields of `keys` on which `m` found something, stripped: a field that
    matches is reported under its key, one that does not is absent, and
    nothing else is.
   */
  function FieldsOf(keys: seq<Key>, m: Key -> Option<string>): map<Key, string>
  {
    if keys == [] then map[]
    else
      var last := keys[|keys| - 1];
      var rest := FieldsOf(keys[..|keys| - 1], m);
      if m(last).Some? then rest[last := Strip(m(last).value)] else rest
  }

  /**
    A field is reported exactly when it is looked for and matches, and then
    with its match stripped.
   */
  lemma {:induction false} FieldsOfIff(keys: seq<Key>, m: Key -> Option<string>)
    ensures forall k :: k in FieldsOf(keys, m) <==> k in keys && m(k).Some?
    ensures forall k :: k in FieldsOf(keys, m) ==> FieldsOf(keys, m)[k] == Strip(m(k).value)
  {
    if keys != [] {
      var init := keys[..|keys| - 1];
      FieldsOfIff(init, m);
      assert keys == init + [keys[|keys| - 1]];
    }
  }

  /** Each search-row field's raw match in `html`. */
  function RowMatches(reg: Register, html: string): Key -> Option<string>
  {
    (k: Key) => RowMatch(reg, html, k)
  }

  /** Each details-page field's raw match in `html`. */
  function PageMatches(html: string): Key -> Option<string>
  {
    (k: Key) => PageMatch(html, k)
  }

  /** What `extract_search_data` returns for the search page `html`. */
  function SearchData(reg: Register, html: string): map<Key, string>
  {
    FieldsOf(RowKeys, RowMatches(reg, html))
  }

  /** What `parse_detailed_html` returns for the details page `html`. */
  function DetailData(html: string): map<Key, string>
  {
    FieldsOf(PageKeys, PageMatches(html))
  }

  /** `extract_search_data`: each field is looked for in turn and added, stripped, when it matches. */
  method ExtractSearchData(reg: Register, html: string) returns (data: map<Key, string>)
    ensures data == SearchData(reg, html)
  {
    data := CollectRow(RowMatches(reg, html));
  }

  /** The body of `extract_search_data`, over the matches `m`. */
  method CollectRow(m: Key -> Option<string>) returns (data: map<Key, string>)
    ensures data == FieldsOf(RowKeys, m)
  {
    data := map[];
    ghost var done: seq<Key> := [];
    assert data == FieldsOf(done, m);
    var name := m(Name);
    FieldsOfAdd(done, Name, m);
    if name.Some? {
      data := data[Name := Strip(name.value)];
    }
    done := done + [Name];
    var license := m(LicenseNumber);
    FieldsOfAdd(done, LicenseNumber, m);
    if license.Some? {
      data := data[LicenseNumber := Strip(license.value)];
    }
    done := done + [LicenseNumber];
    var status := m(Status);
    FieldsOfAdd(done, Status, m);
    if status.Some? {
      data := data[Status := Strip(status.value)];
    }
    done := done + [Status];
    var validTill := m(ValidTill);
    FieldsOfAdd(done, ValidTill, m);
    if validTill.Some? {
      data := data[ValidTill := Strip(validTill.value)];
    }
    done := done + [ValidTill];
    assert done == RowKeys;
  }

  /** One more key looked for: its value is added when it matched, over whatever was found before. */
  lemma {:induction false} FieldsOfAdd(keys: seq<Key>, k: Key, m: Key -> Option<string>)
    ensures FieldsOf(keys + [k], m)
         == if m(k).Some? then FieldsOf(keys, m)[k := Strip(m(k).value)] else FieldsOf(keys, m)
  {
    assert (keys + [k])[..|keys|] == keys;
  }

  /** `parse_detailed_html`: each field is looked for in turn and added, stripped, when it matches. */
  method ParseDetailedHtml(html: string) returns (info: map<Key, string>)
    ensures info == DetailData(html)
  {
    info := CollectPage(PageMatches(html));
  }

  /** The body of `parse_detailed_html`, over the matches `m`. */
  method CollectPage(m: Key -> Option<string>) returns (info: map<Key, string>)
    ensures info == FieldsOf(PageKeys, m)
  {
    info := map[];
    ghost var done: seq<Key> := [];
    assert info == FieldsOf(done, m);
    var name := m(FullName);
    FieldsOfAdd(done, FullName, m);
    if name.Some? {
      info := info[FullName := Strip(name.value)];
    }
    done := done + [FullName];
    var license := m(PracticeLicenseNumber);
    FieldsOfAdd(done, PracticeLicenseNumber, m);
    if license.Some? {
      info := info[PracticeLicenseNumber := Strip(license.value)];
    }
    done := done + [PracticeLicenseNumber];
    var status := m(Status);
    FieldsOfAdd(done, Status, m);
    if status.Some? {
      info := info[Status := Strip(status.value)];
    }
    done := done + [Status];
    var validTill := m(ValidTill);
    FieldsOfAdd(done, ValidTill, m);
    if validTill.Some? {
      info := info[ValidTill := Strip(validTill.value)];
    }
    done := done + [ValidTill];
    var photo := m(PhotoUrl);
    FieldsOfAdd(done, PhotoUrl, m);
    if photo.Some? {
      info := info[PhotoUrl := Strip(photo.value)];
    }
    done := done + [PhotoUrl];
    assert done == PageKeys;
  }

  // ---------------------------------------------------------------- the merged record

  /** `{**search_data, **detailed_info}`: every key of either, the details page winning on a shared key. */
  function Merge(search: map<Key, string>, detail: map<Key, string>): (r: map<Key, string>)
    ensures r.Keys == search.Keys + detail.Keys
    ensures forall k :: k in detail ==> r[k] == detail[k]
    ensures forall k :: k in search && k !in detail ==> r[k] == search[k]
  {
    search + detail
  }

  /**
    `not final_data.get('practice_license_number') and not
    final_data.get('license_number')`: neither license number is there with
    a non-empty value.
   */
  predicate LicenseMissing(data: map<Key, string>)
  {
    && (PracticeLicenseNumber !in data || data[PracticeLicenseNumber] == "")
    && (LicenseNumber !in data || data[LicenseNumber] == "")
  }

  /**
    The merged record has a license number exactly when the page has a
    practice license number or the row a license number, non-empty once
    stripped: only the row reports `license_number`, only the page
    `practice_license_number`.
   */
  lemma {:induction false} MergedLicense(m: Key -> Option<string>, n: Key -> Option<string>)
    ensures var data := Merge(FieldsOf(RowKeys, m), FieldsOf(PageKeys, n));
      !LicenseMissing(data) <==>
        (n(PracticeLicenseNumber).Some? && Strip(n(PracticeLicenseNumber).value) != "")
        || (m(LicenseNumber).Some? && Strip(m(LicenseNumber).value) != "")
  {
    FieldsOfIff(RowKeys, m);
    FieldsOfIff(PageKeys, n);
    assert PracticeLicenseNumber !in RowKeys && PracticeLicenseNumber in PageKeys;
    assert LicenseNumber in RowKeys && LicenseNumber !in PageKeys;
  }

  /**
    On the keys both pages report, status and date, the details page decides
    whenever it has them; otherwise the row's value stands.
   */
  lemma {:induction false} MergedPrefersPage(m: Key -> Option<string>, n: Key -> Option<string>, k: Key)
    requires k in RowKeys && k in PageKeys
    ensures var data := Merge(FieldsOf(RowKeys, m), FieldsOf(PageKeys, n));
      && (k in data <==> m(k).Some? || n(k).Some?)
      && (n(k).Some? ==> data[k] == Strip(n(k).value))
      && (n(k).None? && m(k).Some? ==> data[k] == Strip(m(k).value))
  {
    FieldsOfIff(RowKeys, m);
    FieldsOfIff(PageKeys, n);
  }
}

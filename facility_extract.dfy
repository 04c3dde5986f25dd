/**
  The pure extraction steps of the facilities service: the encoded facility id
  taken from the first search row, the check that a details page is one, the
  choice among the three details-request strategies, the superintendent
  extractor and its three tiers, and the ten labelled fields of a details page.
 */
module FacilityExtract {
  import opened Base
  import opened Text
  import opened Matcher

  // ---------------------------------------------------------------- search results

  /** A cell of a DataTables row: its Python truthiness and its `str()`. */
  datatype Cell = Cell(truthy: bool, text: string)

  type Row = seq<Cell>

  /**
    The decoded JSON of a search response.  `rows` is None when the object is
    empty, has no `data` key, or its `data` is null.
   */
  datatype SearchData = SearchData(rows: Option<seq<Row>>)

  /** The search found nothing: no `data`, or an empty list of rows. */
  predicate NoRows(d: SearchData)
  {
    d.rows.None? || d.rows.value == []
  }

  /**
    `extract_facility_id`: only the first row is read; its fifth column must be
    present and truthy, and the id is the leftmost `rel='...'` token of its text.
   */
  function ExtractFacilityId(d: SearchData): (r: Option<string>)
    ensures NoRows(d) ==> r.None?
    ensures r.Some? ==> !NoRows(d) && |d.rows.value[0]| > 4 && d.rows.value[0][4].truthy
                        && LeftmostRelToken(d.rows.value[0][4].text, r.value)
    ensures r.None? && !NoRows(d) && |d.rows.value[0]| > 4 && d.rows.value[0][4].truthy ==>
              forall i: nat, t :: !RelTokenAt(d.rows.value[0][4].text, i, t)
  {
    if NoRows(d) then None
    else
      var row := d.rows.value[0];
      if |row| > 4 && row[4].truthy then RelToken(row[4].text) else None
  }

  // ---------------------------------------------------------------- the search request

  /**
    `build_search_params`: the DataTables query that searches the facilities
    register for `term`; `stamp` is the millisecond timestamp sent as `_`.
   */
  function BuildSearchParams(term: string, stamp: string): (r: map<string, string>)
    ensures "search[value]" in r && r["search[value]"] == term
    ensures "_" in r && r["_"] == stamp
    ensures "fetch" in r && r["fetch"] == "facilities"
  {
    map[
      "fetch" := "facilities",
      "ftype" := "",
      "draw" := "1",
      "columns[0][data]" := "0", "columns[0][name]" := "", "columns[0][searchable]" := "true",
      "columns[0][orderable]" := "true", "columns[0][search][value]" := "", "columns[0][search][regex]" := "false",
      "columns[1][data]" := "1", "columns[1][name]" := "", "columns[1][searchable]" := "true",
      "columns[1][orderable]" := "true", "columns[1][search][value]" := "", "columns[1][search][regex]" := "false",
      "columns[2][data]" := "2", "columns[2][name]" := "", "columns[2][searchable]" := "true",
      "columns[2][orderable]" := "true", "columns[2][search][value]" := "", "columns[2][search][regex]" := "false",
      "columns[3][data]" := "3", "columns[3][name]" := "", "columns[3][searchable]" := "true",
      "columns[3][orderable]" := "true", "columns[3][search][value]" := "", "columns[3][search][regex]" := "false",
      "columns[4][data]" := "4", "columns[4][name]" := "", "columns[4][searchable]" := "true",
      "columns[4][orderable]" := "true", "columns[4][search][value]" := "", "columns[4][search][regex]" := "false",
      "order[0][column]" := "0", "order[0][dir]" := "asc",
      "start" := "0", "length" := "10",
      "search[value]" := term, "search[regex]" := "false",
      "_" := stamp
    ]
  }

  /**
    Only the search term and the timestamp depend on the inputs: any two
    searches send the same keys, with the same values everywhere else.
   */
  lemma {:induction false} SearchParamsFixed(t1: string, s1: string, t2: string, s2: string)
    ensures BuildSearchParams(t1, s1).Keys == BuildSearchParams(t2, s2).Keys
    ensures forall k :: k in BuildSearchParams(t1, s1) && k != "search[value]" && k != "_" ==>
              BuildSearchParams(t1, s1)[k] == BuildSearchParams(t2, s2)[k]
  {
  }

  // ---------------------------------------------------------------- validating a details page

  const RegistrationMarker: string := "Facility Registration Number:"
  const LicenseMarker: string := "License Number:"
  const StatusMarker: string := "Licence Status:"

  /** `validate_details_response`: all three markers occur, ignoring case. */
  function ValidateDetailsResponse(html: string): (r: bool)
    ensures r <==> Occurs(html, RegistrationMarker, true) && Occurs(html, LicenseMarker, true)
                   && Occurs(html, StatusMarker, true)
  {
    Found(html, RegistrationMarker, true) && Found(html, LicenseMarker, true) && Found(html, StatusMarker, true)
  }

  // ---------------------------------------------------------------- the details strategies

  /** What one details request came back with: an exception, or a status and a body. */
  datatype Response = Raised(error: string) | Reply(status: int, body: string)

  /** The number of request strategies `get_facility_details` tries. */
  const StrategyCount: nat := 3

  /** A strategy succeeds when its reply has status 200 and passes validation. */
  predicate Accepted(r: Response)
  {
    r.Reply? && r.status == 200 && ValidateDetailsResponse(r.body)
  }

  /**
    The first reply `accept` takes, trying them in order (the service passes
    `Accepted`).
   */
  function FirstAccepted(accept: Response -> bool, replies: seq<Response>): (r: Option<nat>)
    ensures r.Some? ==> r.value < |replies| && accept(replies[r.value])
                        && forall j :: 0 <= j < r.value ==> !accept(replies[j])
    ensures r.None? <==> forall j :: 0 <= j < |replies| ==> !accept(replies[j])
  {
    if |replies| == 0 then None
    else if accept(replies[0]) then Some(0)
    else match FirstAccepted(accept, replies[1..])
      case None => None
      case Some(j) => Some(j + 1)
  }

  // ---------------------------------------------------------------- the superintendent

  /** The superintendent of a facility, as the details page records it. */
  datatype Superintendent = Superintendent(name: string, cadre: string, enrollmentNumber: string)

  /** The opening of the anchor that holds the superintendent. */
  const Anchor := "<a class=\"list-group-item text-boldest\""

  /** `\s*<br\s*\/?>\s*` then `k`. */
  function BreakThen(s: string, k: Cont): Cont
  {
    SpacesThen(s, LitThen(s, "<br", SpacesThen(s, SlashThen(s, LitThen(s, ">", SpacesThen(s, k))))))
  }

  /** `\/?` then `k`. */
  function SlashThen(s: string, k: Cont): Cont
  {
    (d: nat) => Greedy(s, d, IsSlash, 0, 1, k)
  }

  /** The number label then `k`. */
  function NumberThen(s: string, k: Cont): Cont
  {
    (a: nat) => NumberLabel(s, a, k)
  }

  /** The end of the pattern: the match, with groups `g`. */
  function Done(g: Captures): Cont
  {
    (_: nat) => Some(g)
  }

  /**
    The primary pattern, at `i`, under `re.DOTALL | re.IGNORECASE`:
    `<!--\s*<a class="list-group-item text-boldest"\s*>\s*Superintendent\s*:\s*([^<]+?)`
    then a line break, `Cadre:\s*([^<]+?)`, a line break, the number label,
    `\s*([^<]+?)\s*<\/a>\s*-->`.  Each group below continues the pattern
    from where it stops, carrying the groups found so far.
   */
  function Tier1At(s: string, i: nat): Option<Captures>
  {
    Lit(s, i, "<!--", true,
      SpacesThen(s, LitThen(s, Anchor, SpacesThen(s, LitThen(s, ">", SpacesThen(s, Tier1Head(s)))))))
  }

  /** `Superintendent\s*:\s*` then the name. */
  function Tier1Head(s: string): Cont
  {
    LitThen(s, "Superintendent", SpacesThen(s, LitThen(s, ":", SpacesThen(s, Tier1Name(s)))))
  }

  /** `([^<]+?)`: the name, then a line break and `Cadre:\s*`. */
  function Tier1Name(s: string): Cont
  {
    (p1: nat) => LazyPlus(s, p1, NotLt, Tier1NameEnd(s, p1))
  }

  function Tier1NameEnd(s: string, p1: nat): Cont
  {
    (e1: nat) => BreakThen(s, LitThen(s, "Cadre:", SpacesThen(s, Tier1Cadre(s, [Slice(s, p1, e1)]))))(e1)
  }

  /** `([^<]+?)`: the cadre, then a line break, the number label and `\s*`. */
  function Tier1Cadre(s: string, g: Captures): Cont
  {
    (p2: nat) => LazyPlus(s, p2, NotLt, Tier1CadreEnd(s, g, p2))
  }

  function Tier1CadreEnd(s: string, g: Captures, p2: nat): Cont
  {
    (e2: nat) => BreakThen(s, NumberThen(s, SpacesThen(s, Tier1Number(s, g + [Slice(s, p2, e2)]))))(e2)
  }

  /** `([^<]+?)`: the number, then `\s*<\/a>\s*-->`. */
  function Tier1Number(s: string, g: Captures): Cont
  {
    (p3: nat) => LazyPlus(s, p3, NotLt, Tier1NumberEnd(s, g, p3))
  }

  function Tier1NumberEnd(s: string, g: Captures, p3: nat): Cont
  {
    (e3: nat) => Tier1Close(s, g + [Slice(s, p3, e3)])(e3)
  }

  /** `\s*<\/a>\s*-->`, completing the match with the groups `g`. */
  function Tier1Close(s: string, g: Captures): Cont
  {
    SpacesThen(s, LitThen(s, "</a>", SpacesThen(s, LitThen(s, "-->", Done(g)))))
  }

  /**
    The first fallback, at `i`, under `re.IGNORECASE`:
    `Superintendent\s*:\s*([^\n<]+)[\s\S]{0,200}?Cadre:\s*([^\n<]+)[\s\S]{0,200}?`
    then the number label and `\s*([^\n<]+)`.
   */
  function Tier2At(s: string, i: nat): Option<Captures>
  {
    Lit(s, i, "Superintendent", true, (a1: nat) =>
    Star(s, a1, IsSpace, (a2: nat) =>
    Lit(s, a2, ":", true, (a3: nat) =>
    Star(s, a3, IsSpace, (p1: nat) =>
    Plus(s, p1, NotNewlineOrLt, (e1: nat) =>
    Tier2Cadre(s, e1, p1))))))
  }

  /** `[\s\S]{0,200}?Cadre:\s*([^\n<]+)` then the number. */
  function Tier2Cadre(s: string, e1: nat, p1: nat): Option<Captures>
  {
    Lazy(s, e1, AnyChar, 0, 200, (b1: nat) =>
    Lit(s, b1, "Cadre:", true, (b2: nat) =>
    Star(s, b2, IsSpace, (p2: nat) =>
    Plus(s, p2, NotNewlineOrLt, (e2: nat) =>
    Tier2Number(s, e2, p1, e1, p2)))))
  }

  /** `[\s\S]{0,200}?`, the number label and `\s*([^\n<]+)`. */
  function Tier2Number(s: string, e2: nat, p1: nat, e1: nat, p2: nat): Option<Captures>
  {
    Lazy(s, e2, AnyChar, 0, 200, (c1: nat) =>
    NumberLabel(s, c1, (c2: nat) =>
    Star(s, c2, IsSpace, (p3: nat) =>
    Plus(s, p3, NotNewlineOrLt, (e3: nat) =>
    Some([Slice(s, p1, e1), Slice(s, p2, e2), Slice(s, p3, e3)])))))
  }

  /** The second fallback's comment, at `i`: `<!--.*?Superintendent.*?-->` under `re.DOTALL | re.IGNORECASE`. */
  function CommentAt(s: string, i: nat): Option<Captures>
  {
    Lit(s, i, "<!--", true, (a: nat) =>
    Lazy(s, a, AnyChar, 0, |s|, (b: nat) =>
    Lit(s, b, "Superintendent", true, (c: nat) =>
    Lazy(s, c, AnyChar, 0, |s|, (d: nat) =>
    Lit(s, d, "-->", true, (e: nat) =>
    Some([Slice(s, i, e)]))))))
  }

  /** `(?:Enrollment Number|Registration Number):\s*([^\n<]+)`, at `i`. */
  function NumberAt(s: string, i: nat): Option<Captures>
  {
    NumberLabel(s, i, ValueAtCont(s, NotNewlineOrLt))
  }

  function Tier1Cont(s: string): Cont { (i: nat) => Tier1At(s, i) }
  function Tier2Cont(s: string): Cont { (i: nat) => Tier2At(s, i) }
  function CommentCont(s: string): Cont { (i: nat) => CommentAt(s, i) }
  function NumberCont(s: string): Cont { (i: nat) => NumberAt(s, i) }

  /** The three groups of a match, stripped, as a superintendent. */
  function Stripped3(m: Option<Captures>): (r: Option<Superintendent>)
    ensures r.Some? <==> m.Some? && |m.value| >= 3
    ensures r.Some? ==> r.value == Superintendent(Strip(m.value[0]), Strip(m.value[1]), Strip(m.value[2]))
  {
    if m.Some? && |m.value| >= 3 then
      Some(Superintendent(Strip(m.value[0]), Strip(m.value[1]), Strip(m.value[2])))
    else None
  }

  /** The primary pattern's superintendent. */
  function Tier1(html: string): Option<Superintendent>
  {
    Stripped3(Search(html, Tier1Cont(html)))
  }

  /** The first fallback's superintendent. */
  function Tier2(html: string): Option<Superintendent>
  {
    Stripped3(Search(html, Tier2Cont(html)))
  }

  /** The first `<!--...Superintendent...-->` comment, whole. */
  function SuperintendentComment(html: string): Option<string>
  {
    var m := Search(html, CommentCont(html));
    if m.Some? && |m.value| >= 1 then Some(m.value[0]) else None
  }

  /** `re.search(r'Superintendent\s*:\s*([^\n<]+)', c, re.IGNORECASE).group(1)` */
  function CommentName(c: string): Option<string>
  {
    LabelField(c, "Superintendent", true, NotNewlineOrLt)
  }

  /** `re.search(r'Cadre:\s*([^\n<]+)', c, re.IGNORECASE).group(1)` */
  function CommentCadre(c: string): Option<string>
  {
    LabelField(c, "Cadre:", false, NotNewlineOrLt)
  }

  /**
    `re.search(r'(?:Enrollment Number|Registration Number):\s*([^\n<]+)', c, re.IGNORECASE).group(1)`:
    the value at the leftmost position where the number field matches.
   */
  function CommentNumber(c: string): (r: Option<string>)
    ensures r.Some? ==> exists i: nat :: i <= |c| && NumberSpec(c, i) == Some([r.value])
                          && forall j: nat :: j < i ==> NumberSpec(c, j).None?
    ensures r.None? <==> forall i: nat :: i <= |c| ==> NumberSpec(c, i).None?
  {
    NumberFieldLeftmost(c);
    Group1(Search(c, NumberCont(c)))
  }

  /** What the number field matches at `i`, written out: either label with its colon, then the value as `ValueSpec` says. */
  function NumberSpec(s: string, i: nat): Option<Captures>
  {
    if MatchesAt(s, i, "Enrollment Number:", true) && i + 18 <= |s| then ValueSpec(s, i + 18, NotNewlineOrLt)
    else if MatchesAt(s, i, "Registration Number:", true) && i + 20 <= |s| then ValueSpec(s, i + 20, NotNewlineOrLt)
    else None
  }

  lemma {:induction false} NumberAtIff(s: string, i: nat)
    ensures NumberAt(s, i) == NumberSpec(s, i)
  {
    NumberLabelIff(s, i, ValueAtCont(s, NotNewlineOrLt));
    MatchesAtIff(s, i, "Enrollment Number:", true);
    MatchesAtIff(s, i, "Registration Number:", true);
    if i + 18 <= |s| {
      ValueAtIff(s, i + 18, NotNewlineOrLt);
    }
    if i + 20 <= |s| {
      ValueAtIff(s, i + 20, NotNewlineOrLt);
    }
  }

  lemma {:induction false} NumberFieldLeftmost(c: string)
    ensures var r := Group1(Search(c, NumberCont(c)));
      && (r.Some? ==> exists i: nat :: i <= |c| && NumberSpec(c, i) == Some([r.value])
                        && forall j: nat :: j < i ==> NumberSpec(c, j).None?)
      && (r.None? <==> forall i: nat :: i <= |c| ==> NumberSpec(c, i).None?)
  {
    var spec: Cont := (i: nat) => NumberSpec(c, i);
    assert forall i: nat :: NumberCont(c)(i) == spec(i) by {
      forall i: nat ensures NumberCont(c)(i) == spec(i) {
        NumberAtIff(c, i);
      }
    }
    assert forall i: nat :: spec(i).Some? ==> |spec(i).value| == 1 by {
      forall i: nat ensures spec(i).Some? ==> |spec(i).value| == 1 {
        NumberSpecOne(c, i);
      }
    }
    SearchBySpec(c, NumberCont(c), spec);
    var r := Group1(Search(c, NumberCont(c)));
    if r.None? {
      forall i: nat | i <= |c| ensures NumberSpec(c, i).None? {
        assert spec(i).None?;
      }
    } else {
      var i: nat :| i <= |c| && spec(i) == Some([r.value]) && forall j: nat :: j < i ==> spec(j).None?;
      forall j: nat | j < i ensures NumberSpec(c, j).None? {
        assert spec(j).None?;
      }
    }
  }

  lemma {:induction false} NumberSpecOne(s: string, i: nat)
    ensures NumberSpec(s, i).Some? ==> |NumberSpec(s, i).value| == 1
  {
  }

  /**
    On `Cadre: \n<` the cadre search captures the space: no run of `[^\n<]`
    follows the whitespace, so the whitespace gives back its characters until
    the space, which the class takes.
   */
  lemma {:induction false} CadreGivesBackSpace()
    ensures LabelAt("Cadre: \n<", 0, "Cadre:", false, NotNewlineOrLt) == Some([" "])
  {
    var s := "Cadre: \n<";
    LabelAtIff(s, 0, "Cadre:", false, NotNewlineOrLt);
    assert MatchesAt(s, 0, "Cadre:", true) by {
      assert s[..6] == "Cadre:";
      MatchesAtIff(s, 0, "Cadre:", true);
    }
    assert LabelSpec(s, 0, "Cadre:", false, NotNewlineOrLt) == ValueSpec(s, 6, NotNewlineOrLt);
    CadreSpaceValue();
  }

  /** After `Cadre:` in `Cadre: \n<`, the whitespace run is ` \n`, no value follows it, and the space is given back. */
  lemma {:induction false} CadreSpaceValue()
    ensures ValueSpec("Cadre: \n<", 6, NotNewlineOrLt) == Some([" "])
  {
    var s := "Cadre: \n<";
    assert RunEnd(s, 8, IsSpace) == 8 && RunEnd(s, 7, IsSpace) == 8;
    assert RunEnd(s, 6, IsSpace) == 8;
    assert RunEnd(s, 8, NotNewlineOrLt) == 8;
    assert LastIn(s, 6, 7, NotNewlineOrLt) == Some(6);
    assert LastIn(s, 6, 8, NotNewlineOrLt) == Some(6);
    assert s[6..7] == " ";
  }

  /**
    The second fallback: the three fields searched for separately inside the
    comment; it succeeds exactly when the comment exists and all three are
    found, and then it holds the three values stripped.
   */
  function Tier3(html: string): (r: Option<Superintendent>)
    ensures r.Some? <==>
      var c := SuperintendentComment(html);
      c.Some? && CommentName(c.value).Some? && CommentCadre(c.value).Some? && CommentNumber(c.value).Some?
    ensures r.Some? ==>
      var c := SuperintendentComment(html).value;
      r.value == Superintendent(Strip(CommentName(c).value), Strip(CommentCadre(c).value), Strip(CommentNumber(c).value))
  {
    match SuperintendentComment(html)
    case None => None
    case Some(c) =>
      var name := CommentName(c);
      var cadre := CommentCadre(c);
      var number := CommentNumber(c);
      if name.Some? && cadre.Some? && number.Some? then
        Some(Superintendent(Strip(name.value), Strip(cadre.value), Strip(number.value)))
      else None
  }

  /**
    The second fallback finds a superintendent only in a comment that holds
    `Superintendent`, `Cadre:` and one of the two number labels with its colon,
    ignoring case.
   */
  lemma {:induction false} Tier3Labels(html: string)
    requires Tier3(html).Some?
    ensures var c := SuperintendentComment(html).value;
      && Occurs(c, "Superintendent", true) && Occurs(c, "Cadre:", true)
      && (Occurs(c, "Enrollment Number:", true) || Occurs(c, "Registration Number:", true))
  {
    var c := SuperintendentComment(html).value;
    LabelFound(c, "Superintendent", true, NotNewlineOrLt);
    LabelFound(c, "Cadre:", false, NotNewlineOrLt);
    NumberFound(c);
  }

  /** The number field is found only where one of the two labels occurs. */
  lemma {:induction false} NumberFound(c: string)
    requires CommentNumber(c).Some?
    ensures Occurs(c, "Enrollment Number:", true) || Occurs(c, "Registration Number:", true)
  {
    var n := SearchWitness(c, NumberCont(c));
    assert MatchesAt(c, n, "Enrollment Number:", true) || MatchesAt(c, n, "Registration Number:", true) by {
      assert NumberLabel(c, n, ValueAtCont(c, NotNewlineOrLt)).Some?;
      NumberLabelIff(c, n, ValueAtCont(c, NotNewlineOrLt));
    }
  }

  /** Every value the extractor returns is stripped. */
  ghost predicate StrippedValues(r: Option<Superintendent>)
  {
    r.Some? ==> IsStripped(r.value.name) && IsStripped(r.value.cadre) && IsStripped(r.value.enrollmentNumber)
  }

  /**
    `extract_superintendent_from_comments`: the first tier that finds the
    superintendent decides; None when none of the three does.
   */
  function ExtractSuperintendent(html: string): (r: Option<Superintendent>)
    ensures StrippedValues(r)
    ensures r.None? <==> Tier1(html).None? && Tier2(html).None? && Tier3(html).None?
    ensures Tier1(html).Some? ==> r == Tier1(html)
    ensures Tier1(html).None? && Tier2(html).Some? ==> r == Tier2(html)
    ensures Tier1(html).None? && Tier2(html).None? ==> r == Tier3(html)
  {
    var t1 := Tier1(html);
    if t1.Some? then t1
    else
      var t2 := Tier2(html);
      if t2.Some? then t2 else Tier3(html)
  }

  // ---------------------------------------------------------------- the portal's layout

  /** A field value as the portal prints it: not empty, no surrounding whitespace, no tag. */
  predicate PlainValue(v: string)
  {
    v != [] && IsStripped(v) && '<' !in v
  }

  /** The whitespace the portal may leave around the pieces of the superintendent's anchor. */
  datatype Padding = Padding(beforeGt: string, beforeName: string, afterName: string, beforeCadre: string,
                             afterCadre: string, beforeNumber: string, afterNumber: string)

  /** Either number label, plain values and padding that is all whitespace. */
  predicate PortalLayout(sup: Superintendent, numberLabel: string, pad: Padding)
  {
    && (numberLabel == "Enrollment Number" || numberLabel == "Registration Number")
    && PlainValue(sup.name) && PlainValue(sup.cadre) && PlainValue(sup.enrollmentNumber)
    && AllSpace(pad.beforeGt) && AllSpace(pad.beforeName) && AllSpace(pad.afterName) && AllSpace(pad.beforeCadre)
    && AllSpace(pad.afterCadre) && AllSpace(pad.beforeNumber) && AllSpace(pad.afterNumber)
  }

  /**
    The superintendent's anchor, commented out, as the portal writes it, then
    `tail`: `<!--<a class="list-group-item text-boldest"`, padding, `>`, then
    `Superintendent : ` and the name, a line break, `Cadre: ` and the cadre, a
    line break, the number label with `: ` and the number, then `</a>-->`.
   */
  function PortalComment(sup: Superintendent, numberLabel: string, pad: Padding, tail: string): string
  {
    "<!--" + (Anchor + (pad.beforeGt + (">" + (pad.beforeName + HeadText(sup, numberLabel, pad, tail)))))
  }

  function HeadText(sup: Superintendent, numberLabel: string, pad: Padding, tail: string): string
  {
    "Superintendent" + (" " + (":" + (" " + NameText(sup, numberLabel, pad, tail))))
  }

  function NameText(sup: Superintendent, numberLabel: string, pad: Padding, tail: string): string
  {
    sup.name + BreakText(pad.afterName, pad.beforeCadre, CadreText(sup, numberLabel, pad, tail))
  }

  function CadreText(sup: Superintendent, numberLabel: string, pad: Padding, tail: string): string
  {
    "Cadre:" + (" " + (sup.cadre + BreakText(pad.afterCadre, pad.beforeNumber, NumberText(sup, numberLabel, pad, tail))))
  }

  function NumberText(sup: Superintendent, numberLabel: string, pad: Padding, tail: string): string
  {
    numberLabel + (":" + (" " + (sup.enrollmentNumber + CloseText(pad.afterNumber, tail))))
  }

  /** `<br />` with whitespace `w` before it and `v` after it, then `x`. */
  function BreakText(w: string, v: string, x: string): string
  {
    w + ("<br" + (" " + ("/" + (">" + (v + x)))))
  }

  /** Whitespace `w`, then `</a>-->`, then `x`. */
  function CloseText(w: string, x: string): string
  {
    w + ("</a>" + ("-->" + x))
  }

  /**
    The primary pattern matches the portal's layout wherever it starts, and its
    three groups are exactly the name, the cadre and the number, whichever
    number label is used and however the pieces are padded.
   */
  lemma {:induction false} Tier1AtLayout(s: string, i: nat, sup: Superintendent, numberLabel: string, pad: Padding, tail: string)
    requires i <= |s| && s[i..] == PortalComment(sup, numberLabel, pad, tail)
    requires PortalLayout(sup, numberLabel, pad)
    ensures Tier1At(s, i) == Some([sup.name, sup.cadre, sup.enrollmentNumber])
  {
    var x := Anchor + (pad.beforeGt + (">" + (pad.beforeName + HeadText(sup, numberLabel, pad, tail))));
    var k := LitThen(s, Anchor, SpacesThen(s, LitThen(s, ">", SpacesThen(s, Tier1Head(s)))));
    var a := i + 4;
    assert a <= |s| && s[a..] == x by {
      After(s, i, "<!--", x);
    }
    assert k(a) == Some([sup.name, sup.cadre, sup.enrollmentNumber]) by {
      AnchorOn(s, a, sup, numberLabel, pad, tail);
    }
    assert x != [] && x[0] == '<' by {
      assert x[0] == Anchor[0];
    }
    OpenerOn(s, i, x, k, a);
  }

  /** `<!--` followed directly by a tag: the whitespace after the opener is empty. */
  lemma {:induction false} OpenerOn(s: string, i: nat, x: string, k: Cont, a: nat)
    requires i <= |s| && s[i..] == "<!--" + x && a == i + 4
    requires x != [] && x[0] == '<' && k(a).Some?
    ensures Lit(s, i, "<!--", true, SpacesThen(s, k)) == k(a)
  {
    assert "<!--" + x == "<!--" + ("" + x);
    SpacesOver(s, a, "", x, k, a);
    LitOver(s, i, "<!--", x, true, SpacesThen(s, k), a);
  }

  /** The anchor's opening tag, then the head. */
  lemma {:induction false} AnchorOn(s: string, a: nat, sup: Superintendent, numberLabel: string, pad: Padding, tail: string)
    requires a <= |s| && s[a..] == Anchor + (pad.beforeGt + (">" + (pad.beforeName + HeadText(sup, numberLabel, pad, tail))))
    requires PortalLayout(sup, numberLabel, pad)
    ensures LitThen(s, Anchor, SpacesThen(s, LitThen(s, ">", SpacesThen(s, Tier1Head(s)))))(a)
      == Some([sup.name, sup.cadre, sup.enrollmentNumber])
  {
    var x := pad.beforeGt + (">" + (pad.beforeName + HeadText(sup, numberLabel, pad, tail)));
    var c := a + |Anchor|;
    After(s, a, Anchor, x);
    GtHeadOn(s, c, sup, numberLabel, pad, tail);
    LitOver(s, a, Anchor, x, true, SpacesThen(s, LitThen(s, ">", SpacesThen(s, Tier1Head(s)))), c);
  }

  /** The padding before `>`, the `>`, the padding before the head, then the head. */
  lemma {:induction false} GtHeadOn(s: string, c: nat, sup: Superintendent, numberLabel: string, pad: Padding, tail: string)
    requires c <= |s| && s[c..] == pad.beforeGt + (">" + (pad.beforeName + HeadText(sup, numberLabel, pad, tail)))
    requires PortalLayout(sup, numberLabel, pad)
    ensures SpacesThen(s, LitThen(s, ">", SpacesThen(s, Tier1Head(s))))(c)
      == Some([sup.name, sup.cadre, sup.enrollmentNumber])
  {
    var w := pad.beforeGt;
    var x := ">" + (pad.beforeName + HeadText(sup, numberLabel, pad, tail));
    var k := LitThen(s, ">", SpacesThen(s, Tier1Head(s)));
    var d := c + |w|;
    assert d <= |s| && s[d..] == x by {
      After(s, c, w, x);
    }
    assert k(d) == Some([sup.name, sup.cadre, sup.enrollmentNumber]) by {
      HeadAfterGt(s, d, sup, numberLabel, pad, tail);
    }
    assert AllSpace(w) && x != [] && !IsSpace(x[0]);
    SpacesOver(s, c, w, x, k, d);
  }

  lemma {:induction false} HeadAfterGt(s: string, d: nat, sup: Superintendent, numberLabel: string, pad: Padding, tail: string)
    requires d <= |s| && s[d..] == ">" + (pad.beforeName + HeadText(sup, numberLabel, pad, tail))
    requires PortalLayout(sup, numberLabel, pad)
    ensures LitThen(s, ">", SpacesThen(s, Tier1Head(s)))(d) == Some([sup.name, sup.cadre, sup.enrollmentNumber])
  {
    var x := HeadText(sup, numberLabel, pad, tail);
    var w := pad.beforeName;
    var f := d + 1;
    var h := f + |w|;
    After(s, d, ">", w + x);
    assert h <= |s| && s[h..] == x by {
      After(s, f, w, x);
    }
    assert Tier1Head(s)(h).Some? by {
      HeadOn(s, h, sup, numberLabel, pad, tail);
    }
    assert x != [] && !IsSpace(x[0]) by {
      assert x[0] == 'S';
    }
    SpacesOver(s, f, w, x, Tier1Head(s), h);
    HeadOn(s, h, sup, numberLabel, pad, tail);
    LitOver(s, d, ">", w + x, true, SpacesThen(s, Tier1Head(s)), f);
  }

  /** `Superintendent : ` and what follows. */
  lemma {:induction false} HeadOn(s: string, h: nat, sup: Superintendent, numberLabel: string, pad: Padding, tail: string)
    requires h <= |s| && s[h..] == HeadText(sup, numberLabel, pad, tail)
    requires PortalLayout(sup, numberLabel, pad)
    ensures Tier1Head(s)(h) == Some([sup.name, sup.cadre, sup.enrollmentNumber])
  {
    var x := " " + (":" + (" " + NameText(sup, numberLabel, pad, tail)));
    var g := h + 14;
    After(s, h, "Superintendent", x);
    ColonNameOn(s, g, sup, numberLabel, pad, tail);
    LitOver(s, h, "Superintendent", x, true, SpacesThen(s, LitThen(s, ":", SpacesThen(s, Tier1Name(s)))), g);
  }

  /** ` : ` then the name and what follows. */
  lemma {:induction false} ColonNameOn(s: string, g: nat, sup: Superintendent, numberLabel: string, pad: Padding, tail: string)
    requires g <= |s| && s[g..] == " " + (":" + (" " + NameText(sup, numberLabel, pad, tail)))
    requires PortalLayout(sup, numberLabel, pad)
    ensures SpacesThen(s, LitThen(s, ":", SpacesThen(s, Tier1Name(s))))(g)
      == Some([sup.name, sup.cadre, sup.enrollmentNumber])
  {
    var x := NameText(sup, numberLabel, pad, tail);
    var j, m, p := g + 1, g + 2, g + 3;
    After(s, g, " ", ":" + (" " + x));
    After(s, j, ":", " " + x);
    After(s, m, " ", x);
    NameOn(s, p, sup, numberLabel, pad, tail);
    assert x[0] == sup.name[0];
    SpacesOver(s, m, " ", x, Tier1Name(s), p);
    LitOver(s, j, ":", " " + x, true, SpacesThen(s, Tier1Name(s)), m);
    SpacesOver(s, g, " ", ":" + (" " + x), LitThen(s, ":", SpacesThen(s, Tier1Name(s))), j);
  }

  /** The name group is the whole name. */
  lemma {:induction false} NameOn(s: string, p: nat, sup: Superintendent, numberLabel: string, pad: Padding, tail: string)
    requires p <= |s| && s[p..] == NameText(sup, numberLabel, pad, tail)
    requires PortalLayout(sup, numberLabel, pad)
    ensures Tier1Name(s)(p) == Some([sup.name, sup.cadre, sup.enrollmentNumber])
  {
    var v := sup.name;
    var rest := BreakText(pad.afterName, pad.beforeCadre, CadreText(sup, numberLabel, pad, tail));
    var e := p + |v|;
    NameEndOn(s, p, e, sup, numberLabel, pad, tail);
    NameInside(s, p, v, rest);
    LazyOver(s, p, v, rest, Tier1NameEnd(s, p), e);
  }

  /** Right after the name, the rest of the pattern completes the match. */
  lemma {:induction false} NameEndOn(s: string, p: nat, e: nat, sup: Superintendent, numberLabel: string, pad: Padding, tail: string)
    requires p <= |s| && s[p..] == NameText(sup, numberLabel, pad, tail) && e == p + |sup.name|
    requires PortalLayout(sup, numberLabel, pad)
    ensures Tier1NameEnd(s, p)(e) == Some([sup.name, sup.cadre, sup.enrollmentNumber])
  {
    var v := sup.name;
    var x := CadreText(sup, numberLabel, pad, tail);
    var k := LitThen(s, "Cadre:", SpacesThen(s, Tier1Cadre(s, [v])));
    var b := e + |pad.afterName| + 6 + |pad.beforeCadre|;
    assert x != [] && !IsSpace(x[0]) by {
      assert x[0] == 'C';
    }
    ValueBreakOn(s, p, e, v, pad.afterName, pad.beforeCadre, x, k, b);
    CadreOn(s, b, sup, numberLabel, pad, tail, [v]);
    assert [v] + [sup.cadre, sup.enrollmentNumber] == [v, sup.cadre, sup.enrollmentNumber];
  }

  /** Inside the name the line break cannot start, so the lazy group goes on. */
  lemma {:induction false} NameInside(s: string, p: nat, v: string, rest: string)
    requires p <= |s| && s[p..] == v + rest && PlainValue(v)
    ensures forall q: nat :: p < q < p + |v| ==> Tier1NameEnd(s, p)(q).None?
  {
    forall q: nat | p < q < p + |v| ensures Tier1NameEnd(s, p)(q).None? {
      var k := LitThen(s, "Cadre:", SpacesThen(s, Tier1Cadre(s, [Slice(s, p, q)])));
      BreakInside(s, p, v, rest, q, k);
    }
  }

  /** `Cadre: `, the cadre, and what follows; the cadre group is the whole cadre. */
  lemma {:induction false} CadreOn(s: string, b: nat, sup: Superintendent, numberLabel: string, pad: Padding, tail: string, g: Captures)
    requires b <= |s| && s[b..] == CadreText(sup, numberLabel, pad, tail)
    requires PortalLayout(sup, numberLabel, pad)
    ensures LitThen(s, "Cadre:", SpacesThen(s, Tier1Cadre(s, g)))(b) == Some(g + [sup.cadre, sup.enrollmentNumber])
  {
    var v := sup.cadre;
    var rest := BreakText(pad.afterCadre, pad.beforeNumber, NumberText(sup, numberLabel, pad, tail));
    var m, p := b + 6, b + 7;
    var e := p + |v|;
    After(s, b, "Cadre:", " " + (v + rest));
    After(s, m, " ", v + rest);
    CadreEndOn(s, p, e, sup, numberLabel, pad, tail, g);
    CadreInside(s, p, v, rest, g);
    LazyOver(s, p, v, rest, Tier1CadreEnd(s, g, p), e);
    assert (v + rest)[0] == v[0];
    SpacesOver(s, m, " ", v + rest, Tier1Cadre(s, g), p);
    LitOver(s, b, "Cadre:", " " + (v + rest), true, SpacesThen(s, Tier1Cadre(s, g)), m);
  }

  /** Right after the cadre, the rest of the pattern completes the match. */
  lemma {:induction false} CadreEndOn(s: string, p: nat, e: nat, sup: Superintendent, numberLabel: string, pad: Padding, tail: string, g: Captures)
    requires p <= |s| && s[p..] == sup.cadre + BreakText(pad.afterCadre, pad.beforeNumber, NumberText(sup, numberLabel, pad, tail))
    requires e == p + |sup.cadre|
    requires PortalLayout(sup, numberLabel, pad)
    ensures Tier1CadreEnd(s, g, p)(e) == Some(g + [sup.cadre, sup.enrollmentNumber])
  {
    var v := sup.cadre;
    var x := NumberText(sup, numberLabel, pad, tail);
    var k := NumberThen(s, SpacesThen(s, Tier1Number(s, g + [v])));
    var c := e + |pad.afterCadre| + 6 + |pad.beforeNumber|;
    assert x != [] && !IsSpace(x[0]) by {
      assert x[0] == numberLabel[0];
    }
    assert c <= |s| && s[c..] == x && Slice(s, p, e) == v && (k(c).Some? ==> BreakThen(s, k)(e) == k(c)) by {
      ValueBreakOn(s, p, e, v, pad.afterCadre, pad.beforeNumber, x, k, c);
    }
    assert k(c) == Some(g + [v, sup.enrollmentNumber]) by {
      NumberOn(s, c, sup, numberLabel, pad, tail, g + [v]);
      assert (g + [v]) + [sup.enrollmentNumber] == g + [v, sup.enrollmentNumber];
    }
    CadreEndFrom(s, p, e, g, v, k, c);
  }

  /** The cadre's group is the slice it spans, so the rest of the pattern after it is `k`. */
  lemma {:induction false} CadreEndFrom(s: string, p: nat, e: nat, g: Captures, v: string, k: Cont, c: nat)
    requires k == NumberThen(s, SpacesThen(s, Tier1Number(s, g + [v])))
    requires Slice(s, p, e) == v && k(c).Some? && BreakThen(s, k)(e) == k(c)
    ensures Tier1CadreEnd(s, g, p)(e) == k(c)
  {
  }

  /** Inside the cadre the line break cannot start, so the lazy group goes on. */
  lemma {:induction false} CadreInside(s: string, p: nat, v: string, rest: string, g: Captures)
    requires p <= |s| && s[p..] == v + rest && PlainValue(v)
    ensures forall q: nat :: p < q < p + |v| ==> Tier1CadreEnd(s, g, p)(q).None?
  {
    forall q: nat | p < q < p + |v| ensures Tier1CadreEnd(s, g, p)(q).None? {
      var k := NumberThen(s, SpacesThen(s, Tier1Number(s, g + [Slice(s, p, q)])));
      BreakInside(s, p, v, rest, q, k);
    }
  }

  /** Strictly inside a plain value, the line-break part of the pattern fails. */
  lemma {:induction false} BreakInside(s: string, p: nat, v: string, rest: string, q: nat, k: Cont)
    requires p <= |s| && s[p..] == v + rest && PlainValue(v) && p < q < p + |v|
    ensures BreakThen(s, k)(q).None?
  {
    var m := SpacesThen(s, SlashThen(s, LitThen(s, ">", SpacesThen(s, k))));
    LitThenAtLt(s, "<br", m);
    NoTagInside(s, p, v, rest, q, LitThen(s, "<br", m));
  }

  /** The number label, the number, and the end of the comment; the number group is the whole number. */
  lemma {:induction false} NumberOn(s: string, c: nat, sup: Superintendent, numberLabel: string, pad: Padding, tail: string, g: Captures)
    requires c <= |s| && s[c..] == NumberText(sup, numberLabel, pad, tail)
    requires PortalLayout(sup, numberLabel, pad)
    ensures NumberThen(s, SpacesThen(s, Tier1Number(s, g)))(c) == Some(g + [sup.enrollmentNumber])
  {
    var x := " " + (sup.enrollmentNumber + CloseText(pad.afterNumber, tail));
    var k := SpacesThen(s, Tier1Number(s, g));
    var m := c + |numberLabel| + 1;
    assert s[c..] == (numberLabel + ":") + x;
    After(s, c, numberLabel + ":", x);
    NumberValueOn(s, m, sup.enrollmentNumber, pad.afterNumber, tail, g);
    NumberLabelOn(s, c, numberLabel, x, k, m);
  }

  /** Either label with its colon hands over to the rest of the pattern right after the colon, at `m`. */
  lemma {:induction false} NumberLabelOn(s: string, c: nat, numberLabel: string, x: string, k: Cont, m: nat)
    requires c <= |s| && s[c..] == (numberLabel + ":") + x && m == c + |numberLabel| + 1
    requires numberLabel == "Enrollment Number" || numberLabel == "Registration Number"
    ensures NumberThen(s, k)(c) == k(m)
  {
    LitOver(s, c, numberLabel + ":", x, true, k, m);
    NumberLabelIff(s, c, k);
    if numberLabel == "Enrollment Number" {
      assert numberLabel + ":" == "Enrollment Number:";
    } else {
      assert numberLabel + ":" == "Registration Number:";
    }
  }

  /** ` `, the number, and the end of the comment. */
  lemma {:induction false} NumberValueOn(s: string, m: nat, v: string, w: string, tail: string, g: Captures)
    requires m <= |s| && s[m..] == " " + (v + CloseText(w, tail)) && PlainValue(v) && AllSpace(w)
    ensures SpacesThen(s, Tier1Number(s, g))(m) == Some(g + [v])
  {
    var rest := CloseText(w, tail);
    var p := m + 1;
    var e := p + |v|;
    After(s, m, " ", v + rest);
    After(s, p, v, rest);
    assert Slice(s, p, e) == v;
    CloseOn(s, e, w, tail, g + [v]);
    assert Tier1NumberEnd(s, g, p)(e) == Tier1Close(s, g + [v])(e);
    forall q: nat | p < q < e ensures Tier1NumberEnd(s, g, p)(q).None? {
      CloseInside(s, p, v, rest, q, g + [Slice(s, p, q)]);
    }
    LazyOver(s, p, v, rest, Tier1NumberEnd(s, g, p), e);
    assert (v + rest)[0] == v[0];
    SpacesOver(s, m, " ", v + rest, Tier1Number(s, g), p);
  }

  /** Strictly inside a plain value, the closing part of the pattern fails. */
  lemma {:induction false} CloseInside(s: string, p: nat, v: string, rest: string, q: nat, g: Captures)
    requires p <= |s| && s[p..] == v + rest && PlainValue(v) && p < q < p + |v|
    ensures Tier1Close(s, g)(q).None?
  {
    var m := SpacesThen(s, LitThen(s, "-->", Done(g)));
    LitThenAtLt(s, "</a>", m);
    NoTagInside(s, p, v, rest, q, LitThen(s, "</a>", m));
  }

  /** `</a>-->` after whitespace completes the match. */
  lemma {:induction false} CloseOn(s: string, e: nat, w: string, tail: string, g: Captures)
    requires e <= |s| && s[e..] == CloseText(w, tail) && AllSpace(w)
    ensures Tier1Close(s, g)(e) == Some(g)
  {
    var d := e + |w|;
    After(s, e, w, "</a>" + ("-->" + tail));
    CloseTagOn(s, d, tail, g);
    SpacesOver(s, e, w, "</a>" + ("-->" + tail), LitThen(s, "</a>", SpacesThen(s, LitThen(s, "-->", Done(g)))), d);
  }

  lemma {:induction false} CloseTagOn(s: string, d: nat, tail: string, g: Captures)
    requires d <= |s| && s[d..] == "</a>" + ("-->" + tail)
    ensures LitThen(s, "</a>", SpacesThen(s, LitThen(s, "-->", Done(g))))(d) == Some(g)
  {
    After(s, d, "</a>", "-->" + tail);
    CommentEndOn(s, d + 4, tail, g);
    LitOver(s, d, "</a>", "-->" + tail, true, SpacesThen(s, LitThen(s, "-->", Done(g))), d + 4);
  }

  lemma {:induction false} CommentEndOn(s: string, d: nat, tail: string, g: Captures)
    requires d <= |s| && s[d..] == "-->" + tail
    ensures SpacesThen(s, LitThen(s, "-->", Done(g)))(d) == Some(g)
  {
    LitOver(s, d, "-->", tail, true, Done(g), d + 3);
    assert s[d..] == "" + ("-->" + tail);
    SpacesOver(s, d, "", "-->" + tail, LitThen(s, "-->", Done(g)), d);
  }

  /** Where the text holds a line break, the text after it. */
  lemma {:induction false} BreakAfter(s: string, e: nat, w: string, v: string, x: string)
    requires e <= |s| && s[e..] == BreakText(w, v, x)
    ensures e + |w| + 6 + |v| <= |s| && s[e + |w| + 6 + |v|..] == x
  {
    After(s, e, w, "<br" + (" " + ("/" + (">" + (v + x)))));
    After(s, e + |w|, "<br", " " + ("/" + (">" + (v + x))));
    After(s, e + |w| + 3, " ", "/" + (">" + (v + x)));
    After(s, e + |w| + 4, "/", ">" + (v + x));
    After(s, e + |w| + 5, ">", v + x);
    After(s, e + |w| + 6, v, x);
  }

  /** A value ends where the line break after it starts; the pattern resumes at `c`, after the break. */
  lemma {:induction false} ValueBreakOn(s: string, p: nat, e: nat, v: string, w: string, u: string, x: string, k: Cont, c: nat)
    requires p <= |s| && s[p..] == v + BreakText(w, u, x) && e == p + |v|
    requires AllSpace(w) && AllSpace(u) && x != [] && !IsSpace(x[0])
    requires c == e + |w| + 6 + |u|
    ensures c <= |s| && s[c..] == x && Slice(s, p, e) == v
    ensures k(c).Some? ==> BreakThen(s, k)(e) == k(c)
  {
    After(s, p, v, BreakText(w, u, x));
    BreakAfter(s, e, w, u, x);
    if k(c).Some? {
      BreakOn(s, e, w, u, x, k, c);
    }
  }

  /** The line-break part of the pattern consumes a line break and the whitespace around it, up to `z`. */
  lemma {:induction false} BreakOn(s: string, e: nat, w: string, v: string, x: string, k: Cont, z: nat)
    requires e <= |s| && s[e..] == BreakText(w, v, x) && AllSpace(w) && AllSpace(v)
    requires z == e + |w| + 6 + |v| && x != [] && !IsSpace(x[0]) && k(z).Some?
    ensures BreakThen(s, k)(e) == k(z)
  {
    var r1 := "<br" + (" " + ("/" + (">" + (v + x))));
    var b := e + |w|;
    After(s, e, w, r1);
    BreakTagOn(s, b, v, x, k, z);
    SpacesOver(s, e, w, r1, LitThen(s, "<br", SpacesThen(s, SlashThen(s, LitThen(s, ">", SpacesThen(s, k))))), b);
  }

  lemma {:induction false} BreakTagOn(s: string, b: nat, v: string, x: string, k: Cont, z: nat)
    requires b <= |s| && s[b..] == "<br" + (" " + ("/" + (">" + (v + x)))) && AllSpace(v)
    requires z == b + 6 + |v| && x != [] && !IsSpace(x[0]) && k(z).Some?
    ensures LitThen(s, "<br", SpacesThen(s, SlashThen(s, LitThen(s, ">", SpacesThen(s, k)))))(b) == k(z)
  {
    var r2 := " " + ("/" + (">" + (v + x)));
    var c, d := b + 3, b + 4;
    After(s, b, "<br", r2);
    After(s, c, " ", "/" + (">" + (v + x)));
    SlashTagOn(s, d, v, x, k, z);
    SpacesOver(s, c, " ", "/" + (">" + (v + x)), SlashThen(s, LitThen(s, ">", SpacesThen(s, k))), d);
    LitOver(s, b, "<br", r2, true, SpacesThen(s, SlashThen(s, LitThen(s, ">", SpacesThen(s, k)))), c);
  }

  lemma {:induction false} SlashTagOn(s: string, d: nat, v: string, x: string, k: Cont, z: nat)
    requires d <= |s| && s[d..] == "/" + (">" + (v + x)) && AllSpace(v)
    requires z == d + 2 + |v| && x != [] && !IsSpace(x[0]) && k(z).Some?
    ensures SlashThen(s, LitThen(s, ">", SpacesThen(s, k)))(d) == k(z)
  {
    var f, h := d + 1, d + 2;
    After(s, d, "/", ">" + (v + x));
    After(s, f, ">", v + x);
    SpacesOver(s, h, v, x, k, z);
    LitOver(s, f, ">", v + x, true, SpacesThen(s, k), h);
    SlashOver(s, d, ">" + (v + x), LitThen(s, ">", SpacesThen(s, k)), f);
  }

  /**
    A page holding the superintendent's anchor as the portal writes it, after
    text in which no comment opens, yields exactly that superintendent, from the
    primary pattern.
   */
  lemma {:induction false} PortalCommentFound(prefix: string, sup: Superintendent, numberLabel: string, pad: Padding, tail: string)
    requires PortalLayout(sup, numberLabel, pad) && !Occurs(prefix, "<!--", true)
    ensures Tier1(prefix + PortalComment(sup, numberLabel, pad, tail)) == Some(sup)
    ensures ExtractSuperintendent(prefix + PortalComment(sup, numberLabel, pad, tail)) == Some(sup)
  {
    var html := prefix + PortalComment(sup, numberLabel, pad, tail);
    Tier1AfterPrefix(html, prefix, sup, numberLabel, pad, tail);
    Tier1Stripped(html, sup);
  }

  /** Text without `!` holds no `<!--`. */
  lemma {:induction false} NoOpenerWithoutBang(prefix: string)
    requires '!' !in prefix
    ensures !Occurs(prefix, "<!--", true)
  {
    forall i: nat | i <= |prefix| ensures !MatchesAt(prefix, i, "<!--", true) {
      MatchesAtIff(prefix, i, "<!--", true);
      if i + 1 < |prefix| {
        assert prefix[i + 1] in prefix;
        assert !CharMatch(prefix[i + 1], "<!--"[1], true);
      }
    }
  }

  /**
    The first page of the superintendent tests, written as the portal layout: one space before
    `>`, trailing spaces before each `<br />` and before `</a>`.
  */
  lemma {:induction false} KelvinPageFound()
    ensures ExtractSuperintendent("" + PortalComment(Superintendent("KELVIN KIPCHIRCHIR", "PHARMTECH", "10858"), "Enrollment Number",
              Padding(" ", "\n    ", "                     ", "\n    ", "                    ", "\n    ", "                    "), ""))
            == Some(Superintendent("KELVIN KIPCHIRCHIR", "PHARMTECH", "10858"))
  {
    NoOpenerWithoutBang("");
    KelvinLayout();
    PortalCommentFound("", Superintendent("KELVIN KIPCHIRCHIR", "PHARMTECH", "10858"), "Enrollment Number",
      Padding(" ", "\n    ", "                     ", "\n    ", "                    ", "\n    ", "                    "), "");
  }

  /**
    The second page of the superintendent tests, written as the portal layout: no padding before
    `>`, each line on its own line, the closing tag on the next line.
  */
  lemma {:induction false} KivuvaPageFound()
    ensures ExtractSuperintendent("" + PortalComment(Superintendent("KIVUVA", "PHARMTECH", "12832"), "Enrollment Number",
              Padding("", "\n      ", "", "\n      ", "", "\n      ", "\n    "), ""))
            == Some(Superintendent("KIVUVA", "PHARMTECH", "12832"))
  {
    NoOpenerWithoutBang("");
    KivuvaLayout();
    PortalCommentFound("", Superintendent("KIVUVA", "PHARMTECH", "12832"), "Enrollment Number",
      Padding("", "\n      ", "", "\n      ", "", "\n      ", "\n    "), "");
  }

  /**
    The third page of the superintendent tests, written as the portal layout: three spaces before
    `>`, trailing spaces before each `<br />` and before `</a>`, and markup before and after the comment.
  */
  lemma {:induction false} DoePageFound()
    ensures ExtractSuperintendent("\n    <div>Some other content</div>\n    "
              + PortalComment(Superintendent("JOHN DOE TEST", "PHARMACIST", "99999"), "Enrollment Number",
                  Padding("   ", "\n        ", "                ", "\n        ", "               ", "\n        ", "             "),
                  "\n    <div>More content</div>\n    "))
            == Some(Superintendent("JOHN DOE TEST", "PHARMACIST", "99999"))
  {
    NoOpenerWithoutBang("\n    <div>Some other content</div>\n    ");
    DoeLayout();
    PortalCommentFound("\n    <div>Some other content</div>\n    ", Superintendent("JOHN DOE TEST", "PHARMACIST", "99999"),
      "Enrollment Number",
      Padding("   ", "\n        ", "                ", "\n        ", "               ", "\n        ", "             "),
      "\n    <div>More content</div>\n    ");
  }

  /** The first test page's values and padding meet the layout's conditions. */
  lemma {:induction false} KelvinLayout()
    ensures PortalLayout(Superintendent("KELVIN KIPCHIRCHIR", "PHARMTECH", "10858"), "Enrollment Number",
              Padding(" ", "\n    ", "                     ", "\n    ", "                    ", "\n    ", "                    "))
  {
  }

  /** The second test page's values and padding meet the layout's conditions. */
  lemma {:induction false} KivuvaLayout()
    ensures PortalLayout(Superintendent("KIVUVA", "PHARMTECH", "12832"), "Enrollment Number",
              Padding("", "\n      ", "", "\n      ", "", "\n      ", "\n    "))
  {
  }

  /** The third test page's values and padding meet the layout's conditions. */
  lemma {:induction false} DoeLayout()
    ensures PortalLayout(Superintendent("JOHN DOE TEST", "PHARMACIST", "99999"), "Enrollment Number",
              Padding("   ", "\n        ", "                ", "\n        ", "               ", "\n        ", "             "))
  {
  }

  lemma {:induction false} Tier1Stripped(html: string, sup: Superintendent)
    requires Search(html, Tier1Cont(html)) == Some([sup.name, sup.cadre, sup.enrollmentNumber])
    requires IsStripped(sup.name) && IsStripped(sup.cadre) && IsStripped(sup.enrollmentNumber)
    ensures Tier1(html) == Some(sup)
  {
    StripClean(sup.name);
    StripClean(sup.cadre);
    StripClean(sup.enrollmentNumber);
  }

  /** The search skips the prefix, where no comment opens, and matches where the comment starts. */
  lemma {:induction false} Tier1AfterPrefix(html: string, prefix: string, sup: Superintendent, numberLabel: string, pad: Padding, tail: string)
    requires PortalLayout(sup, numberLabel, pad) && !Occurs(prefix, "<!--", true)
    requires html == prefix + PortalComment(sup, numberLabel, pad, tail)
    ensures Search(html, Tier1Cont(html)) == Some([sup.name, sup.cadre, sup.enrollmentNumber])
  {
    var p := |prefix|;
    assert Tier1Cont(html)(p) == Some([sup.name, sup.cadre, sup.enrollmentNumber]) by {
      assert html[p..] == PortalComment(sup, numberLabel, pad, tail);
      Tier1AtLayout(html, p, sup, numberLabel, pad, tail);
    }
    NoTier1Before(html, prefix, PortalComment(sup, numberLabel, pad, tail));
    SearchAt(html, Tier1Cont(html), p);
  }

  /** The primary pattern matches nowhere in text, ahead of a `<`, in which no comment opens. */
  lemma {:induction false} NoTier1Before(html: string, prefix: string, rest: string)
    requires !Occurs(prefix, "<!--", true) && rest != [] && rest[0] == '<' && html == prefix + rest
    ensures forall i: nat :: i < |prefix| ==> Tier1Cont(html)(i).None?
  {
    forall i: nat | i < |prefix| ensures Tier1Cont(html)(i).None? {
      NoOpenerBefore(prefix, rest, i);
    }
  }

  /**
    Where the text before a `<` holds no `<!--`, no `<!--` starts before that
    `<` either: one that overlapped it would need `<` as its second, third or
    fourth character.
   */
  lemma {:induction false} NoOpenerBefore(prefix: string, rest: string, i: nat)
    requires !Occurs(prefix, "<!--", true) && rest != [] && rest[0] == '<' && i < |prefix|
    ensures !MatchesAt(prefix + rest, i, "<!--", true)
  {
    var s := prefix + rest;
    MatchesAtIff(s, i, "<!--", true);
    if i + 4 <= |prefix| {
      assert !MatchesAt(prefix, i, "<!--", true);
      MatchesAtIff(prefix, i, "<!--", true);
      assert s[i] == prefix[i] && s[i + 1] == prefix[i + 1] && s[i + 2] == prefix[i + 2] && s[i + 3] == prefix[i + 3];
    } else {
      var j := |prefix| - i;
      assert s[i + j] == '<';
      assert !CharMatch(s[i + j], "<!--"[j], true);
    }
  }


  // ---------------------------------------------------------------- labelled fields

  /** The ten fields `parse_detailed_html` looks for. */
  datatype FacilityField =
    | FacilityName | RegistrationNumber | LicenseNumber | Ownership | LicenseType
    | EstablishmentYear | Street | County | LicenseStatus | ValidTill

  /** The fields in the order the source lists them. */
  const FacilityFields: seq<FacilityField> :=
    [FacilityName, RegistrationNumber, LicenseNumber, Ownership, LicenseType,
     EstablishmentYear, Street, County, LicenseStatus, ValidTill]

  /** The key under which a field is reported. */
  function FieldKey(f: FacilityField): string
  {
    match f
    case FacilityName => "facility_name"
    case RegistrationNumber => "registration_number"
    case LicenseNumber => "license_number"
    case Ownership => "ownership"
    case LicenseType => "license_type"
    case EstablishmentYear => "establishment_year"
    case Street => "street"
    case County => "county"
    case LicenseStatus => "license_status"
    case ValidTill => "valid_till"
  }

  /** What the value of a labelled field may consist of. */
  datatype ValueClass = NoTag | Letters | DigitsDashes

  /** `[^<]`, `[A-Z]` (case-insensitive) and `[\d-]`. */
  function ClassOf(v: ValueClass): char -> bool
  {
    match v
    case NoTag => NotLt
    case Letters => IsLetter
    case DigitsDashes => DigitOrDash
  }

  /**
    The shape of a field's pattern: the facility name inside its bold tag, or a
    label followed by a value (`spaced`: whitespace allowed before the colon).
   */
  datatype FieldPattern = NameTag(open: string) | Labelled(head: string, spaced: bool, value: ValueClass)

  /** The pattern of each field, as `parse_detailed_html` lists them. */
  function PatternOf(f: FacilityField): FieldPattern
  {
    match f
    case FacilityName => NameTag("<b style=\"font-size:20px;\">")
    case RegistrationNumber => Labelled("Facility Registration Number:", false, NoTag)
    case LicenseNumber => Labelled("License Number:", false, NoTag)
    case Ownership => Labelled("Ownership", true, NoTag)
    case LicenseType => Labelled("License Type:", false, NoTag)
    case EstablishmentYear => Labelled("Establishment Year", true, NoTag)
    case Street => Labelled("Street:", false, NoTag)
    case County => Labelled("County", true, NoTag)
    case LicenseStatus => Labelled("Licence Status:", false, Letters)
    case ValidTill => Labelled("Valid Till:", false, DigitsDashes)
  }

  /** `re.search(pattern, html, re.IGNORECASE).group(1)` for the field, before clean-up. */
  function FieldMatch(html: string, f: FacilityField): Option<string>
  {
    match PatternOf(f)
    case NameTag(open) => NameField(html, open)
    case Labelled(head, spaced, v) => LabelField(html, head, spaced, ClassOf(v))
  }

  /** Two fields never share a key. */
  lemma {:induction false} FieldKeyInjective(f: FacilityField, g: FacilityField)
    ensures FieldKey(f) == FieldKey(g) ==> f == g
  {
  }

  /** `FacilityFields` lists every field, once. */
  lemma {:induction false} EveryFieldListed(f: FacilityField)
    ensures f in FacilityFields
    ensures forall i, j :: 0 <= i < j < |FacilityFields| ==> FacilityFields[i] != FacilityFields[j]
  {
  }

  /**
    The fields found on a details page: a field that matches is reported,
    cleaned; one that does not is absent.  The map is keyed by the field;
    `FieldKey` gives the name it is reported under.
   */
  function DetailFields(html: string): (r: map<FacilityField, string>)
    ensures forall f :: f in r <==> FieldMatch(html, f).Some?
    ensures forall f :: f in r ==> r[f] == CleanField(FieldMatch(html, f).value)
    ensures forall f :: f in r ==> IsClean(r[f])
  {
    FieldsOf(MatchOf(html))
  }

  /** Each field's raw match on the page. */
  function MatchOf(html: string): FacilityField -> Option<string>
  {
    (f: FacilityField) => FieldMatch(html, f)
  }

  /** The cleaned values of the fields on which `m` found something. */
  function FieldsOf(m: FacilityField -> Option<string>): (r: map<FacilityField, string>)
    ensures forall f :: f in r <==> m(f).Some?
    ensures forall f :: f in r ==> r[f] == CleanField(m(f).value)
  {
    forall f ensures f in FacilityFields {
      EveryFieldListed(f);
    }
    map f | f in FacilityFields && m(f).Some? :: CleanField(m(f).value)
  }

  /** The fields of a details page, and its superintendent when one was found. */
  datatype FacilityInfo = FacilityInfo(fields: map<FacilityField, string>, superintendent: Option<Superintendent>)

  /** What `parse_detailed_html` reports for a details page. */
  function ParsedInfo(html: string): (r: FacilityInfo)
    ensures r.fields == DetailFields(html)
    ensures r.superintendent == ExtractSuperintendent(html)
  {
    FacilityInfo(DetailFields(html), ExtractSuperintendent(html))
  }

  /**
    `parse_detailed_html`: each field is looked for in turn and added to the
    result when it matches; the superintendent is added when the extractor
    finds one.
   */
  method ParseDetailedHtml(html: string) returns (info: FacilityInfo)
    ensures info == ParsedInfo(html)
  {
    var m := MatchOf(html);
    var fields := CollectFields(m);
    info := FacilityInfo(fields, ExtractSuperintendent(html));
  }

  /** The loop of `parse_detailed_html`, over the fields in their listed order. */
  method CollectFields(m: FacilityField -> Option<string>) returns (fields: map<FacilityField, string>)
    ensures fields == FieldsOf(m)
  {
    fields := map[];
    var n := 0;
    while n < |FacilityFields|
      invariant n <= |FacilityFields|
      invariant forall f :: f in fields ==> f in FacilityFields[..n]
      invariant forall f :: f in FacilityFields[..n] ==> (f in fields <==> m(f).Some?)
      invariant forall f :: f in fields ==> fields[f] == CleanField(m(f).value)
    {
      var f := FacilityFields[n];
      var v := m(f);
      if v.Some? {
        fields := fields[f := CleanField(v.value)];
      }
      PrefixStep(FacilityFields, n);
      n := n + 1;
    }
    assert forall f :: f in fields <==> m(f).Some? by {
      assert FacilityFields[..n] == FacilityFields;
      forall f ensures f in FacilityFields {
        EveryFieldListed(f);
      }
    }
    FieldsOfEach(m, fields);
  }

  /** One more element of `s` extends its prefix by that element. */
  lemma {:induction false} PrefixStep<T>(s: seq<T>, n: nat)
    requires n < |s|
    ensures s[..n + 1] == s[..n] + [s[n]]
  {
    assert s[..n + 1][n] == s[n];
  }

  /** A map that holds exactly the cleaned values `m` found is `FieldsOf(m)`. */
  lemma {:induction false} FieldsOfEach(m: FacilityField -> Option<string>, fields: map<FacilityField, string>)
    requires forall f :: f in fields <==> m(f).Some?
    requires forall f :: f in fields ==> fields[f] == CleanField(m(f).value)
    ensures fields == FieldsOf(m)
  {
    assert fields.Keys == FieldsOf(m).Keys;
  }
}

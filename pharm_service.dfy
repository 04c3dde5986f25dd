/**
  The verification service of the two pharmacy registers (`PPBService` of the
  pharmtechs and of the pharmacists package, which differ only in the
  register's constants): a license number is normalised, checked against the
  register's format, looked up in the cache, searched for with a POST, the
  encoded id read from the search page, the details page fetched and parsed,
  the two records merged, and a complete result cached.

  The portal is given as the replies it sends back (`Portal`), and every
  request the service sends is recorded in order (`sent`).  The clock readings
  the rate limiter and the cache consume are parameters (`Clock`).
 */
module PharmService {
  import opened Base
  import opened Text
  import opened Matcher
  import opened PharmExtract
  import opened SimpleCacheModel
  import opened RateLimit
  import opened ServiceCommon

  // ---------------------------------------------------------------- results

  /** The dictionary `verify_license_detailed` returns (without `processing_time_ms`). */
  datatype Envelope = Envelope(success: bool, licenseNumber: Arg, message: Message, fromCache: bool,
                               data: Option<map<Key, string>>)

  /** Every failure has the same shape: only the number and the message vary. */
  function Failure(number: Arg, message: Message): Envelope
  {
    Envelope(false, number, message, false, None)
  }

  /**
    The message of an envelope, by the step that produced it; `MessageText` gives the
    string the service of a register returns.
   */
  datatype Message =
    | InvalidArgument
    | InvalidFormat
    | NotFound(number: string)
    | NoDetails
    | Incomplete
    | PortalError(error: string)
    | Unexpected(error: string)
    | Verified

  /** How the messages name a member of the register: at the start of a sentence, and inside one. */
  function Noun(reg: Register): string
  {
    match reg
    case PharmTech => "PharmTech"
    case Pharmacist => "Pharmacist"
  }

  function LowerNoun(reg: Register): string
  {
    match reg
    case PharmTech => "pharmtech"
    case Pharmacist => "pharmacist"
  }

  /** The example number the format message shows. */
  function Example(reg: Register): string
  {
    match reg
    case PharmTech => "PT2025D05614"
    case Pharmacist => "P2025D00463"
  }

  /** The text before the number in the not-found message. */
  function NotFoundHead(reg: Register): string
  {
    Noun(reg) + " license '"
  }

  const NotFoundTail: string := "' not found in registry"

  /** The message of an argument that is no number at all; the format message extends it. */
  const InvalidText: string := "Invalid license number format"

  /** What the format message adds: the register's pattern and an example. */
  function FormatHint(reg: Register): string
  {
    ". Expected format: " + Prefix(reg) + "YYYYXNNNNN (e.g., " + Example(reg) + ")"
  }

  function MessageText(reg: Register, m: Message): string
  {
    match m
    case InvalidArgument => InvalidText
    case InvalidFormat => InvalidText + FormatHint(reg)
    case NotFound(number) => NotFoundHead(reg) + number + NotFoundTail
    case NoDetails => "Failed to retrieve detailed " + LowerNoun(reg) + " information"
    case Incomplete => "Failed to extract complete " + LowerNoun(reg) + " information"
    case PortalError(error) => ConnectFailed(error)
    case Unexpected(error) => UnexpectedError(error)
    case Verified => Noun(reg) + " verification successful"
  }

  /** The number the format message shows as an example is itself of the register's format. */
  lemma {:induction false} ExampleIsValid(reg: Register)
    ensures ValidFormat(reg, Example(reg))
  {
    FormatExamples();
  }

  /**
    Two characters of a message's text: the first, and one that tells apart
    the messages starting with it (the length for "Invalid", the word after
    the register's name for the register's name, the eleventh for "Failed").
    They are chosen because the number or error text a message carries comes
    only after these characters, so the signature depends on the kind of
    message alone: the two "Invalid" messages differ in length only (one is
    the other with the format hint added), the not-found and success messages
    part at "license" against "verification", and the three "Failed to"
    messages at "retrieve", "extract" and "connect".
   */
  function Signature(reg: Register, t: string): (char, char)
  {
    var c0 := if |t| > 0 then t[0] else ' ';
    var n := |Noun(reg)| + 1;
    var c1 :=
      if c0 == 'I' then (if |t| == 29 then 'a' else 'f')
      else if c0 == 'P' && |t| > n then t[n]
      else if c0 == 'F' && |t| > 10 then t[10]
      else ' ';
    (c0, c1)
  }

  /** The signature of each kind of message, whatever its number or error text. */
  function KindSignature(m: Message): (char, char)
  {
    match m
    case InvalidArgument => ('I', 'a')
    case InvalidFormat => ('I', 'f')
    case NotFound(_) => ('P', 'l')
    case NoDetails => ('F', 'r')
    case Incomplete => ('F', 'e')
    case PortalError(_) => ('F', 'c')
    case Unexpected(_) => ('U', ' ')
    case Verified => ('P', 'v')
  }

  lemma {:induction false} SignatureOfText(reg: Register, m: Message)
    ensures Signature(reg, MessageText(reg, m)) == KindSignature(m)
  {
    var t := MessageText(reg, m);
    var n := |Noun(reg)|;
    match m
    case NotFound(number) =>
      assert t[..n + 10] == NotFoundHead(reg);
      assert t[n + 1] == NotFoundHead(reg)[n + 1] == 'l';
    case PortalError(e) =>
      assert t[..33] == "Failed to connect to PPB portal: ";
    case Unexpected(e) =>
      assert t[..18] == "Unexpected error: ";
    case InvalidArgument =>
    case InvalidFormat => InvalidFormatSignature(reg);
    case NoDetails => NoDetailsSignature(reg);
    case Incomplete => IncompleteSignature(reg);
    case Verified => VerifiedSignature(reg);
  }

  // The messages without a payload that name the register, one at a time.
  lemma {:induction false} InvalidFormatSignature(reg: Register)
    ensures Signature(reg, MessageText(reg, InvalidFormat)) == KindSignature(InvalidFormat)
  {
    var t := MessageText(reg, InvalidFormat);
    assert FormatHint(reg)[0] == '.';
    assert t[0] == InvalidText[0];
  }

  lemma {:induction false} NoDetailsSignature(reg: Register)
    ensures Signature(reg, MessageText(reg, NoDetails)) == KindSignature(NoDetails)
  {
    var t := MessageText(reg, NoDetails);
    assert t == "Failed to retrieve detailed " + (LowerNoun(reg) + " information");
  }

  lemma {:induction false} IncompleteSignature(reg: Register)
    ensures Signature(reg, MessageText(reg, Incomplete)) == KindSignature(Incomplete)
  {
    var t := MessageText(reg, Incomplete);
    assert t == "Failed to extract complete " + (LowerNoun(reg) + " information");
  }

  lemma {:induction false} VerifiedSignature(reg: Register)
    ensures Signature(reg, MessageText(reg, Verified)) == KindSignature(Verified)
  {
    var t := MessageText(reg, Verified);
    var n := |Noun(reg)|;
    assert t[n + 1] == 'v';
  }

  /** A message's text tells which step failed, and with which number or error text. */
  lemma {:induction false} TextInjective(reg: Register, m1: Message, m2: Message)
    ensures MessageText(reg, m1) == MessageText(reg, m2) <==> m1 == m2
  {
    var t1, t2 := MessageText(reg, m1), MessageText(reg, m2);
    if t1 == t2 {
      SignatureOfText(reg, m1);
      SignatureOfText(reg, m2);
      var h := |NotFoundHead(reg)|;
      match m1
      case NotFound(a) =>
        assert a == t1[h..|t1| - 23];
        assert m2.number == t2[h..|t2| - 23];
      case PortalError(a) =>
        assert a == t1[33..];
        assert m2.error == t2[33..];
      case Unexpected(a) =>
        assert a == t1[18..];
        assert m2.error == t2[18..];
      case _ =>
    }
  }

  // ---------------------------------------------------------------- the portal

  /** What the search POST came back with: an exception's text (a failed status raises too), or the page. */
  datatype SearchReply = SearchFailed(error: string) | SearchOk(html: string)

  /** What the details GET came back with: an exception, or a status and a body. */
  datatype DetailsReply = Raised | Answered(status: int, body: string)

  /** `get_pharmtech_details`: the body of a reply with status 200; nothing otherwise. */
  function DetailsPage(r: DetailsReply): (page: Option<string>)
    ensures page.Some? <==> r.Answered? && r.status == 200
    ensures page.Some? ==> page.value == r.body
  {
    if r.Answered? && r.status == 200 then Some(r.body) else None
  }

  /** The portal, as the replies it gives. */
  datatype Portal = Portal(search: SearchReply, details: DetailsReply)

  /** A request sent to the portal: the search for a number, or the details of an encoded id. */
  datatype Request = SearchRequest(term: string) | DetailsRequest(id: string)

  /** What a request of the register's service sends: the posted form, or the query string. */
  function Params(reg: Register, req: Request): (r: map<string, string>)
    ensures req.SearchRequest? ==> r == SearchPayload(reg, req.term)
    ensures req.DetailsRequest? ==> r == DetailsParams(req.id)
  {
    match req
    case SearchRequest(term) => SearchPayload(reg, term)
    case DetailsRequest(id) => DetailsParams(id)
  }

  /** Different requests send different parameters: the form names the register and the number. */
  lemma {:induction false} ParamsInjective(reg: Register, a: Request, b: Request)
    ensures Params(reg, a) == Params(reg, b) <==> a == b
  {
    if Params(reg, a) == Params(reg, b) {
      if a.SearchRequest? && b.SearchRequest? {
        PayloadInjective(reg, a.term, reg, b.term);
      } else if a.DetailsRequest? && b.DetailsRequest? {
        assert a.id == Params(reg, a)["id"];
      }
    }
  }

  // ---------------------------------------------------------------- the verification, as a function

  /**
    How the service reads what it gets: the format check, the encoded id in
    the search page, the search row's fields and the details page's fields.
    The service of a register uses `Pages(reg)`; the properties below hold for
    any readers.
   */
  datatype Reader = Reader(format: string -> bool, token: string -> Option<string>,
                           rowData: string -> map<Key, string>, parse: string -> map<Key, string>)

  function Pages(reg: Register): Reader
  {
    Reader((s: string) => ValidateLicenseFormat(reg, s), RelToken,
           (html: string) => SearchData(reg, html), DetailData)
  }

  /**
    What a verification produces: the envelope returned, the requests sent,
    and the envelope handed to `cache.set` (which raises when the cache has no
    capacity).
   */
  datatype Outcome = Outcome(envelope: Envelope, sent: seq<Request>, storing: Option<Envelope>)

  /**
    `verify_license_detailed` for the argument `arg`, reading with `x`:
    `caching` is `use_cache and self.use_cache`, `cached` what the cache lookup
    returned, `verifiedAt` the `verified_at` text, and `storeFails` whether
    storing the result raises.
   */
  function Verify(x: Reader, arg: Arg, caching: bool, cached: Option<Envelope>, portal: Portal,
                  verifiedAt: string, storeFails: bool): Outcome
  {
    if !ValidArg(arg) then Outcome(Failure(arg, InvalidArgument), [], None)
    else VerifyNumber(x, Normalise(arg.s), caching, cached, portal, verifiedAt, storeFails)
  }

  /** The steps after normalisation, for the normalised number `id`: the format check, the cache, the portal. */
  function VerifyNumber(x: Reader, id: string, caching: bool, cached: Option<Envelope>, portal: Portal,
                        verifiedAt: string, storeFails: bool): Outcome
  {
    if !x.format(id) then Outcome(Failure(Str(id), InvalidFormat), [], None)
    else if caching && cached.Some? then Outcome(cached.value.(fromCache := true), [], None)
    else Stored(Fetched(x, id, caching, portal, verifiedAt), id, storeFails)
  }

  /** When `cache.set` raises, the result is replaced by the unexpected-error failure. */
  function Stored(o: Outcome, id: string, storeFails: bool): Outcome
  {
    if storeFails && o.storing.Some? then o.(envelope := Failure(Str(id), Unexpected(DictionaryEmpty))) else o
  }

  /** The steps from the search request on, for the normalised number `id`. */
  function Fetched(x: Reader, id: string, caching: bool, portal: Portal, verifiedAt: string): Outcome
  {
    var o := match portal.search
      case SearchFailed(e) => Outcome(Failure(Str(id), PortalError(e)), [], None)
      case SearchOk(html) => Searched(x, id, html, caching, portal.details, verifiedAt);
    o.(sent := [SearchRequest(id)] + o.sent)
  }

  /** The steps after a search that returned `html`; `sent` holds the requests after the search. */
  function Searched(x: Reader, id: string, html: string, caching: bool, reply: DetailsReply, verifiedAt: string): Outcome
  {
    if NoRecords(html) then Outcome(Failure(Str(id), NotFound(id)), [], None)
    else
      var token := x.token(html);
      if token.None? || token.value == "" then Outcome(Failure(Str(id), NotFound(id)), [], None)
      else Detailed(x, id, token.value, x.rowData(html), caching, reply, verifiedAt)
  }

  /** The steps from the details request on, for the encoded id `token` and the search row `row`. */
  function Detailed(x: Reader, id: string, token: string, row: map<Key, string>, caching: bool,
                    reply: DetailsReply, verifiedAt: string): Outcome
  {
    var page := DetailsPage(reply);
    var requests := [DetailsRequest(token)];
    if page.None? || page.value == "" then Outcome(Failure(Str(id), NoDetails), requests, None)
    else
      var final := Merge(row, x.parse(page.value));
      if LicenseMissing(final) then Outcome(Failure(Str(id), Incomplete), requests, None)
      else
        var result := Envelope(true, Str(id), Verified, false, Some(final[VerifiedAt := verifiedAt]));
        Outcome(result, requests, if caching then Some(result) else None)
  }

  // ---------------------------------------------------------------- properties of the verification

  /**
    An envelope fit to be cached under `key`: a complete success for the
    well-formed number the key names, with a license number and a
    verification time.
   */
  predicate Cacheable(x: Reader, key: string, env: Envelope)
  {
    && env.success && !env.fromCache && env.message == Verified
    && env.licenseNumber.Str? && key == CacheKey(env.licenseNumber.s) && x.format(env.licenseNumber.s)
    && env.data.Some? && !LicenseMissing(env.data.value) && VerifiedAt in env.data.value
  }

  /** Whatever the cache lookup gave for `arg` was stored by an earlier verification of the same number. */
  predicate CachedSound(x: Reader, arg: Arg, caching: bool, cached: Option<Envelope>)
  {
    caching && ValidArg(arg) && cached.Some? ==> Cacheable(x, CacheKey(Normalise(arg.s)), cached.value)
  }

  /** The error text of a failed search, or nothing. */
  function SearchError(portal: Portal): string
  {
    if portal.search.SearchFailed? then portal.search.error else ""
  }

  /** The encoded id the service reads from the search page `html`, when it goes on to the details. */
  function TokenOf(x: Reader, html: string): Option<string>
  {
    if NoRecords(html) then None
    else
      var token := x.token(html);
      if token.None? || token.value == "" then None else token
  }

  /** The page the service parses, once the search gave an encoded id. */
  function PageOf(portal: Portal): Option<string>
  {
    var page := DetailsPage(portal.details);
    if page.None? || page.value == "" then None else page
  }

  /** What a success past the cache carries: both records merged, and the verification time. */
  function SuccessData(x: Reader, portal: Portal, verifiedAt: string): map<Key, string>
    requires portal.search.SearchOk? && PageOf(portal).Some?
  {
    Merge(x.rowData(portal.search.html), x.parse(PageOf(portal).value))[VerifiedAt := verifiedAt]
  }

  /**
    Past the cache, the search for the number goes first, and the details of
    the encoded id follow exactly when the search page gave one; nothing else
    is sent.
   */
  lemma {:induction false} FetchedSent(x: Reader, id: string, caching: bool, portal: Portal, verifiedAt: string)
    ensures Fetched(x, id, caching, portal, verifiedAt).sent ==
      [SearchRequest(id)] + (if portal.search.SearchOk? && TokenOf(x, portal.search.html).Some?
                             then [DetailsRequest(TokenOf(x, portal.search.html).value)] else [])
  {
  }

  /**
    What a verification past the cache returns and hands to the cache: a
    failure carries only the number and the message; a success carries the
    merged records read by `x` and `verifiedAt`, with a license number, and
    with caching on it is handed to the cache as it is returned.
   */
  lemma {:induction false} FetchedOutcome(x: Reader, id: string, caching: bool, portal: Portal, verifiedAt: string)
    ensures var o := Fetched(x, id, caching, portal, verifiedAt);
      var e := o.envelope;
      && e.licenseNumber == Str(id) && !e.fromCache
      && e.message in {NotFound(id), NoDetails, Incomplete, PortalError(SearchError(portal)), Verified}
      && (e.success <==> e.message == Verified)
      && (!e.success ==> e.data.None?)
      && (e.message == PortalError(SearchError(portal)) <==> portal.search.SearchFailed?)
      && (e.message == NotFound(id) <==> portal.search.SearchOk? && TokenOf(x, portal.search.html).None?)
      && (e.success ==>
            && portal.search.SearchOk? && TokenOf(x, portal.search.html).Some? && PageOf(portal).Some?
            && e.data == Some(SuccessData(x, portal, verifiedAt))
            && !LicenseMissing(e.data.value) && VerifiedAt in e.data.value)
      && o.storing == (if caching && e.success then Some(e) else None)
  {
    var o := Fetched(x, id, caching, portal, verifiedAt);
    if portal.search.SearchOk? && TokenOf(x, portal.search.html).Some? {
      var html := portal.search.html;
      var inner := Detailed(x, id, TokenOf(x, html).value, x.rowData(html), caching, portal.details, verifiedAt);
      assert o.envelope == inner.envelope && o.storing == inner.storing;
      if PageOf(portal).Some? {
        var final := Merge(x.rowData(html), x.parse(PageOf(portal).value));
        if !LicenseMissing(final) {
          assert !LicenseMissing(final[VerifiedAt := verifiedAt]);
        }
      }
    }
  }

  /** With caching on, what a verification of a well-formed `id` stores is a complete success for that number. */
  lemma {:induction false} FetchedCacheable(x: Reader, id: string, portal: Portal, verifiedAt: string)
    requires x.format(id)
    ensures var o := Fetched(x, id, true, portal, verifiedAt);
      o.storing.Some? ==> Cacheable(x, CacheKey(id), o.storing.value)
  {
    FetchedOutcome(x, id, true, portal, verifiedAt);
  }

  /** After the cache, an unexpected error can only replace a result that was to be stored. */
  lemma {:induction false} StoredOutcome(o: Outcome, id: string, storeFails: bool)
    ensures var r := Stored(o, id, storeFails);
      && r.sent == o.sent && r.storing == o.storing
      && (r.envelope != o.envelope ==> storeFails && o.storing.Some?
                                       && r.envelope == Failure(Str(id), Unexpected(DictionaryEmpty)))
      && (storeFails && o.storing.Some? ==> r.envelope.message == Unexpected(DictionaryEmpty))
  {
  }

  /**
    An argument that is not a non-empty string fails at once, sending and
    caching nothing; and only such an argument gets that message.
   */
  lemma {:induction false} VerifyRejectsInvalid(x: Reader, arg: Arg, caching: bool, cached: Option<Envelope>, portal: Portal,
                             verifiedAt: string, storeFails: bool)
    requires CachedSound(x, arg, caching, cached)
    ensures var o := Verify(x, arg, caching, cached, portal, verifiedAt, storeFails);
      && (!ValidArg(arg) ==> o == Outcome(Failure(arg, InvalidArgument), [], None))
      && (o.envelope.message == InvalidArgument ==> !ValidArg(arg))
  {
    if ValidArg(arg) && x.format(Normalise(arg.s)) && !(caching && cached.Some?) {
      FetchedOutcome(x, Normalise(arg.s), caching, portal, verifiedAt);
    }
  }

  /**
    A normalised number not of the register's format fails before the cache
    is read, sending and caching nothing, and names the normalised number;
    only such a number gets that message.
   */
  lemma {:induction false} VerifyRejectsFormat(x: Reader, arg: Arg, caching: bool, cached: Option<Envelope>, portal: Portal,
                            verifiedAt: string, storeFails: bool)
    requires CachedSound(x, arg, caching, cached)
    ensures var o := Verify(x, arg, caching, cached, portal, verifiedAt, storeFails);
      && (ValidArg(arg) && !x.format(Normalise(arg.s)) ==>
            o == Outcome(Failure(Str(Normalise(arg.s)), InvalidFormat), [], None))
      && (o.envelope.message == InvalidFormat ==> ValidArg(arg) && !x.format(Normalise(arg.s)))
  {
    if ValidArg(arg) && x.format(Normalise(arg.s)) && !(caching && cached.Some?) {
      FetchedOutcome(x, Normalise(arg.s), caching, portal, verifiedAt);
    }
  }

  /** A live cache entry for a well-formed number is returned as it was stored, marked as coming from the cache; nothing is sent. */
  lemma {:induction false} VerifyServesHit(x: Reader, arg: Arg, cached: Envelope, portal: Portal, verifiedAt: string, storeFails: bool)
    requires ValidArg(arg) && x.format(Normalise(arg.s))
    ensures var o := Verify(x, arg, true, Some(cached), portal, verifiedAt, storeFails);
      o.envelope == cached.(fromCache := true) && o.sent == [] && o.storing.None?
  {
  }

  /**
    The portal is asked exactly when the argument is a well-formed number and
    the cache had nothing; the search for the normalised number goes first,
    and the details of the encoded id in its page follow when it has one.
   */
  lemma {:induction false} VerifySends(x: Reader, arg: Arg, caching: bool, cached: Option<Envelope>, portal: Portal,
                    verifiedAt: string, storeFails: bool)
    ensures var o := Verify(x, arg, caching, cached, portal, verifiedAt, storeFails);
      && (o.sent != [] <==> ValidArg(arg) && x.format(Normalise(arg.s)) && !(caching && cached.Some?))
      && (o.sent != [] ==>
            o.sent == [SearchRequest(Normalise(arg.s))]
                      + (if portal.search.SearchOk? && TokenOf(x, portal.search.html).Some?
                         then [DetailsRequest(TokenOf(x, portal.search.html).value)] else []))
  {
    if ValidArg(arg) && x.format(Normalise(arg.s)) && !(caching && cached.Some?) {
      FetchedSent(x, Normalise(arg.s), caching, portal, verifiedAt);
    }
  }

  /**
    The envelope a verification returns: it succeeds exactly when its message
    is the success message; a failure carries no data, is never marked as
    cached, and names the normalised number (or the argument itself when that
    is invalid); a success names the normalised, well-formed number and
    carries a license number and the verification time, and one not served
    from the cache carries both records the portal sent, merged.
   */
  lemma {:induction false} VerifyEnvelope(x: Reader, arg: Arg, caching: bool, cached: Option<Envelope>, portal: Portal,
                       verifiedAt: string, storeFails: bool)
    requires CachedSound(x, arg, caching, cached)
    ensures var e := Verify(x, arg, caching, cached, portal, verifiedAt, storeFails).envelope;
      && (e.success <==> e.message == Verified)
      && (!e.success ==> !e.fromCache && e.data.None?
                         && e.licenseNumber == (if ValidArg(arg) then Str(Normalise(arg.s)) else arg))
      && (e.success ==> ValidArg(arg) && e.licenseNumber == Str(Normalise(arg.s)) && x.format(Normalise(arg.s))
                        && e.data.Some? && !LicenseMissing(e.data.value) && VerifiedAt in e.data.value)
      && (e.fromCache <==> caching && ValidArg(arg) && x.format(Normalise(arg.s)) && cached.Some?)
      && (e.success && !e.fromCache ==>
            && portal.search.SearchOk? && TokenOf(x, portal.search.html).Some? && PageOf(portal).Some?
            && e.data == Some(SuccessData(x, portal, verifiedAt)))
  {
    if ValidArg(arg) && x.format(Normalise(arg.s)) {
      var id := Normalise(arg.s);
      if caching && cached.Some? {
        CacheKeyInjective(id, cached.value.licenseNumber.s);
      } else {
        FetchedOutcome(x, id, caching, portal, verifiedAt);
        StoredOutcome(Fetched(x, id, caching, portal, verifiedAt), id, storeFails);
      }
    }
  }

  /**
    Only a complete success of this very call is handed to the cache, under
    the key of the normalised number, and only when caching is on and the
    lookup missed; what is returned is that envelope, unless storing raised.
   */
  lemma {:induction false} VerifyStores(x: Reader, arg: Arg, caching: bool, cached: Option<Envelope>, portal: Portal,
                     verifiedAt: string, storeFails: bool)
    ensures var o := Verify(x, arg, caching, cached, portal, verifiedAt, storeFails);
      && (o.storing.Some? ==> caching && ValidArg(arg) && cached.None?
                              && Cacheable(x, CacheKey(Normalise(arg.s)), o.storing.value)
                              && o.envelope == (if storeFails then Failure(Str(Normalise(arg.s)), Unexpected(DictionaryEmpty))
                                                else o.storing.value))
      && (caching && o.envelope.success && !o.envelope.fromCache ==> o.storing == Some(o.envelope))
  {
    if ValidArg(arg) && x.format(Normalise(arg.s)) && !(caching && cached.Some?) {
      var id := Normalise(arg.s);
      FetchedOutcome(x, id, caching, portal, verifiedAt);
      StoredOutcome(Fetched(x, id, caching, portal, verifiedAt), id, storeFails);
    }
  }

  /**
    Margins and letter case do not matter: two arguments with the same
    normalised number are verified alike, and verifying the normalised number
    itself gives the same result.
   */
  lemma {:induction false} VerifyNormalises(x: Reader, a: Arg, b: Arg, caching: bool, cached: Option<Envelope>, portal: Portal,
                         verifiedAt: string, storeFails: bool)
    requires ValidArg(a) && ValidArg(b) && Normalise(a.s) == Normalise(b.s)
    ensures Verify(x, a, caching, cached, portal, verifiedAt, storeFails)
         == Verify(x, b, caching, cached, portal, verifiedAt, storeFails)
    ensures Normalise(a.s) != "" ==>
              (Verify(x, Str(Normalise(a.s)), caching, cached, portal, verifiedAt, storeFails)
               == Verify(x, a, caching, cached, portal, verifiedAt, storeFails))
  {
    NormaliseIdempotent(a.s);
  }

  /** With caching off, the cache is neither read nor written, and cannot make storing fail. */
  lemma {:induction false} VerifyUncached(x: Reader, arg: Arg, c1: Option<Envelope>, c2: Option<Envelope>, portal: Portal,
                       verifiedAt: string, f1: bool, f2: bool)
    ensures Verify(x, arg, false, c1, portal, verifiedAt, f1) == Verify(x, arg, false, c2, portal, verifiedAt, f2)
    ensures Verify(x, arg, false, c1, portal, verifiedAt, f1).storing.None?
  {
    if ValidArg(arg) && x.format(Normalise(arg.s)) {
      FetchedOutcome(x, Normalise(arg.s), false, portal, verifiedAt);
    }
  }

  /**
    A stored result is served: while its entry lives, the next verification of
    the same number returns it from the cache, marked as such, and sends
    nothing, whatever the portal would now say.
   */
  lemma {:induction false} StoredIsServed(x: Reader, arg: Arg, cached: Option<Envelope>, portal: Portal, verifiedAt: string,
                       items: Items<Envelope>, maxSize: int, expiresAt: real, now: real,
                       later: Portal, laterAt: string)
    requires maxSize > 0 && now <= expiresAt
    requires Verify(x, arg, true, cached, portal, verifiedAt, false).storing.Some?
    ensures var o := Verify(x, arg, true, cached, portal, verifiedAt, false);
      var key := CacheKey(Normalise(arg.s));
      var stored := AfterSet(items, key, Entry(o.storing.value, expiresAt), maxSize);
      var next := Verify(x, arg, true, Lookup(stored, key, now), later, laterAt, false);
      && o.envelope.success
      && next == Outcome(o.envelope.(fromCache := true), [], None)
  {
    var o := Verify(x, arg, true, cached, portal, verifiedAt, false);
    VerifyStores(x, arg, true, cached, portal, verifiedAt, false);
    var key := CacheKey(Normalise(arg.s));
    SetThenGet(items, key, Entry(o.storing.value, expiresAt), maxSize, now);
  }

  // ---------------------------------------------------------------- with the register's own readers

  /** The format check of the register's service accepts exactly the register's numbers. */
  lemma {:induction false} PagesFormat(reg: Register, s: string)
    ensures Pages(reg).format(s) <==> ValidFormat(reg, s)
  {
    FormatMatchIff(reg, s);
  }

  /**
    With the register's readers the encoded id is the leftmost `rel='…'`
    token of a search page that does not report "No records found"; it is
    never empty.
   */
  lemma {:induction false} PagesToken(reg: Register, html: string)
    ensures TokenOf(Pages(reg), html) == if NoRecords(html) then None else RelToken(html)
  {
    var t := RelToken(html);
    if t.Some? {
      var i: nat :| RelTokenAt(html, i, t.value) && forall j: nat, t' :: j < i ==> !RelTokenAt(html, j, t');
    }
  }

  /**
    A success of the register's service is for a number of the register's
    format, of the register's length.
   */
  lemma {:induction false} PagesSuccessFormat(reg: Register, arg: Arg, caching: bool, cached: Option<Envelope>, portal: Portal,
                           verifiedAt: string, storeFails: bool)
    requires CachedSound(Pages(reg), arg, caching, cached)
    ensures var e := Verify(Pages(reg), arg, caching, cached, portal, verifiedAt, storeFails).envelope;
      e.success ==> ValidArg(arg) && ValidFormat(reg, Normalise(arg.s)) && |Normalise(arg.s)| == |Prefix(reg)| + 10
  {
    var x := Pages(reg);
    VerifyEnvelope(x, arg, caching, cached, portal, verifiedAt, storeFails);
    if ValidArg(arg) {
      var id := Normalise(arg.s);
      PagesFormat(reg, id);
      if ValidFormat(reg, id) {
        FormatLength(reg, id);
      }
    }
  }

  /**
    With the register's readers, the search page `html` and the details page
    `page` give a record with a license number exactly when the page shows a
    practice license number or the search row a license-number cell,
    non-empty once stripped.
   */
  lemma {:induction false} PagesLicense(reg: Register, html: string, page: string)
    ensures var x := Pages(reg);
      var row := RowMatches(reg, html);
      var fields := PageMatches(page);
      !LicenseMissing(Merge(x.rowData(html), x.parse(page))) <==>
        (fields(PracticeLicenseNumber).Some? && Strip(fields(PracticeLicenseNumber).value) != "")
        || (row(LicenseNumber).Some? && Strip(row(LicenseNumber).value) != "")
  {
    MergedLicense(RowMatches(reg, html), PageMatches(page));
  }

  // ---------------------------------------------------------------- the service

  /**
    The clock readings and texts one verification consumes, in the order it
    consumes them: the cache lookup, the wait before the search, the wait
    before the details, the `verified_at` text, and the time the result is
    stored.
   */
  datatype Clock = Clock(lookupAt: real, searchWait: Tick, detailsWait: Tick, verifiedAt: string, storeAt: real)

  /** How many requests the rate limiter lets through for the requests `sent`: one wait before each. */
  function Waits(sent: seq<Request>): nat
  {
    |sent|
  }

  /** The cache, when there is one, keeps its invariant and holds only complete successes under their own keys. */
  ghost predicate CacheSound(x: Reader, c: SimpleCache?<Envelope>)
    reads c
  {
    c != null ==> c.Valid() && forall e :: e in c.items ==> Cacheable(x, e.0, e.1.value)
  }

  class Service {
    /** The register the service verifies against. */
    const reg: Register
    /** `self.use_cache`: the caller asked for a cache and the configuration enables it. */
    const useCache: bool
    /** `self.cache_ttl`, in seconds. */
    const cacheTtl: int
    /** The simple in-memory cache, present exactly when caching is on. */
    const cache: SimpleCache?<Envelope>
    const limiter: RateLimiter
    /** How the service reads: `Pages(reg)`, fixed at construction. */
    const reader: Reader
    /** The requests sent to the portal so far, oldest first. */
    ghost var sent: seq<Request>

    /**
      The limiter keeps its spacing, and every cached envelope is a complete
      success for the well-formed number its key names.
     */
    ghost predicate Valid()
      reads this, limiter, cache
    {
      && (useCache <==> cache != null)
      && limiter.Valid()
      && CacheSound(reader, cache)
    }

    /**
      `PPBService(use_cache=..., cache_ttl=..., rate_limit_delay=...)` of the
      register's package, with the simple cache backend, reading `cfg` for
      what is not given.
     */
    constructor (reg: Register, cfg: Settings, useCache: bool, cacheTtl: Option<int>, delay: Option<real>)
      ensures Valid()
      ensures this.reg == reg && reader == Pages(reg)
      ensures this.useCache == ServiceCaching(cfg, useCache) && this.cacheTtl == ServiceTtl(cfg, cacheTtl)
      ensures fresh(limiter) && limiter.delay == ServiceDelay(cfg, delay)
      ensures limiter.lastRequest == 0.0 && limiter.history == []
      ensures cache != null ==> fresh(cache) && cache.maxSize == cfg.cacheMaxSize && cache.defaultTtl == this.cacheTtl
                                && cache.items == [] && cache.hits == 0 && cache.misses == 0
                                && cache.sets == 0 && cache.evictions == 0
      ensures sent == []
    {
      this.reg := reg;
      reader := Pages(reg);
      limiter := new RateLimiter(ServiceDelay(cfg, delay));
      this.useCache := ServiceCaching(cfg, useCache);
      this.cacheTtl := ServiceTtl(cfg, cacheTtl);
      if ServiceCaching(cfg, useCache) {
        cache := new SimpleCache(cfg.cacheMaxSize, ServiceTtl(cfg, cacheTtl));
      } else {
        cache := null;
      }
      sent := [];
    }

    /**
      `search_pharmtech` (`search_pharmacist`): waits for the rate limiter, then
      posts the search for `id`; a failed request becomes the connection error.
     */
    method SearchRegister(id: string, reply: SearchReply, tick: Tick) returns (r: Result<string>)
      requires limiter.Valid() && TickOk(tick)
      modifies this, limiter
      ensures limiter.Valid()
      ensures r == match reply
                   case SearchFailed(e) => Err(e)
                   case SearchOk(html) => Ok(html)
      ensures sent == old(sent) + [SearchRequest(id)]
      ensures limiter.history == old(limiter.history) + [limiter.lastRequest]
    {
      var _ := limiter.Wait(tick.now, tick.jitter, tick.overshoot);
      sent := sent + [SearchRequest(id)];
      match reply
      case SearchFailed(e) => r := Err(e);
      case SearchOk(html) => r := Ok(html);
    }

    /**
      `get_pharmtech_details` (`get_pharmacist_details`): waits for the rate
      limiter, then asks for the details of `token`; only a reply with status
      200 gives a page.
     */
    method GetDetails(token: string, reply: DetailsReply, tick: Tick) returns (page: Option<string>)
      requires limiter.Valid() && TickOk(tick)
      modifies this, limiter
      ensures limiter.Valid()
      ensures page == DetailsPage(reply)
      ensures sent == old(sent) + [DetailsRequest(token)]
      ensures limiter.history == old(limiter.history) + [limiter.lastRequest]
    {
      var _ := limiter.Wait(tick.now, tick.jitter, tick.overshoot);
      sent := sent + [DetailsRequest(token)];
      if reply.Answered? && reply.status == 200 {
        page := Some(reply.body);
      } else {
        page := None;
      }
    }

    /** Whether caching applies to a call with `use_cache = useCache`. */
    function Caching(useCache: bool): bool
    {
      useCache && this.useCache
    }

    /** Whether storing a new entry raises: a cache without capacity. */
    function StoreFails(): bool
    {
      cache != null && cache.maxSize <= 0
    }

    /**
      `verify_license_detailed(arg, use_cache)`: the returned envelope, the
      requests sent and the cache contents are those `Verify` gives for the
      cache lookup at `clock.lookupAt`; every request is spaced by the rate
      limiter; a result stored expires `cache_ttl` seconds after `clock.storeAt`.
     */
    method VerifyLicenseDetailed(arg: Arg, useCache: bool, portal: Portal, clock: Clock) returns (env: Envelope)
      requires Valid() && TickOk(clock.searchWait) && TickOk(clock.detailsWait)
      modifies this, limiter, cache
      ensures Valid()
      ensures var id := if arg.Str? then Normalise(arg.s) else "";
        var looks := Caching(useCache) && ValidArg(arg) && reader.format(id);
        var key := CacheKey(id);
        var cached := if looks then Lookup(old(cache.items), key, clock.lookupAt) else None;
        var o := Verify(reader, arg, Caching(useCache), cached, portal, clock.verifiedAt, StoreFails());
        && env == o.envelope
        && sent == old(sent) + o.sent
        && |limiter.history| == |old(limiter.history)| + Waits(o.sent)
        && old(limiter.history) <= limiter.history
        && (cache != null ==>
              var afterGet := if looks then AfterGet(old(cache.items), key, clock.lookupAt) else old(cache.items);
              && cache.items == AfterStore(afterGet, key, o.storing, clock.storeAt + cacheTtl as real, cache.maxSize)
              && cache.hits == old(cache.hits) + (if cached.Some? then 1 else 0)
              && cache.misses == old(cache.misses) + (if looks && cached.None? then 1 else 0)
              && cache.sets == old(cache.sets) + (if o.storing.Some? && !StoreFails() then 1 else 0)
              && cache.evictions == old(cache.evictions)
                                    + (if o.storing.Some? && !StoreFails() && |afterGet| >= cache.maxSize then 1 else 0))
    {
      if !ValidArg(arg) {
        return Failure(arg, InvalidArgument);
      }
      var id := Normalise(arg.s);
      if !reader.format(id) {
        return Failure(Str(id), InvalidFormat);
      }
      if useCache && this.useCache {
        env := Serve(id, portal, clock);
      } else {
        var storing;
        env, storing := Fetch(id, false, portal, clock);
        FetchedOutcome(reader, id, false, portal, clock.verifiedAt);
      }
    }

    /**
      A verification of the normalised, well-formed number `id` with the cache
      in use: a live entry is served, otherwise the portal is asked and a
      complete success stored.
     */
    method Serve(id: string, portal: Portal, clock: Clock) returns (env: Envelope)
      requires cache != null && CacheSound(reader, cache) && limiter.Valid() && reader.format(id)
      requires TickOk(clock.searchWait) && TickOk(clock.detailsWait)
      modifies this, limiter, cache
      ensures CacheSound(reader, cache) && limiter.Valid()
      ensures var key := CacheKey(id);
        var cached := Lookup(old(cache.items), key, clock.lookupAt);
        var afterGet := AfterGet(old(cache.items), key, clock.lookupAt);
        var o := if cached.Some? then Outcome(cached.value.(fromCache := true), [], None)
                 else Stored(Fetched(reader, id, true, portal, clock.verifiedAt), id, StoreFails());
        && env == o.envelope
        && sent == old(sent) + o.sent
        && |limiter.history| == |old(limiter.history)| + Waits(o.sent)
        && old(limiter.history) <= limiter.history
        && cache.items == AfterStore(afterGet, key, o.storing, clock.storeAt + cacheTtl as real, cache.maxSize)
        && cache.hits == old(cache.hits) + (if cached.Some? then 1 else 0)
        && cache.misses == old(cache.misses) + (if cached.None? then 1 else 0)
        && cache.sets == old(cache.sets) + (if o.storing.Some? && !StoreFails() then 1 else 0)
        && cache.evictions == old(cache.evictions)
                              + (if o.storing.Some? && !StoreFails() && |afterGet| >= cache.maxSize then 1 else 0)
    {
      var key := CacheKey(id);
      var hit := LookUp(key, clock.lookupAt);
      if hit.Some? {
        return hit.value.(fromCache := true);
      }
      env := Miss(id, portal, clock);
    }

    /** After a cache miss for `id`: the portal is asked, and a complete success stored. */
    method Miss(id: string, portal: Portal, clock: Clock) returns (env: Envelope)
      requires cache != null && CacheSound(reader, cache) && limiter.Valid() && reader.format(id)
      requires TickOk(clock.searchWait) && TickOk(clock.detailsWait)
      requires Position(cache.items, CacheKey(id)).None?
      modifies this, limiter, cache
      ensures CacheSound(reader, cache) && limiter.Valid()
      ensures var o := Stored(Fetched(reader, id, true, portal, clock.verifiedAt), id, StoreFails());
        && env == o.envelope
        && sent == old(sent) + o.sent
        && |limiter.history| == |old(limiter.history)| + Waits(o.sent)
        && old(limiter.history) <= limiter.history
        && cache.items == AfterStore(old(cache.items), CacheKey(id), o.storing, clock.storeAt + cacheTtl as real, cache.maxSize)
        && cache.hits == old(cache.hits) && cache.misses == old(cache.misses)
        && cache.sets == old(cache.sets) + (if o.storing.Some? && !StoreFails() then 1 else 0)
        && cache.evictions == old(cache.evictions)
                              + (if o.storing.Some? && !StoreFails() && old(|cache.items|) >= cache.maxSize then 1 else 0)
    {
      ghost var items := cache.items;
      var storing;
      env, storing := Fetch(id, true, portal, clock);
      assert cache.items == items;
      FetchedCacheable(reader, id, portal, clock.verifiedAt);
      ghost var o := Fetched(reader, id, true, portal, clock.verifiedAt);
      assert Stored(o, id, StoreFails()).storing == storing;
      env := Keep(id, env, storing, clock.storeAt);
    }

    /**
      `self.cache.set(cache_key, result)` for the result `storing` that is to
      be stored, if any; when the store raises, the reply `fetched` becomes
      an unexpected error.
     */
    method Keep(id: string, fetched: Envelope, storing: Option<Envelope>, now: real) returns (env: Envelope)
      requires cache != null && CacheSound(reader, cache)
      requires storing.Some? ==> Cacheable(reader, CacheKey(id), storing.value)
      requires Position(cache.items, CacheKey(id)).None?
      modifies cache
      ensures CacheSound(reader, cache)
      ensures env == if storing.Some? && StoreFails() then Failure(Str(id), Unexpected(DictionaryEmpty)) else fetched
      ensures cache.items == AfterStore(old(cache.items), CacheKey(id), storing, now + cacheTtl as real, cache.maxSize)
      ensures cache.hits == old(cache.hits) && cache.misses == old(cache.misses)
      ensures cache.sets == old(cache.sets) + (if storing.Some? && !StoreFails() then 1 else 0)
      ensures cache.evictions == old(cache.evictions)
                                 + (if storing.Some? && !StoreFails() && old(|cache.items|) >= cache.maxSize then 1 else 0)
    {
      env := fetched;
      if storing.Some? {
        var raised := Store(CacheKey(id), storing.value, now);
        if raised {
          env := Failure(Str(id), Unexpected(DictionaryEmpty));
        }
      }
    }

    /** `get_cache_stats()`: the cache's statistics, or only that there is no cache. */
    method GetCacheStats() returns (r: CacheReport)
      requires Valid()
      ensures r.CacheEnabled? <==> useCache
      ensures r.CacheEnabled? ==>
        && r.stats.backend == "simple" && r.stats.size == |cache.items| && r.stats.maxSize == cache.maxSize
        && r.stats.hits == cache.hits && r.stats.misses == cache.misses
        && r.stats.sets == cache.sets && r.stats.evictions == cache.evictions
        && r.stats.totalRequests == cache.hits + cache.misses
        && r.stats.hitRate == HitRate(cache.hits, cache.misses)
    {
      if !useCache || cache == null {
        return CacheDisabled;
      }
      var stats := cache.GetStats();
      return CacheEnabled(stats);
    }

    /** `clear_cache()`: empties the cache, if there is one, keeping its counters; says whether it did. */
    method ClearCache() returns (cleared: bool)
      requires Valid()
      modifies cache
      ensures Valid()
      ensures cleared <==> useCache
      ensures cleared ==> cache.items == []
      ensures cache != null ==> cache.hits == old(cache.hits) && cache.misses == old(cache.misses)
                                && cache.sets == old(cache.sets) && cache.evictions == old(cache.evictions)
    {
      if useCache && cache != null {
        cache.Clear();
        return true;
      }
      return false;
    }

    /** `self.cache.get(key)`: a hit is a complete success stored under `key`; after a miss `key` is not stored. */
    method LookUp(key: string, now: real) returns (hit: Option<Envelope>)
      requires cache != null && CacheSound(reader, cache)
      modifies cache
      ensures CacheSound(reader, cache)
      ensures hit == Lookup(old(cache.items), key, now) && cache.items == AfterGet(old(cache.items), key, now)
      ensures cache.hits == old(cache.hits) + (if hit.Some? then 1 else 0)
      ensures cache.misses == old(cache.misses) + (if hit.None? then 1 else 0)
      ensures cache.sets == old(cache.sets) && cache.evictions == old(cache.evictions)
      ensures hit.Some? ==> Cacheable(reader, key, hit.value)
      ensures hit.None? ==> Position(cache.items, key).None?
    {
      hit := cache.Get(key, now);
      AfterGetKeeps(old(cache.items), key, now);
      if hit.None? {
        MissLeavesNoEntry(old(cache.items), key, now);
      }
    }

    /**
      `self.cache.set(key, e, self.cache_ttl)` at `now`: `raised` is the
      `KeyError` of a cache without capacity.
     */
    method Store(key: string, e: Envelope, now: real) returns (raised: bool)
      requires cache != null && CacheSound(reader, cache) && Cacheable(reader, key, e)
      requires Position(cache.items, key).None?
      modifies cache
      ensures CacheSound(reader, cache)
      ensures raised <==> StoreFails()
      ensures cache.items == AfterSet(old(cache.items), key, Entry(e, now + cacheTtl as real), cache.maxSize)
      ensures cache.hits == old(cache.hits) && cache.misses == old(cache.misses)
      ensures cache.sets == old(cache.sets) + (if raised then 0 else 1)
      ensures cache.evictions == old(cache.evictions) + (if !raised && old(|cache.items|) >= cache.maxSize then 1 else 0)
    {
      SetRaisesIff(cache.items, key, cache.maxSize);
      raised := cache.Set(key, e, Some(cacheTtl), now);
      AfterSetKeeps(old(cache.items), key, Entry(e, now + cacheTtl as real), cache.maxSize);
    }

    /**
      Steps 1 to 3 of `verify_license_detailed` for the normalised number `id`:
      search, read the encoded id, fetch and parse the details, merge.
      `storing` is the result the caller then stores, when caching is on.
     */
    method Fetch(id: string, caching: bool, portal: Portal, clock: Clock) returns (env: Envelope, storing: Option<Envelope>)
      requires limiter.Valid() && TickOk(clock.searchWait) && TickOk(clock.detailsWait)
      modifies this, limiter
      ensures limiter.Valid()
      ensures var o := Fetched(reader, id, caching, portal, clock.verifiedAt);
        && env == o.envelope && storing == o.storing
        && sent == old(sent) + o.sent
        && |limiter.history| == |old(limiter.history)| + Waits(o.sent)
        && old(limiter.history) <= limiter.history
    {
      var search := SearchRegister(id, portal.search, clock.searchWait);
      if search.Err? {
        return Failure(Str(id), PortalError(search.msg)), None;
      }
      ghost var before := sent;
      ghost var beforeHistory := limiter.history;
      env, storing := FromSearch(id, search.value, caching, portal.details, clock);
      ghost var o := Searched(reader, id, search.value, caching, portal.details, clock.verifiedAt);
      assert sent == before + o.sent;
      assert |limiter.history| == |beforeHistory| + |o.sent|;
    }

    /** What follows a search that returned `html`: the encoded id is read, and its details fetched. */
    method FromSearch(id: string, html: string, caching: bool, reply: DetailsReply, clock: Clock)
      returns (env: Envelope, storing: Option<Envelope>)
      requires limiter.Valid() && TickOk(clock.detailsWait)
      modifies this, limiter
      ensures limiter.Valid()
      ensures var o := Searched(reader, id, html, caching, reply, clock.verifiedAt);
        && env == o.envelope && storing == o.storing
        && sent == old(sent) + o.sent
        && (o.sent == [] ==> limiter.history == old(limiter.history))
        && (o.sent != [] ==> limiter.history == old(limiter.history) + [limiter.lastRequest])
    {
      if NoRecords(html) {
        return Failure(Str(id), NotFound(id)), None;
      }
      var token := reader.token(html);
      if token.None? || token.value == "" {
        return Failure(Str(id), NotFound(id)), None;
      }
      var row := reader.rowData(html);
      env, storing := FetchDetails(id, token.value, row, caching, reply, clock);
    }

    /** Steps 2 and 3: the details of the encoded id `token`, parsed, merged over `row`, and checked for a license number. */
    method FetchDetails(id: string, token: string, row: map<Key, string>, caching: bool, reply: DetailsReply, clock: Clock)
      returns (env: Envelope, storing: Option<Envelope>)
      requires limiter.Valid() && TickOk(clock.detailsWait)
      modifies this, limiter
      ensures limiter.Valid()
      ensures var o := Detailed(reader, id, token, row, caching, reply, clock.verifiedAt);
        && env == o.envelope && storing == o.storing
        && sent == old(sent) + o.sent
        && limiter.history == old(limiter.history) + [limiter.lastRequest]
    {
      var page := GetDetails(token, reply, clock.detailsWait);
      if page.None? || page.value == "" {
        return Failure(Str(id), NoDetails), None;
      }
      var final := Merge(row, reader.parse(page.value));
      if LicenseMissing(final) {
        return Failure(Str(id), Incomplete), None;
      }
      final := final[VerifiedAt := clock.verifiedAt];
      env := Envelope(true, Str(id), Verified, false, Some(final));
      storing := if caching then Some(env) else None;
    }
  }
}

/**
  The facilities verification service (`PPBService` of the facilities
  package): a PPB registration number is checked, looked up in the cache,
  searched for on the portal, the facility's encoded id is read from the first
  search row, its details page is fetched with up to three request
  strategies, the page is parsed, and a complete result is cached.

  The portal is given as the replies it sends back (`Portal`), and every
  request the service sends is recorded in order (`sent`).  The clock readings
  the rate limiter and the cache consume are parameters (`Clock`).
 */
module FacilityService {
  import opened Base
  import opened Text
  import opened Matcher
  import opened FacilityExtract
  import opened SimpleCacheModel
  import opened RateLimit
  import opened ServiceCommon

  // ---------------------------------------------------------------- results

  /** The `data` of a successful verification: the parsed page and `verified_at`. */
  datatype Details = Details(info: FacilityInfo, verifiedAt: string)

  /** The dictionary `verify_license_detailed` returns (without `processing_time_ms`). */
  datatype Envelope = Envelope(success: bool, ppbNumber: Arg, message: Message, fromCache: bool, data: Option<Details>)

  /** Every failure has the same shape: only the number and the message vary. */
  function Failure(number: Arg, message: Message): Envelope
  {
    Envelope(false, number, message, false, None)
  }

  /**
    The message of an envelope, by the step that produced it; `MessageText` gives the
    string the service returns.
   */
  datatype Message =
    | InvalidNumber
    | NotFound(number: string)
    | NoFacilityId
    | NoDetails
    | Incomplete
    | PortalError(error: string)
    | Unexpected(error: string)
    | Verified

  function MessageText(m: Message): string
  {
    match m
    case InvalidNumber => "Invalid PPB number format"
    case NotFound(number) => "Facility with PPB number '" + number + "' not found in registry"
    case NoFacilityId => "Failed to extract facility ID from search results"
    case NoDetails => "Failed to retrieve detailed facility information"
    case Incomplete => "Failed to extract complete facility information"
    case PortalError(error) => ConnectFailed(error)
    case Unexpected(error) => UnexpectedError(error)
    case Verified => "Complete license verification successful"
  }

  /**
    Three characters of a message's text: the eleventh, the twelfth and, after
    "Failed to ex", the nineteenth. They are chosen because every message
    starts with a fixed phrase and its number or error text, if any, comes
    only after that phrase, at the nineteenth character or later. The fixed
    phrases already differ at the eleventh and twelfth characters ("PPB ",
    "with", "retrieve", "connect", "error", "license"), except the two
    "Failed to extract" messages, which part at the nineteenth: 'f' of
    "facility ID" against 'c' of "complete".
   */
  function Signature(t: string): (char, char, char)
  {
    var c10 := if |t| > 10 then t[10] else ' ';
    var c11 := if |t| > 11 then t[11] else ' ';
    (c10, c11, if |t| > 18 && c10 == 'e' && c11 == 'x' then t[18] else ' ')
  }

  /** The signature of each kind of message, whatever its number or error text. */
  function KindSignature(m: Message): (char, char, char)
  {
    match m
    case InvalidNumber => ('B', ' ', ' ')
    case NotFound(_) => ('i', 't', ' ')
    case NoFacilityId => ('e', 'x', 'f')
    case NoDetails => ('r', 'e', ' ')
    case Incomplete => ('e', 'x', 'c')
    case PortalError(_) => ('c', 'o', ' ')
    case Unexpected(_) => (' ', 'e', ' ')
    case Verified => ('i', 'c', ' ')
  }

  lemma {:induction false} SignatureOfText(m: Message)
    ensures Signature(MessageText(m)) == KindSignature(m)
  {
    var t := MessageText(m);
    match m
    case NotFound(n) =>
      assert t[..26] == "Facility with PPB number '";
    case PortalError(e) =>
      assert t[..33] == "Failed to connect to PPB portal: ";
    case Unexpected(e) =>
      assert t[..18] == "Unexpected error: ";
    case InvalidNumber => InvalidNumberSignature();
    case Verified => VerifiedSignature();
    case NoDetails => NoDetailsSignature();
    case NoFacilityId => NoFacilityIdSignature();
    case Incomplete => IncompleteSignature();
  }

  // The messages without a payload, one at a time.
  lemma {:induction false} InvalidNumberSignature() ensures Signature(MessageText(InvalidNumber)) == KindSignature(InvalidNumber) {}
  lemma {:induction false} VerifiedSignature() ensures Signature(MessageText(Verified)) == KindSignature(Verified) {}
  lemma {:induction false} NoDetailsSignature() ensures Signature(MessageText(NoDetails)) == KindSignature(NoDetails) {}
  lemma {:induction false} NoFacilityIdSignature() ensures Signature(MessageText(NoFacilityId)) == KindSignature(NoFacilityId) {}
  lemma {:induction false} IncompleteSignature() ensures Signature(MessageText(Incomplete)) == KindSignature(Incomplete) {}

  /** A message's text tells which step failed, and with which number or error text. */
  lemma {:induction false} TextInjective(m1: Message, m2: Message)
    ensures MessageText(m1) == MessageText(m2) <==> m1 == m2
  {
    var t1, t2 := MessageText(m1), MessageText(m2);
    if t1 == t2 {
      SignatureOfText(m1);
      SignatureOfText(m2);
      match m1
      case NotFound(a) =>
        assert a == t1[26..|t1| - 23];
        assert m2.number == t2[26..|t2| - 23];
      case PortalError(a) =>
        assert a == t1[33..];
        assert m2.error == t2[33..];
      case Unexpected(a) =>
        assert a == t1[18..];
        assert m2.error == t2[18..];
      case _ =>
    }
  }

  // ---------------------------------------------------------------- the portal

  /** What the search request came back with: an exception's text, or the decoded JSON. */
  datatype SearchReply = SearchFailed(error: string) | SearchOk(data: SearchData)

  /** The replies to the three details strategies, in the order they would be tried. */
  type Replies = r: seq<Response> | |r| == StrategyCount witness [Raised(""), Raised(""), Raised("")]

  /** The portal, as the replies it gives. */
  datatype Portal = Portal(search: SearchReply, details: Replies)

  /**
    A request sent to the portal, by what varies between requests: the search
    for a term at a timestamp, or one details strategy for an encoded id.
    `Params` gives the query each one sends.
   */
  datatype Request = SearchRequest(term: string, stamp: string) | DetailsRequest(strategy: nat, facilityId: string)

  /** The query of every details strategy. */
  function DetailsParams(facilityId: string): (r: map<string, string>)
    ensures r.Keys == {"search_details", "id"} && r["search_details"] == "facility" && r["id"] == facilityId
  {
    map["search_details" := "facility", "id" := facilityId]
  }

  /** The query string a request sends. */
  function Params(req: Request): map<string, string>
  {
    match req
    case SearchRequest(term, stamp) => BuildSearchParams(term, stamp)
    case DetailsRequest(_, fid) => DetailsParams(fid)
  }

  /** The details requests of the first `n` strategies. */
  function DetailsRequests(facilityId: string, n: nat): (r: seq<Request>)
    ensures |r| == n
    ensures forall j :: 0 <= j < n ==> r[j] == DetailsRequest(j, facilityId)
  {
    seq(n, (j: nat) => DetailsRequest(j, facilityId))
  }

  /** How many strategies are tried: up to and including the first accepted one, or all of them. */
  function Tried(accept: Response -> bool, replies: seq<Response>): (n: nat)
    ensures n <= |replies|
    ensures forall j :: 0 <= j < n - 1 ==> !accept(replies[j])
    ensures n < |replies| ==> 0 < n && accept(replies[n - 1])
  {
    match FirstAccepted(accept, replies)
    case Some(i) => i + 1
    case None => |replies|
  }

  /** The page `get_facility_details` returns: the body of the first accepted reply. */
  function DetailsHtml(accept: Response -> bool, replies: seq<Response>): (r: Option<string>)
    ensures r.None? && (forall j :: 0 <= j < |replies| && accept(replies[j]) ==> replies[j].Reply?) ==>
              forall j :: 0 <= j < |replies| ==> !accept(replies[j])
    ensures r.Some? ==> 0 < Tried(accept, replies) && accept(replies[Tried(accept, replies) - 1])
                        && replies[Tried(accept, replies) - 1].Reply?
                        && r.value == replies[Tried(accept, replies) - 1].body
  {
    match FirstAccepted(accept, replies)
    case Some(i) => if replies[i].Reply? then Some(replies[i].body) else None
    case None => None
  }

  /** An accepted page holds the three markers, so it is never empty. */
  lemma {:induction false} AcceptedNonEmpty(r: Response)
    ensures Accepted(r) ==> r.Reply? && r.body != ""
  {
    if Accepted(r) {
      OccursFits(r.body, RegistrationMarker, true);
    }
  }

  /** `not detailed_info.get('license_number')`: the license number is absent or empty. */
  predicate LicenseMissing(info: FacilityInfo)
  {
    LicenseNumber !in info.fields || info.fields[LicenseNumber] == ""
  }

  // ---------------------------------------------------------------- the verification, as a function

  /**
    How the service reads what the portal sends: the encoded id in the search
    data, whether a details reply is accepted, and the parsed page.  The
    service uses `Pages`; the properties below hold for any readers.
   */
  datatype Reader = Reader(facilityId: SearchData -> Option<string>, accepted: Response -> bool,
                           parse: string -> FacilityInfo)

  const Pages: Reader := Reader(ExtractFacilityId, Accepted, ParsedInfo)

  /**
    What a verification produces: the envelope returned, the requests sent,
    and the envelope handed to `cache.set` (which raises when the cache has no
    capacity).
   */
  datatype Outcome = Outcome(envelope: Envelope, sent: seq<Request>, storing: Option<Envelope>)

  /**
    `verify_license_detailed` for the argument `arg`, reading pages with `x`:
    `caching` is `use_cache and self.use_cache`, `cached` what the cache lookup
    returned, `stamp` the search timestamp, `verifiedAt` the `verified_at`
    text, and `storeFails` whether storing the result raises.
   */
  function Verify(x: Reader, arg: Arg, caching: bool, cached: Option<Envelope>, portal: Portal,
                  stamp: string, verifiedAt: string, storeFails: bool): Outcome
  {
    if !ValidArg(arg) then Outcome(Failure(arg, InvalidNumber), [], None)
    else if caching && cached.Some? then Outcome(cached.value.(fromCache := true), [], None)
    else Stored(Fetched(x, Strip(arg.s), caching, portal, stamp, verifiedAt), Strip(arg.s), storeFails)
  }

  /** When `cache.set` raises, the result is replaced by the unexpected-error failure. */
  function Stored(o: Outcome, id: string, storeFails: bool): Outcome
  {
    if storeFails && o.storing.Some? then o.(envelope := Failure(Str(id), Unexpected(DictionaryEmpty))) else o
  }

  /** The steps from the search request on, for the stripped number `id`. */
  function Fetched(x: Reader, id: string, caching: bool, portal: Portal, stamp: string, verifiedAt: string): Outcome
  {
    var o := match portal.search
      case SearchFailed(e) => Outcome(Failure(Str(id), PortalError(e)), [], None)
      case SearchOk(d) => Searched(x, id, d, caching, portal.details, verifiedAt);
    o.(sent := [SearchRequest(id, stamp)] + o.sent)
  }

  /** The steps after a search that returned `d`; `sent` holds the requests after the search. */
  function Searched(x: Reader, id: string, d: SearchData, caching: bool, replies: Replies, verifiedAt: string): Outcome
  {
    if NoRows(d) then Outcome(Failure(Str(id), NotFound(id)), [], None)
    else
      var fid := x.facilityId(d);
      if fid.None? || fid.value == "" then Outcome(Failure(Str(id), NoFacilityId), [], None)
      else Detailed(x, id, fid.value, caching, replies, verifiedAt)
  }

  /** The steps from the details requests on, for the encoded facility id `fid`; `sent` holds the details requests. */
  function Detailed(x: Reader, id: string, fid: string, caching: bool, replies: Replies, verifiedAt: string): Outcome
  {
    var html := DetailsHtml(x.accepted, replies);
    var requests := DetailsRequests(fid, Tried(x.accepted, replies));
    if html.None? || html.value == "" then Outcome(Failure(Str(id), NoDetails), requests, None)
    else
      var info := x.parse(html.value);
      if LicenseMissing(info) then Outcome(Failure(Str(id), Incomplete), requests, None)
      else
        var result := Envelope(true, Str(id), Verified, false, Some(Details(info, verifiedAt)));
        Outcome(result, requests, if caching then Some(result) else None)
  }

  // ---------------------------------------------------------------- properties of the verification

  /** An envelope fit to be cached under `key`: a complete success for the number the key names. */
  predicate Cacheable(key: string, env: Envelope)
  {
    && env.success && !env.fromCache && env.message == Verified
    && env.ppbNumber.Str? && key == CacheKey(env.ppbNumber.s)
    && env.data.Some? && !LicenseMissing(env.data.value.info)
  }

  /** Whatever the cache lookup gave for `arg` was stored by an earlier verification of the same number. */
  predicate CachedSound(arg: Arg, caching: bool, cached: Option<Envelope>)
  {
    caching && ValidArg(arg) && cached.Some? ==> Cacheable(CacheKey(Strip(arg.s)), cached.value)
  }

  /** The error text of a failed search, or nothing. */
  function SearchError(portal: Portal): string
  {
    if portal.search.SearchFailed? then portal.search.error else ""
  }

  /** The encoded id the service reads from search data `d`, when it goes on to the details. */
  function TokenOf(x: Reader, d: SearchData): Option<string>
  {
    if NoRows(d) then None
    else
      var fid := x.facilityId(d);
      if fid.None? || fid.value == "" then None else fid
  }

  /** The page the service parses, once the search gave an encoded id. */
  function PageOf(x: Reader, portal: Portal): Option<string>
  {
    var html := DetailsHtml(x.accepted, portal.details);
    if html.None? || html.value == "" then None else html
  }

  /** Once past the cache, the search request goes first. */
  lemma {:induction false} FetchedSearchesFirst(x: Reader, id: string, caching: bool, portal: Portal, stamp: string, verifiedAt: string)
    ensures var o := Fetched(x, id, caching, portal, stamp, verifiedAt);
      o.sent != [] && o.sent[0] == SearchRequest(id, stamp)
  {
  }

  /** Details are requested after the search exactly when it gave an encoded id, for that id. */
  lemma {:induction false} FetchedDetails(x: Reader, id: string, caching: bool, portal: Portal, stamp: string, verifiedAt: string)
    ensures var o := Fetched(x, id, caching, portal, stamp, verifiedAt);
      && 1 <= |o.sent| <= 1 + StrategyCount
      && (|o.sent| > 1 <==> portal.search.SearchOk? && TokenOf(x, portal.search.data).Some?)
      && (|o.sent| > 1 ==> o.sent[1..] == DetailsRequests(TokenOf(x, portal.search.data).value,
                                                          Tried(x.accepted, portal.details)))
  {
    var o := Fetched(x, id, caching, portal, stamp, verifiedAt);
    if portal.search.SearchOk? && TokenOf(x, portal.search.data).Some? {
      var fid := TokenOf(x, portal.search.data).value;
      var inner := Detailed(x, id, fid, caching, portal.details, verifiedAt);
      assert o.sent == [SearchRequest(id, stamp)] + inner.sent;
      assert o.sent[1..] == inner.sent;
    }
  }

  /**
    What a verification past the cache returns and hands to the cache: a
    failure carries only the number and the message; a success carries the
    page parsed by `x` and `verifiedAt`, with a license number, and with
    caching on it is handed to the cache as it is returned.
   */
  lemma {:induction false} FetchedOutcome(x: Reader, id: string, caching: bool, portal: Portal, stamp: string, verifiedAt: string)
    ensures var o := Fetched(x, id, caching, portal, stamp, verifiedAt);
      var e := o.envelope;
      && e.ppbNumber == Str(id) && !e.fromCache
      && e.message in {NotFound(id), NoFacilityId, NoDetails, Incomplete, PortalError(SearchError(portal)), Verified}
      && (e.success <==> e.message == Verified)
      && (!e.success ==> e.data.None?)
      && (e.success ==>
            && portal.search.SearchOk? && TokenOf(x, portal.search.data).Some? && PageOf(x, portal).Some?
            && e.data == Some(Details(x.parse(PageOf(x, portal).value), verifiedAt))
            && !LicenseMissing(e.data.value.info))
      && o.storing == (if caching && e.success then Some(e) else None)
      && (o.storing.Some? ==> Cacheable(CacheKey(id), o.storing.value))
  {
    var o := Fetched(x, id, caching, portal, stamp, verifiedAt);
    if portal.search.SearchOk? && TokenOf(x, portal.search.data).Some? {
      var inner := Detailed(x, id, TokenOf(x, portal.search.data).value, caching, portal.details, verifiedAt);
      assert o.envelope == inner.envelope && o.storing == inner.storing;
    }
  }

  /** After the cache, an unexpected error can only replace a result that was to be stored. */
  lemma {:induction false} StoredOutcome(o: Outcome, id: string, storeFails: bool)
    ensures var r := Stored(o, id, storeFails);
      && r.sent == o.sent && r.storing == o.storing
      && (r.envelope != o.envelope ==> storeFails && o.storing.Some?
                                       && r.envelope == Failure(Str(id), Unexpected(DictionaryEmpty)))
      && (storeFails && o.storing.Some? ==> r.envelope.message == Unexpected(DictionaryEmpty))
  {
  }

  /**
    An argument that is not a non-empty string fails at once, sending and
    caching nothing; and only such an argument gets that message.
   */
  lemma {:induction false} VerifyRejectsInvalid(x: Reader, arg: Arg, caching: bool, cached: Option<Envelope>, portal: Portal,
                             stamp: string, verifiedAt: string, storeFails: bool)
    requires CachedSound(arg, caching, cached)
    ensures var o := Verify(x, arg, caching, cached, portal, stamp, verifiedAt, storeFails);
      && (!ValidArg(arg) ==> o == Outcome(Failure(arg, InvalidNumber), [], None))
      && (o.envelope.message == InvalidNumber ==> !ValidArg(arg))
  {
    if ValidArg(arg) && !(caching && cached.Some?) {
      var id := Strip(arg.s);
      FetchedOutcome(x, id, caching, portal, stamp, verifiedAt);
    }
  }

  /** A live cache entry is returned as it was stored, marked as coming from the cache; nothing is sent. */
  lemma {:induction false} VerifyServesHit(x: Reader, arg: Arg, cached: Envelope, portal: Portal, stamp: string, verifiedAt: string, storeFails: bool)
    requires ValidArg(arg)
    ensures var o := Verify(x, arg, true, Some(cached), portal, stamp, verifiedAt, storeFails);
      o.envelope == cached.(fromCache := true) && o.sent == [] && o.storing.None?
  {
  }

  /**
    The portal is searched exactly when the argument is valid and the cache
    had nothing; the first request is then the search for the stripped number.
   */
  lemma {:induction false} VerifySearchesOnMiss(x: Reader, arg: Arg, caching: bool, cached: Option<Envelope>, portal: Portal,
                             stamp: string, verifiedAt: string, storeFails: bool)
    ensures var o := Verify(x, arg, caching, cached, portal, stamp, verifiedAt, storeFails);
      && (o.sent != [] <==> ValidArg(arg) && !(caching && cached.Some?))
      && (o.sent != [] ==> o.sent[0] == SearchRequest(Strip(arg.s), stamp))
  {
    if ValidArg(arg) && !(caching && cached.Some?) {
      FetchedSearchesFirst(x, Strip(arg.s), caching, portal, stamp, verifiedAt);
    }
  }

  /**
    Details are requested only for the encoded id found in the search data,
    with the strategies tried in order up to the first accepted reply.
   */
  lemma {:induction false} VerifyDetailsAfterToken(x: Reader, arg: Arg, caching: bool, cached: Option<Envelope>, portal: Portal,
                                stamp: string, verifiedAt: string, storeFails: bool)
    ensures var o := Verify(x, arg, caching, cached, portal, stamp, verifiedAt, storeFails);
      && |o.sent| <= 1 + StrategyCount
      && (|o.sent| > 1 <==> o.sent != [] && portal.search.SearchOk? && TokenOf(x, portal.search.data).Some?)
      && (|o.sent| > 1 ==> o.sent[1..] == DetailsRequests(TokenOf(x, portal.search.data).value,
                                                          Tried(x.accepted, portal.details)))
  {
    if ValidArg(arg) && !(caching && cached.Some?) {
      FetchedDetails(x, Strip(arg.s), caching, portal, stamp, verifiedAt);
    }
  }

  /**
    The envelope a verification returns: it succeeds exactly when its message
    is the success message; a failure carries no data, is never marked as
    cached, and names the stripped number (or the argument itself when that is
    invalid); a success carries the number's data with a license number, and
    one not served from the cache carries the page the portal sent, as parsed.
   */
  lemma {:induction false} VerifyEnvelope(x: Reader, arg: Arg, caching: bool, cached: Option<Envelope>, portal: Portal,
                       stamp: string, verifiedAt: string, storeFails: bool)
    requires CachedSound(arg, caching, cached)
    ensures var e := Verify(x, arg, caching, cached, portal, stamp, verifiedAt, storeFails).envelope;
      && (e.success <==> e.message == Verified)
      && (!e.success ==> !e.fromCache && e.data.None?
                         && e.ppbNumber == (if ValidArg(arg) then Str(Strip(arg.s)) else arg))
      && (e.success ==> ValidArg(arg) && e.ppbNumber == Str(Strip(arg.s))
                        && e.data.Some? && !LicenseMissing(e.data.value.info))
      && (e.fromCache <==> caching && ValidArg(arg) && cached.Some?)
      && (e.success && !e.fromCache ==>
            && portal.search.SearchOk? && TokenOf(x, portal.search.data).Some? && PageOf(x, portal).Some?
            && e.data == Some(Details(x.parse(PageOf(x, portal).value), verifiedAt)))
  {
    if ValidArg(arg) {
      if caching && cached.Some? {
        CacheKeyInjective(Strip(arg.s), cached.value.ppbNumber.s);
      } else {
        var id := Strip(arg.s);
        var o := Fetched(x, id, caching, portal, stamp, verifiedAt);
        FetchedOutcome(x, id, caching, portal, stamp, verifiedAt);
        StoredOutcome(o, id, storeFails);
      }
    }
  }

  /**
    Only a complete success of this very call is handed to the cache, under
    the key of the stripped number, and only when caching is on and the
    lookup missed; what is returned is that envelope, unless storing raised.
   */
  lemma {:induction false} VerifyStores(x: Reader, arg: Arg, caching: bool, cached: Option<Envelope>, portal: Portal,
                     stamp: string, verifiedAt: string, storeFails: bool)
    ensures var o := Verify(x, arg, caching, cached, portal, stamp, verifiedAt, storeFails);
      && (o.storing.Some? ==> caching && ValidArg(arg) && cached.None?
                              && Cacheable(CacheKey(Strip(arg.s)), o.storing.value)
                              && o.envelope == (if storeFails then Failure(Str(Strip(arg.s)), Unexpected(DictionaryEmpty))
                                                else o.storing.value))
      && (caching && o.envelope.success && !o.envelope.fromCache ==> o.storing == Some(o.envelope))
  {
    if ValidArg(arg) && !(caching && cached.Some?) {
      var id := Strip(arg.s);
      FetchedOutcome(x, id, caching, portal, stamp, verifiedAt);
      StoredOutcome(Fetched(x, id, caching, portal, stamp, verifiedAt), id, storeFails);
    }
  }

  /**
    Surrounding whitespace does not matter: two arguments with the same
    stripped number are verified alike.
   */
  lemma {:induction false} VerifyIgnoresMargins(x: Reader, a: Arg, b: Arg, caching: bool, cached: Option<Envelope>, portal: Portal,
                             stamp: string, verifiedAt: string, storeFails: bool)
    requires ValidArg(a) && ValidArg(b) && Strip(a.s) == Strip(b.s)
    ensures Verify(x, a, caching, cached, portal, stamp, verifiedAt, storeFails)
         == Verify(x, b, caching, cached, portal, stamp, verifiedAt, storeFails)
  {
  }

  /** With caching off, the cache is neither read nor written, and cannot make storing fail. */
  lemma {:induction false} VerifyUncached(x: Reader, arg: Arg, c1: Option<Envelope>, c2: Option<Envelope>, portal: Portal,
                       stamp: string, verifiedAt: string, f1: bool, f2: bool)
    ensures Verify(x, arg, false, c1, portal, stamp, verifiedAt, f1)
         == Verify(x, arg, false, c2, portal, stamp, verifiedAt, f2)
    ensures Verify(x, arg, false, c1, portal, stamp, verifiedAt, f1).storing.None?
  {
    if ValidArg(arg) {
      FetchedOutcome(x, Strip(arg.s), false, portal, stamp, verifiedAt);
    }
  }

  /**
    A stored result is served: while its entry lives, the next verification of
    the same number returns it from the cache, marked as such, and sends
    nothing, whatever the portal would now say.
   */
  lemma {:induction false} StoredIsServed(x: Reader, arg: Arg, cached: Option<Envelope>, portal: Portal, stamp: string, verifiedAt: string,
                       items: Items<Envelope>, maxSize: int, expiresAt: real, now: real,
                       later: Portal, laterStamp: string, laterAt: string)
    requires maxSize > 0 && now <= expiresAt
    requires Verify(x, arg, true, cached, portal, stamp, verifiedAt, false).storing.Some?
    ensures var o := Verify(x, arg, true, cached, portal, stamp, verifiedAt, false);
      var key := CacheKey(Strip(arg.s));
      var stored := AfterSet(items, key, Entry(o.storing.value, expiresAt), maxSize);
      var next := Verify(x, arg, true, Lookup(stored, key, now), later, laterStamp, laterAt, false);
      && o.envelope.success
      && next == Outcome(o.envelope.(fromCache := true), [], None)
  {
    var o := Verify(x, arg, true, cached, portal, stamp, verifiedAt, false);
    VerifyStores(x, arg, true, cached, portal, stamp, verifiedAt, false);
    var key := CacheKey(Strip(arg.s));
    SetThenGet(items, key, Entry(o.storing.value, expiresAt), maxSize, now);
  }

  /** With the service's readers an id read from the search data is never empty. */
  lemma {:induction false} PagesTokenNonEmpty(d: SearchData)
    ensures TokenOf(Pages, d) == ExtractFacilityId(d)
  {
    var fid := ExtractFacilityId(d);
    if fid.Some? {
      assert LeftmostRelToken(d.rows.value[0][4].text, fid.value);
    }
  }

  /** When every reply a reader accepts has a non-empty body, its page is the first accepted body itself. */
  lemma {:induction false} PageOfAccepted(x: Reader, portal: Portal)
    requires forall r :: x.accepted(r) ==> r.Reply? && r.body != ""
    ensures PageOf(x, portal) == DetailsHtml(x.accepted, portal.details)
  {
    var html := DetailsHtml(x.accepted, portal.details);
    if html.Some? {
      var r := portal.details[Tried(x.accepted, portal.details) - 1];
      assert html.value == r.body;
    }
  }

  /** With the service's readers an accepted page is never empty. */
  lemma {:induction false} PagesHtmlNonEmpty(portal: Portal)
    ensures PageOf(Pages, portal) == DetailsHtml(Accepted, portal.details)
  {
    forall r ensures Pages.accepted(r) ==> r.Reply? && r.body != "" {
      AcceptedNonEmpty(r);
    }
    PageOfAccepted(Pages, portal);
  }

  // ---------------------------------------------------------------- the service

  /**
    The clock readings and texts one verification consumes, in the order it
    consumes them: the cache lookup, the wait before the search, the search
    timestamp, the wait before the details, the `verified_at` text, and the
    time the result is stored.
   */
  datatype Clock = Clock(lookupAt: real, searchWait: Tick, stamp: string, detailsWait: Tick,
                         verifiedAt: string, storeAt: real)

  /** How many requests the rate limiter lets through for the requests `sent`: the search, then all the details at once. */
  function Waits(sent: seq<Request>): nat
  {
    if |sent| == 0 then 0 else if |sent| == 1 then 1 else 2
  }

  /** The cache, when there is one, keeps its invariant and holds only complete successes under their own keys. */
  ghost predicate CacheSound(c: SimpleCache?<Envelope>)
    reads c
  {
    c != null ==> c.Valid() && forall x :: x in c.items ==> Cacheable(x.0, x.1.value)
  }

  class Service {
    /** `self.use_cache`: the caller asked for a cache and the configuration enables it. */
    const useCache: bool
    /** `self.cache_ttl`, in seconds. */
    const cacheTtl: int
    /** The simple in-memory cache, present exactly when caching is on. */
    const cache: SimpleCache?<Envelope>
    const limiter: RateLimiter
    /** How pages are read: `Pages`, fixed at construction. */
    const reader: Reader
    /** The requests sent to the portal so far, oldest first. */
    ghost var sent: seq<Request>

    /**
      The limiter keeps its spacing, and every cached envelope is a complete
      success for the number its key names.
     */
    ghost predicate Valid()
      reads this, limiter, cache
    {
      && (useCache <==> cache != null)
      && limiter.Valid()
      && CacheSound(cache)
    }

    /**
      `PPBService(use_cache=..., cache_ttl=..., rate_limit_delay=...)` with the
      simple cache backend, reading `cfg` for what is not given.
     */
    constructor (cfg: Settings, useCache: bool, cacheTtl: Option<int>, delay: Option<real>)
      ensures Valid()
      ensures this.useCache == ServiceCaching(cfg, useCache) && this.cacheTtl == ServiceTtl(cfg, cacheTtl)
      ensures fresh(limiter) && limiter.delay == ServiceDelay(cfg, delay)
      ensures limiter.lastRequest == 0.0 && limiter.history == []
      ensures cache != null ==> fresh(cache) && cache.maxSize == cfg.cacheMaxSize && cache.defaultTtl == this.cacheTtl
                                && cache.items == [] && cache.hits == 0 && cache.misses == 0
                                && cache.sets == 0 && cache.evictions == 0
      ensures reader == Pages
      ensures sent == []
    {
      reader := Pages;
      limiter := new RateLimiter(ServiceDelay(cfg, delay));
      this.useCache := ServiceCaching(cfg, useCache);
      this.cacheTtl := ServiceTtl(cfg, cacheTtl);
      if ServiceCaching(cfg, useCache) {
        cache := new SimpleCache(cfg.cacheMaxSize, ServiceTtl(cfg, cacheTtl));
      } else {
        cache := null;
      }
      sent := [];
    }

    /**
      `search_facilities`: waits for the rate limiter, then sends the search;
      a failed request becomes the connection error.
     */
    method SearchFacilities(id: string, reply: SearchReply, tick: Tick, stamp: string) returns (r: Result<SearchData>)
      requires limiter.Valid() && TickOk(tick)
      modifies this, limiter
      ensures limiter.Valid()
      ensures r == match reply
                   case SearchFailed(e) => Err(e)
                   case SearchOk(d) => Ok(d)
      ensures sent == old(sent) + [SearchRequest(id, stamp)]
      ensures limiter.history == old(limiter.history) + [limiter.lastRequest]
    {
      var _ := limiter.Wait(tick.now, tick.jitter, tick.overshoot);
      sent := sent + [SearchRequest(id, stamp)];
      match reply
      case SearchFailed(e) => r := Err(e);
      case SearchOk(d) => r := Ok(d);
    }

    /**
      `get_facility_details`: waits once for the rate limiter, then tries the
      strategies in order and returns the first page that has status 200 and
      passes validation; a strategy that raised is skipped.
     */
    method GetFacilityDetails(facilityId: string, replies: Replies, tick: Tick) returns (html: Option<string>)
      requires limiter.Valid() && TickOk(tick)
      modifies this, limiter
      ensures limiter.Valid()
      ensures html == DetailsHtml(reader.accepted, replies)
      ensures sent == old(sent) + DetailsRequests(facilityId, Tried(reader.accepted, replies))
      ensures limiter.history == old(limiter.history) + [limiter.lastRequest]
    {
      var _ := limiter.Wait(tick.now, tick.jitter, tick.overshoot);
      html := TryStrategies(facilityId, replies, reader.accepted);
    }

    /** The strategy loop of `get_facility_details`: each strategy is sent, and the first reply `accept` takes wins. */
    method TryStrategies(facilityId: string, replies: Replies, accept: Response -> bool) returns (html: Option<string>)
      modifies this
      ensures html == DetailsHtml(accept, replies)
      ensures sent == old(sent) + DetailsRequests(facilityId, Tried(accept, replies))
    {
      var i := 0;
      while i < |replies|
        invariant 0 <= i <= |replies|
        invariant forall j :: 0 <= j < i ==> !accept(replies[j])
        invariant sent == old(sent) + DetailsRequests(facilityId, i)
      {
        sent := sent + [DetailsRequest(i, facilityId)];
        assert DetailsRequests(facilityId, i + 1) == DetailsRequests(facilityId, i) + [DetailsRequest(i, facilityId)];
        var reply := replies[i];
        if accept(reply) {
          assert FirstAccepted(accept, replies) == Some(i);
          return if reply.Reply? then Some(reply.body) else None;
        }
        i := i + 1;
      }
      assert FirstAccepted(accept, replies).None?;
      return None;
    }

    /** Whether caching applies to a call with `use_cache = useCache`. */
    function Caching(useCache: bool): bool
    {
      useCache && this.useCache
    }

    /** Whether storing a new entry raises: a cache without capacity. */
    function StoreFails(): bool
    {
      cache != null && cache.maxSize <= 0
    }

    /**
      `verify_license_detailed(arg, use_cache)`: the returned envelope, the
      requests sent and the cache contents are those `Verify` gives for the
      cache lookup at `clock.lookupAt`; every request is spaced by the rate
      limiter; a result stored expires `cache_ttl` seconds after `clock.storeAt`.
     */
    method VerifyLicenseDetailed(arg: Arg, useCache: bool, portal: Portal, clock: Clock) returns (env: Envelope)
      requires Valid() && TickOk(clock.searchWait) && TickOk(clock.detailsWait)
      modifies this, limiter, cache
      ensures Valid()
      ensures var looks := Caching(useCache) && ValidArg(arg);
        var key := if arg.Str? then CacheKey(Strip(arg.s)) else "";
        var cached := if looks then Lookup(old(cache.items), key, clock.lookupAt) else None;
        var o := Verify(reader, arg, Caching(useCache), cached, portal, clock.stamp, clock.verifiedAt, StoreFails());
        && env == o.envelope
        && sent == old(sent) + o.sent
        && |limiter.history| == |old(limiter.history)| + Waits(o.sent)
        && old(limiter.history) <= limiter.history
        && (cache != null ==>
              var afterGet := if looks then AfterGet(old(cache.items), key, clock.lookupAt) else old(cache.items);
              && cache.items == AfterStore(afterGet, key, o.storing, clock.storeAt + cacheTtl as real, cache.maxSize)
              && cache.hits == old(cache.hits) + (if cached.Some? then 1 else 0)
              && cache.misses == old(cache.misses) + (if looks && cached.None? then 1 else 0)
              && cache.sets == old(cache.sets) + (if o.storing.Some? && !StoreFails() then 1 else 0)
              && cache.evictions == old(cache.evictions)
                                    + (if o.storing.Some? && !StoreFails() && |afterGet| >= cache.maxSize then 1 else 0))
    {
      if !ValidArg(arg) {
        return Failure(arg, InvalidNumber);
      }
      var id := Strip(arg.s);
      if useCache && this.useCache {
        env := Serve(id, portal, clock);
      } else {
        var storing;
        env, storing := Fetch(id, false, portal, clock);
        FetchedOutcome(reader, id, false, portal, clock.stamp, clock.verifiedAt);
      }
    }

    /**
      A verification of the stripped number `id` with the cache in use: a live
      entry is served, otherwise the portal is asked and a complete success
      stored.
     */
    method Serve(id: string, portal: Portal, clock: Clock) returns (env: Envelope)
      requires cache != null && CacheSound(cache) && limiter.Valid()
      requires TickOk(clock.searchWait) && TickOk(clock.detailsWait)
      modifies this, limiter, cache
      ensures CacheSound(cache) && limiter.Valid()
      ensures var key := CacheKey(id);
        var cached := Lookup(old(cache.items), key, clock.lookupAt);
        var afterGet := AfterGet(old(cache.items), key, clock.lookupAt);
        var o := if cached.Some? then Outcome(cached.value.(fromCache := true), [], None)
                 else Stored(Fetched(reader, id, true, portal, clock.stamp, clock.verifiedAt), id, StoreFails());
        && env == o.envelope
        && sent == old(sent) + o.sent
        && |limiter.history| == |old(limiter.history)| + Waits(o.sent)
        && old(limiter.history) <= limiter.history
        && cache.items == AfterStore(afterGet, key, o.storing, clock.storeAt + cacheTtl as real, cache.maxSize)
        && cache.hits == old(cache.hits) + (if cached.Some? then 1 else 0)
        && cache.misses == old(cache.misses) + (if cached.None? then 1 else 0)
        && cache.sets == old(cache.sets) + (if o.storing.Some? && !StoreFails() then 1 else 0)
        && cache.evictions == old(cache.evictions)
                              + (if o.storing.Some? && !StoreFails() && |afterGet| >= cache.maxSize then 1 else 0)
    {
      var key := CacheKey(id);
      var hit := LookUp(key, clock.lookupAt);
      if hit.Some? {
        return hit.value.(fromCache := true);
      }
      env := Miss(id, portal, clock);
    }

    /** After a cache miss for `id`: the portal is asked, and a complete success stored. */
    method Miss(id: string, portal: Portal, clock: Clock) returns (env: Envelope)
      requires cache != null && CacheSound(cache) && limiter.Valid()
      requires TickOk(clock.searchWait) && TickOk(clock.detailsWait)
      requires Position(cache.items, CacheKey(id)).None?
      modifies this, limiter, cache
      ensures CacheSound(cache) && limiter.Valid()
      ensures var o := Stored(Fetched(reader, id, true, portal, clock.stamp, clock.verifiedAt), id, StoreFails());
        && env == o.envelope
        && sent == old(sent) + o.sent
        && |limiter.history| == |old(limiter.history)| + Waits(o.sent)
        && old(limiter.history) <= limiter.history
        && cache.items == AfterStore(old(cache.items), CacheKey(id), o.storing, clock.storeAt + cacheTtl as real, cache.maxSize)
        && cache.hits == old(cache.hits) && cache.misses == old(cache.misses)
        && cache.sets == old(cache.sets) + (if o.storing.Some? && !StoreFails() then 1 else 0)
        && cache.evictions == old(cache.evictions)
                              + (if o.storing.Some? && !StoreFails() && old(|cache.items|) >= cache.maxSize then 1 else 0)
    {
      var storing;
      env, storing := Fetch(id, true, portal, clock);
      FetchedOutcome(reader, id, true, portal, clock.stamp, clock.verifiedAt);
      if storing.Some? {
        var raised := Store(CacheKey(id), storing.value, clock.storeAt);
        if raised {
          env := Failure(Str(id), Unexpected(DictionaryEmpty));
        }
      }
    }

    /** `get_cache_stats()`: the cache's statistics, or only that there is no cache. */
    method GetCacheStats() returns (r: CacheReport)
      requires Valid()
      ensures r.CacheEnabled? <==> useCache
      ensures r.CacheEnabled? ==>
        && r.stats.backend == "simple" && r.stats.size == |cache.items| && r.stats.maxSize == cache.maxSize
        && r.stats.hits == cache.hits && r.stats.misses == cache.misses
        && r.stats.sets == cache.sets && r.stats.evictions == cache.evictions
        && r.stats.totalRequests == cache.hits + cache.misses
        && r.stats.hitRate == HitRate(cache.hits, cache.misses)
    {
      if !useCache || cache == null {
        return CacheDisabled;
      }
      var stats := cache.GetStats();
      return CacheEnabled(stats);
    }

    /** `clear_cache()`: empties the cache, if there is one, keeping its counters; says whether it did. */
    method ClearCache() returns (cleared: bool)
      requires Valid()
      modifies cache
      ensures Valid()
      ensures cleared <==> useCache
      ensures cleared ==> cache.items == []
      ensures cache != null ==> cache.hits == old(cache.hits) && cache.misses == old(cache.misses)
                                && cache.sets == old(cache.sets) && cache.evictions == old(cache.evictions)
    {
      if useCache && cache != null {
        cache.Clear();
        return true;
      }
      return false;
    }

    /** `self.cache.get(key)`: a hit is a complete success stored under `key`; after a miss `key` is not stored. */
    method LookUp(key: string, now: real) returns (hit: Option<Envelope>)
      requires cache != null && CacheSound(cache)
      modifies cache
      ensures CacheSound(cache)
      ensures hit == Lookup(old(cache.items), key, now) && cache.items == AfterGet(old(cache.items), key, now)
      ensures cache.hits == old(cache.hits) + (if hit.Some? then 1 else 0)
      ensures cache.misses == old(cache.misses) + (if hit.None? then 1 else 0)
      ensures cache.sets == old(cache.sets) && cache.evictions == old(cache.evictions)
      ensures hit.Some? ==> Cacheable(key, hit.value)
      ensures hit.None? ==> Position(cache.items, key).None?
    {
      hit := cache.Get(key, now);
      AfterGetKeeps(old(cache.items), key, now);
      if hit.None? {
        MissLeavesNoEntry(old(cache.items), key, now);
      }
    }

    /**
      `self.cache.set(key, e, self.cache_ttl)` at `now`: `raised` is the
      `KeyError` of a cache without capacity.
     */
    method Store(key: string, e: Envelope, now: real) returns (raised: bool)
      requires cache != null && CacheSound(cache) && Cacheable(key, e)
      requires Position(cache.items, key).None?
      modifies cache
      ensures CacheSound(cache)
      ensures raised <==> StoreFails()
      ensures cache.items == AfterSet(old(cache.items), key, Entry(e, now + cacheTtl as real), cache.maxSize)
      ensures cache.hits == old(cache.hits) && cache.misses == old(cache.misses)
      ensures cache.sets == old(cache.sets) + (if raised then 0 else 1)
      ensures cache.evictions == old(cache.evictions) + (if !raised && old(|cache.items|) >= cache.maxSize then 1 else 0)
    {
      SetRaisesIff(cache.items, key, cache.maxSize);
      raised := cache.Set(key, e, Some(cacheTtl), now);
      AfterSetKeeps(old(cache.items), key, Entry(e, now + cacheTtl as real), cache.maxSize);
    }

    /**
      Steps 1 to 3 of `verify_license_detailed` for the stripped number `id`:
      search, read the encoded id, fetch and parse the details.  `storing` is
      the result the caller then stores, when caching is on.
     */
    method Fetch(id: string, caching: bool, portal: Portal, clock: Clock) returns (env: Envelope, storing: Option<Envelope>)
      requires limiter.Valid() && TickOk(clock.searchWait) && TickOk(clock.detailsWait)
      modifies this, limiter
      ensures limiter.Valid()
      ensures var o := Fetched(reader, id, caching, portal, clock.stamp, clock.verifiedAt);
        && env == o.envelope && storing == o.storing
        && sent == old(sent) + o.sent
        && |limiter.history| == |old(limiter.history)| + Waits(o.sent)
        && old(limiter.history) <= limiter.history
    {
      var search := SearchFacilities(id, portal.search, clock.searchWait, clock.stamp);
      if search.Err? {
        return Failure(Str(id), PortalError(search.msg)), None;
      }
      ghost var before := sent;
      ghost var beforeHistory := limiter.history;
      env, storing := FromSearch(id, search.value, caching, portal.details, clock);
      ghost var o := Searched(reader, id, search.value, caching, portal.details, clock.verifiedAt);
      assert sent == before + o.sent;
      assert |limiter.history| == |beforeHistory| + (if o.sent == [] then 0 else 1);
    }

    /** What follows a search that returned `d`: the encoded id is read, and its details fetched. */
    method FromSearch(id: string, d: SearchData, caching: bool, replies: Replies, clock: Clock)
      returns (env: Envelope, storing: Option<Envelope>)
      requires limiter.Valid() && TickOk(clock.detailsWait)
      modifies this, limiter
      ensures limiter.Valid()
      ensures var o := Searched(reader, id, d, caching, replies, clock.verifiedAt);
        && env == o.envelope && storing == o.storing
        && sent == old(sent) + o.sent
        && (o.sent == [] ==> limiter.history == old(limiter.history))
        && (o.sent != [] ==> limiter.history == old(limiter.history) + [limiter.lastRequest])
    {
      if NoRows(d) {
        return Failure(Str(id), NotFound(id)), None;
      }
      var fid := reader.facilityId(d);
      if fid.None? || fid.value == "" {
        return Failure(Str(id), NoFacilityId), None;
      }
      env, storing := FetchDetails(id, fid.value, caching, replies, clock);
    }

    /** Steps 2 and 3: the details of the encoded id `fid`, parsed, and checked for a license number. */
    method FetchDetails(id: string, fid: string, caching: bool, replies: Replies, clock: Clock)
      returns (env: Envelope, storing: Option<Envelope>)
      requires limiter.Valid() && TickOk(clock.detailsWait)
      modifies this, limiter
      ensures limiter.Valid()
      ensures var o := Detailed(reader, id, fid, caching, replies, clock.verifiedAt);
        && env == o.envelope && storing == o.storing
        && sent == old(sent) + o.sent
        && limiter.history == old(limiter.history) + [limiter.lastRequest]
    {
      var html := GetFacilityDetails(fid, replies, clock.detailsWait);
      if html.None? || html.value == "" {
        return Failure(Str(id), NoDetails), None;
      }
      var info := reader.parse(html.value);
      if LicenseMissing(info) {
        return Failure(Str(id), Incomplete), None;
      }
      env := Envelope(true, Str(id), Verified, false, Some(Details(info, clock.verifiedAt)));
      storing := if caching then Some(env) else None;
    }
  }
}
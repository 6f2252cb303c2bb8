/** `POST /api/request`: derive the client key, ask the limiter, validate the
    body, look up the budget bounds, then either acknowledge in demo mode or
    insert the row, and shape the response. The clock, the JSON decoding of
    the body, the environment and the database are parameters. */
module RequestRoute {
  import opened JsValues
  import opened Validation
  import RateLimit

  /** The route's limiter: five calls per client key per minute. */
  const WindowMs := 60000
  const MaxPerWindow := 5

  const RemainingHeader := "X-RateLimit-Remaining"
  const ResetHeader := "X-RateLimit-Reset"

  const TooManyRequests := "Too many requests. Please try again later."
  const ValidationFailedMessage := "Validation failed"
  const DemoMessage := "Request received (demo mode — database not configured)"
  const SubmittedMessage := "Request submitted successfully"
  const SaveFailedMessage := "Failed to save request"
  const InternalErrorMessage := "Internal server error"
  const DemoIdPrefix := "demo-"
  const AnonymousKey := "anonymous"

  // -----------------------------------------------------------------------
  // The client key
  // -----------------------------------------------------------------------

  /** `s.split(",")[0]`: the text before the first comma, or all of `s`. */
  function FirstSegment(s: string): (r: string)
    ensures |r| <= |s| && r == s[..|r|]
    ensures ',' !in r
    ensures |r| < |s| ==> s[|r|] == ','
  {
    if s == [] || s[0] == ',' then [] else [s[0]] + FirstSegment(s[1..])
  }

  /** The key the limiter counts under: the first hop of `x-forwarded-for`,
      trimmed, or "anonymous" when the header is missing. */
  function ClientKey(forwardedFor: Option<string>): (key: string)
    ensures forwardedFor.None? ==> key == AnonymousKey
    ensures forwardedFor.Some? ==>
              ',' !in key && forall c :: c in key ==> c in forwardedFor.value
    ensures forwardedFor.Some? && key != [] ==>
              !IsJsWhitespace(key[0]) && !IsJsWhitespace(key[|key| - 1])
    // The key is the first segment with only its end whitespace cut off.
    ensures forwardedFor.Some? ==> CutAtEnds(FirstSegment(forwardedFor.value), key)
  {
    match forwardedFor
    case None => AnonymousKey
    case Some(h) => Trim(FirstSegment(h))
  }

  /** The first segment ends at the first comma. */
  lemma {:induction false} FirstSegmentStopsAtComma(first: string, rest: string)
    requires ',' !in first
    ensures FirstSegment(first + [','] + rest) == first
    ensures FirstSegment(first) == first
  {
    if first != [] {
      FirstSegmentStopsAtComma(first[1..], rest);
      assert (first + [','] + rest)[1..] == first[1..] + [','] + rest;
    }
  }

  /** Only the first hop counts: whatever proxies appended after the first
      comma does not change the key. */
  lemma ClientKeyTakesFirstHop(first: string, rest: string)
    requires ',' !in first
    ensures ClientKey(Some(first + "," + rest)) == ClientKey(Some(first))
  {
    FirstSegmentStopsAtComma(first, rest);
  }

  /** Spaces around the first hop are dropped, and later hops ignored: the
      key of `" 10.0.0.1 ,x"` is `"10.0.0.1"`. */
  lemma ClientKeyTrimsFirstHop(pre: string, address: string, post: string, rest: string)
    requires forall k :: 0 <= k < |pre| ==> IsJsWhitespace(pre[k])
    requires forall k :: 0 <= k < |post| ==> IsJsWhitespace(post[k])
    requires address == [] || (!IsJsWhitespace(address[0]) && !IsJsWhitespace(address[|address| - 1]))
    requires ',' !in pre + address + post
    ensures ClientKey(Some(pre + address + post + "," + rest)) == address
  {
    FirstSegmentStopsAtComma(pre + address + post, rest);
    TrimRemovesPadding(pre, address, post);
  }

  /** A bare address is its own key; an empty header gives the empty key, not
      "anonymous". */
  lemma ClientKeyOfPlainAddress(address: string)
    requires ',' !in address
    requires address == [] || (!IsJsWhitespace(address[0]) && !IsJsWhitespace(address[|address| - 1]))
    ensures ClientKey(Some(address)) == address
    ensures ClientKey(Some("")) == ""
  {
    TrimKeepsTrimmed(address);
  }

  // -----------------------------------------------------------------------
  // Budget bounds
  // -----------------------------------------------------------------------

  datatype BudgetRow = BudgetRow(text: string, min: int, max: int)

  /** The budget table the form offers. */
  const BudgetRanges: seq<BudgetRow> := [
    BudgetRow("$500 - $2,000", 500, 2000),
    BudgetRow("$2,000 - $5,000", 2000, 5000),
    BudgetRow("$5,000 - $10,000", 5000, 10000),
    BudgetRow("$10,000 - $25,000", 10000, 25000),
    BudgetRow("$25,000 - $50,000", 25000, 50000),
    BudgetRow("$50,000+", 50000, 100000)
  ]

  const DefaultBudgetMin := 500
  const DefaultBudgetMax := 100000

  /** `rows.find(b => b.label === text)`, as an index: the first row with
      that label, if any. */
  function FindBudget(rows: seq<BudgetRow>, text: string): (r: Option<nat>)
    ensures r.Some? ==> r.value < |rows| && rows[r.value].text == text
    ensures r.Some? ==> forall j :: 0 <= j < r.value ==> rows[j].text != text
    ensures r.None? ==> forall j :: 0 <= j < |rows| ==> rows[j].text != text
  {
    if rows == [] then None
    else if rows[0].text == text then Some(0)
    else match FindBudget(rows[1..], text)
      case None => None
      case Some(i) => Some(i + 1)
  }

  /** `(budget_min, budget_max)` for a budget label: the bounds of the table
      row with that label, or 500 and 100000 when no row has it. */
  function BudgetBounds(text: string): (bounds: (int, int))
    ensures forall i :: 0 <= i < |BudgetRanges| && BudgetRanges[i].text == text ==>
              bounds == (BudgetRanges[i].min, BudgetRanges[i].max)
    ensures (forall i :: 0 <= i < |BudgetRanges| ==> BudgetRanges[i].text != text) ==>
              bounds == (DefaultBudgetMin, DefaultBudgetMax)
    ensures DefaultBudgetMin <= bounds.0 < bounds.1 <= DefaultBudgetMax
  {
    BudgetLabelsDistinct();
    match FindBudget(BudgetRanges, text)
    case Some(i) => (BudgetRanges[i].min, BudgetRanges[i].max)
    case None => (DefaultBudgetMin, DefaultBudgetMax)
  }

  lemma BudgetLabelsDistinct()
    ensures forall i, j :: 0 <= i < j < |BudgetRanges| ==> BudgetRanges[i].text != BudgetRanges[j].text
  {
    assert BudgetRanges[3].text[1] != BudgetRanges[4].text[1];
  }

  // -----------------------------------------------------------------------
  // The stored row and the response
  // -----------------------------------------------------------------------

  /** The row written to the `requests` table. */
  datatype Row = Row(
    name: string,
    email: string,
    phone: string,
    datetime: int,
    location: string,
    partySize: int,
    budgetMin: int,
    budgetMax: int,
    pillars: seq<string>,
    vibeTags: seq<string>,
    notes: Option<string>,
    status: string)

  /** The row for a validated request: budget bounds from the table, empty or
      missing notes stored as null, status "new". */
  function ToRow(req: Request): (row: Row)
    ensures row.status == "new"
    ensures (row.budgetMin, row.budgetMax) == BudgetBounds(req.budgetRange)
    ensures row.notes.None? <==> (req.notes.None? || req.notes == Some(""))
    ensures row.notes.Some? ==> req.notes == row.notes
    ensures row.name == req.name && row.email == req.email && row.phone == req.phone
    ensures row.datetime == req.datetime && row.location == req.location
    ensures row.partySize == req.partySize && row.pillars == req.pillars && row.vibeTags == req.vibeTags
  {
    var (lo, hi) := BudgetBounds(req.budgetRange);
    Row(req.name, req.email, req.phone, req.datetime, req.location, req.partySize, lo, hi,
        req.pillars, req.vibeTags,
        if req.notes.None? || req.notes.value == "" then None else req.notes,
        "new")
  }

  /** What the insert-and-select call does: returns the new row's id, returns
      an error object, or throws. */
  datatype InsertOutcome = Inserted(id: string) | InsertFailed(message: string) | InsertThrew

  /** What `request.json()` yields: a JSON value, or a thrown parse error. */
  datatype BodyInput = UnparseableJson | Json(submission: Submission)

  datatype Payload =
    | ErrorMessage(error: string)
    | ValidationErrors(error: string, details: seq<FieldName>)
    | Accepted(message: string, id: string)

  datatype Response = Response(status: int, payload: Payload, headers: map<string, string>)

  /** The response, and the row handed to the database, if any. */
  datatype Reply = Reply(response: Response, written: Option<Row>)

  /** The two rate-limit headers; each reads back as the number it carries. */
  function RateHeaders(remaining: int, reset: int): (h: map<string, string>)
    ensures h.Keys == {RemainingHeader, ResetHeader}
    ensures ParseIntString(h[RemainingHeader]) == Some(remaining)
    ensures ParseIntString(h[ResetHeader]) == Some(reset)
  {
    IntStringRoundTrip(remaining);
    IntStringRoundTrip(reset);
    map[RemainingHeader := IntString(remaining), ResetHeader := IntString(reset)]
  }

  /** Everything after `limiter.check`: the response for the limiter's result
      `r`, the body, the instant `now`, whether both database settings are
      present, and what the insert does with the row it is given. */
  function Handle(r: RateLimit.CheckResult, body: BodyInput, now: int, isEmail: string -> bool,
                  configured: bool, insert: Row -> InsertOutcome): (reply: Reply)
    // The limiter decides first, whatever the body.
    ensures reply.response.status == 429 <==> !r.success
    ensures !r.success ==>
              reply.response.headers == map[RemainingHeader := "0", ResetHeader := IntString(r.reset)]
    // A body that fails the schema is refused with every failing field.
    ensures reply.response.status == 400 <==>
              r.success && body.Json? && Parse(body.submission, now, isEmail).Err?
    ensures reply.response.status == 400 ==>
              reply.response.payload ==
                ValidationErrors(ValidationFailedMessage, Parse(body.submission, now, isEmail).error)
    // Nothing is written unless the database is configured and the body passed.
    ensures reply.written.Some? ==>
              configured && r.success && body.Json? && Parse(body.submission, now, isEmail).Ok? &&
              reply.written.value == ToRow(Parse(body.submission, now, isEmail).value)
    ensures !configured ==> reply.written.None?
    // Demo mode acknowledges with a synthetic id.
    ensures !configured && reply.response.status == 200 ==>
              reply.response.payload == Accepted(DemoMessage, DemoIdPrefix + IntString(now))
    ensures configured && reply.response.status == 200 ==>
              reply.written.Some? && insert(reply.written.value).Inserted? &&
              reply.response.payload == Accepted(SubmittedMessage, insert(reply.written.value).id)
    // A failed insert is reported with a fixed message, never the database's own.
    ensures reply.written.Some? && insert(reply.written.value).InsertFailed? ==>
              reply.response.status == 500 &&
              reply.response.payload == ErrorMessage(SaveFailedMessage)
    // Every response carries both rate-limit headers, except the outer catch's.
    ensures reply.response.payload == ErrorMessage(InternalErrorMessage) ==>
              reply.response.status == 500 && reply.response.headers == map[]
    ensures reply.response.payload != ErrorMessage(InternalErrorMessage) ==>
              reply.response.headers.Keys == {RemainingHeader, ResetHeader}
    ensures r.success && reply.response.payload != ErrorMessage(InternalErrorMessage) ==>
              reply.response.headers == RateHeaders(r.remaining, r.reset)
    ensures reply.response.status in {200, 400, 429, 500}
    // Outcome by outcome, in the order the route meets them.
    ensures !r.success ==>
              reply.response.payload == ErrorMessage(TooManyRequests) && reply.written.None?
    ensures r.success && body.UnparseableJson? ==>
              reply == Reply(Response(500, ErrorMessage(InternalErrorMessage), map[]), None)
    ensures r.success && body.Json? && Parse(body.submission, now, isEmail).Ok? && !configured ==>
              reply == Reply(Response(200, Accepted(DemoMessage, DemoIdPrefix + IntString(now)),
                                      RateHeaders(r.remaining, r.reset)), None)
    ensures r.success && body.Json? && Parse(body.submission, now, isEmail).Ok? && configured ==>
              var row := ToRow(Parse(body.submission, now, isEmail).value);
              && reply.written == Some(row)
              && (insert(row).Inserted? ==>
                    reply.response == Response(200, Accepted(SubmittedMessage, insert(row).id),
                                               RateHeaders(r.remaining, r.reset)))
              && (insert(row).InsertFailed? ==>
                    reply.response == Response(500, ErrorMessage(SaveFailedMessage),
                                               RateHeaders(r.remaining, r.reset)))
              && (insert(row).InsertThrew? ==>
                    reply.response == Response(500, ErrorMessage(InternalErrorMessage), map[]))
  {
    if !r.success then
      Reply(Response(429, ErrorMessage(TooManyRequests),
                     map[RemainingHeader := "0", ResetHeader := IntString(r.reset)]), None)
    else match body
      case UnparseableJson =>
        Reply(Response(500, ErrorMessage(InternalErrorMessage), map[]), None)
      case Json(submission) =>
        match Parse(submission, now, isEmail)
        case Err(fields) =>
          Reply(Response(400, ValidationErrors(ValidationFailedMessage, fields),
                         RateHeaders(r.remaining, r.reset)), None)
        case Ok(req) =>
          if !configured then
            Reply(Response(200, Accepted(DemoMessage, DemoIdPrefix + IntString(now)),
                           RateHeaders(r.remaining, r.reset)), None)
          else
            var row := ToRow(req);
            match insert(row)
            case Inserted(id) =>
              Reply(Response(200, Accepted(SubmittedMessage, id), RateHeaders(r.remaining, r.reset)), Some(row))
            case InsertFailed(_) =>
              Reply(Response(500, ErrorMessage(SaveFailedMessage), RateHeaders(r.remaining, r.reset)), Some(row))
            case InsertThrew =>
              Reply(Response(500, ErrorMessage(InternalErrorMessage), map[]), Some(row))
  }

  /** `POST(request)` against the limiter `limiter`. */
  method Post(limiter: RateLimit.Limiter, forwardedFor: Option<string>, body: BodyInput, now: int,
              isEmail: string -> bool, configured: bool, insert: Row -> InsertOutcome)
    returns (reply: Reply)
    requires limiter.Valid()
    modifies limiter
    ensures limiter.Valid()
    ensures var key := ClientKey(forwardedFor);
            var d := RateLimit.Admit(RateLimit.Lookup(old(limiter.cache), key), now, limiter.interval, limiter.limit);
            && limiter.cache == RateLimit.Housekeep(old(limiter.cache), now)[key := d.entry]
            && reply == Handle(d.result, body, now, isEmail, configured, insert)
  {
    var key := ClientKey(forwardedFor);
    var r := limiter.Check(key, now);
    reply := Handle(r, body, now, isEmail, configured, insert);
  }

  /** The limiter map after `n` submissions from one client whose first came
      at `start`, all within one window. */
  function BurstCache(key: string, n: nat, start: int): map<string, RateLimit.Entry>
  {
    if n == 0 then map[]
    else map[key := RateLimit.Entry(if n < MaxPerWindow then n else MaxPerWindow, start + WindowMs)]
  }

  /** One more submission of the burst: admitted iff fewer than five came
      before it, and the map moves on to the next burst state. */
  lemma BurstStep(key: string, n: nat, start: int, t: int)
    requires n == 0 ==> t == start
    requires t < start + WindowMs
    ensures var cache := BurstCache(key, n, start);
            var d := RateLimit.Admit(RateLimit.Lookup(cache, key), t, WindowMs, MaxPerWindow);
            && (d.result.success <==> n < MaxPerWindow)
            && RateLimit.Housekeep(cache, t)[key := d.entry] == BurstCache(key, n + 1, start)
  {
  }

  /** Submissions from one client within one minute, on a fresh route: the
      first five get past the limiter, whatever their bodies, and every later
      one is answered 429. */
  method RepeatedSubmissions(forwardedFor: Option<string>, bodies: seq<BodyInput>, times: seq<int>,
                             isEmail: string -> bool, configured: bool, insert: Row -> InsertOutcome)
    returns (statuses: seq<int>)
    requires |times| == |bodies|
    requires forall i :: 0 <= i < |times| ==> times[i] < times[0] + WindowMs
    ensures |statuses| == |bodies|
    ensures forall i :: 0 <= i < |statuses| ==> (statuses[i] == 429 <==> i >= MaxPerWindow)
  {
    var limiter := new RateLimit.Limiter(WindowMs, MaxPerWindow);
    var key := ClientKey(forwardedFor);
    statuses := [];
    var i := 0;
    while i < |bodies|
      invariant 0 <= i <= |bodies| && |statuses| == i
      invariant limiter.Valid() && limiter.interval == WindowMs && limiter.limit == MaxPerWindow
      invariant limiter.cache == if i == 0 then map[] else BurstCache(key, i, times[0])
      invariant forall j :: 0 <= j < i ==> (statuses[j] == 429 <==> j >= MaxPerWindow)
    {
      BurstStep(key, i, times[0], times[i]);
      var reply := Post(limiter, forwardedFor, bodies[i], times[i], isEmail, configured, insert);
      statuses := statuses + [reply.response.status];
      i := i + 1;
    }
  }
}

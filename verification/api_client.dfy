/** The HTTP client of the server (class LumaMCPServer): request construction for
    each endpoint, makeRequest's status and error mapping, and the envelope checks.
    The network is the parameter `send`, which maps a request to what the round
    trip produced. */
module ApiClient {
  import opened LumaTypes
  import opened Strings

  /** One `name=value` pair of a URLSearchParams, in insertion order. */
  datatype Param = Param(key: string, value: string)

  /** The JSON body `{api_id: eventApiId, ...updates}` of an update-event call. */
  datatype UpdateBody = UpdateBody(apiId: string, updates: EventUpdates)

  /** A call of makeRequest: a GET with its query parameters or a POST with its
      JSON body; `publicApi` selects the public-api base URL. */
  datatype Request =
    | Get(path: string, query: seq<Param>, publicApi: bool)
    | Post(path: string, body: UpdateBody, publicApi: bool)

  /** What one round trip produced: a response (its status, the body as text, and
      the body parsed as JSON or the parser's error message), or a thrown value. */
  datatype Transport<+J> =
    | Received(status: int, text: string, json: Result<J, string>)
    | Threw(thrown: Exception)

  // ---------------------------------------------------------------------------
  // makeRequest: status mapping and error wrapping

  const ApiErrorPrefix := "Lu.ma API error: "
  const NetworkErrorPrefix := "Network error: "
  const UnauthorizedText := "Unauthorized: " + "Invalid API key or insufficient permissions"
  const NotFoundText := "Not found: " + "Event or resource does not exist"
  const RateLimitedText := "Rate limited: " + "Too many requests. Wait 1 minute before retrying"
  const GenericStatusPrefix := "API error ("

  /** `response.ok` */
  predicate IsOk(status: int) {
    200 <= status <= 299
  }

  /** The `switch (response.status)` of makeRequest. */
  function StatusMessage(status: int, text: string): (r: string)
    ensures r == UnauthorizedText <==> status == 401
    ensures r == NotFoundText <==> status == 404
    ensures r == RateLimitedText <==> status == 429
    ensures status != 401 && status != 404 && status != 429 ==>
      && StartsWith(r, GenericStatusPrefix)
      && StartsWith(r[|GenericStatusPrefix|..], IntToString(status) + "): ")
      && r[|GenericStatusPrefix| + |IntToString(status)| + 3..] == text
  {
    var generic := GenericStatusPrefix + IntToString(status) + "): " + text;
    assert generic[0] == 'A' && UnauthorizedText[0] == 'U' && NotFoundText[0] == 'N' && RateLimitedText[0] == 'R';
    assert generic[..|GenericStatusPrefix|] == GenericStatusPrefix;
    assert generic[|GenericStatusPrefix|..][..|IntToString(status) + "): "|] == IntToString(status) + "): ";
    if status == 401 then UnauthorizedText
    else if status == 404 then NotFoundText
    else if status == 429 then RateLimitedText
    else generic
  }

  /** The `try` block of makeRequest: the parsed body, or what the block throws. */
  function Attempt<J>(t: Transport<J>): Result<J, Exception> {
    match t
    case Threw(x) => Failure(x)
    case Received(status, text, json) =>
      if !IsOk(status) then
        Failure(Mcp(McpError(InternalError, ApiErrorPrefix + StatusMessage(status, text))))
      else
        match json
        case Success(j) => Success(j)
        case Failure(parseError) => Failure(ErrorObject(parseError))
  }

  /** The `catch` of makeRequest: an McpError is rethrown as it is, anything else
      becomes an InternalError "Network error: ...". */
  function CatchNetwork(x: Exception): (e: McpError)
    ensures x.Mcp? ==> e == x.mcp
    ensures !x.Mcp? ==> e.code == InternalError && StartsWith(e.message, NetworkErrorPrefix)
    ensures !x.Mcp? ==> e.message[|NetworkErrorPrefix|..] == MessageOf(x)
  {
    if x.Mcp? then x.mcp
    else
      var m := NetworkErrorPrefix + MessageOf(x);
      assert m[..|NetworkErrorPrefix|] == NetworkErrorPrefix;
      McpError(InternalError, m)
  }

  function MakeRequest<J>(t: Transport<J>): (r: Result<J, McpError>)
    ensures r.Success? <==> t.Received? && IsOk(t.status) && t.json.Success?
    ensures r.Success? ==> r.value == t.json.value
    ensures t.Received? && !IsOk(t.status) ==>
      r == Failure(McpError(InternalError, ApiErrorPrefix + StatusMessage(t.status, t.text)))
    ensures t.Threw? && t.thrown.Mcp? ==> r == Failure(t.thrown.mcp)
    ensures t.Threw? && !t.thrown.Mcp? ==>
      r == Failure(McpError(InternalError, NetworkErrorPrefix + MessageOf(t.thrown)))
    ensures t.Received? && IsOk(t.status) && t.json.Failure? ==>
      r == Failure(McpError(InternalError, NetworkErrorPrefix + t.json.error))
    ensures r.Failure? && !(t.Threw? && t.thrown.Mcp?) ==> r.error.code == InternalError
  {
    match Attempt(t)
    case Success(j) => Success(j)
    case Failure(x) => Failure(CatchNetwork(x))
  }

  /** What an upstream failure message tells its reader. */
  datatype Upstream = Unauthorized | NotFound | RateLimited | OtherStatus(status: int, body: string)

  function UpstreamOf(status: int, text: string): Upstream {
    if status == 401 then Unauthorized
    else if status == 404 then NotFound
    else if status == 429 then RateLimited
    else OtherStatus(status, text)
  }

  /** Reads an error message of makeRequest back: which upstream failure it reports,
      or None when it is not an upstream failure message. */
  function ParseUpstream(message: string): Option<Upstream> {
    if !StartsWith(message, ApiErrorPrefix) then None
    else
      var rest := message[|ApiErrorPrefix|..];
      if rest == UnauthorizedText then Some(Unauthorized)
      else if rest == NotFoundText then Some(NotFound)
      else if rest == RateLimitedText then Some(RateLimited)
      else if StartsWith(rest, GenericStatusPrefix) then ParseStatusAndBody(rest[|GenericStatusPrefix|..])
      else None
  }

  /** Reads `<integer>): <body>`. */
  function ParseStatusAndBody(s: string): Option<Upstream> {
    var negative := |s| > 0 && s[0] == '-';
    var start := if negative then 1 else 0;
    var end := DigitRunEnd(s, start);
    if end == start || !StartsWith(s[end..], "): ") then None
    else
      var n := DecimalValue(s[start..end]);
      var status: int := if negative then -(n as int) else n as int;
      Some(OtherStatus(status, s[end + 3..]))
  }

  /** A numeral at `start` followed by "): " and a body is read back as the
      numeral's end, the separator and the body. */
  lemma ReadNumeral(s: string, start: nat, digits: string, text: string)
    requires start <= |s| && s[start..] == digits + "): " + text
    requires AllDigits(digits)
    ensures start + |digits| + 3 <= |s|
    ensures DigitRunEnd(s, start) == start + |digits|
    ensures s[start..start + |digits|] == digits
    ensures StartsWith(s[start + |digits|..], "): ")
    ensures s[start + |digits| + 3..] == text
  {
    var rest := s[start..];
    assert rest[..|digits|] == digits;
    assert s[start..start + |digits|] == rest[..|digits|];
    assert s[start + |digits|] == rest[|digits|] == ')';
    DigitRunEndOf(s, start, digits);
    assert s[start + |digits|..] == rest[|digits|..] == "): " + text;
    assert s[start + |digits| + 3..] == rest[|digits| + 3..];
  }

  lemma ParseStatusAndBodyOf(status: int, text: string)
    ensures ParseStatusAndBody(IntToString(status) + "): " + text) == Some(OtherStatus(status, text))
  {
    if status < 0 {
      ParseNegativeStatus(status, text);
    } else {
      ParseNonNegativeStatus(status, text);
    }
  }

  lemma ParseNegativeStatus(status: int, text: string)
    requires status < 0
    ensures ParseStatusAndBody(IntToString(status) + "): " + text) == Some(OtherStatus(status, text))
  {
    var digits := NatToString(-status);
    assert IntToString(status) + "): " + text == "-" + digits + "): " + text;
    NatToStringRoundTrip(-status);
    ParseSignedNumeral(IntToString(status) + "): " + text, true, digits, text, -status);
  }

  lemma ParseNonNegativeStatus(status: int, text: string)
    requires status >= 0
    ensures ParseStatusAndBody(IntToString(status) + "): " + text) == Some(OtherStatus(status, text))
  {
    var digits := NatToString(status);
    assert IntToString(status) + "): " + text == "" + digits + "): " + text;
    NatToStringRoundTrip(status);
    ParseSignedNumeral(IntToString(status) + "): " + text, false, digits, text, status);
  }

  /** An optional minus sign, a numeral, "): " and a body are read back as the
      signed value of the numeral and the body. */
  lemma ParseSignedNumeral(s: string, negative: bool, digits: string, text: string, n: nat)
    requires |digits| > 0 && AllDigits(digits) && DecimalValue(digits) == n
    requires s == (if negative then "-" else "") + digits + "): " + text
    ensures ParseStatusAndBody(s) == Some(OtherStatus(if negative then -(n as int) else n as int, text))
  {
    var start := if negative then 1 else 0;
    SignedLayout(s, negative, digits, text);
    ReadNumeral(s, start, digits, text);
    ParseNumeralAt(s, negative, start, start + |digits|, n, text);
  }

  /** Where the numeral starts, and whether the string starts with a minus sign. */
  lemma SignedLayout(s: string, negative: bool, digits: string, text: string)
    requires |digits| > 0 && AllDigits(digits)
    requires s == (if negative then "-" else "") + digits + "): " + text
    ensures negative <==> |s| > 0 && s[0] == '-'
    ensures var start := if negative then 1 else 0;
      start <= |s| && s[start..] == digits + "): " + text
  {
    var start := if negative then 1 else 0;
    assert s[start..] == digits + "): " + text;
    assert s[start] == digits[0];
  }

  /** What `ParseStatusAndBody` returns once the sign and the end of the numeral
      are known. */
  lemma ParseNumeralAt(s: string, negative: bool, start: nat, end: nat, n: nat, body: string)
    requires negative <==> |s| > 0 && s[0] == '-'
    requires start == (if negative then 1 else 0)
    requires start < end && DigitRunEnd(s, start) == end && StartsWith(s[end..], "): ")
    requires AllDigits(s[start..end]) && DecimalValue(s[start..end]) == n
    requires s[end + 3..] == body
    ensures ParseStatusAndBody(s) == Some(OtherStatus(if negative then -(n as int) else n as int, body))
  {
  }

  /** Every non-2xx failure message carries the status class it came from and, for
      statuses without a fixed message, the status and the response body verbatim. */
  lemma {:induction false} UpstreamMessageRoundTrip<J>(t: Transport<J>)
    requires t.Received? && !IsOk(t.status)
    ensures MakeRequest(t).Failure?
    ensures ParseUpstream(MakeRequest(t).error.message) == Some(UpstreamOf(t.status, t.text))
  {
    var msg := MakeRequest(t).error.message;
    assert msg == ApiErrorPrefix + StatusMessage(t.status, t.text);
    if t.status != 401 && t.status != 404 && t.status != 429 {
      GenericMessageParses(t.status, t.text);
    } else {
      assert msg[|ApiErrorPrefix|..] == StatusMessage(t.status, t.text);
    }
  }

  /** A status without a fixed message is read back with its body. */
  lemma GenericMessageParses(status: int, text: string)
    requires status != 401 && status != 404 && status != 429
    ensures ParseUpstream(ApiErrorPrefix + StatusMessage(status, text)) == Some(OtherStatus(status, text))
  {
    var rest := StatusMessage(status, text);
    var tail := IntToString(status) + "): " + text;
    assert (ApiErrorPrefix + rest)[|ApiErrorPrefix|..] == rest;
    assert rest == GenericStatusPrefix + tail;
    assert rest[0] == 'A';
    assert rest[0] != UnauthorizedText[0] && rest[0] != NotFoundText[0] && rest[0] != RateLimitedText[0];
    assert rest[|GenericStatusPrefix|..] == tail;
    ParseStatusAndBodyOf(status, text);
  }

  /** A failure that did not come from an HTTP status is never mistaken for one. */
  lemma NetworkErrorIsNotUpstream(x: Exception)
    requires !x.Mcp?
    ensures ParseUpstream(CatchNetwork(x).message) == None
  {
    var m := CatchNetwork(x).message;
    assert m == NetworkErrorPrefix + MessageOf(x);
    assert m[0] == 'N' && ApiErrorPrefix[0] == 'L';
    DiffersAtFirst(m, ApiErrorPrefix);
  }

  /** A string whose first character differs from a prefix's does not start with it. */
  lemma DiffersAtFirst(s: string, prefix: string)
    requires |s| > 0 && |prefix| > 0 && s[0] != prefix[0]
    ensures !StartsWith(s, prefix)
  {
    if |prefix| <= |s| {
      assert s[..|prefix|][0] == s[0];
    }
  }

  // ---------------------------------------------------------------------------
  // Query construction

  /** `?name=value&...`, or "" when there is no parameter. Percent-encoding of
      names and values is not modelled. */
  function QueryString(params: seq<Param>): (q: string)
    ensures q == "" <==> params == []
  {
    if params == [] then "" else "?" + Serialize(params)
  }

  function Serialize(params: seq<Param>): string {
    Join(seq(|params|, i requires 0 <= i < |params| => params[i].key + "=" + params[i].value), "&")
  }

  /** A table of candidate parameters: a name and, when its condition holds, the
      value to append. */
  type Table = seq<(string, Option<string>)>

  /** The parameters of the table whose value is given, in table order. */
  function Present(table: Table): (params: seq<Param>)
    ensures |params| <= |table|
  {
    if table == [] then [] else Entry(table[0]) + Present(table[1..])
  }

  /** The position of `key` in the table (|table| when absent). */
  function KeyIndex(table: Table, key: string): (i: nat)
    ensures i <= |table|
    ensures i < |table| ==> table[i].0 == key
    ensures forall j :: 0 <= j < i ==> table[j].0 != key
  {
    if table == [] then 0 else if table[0].0 == key then 0 else 1 + KeyIndex(table[1..], key)
  }

  predicate DistinctKeys(table: Table) {
    forall i, j :: 0 <= i < j < |table| ==> table[i].0 != table[j].0
  }

  /** The parameter one table entry contributes. */
  function Entry(e: (string, Option<string>)): seq<Param> {
    if e.1.Some? then [Param(e.0, e.1.value)] else []
  }

  /** Appending an entry to the table appends its parameter. */
  lemma {:induction false} PresentSnoc(table: Table, e: (string, Option<string>))
    ensures Present(table + [e]) == Present(table) + Entry(e)
  {
    if table != [] {
      assert (table + [e])[1..] == table[1..] + [e];
      PresentSnoc(table[1..], e);
    } else {
      assert [e][1..] == [];
    }
  }

  /** Nothing is sent exactly when no entry gives a value. */
  lemma {:induction false} PresentEmpty(table: Table)
    ensures Present(table) == [] <==> forall k :: 0 <= k < |table| ==> table[k].1.None?
  {
    if table != [] {
      PresentEmpty(table[1..]);
      assert forall k :: 1 <= k < |table| ==> table[k] == table[1..][k - 1];
    }
  }

  /** A parameter is sent exactly when its table entry gives it that value. */
  lemma {:induction false} PresentContents(table: Table, p: Param)
    ensures p in Present(table) <==> (p.key, Some(p.value)) in table
  {
    if table != [] {
      PresentContents(table[1..], p);
      assert table == [table[0]] + table[1..];
    }
  }

  /** The parameters come out in table order. */
  lemma {:induction false} PresentOrder(table: Table)
    requires DistinctKeys(table)
    ensures forall i, j :: 0 <= i < j < |Present(table)| ==>
      KeyIndex(table, Present(table)[i].key) < KeyIndex(table, Present(table)[j].key)
  {
    if table != [] {
      var tail := table[1..];
      PresentOrder(tail);
      var head := Entry(table[0]);
      var ps := Present(table);
      assert ps == head + Present(tail);
      forall p | p in Present(tail)
        ensures KeyIndex(table, p.key) == 1 + KeyIndex(tail, p.key)
      {
        PresentContents(tail, p);
        var k :| 0 <= k < |tail| && tail[k] == (p.key, Some(p.value));
        assert table[k + 1] == tail[k];
        assert table[0].0 != p.key;
      }
      forall i, j | 0 <= i < j < |ps|
        ensures KeyIndex(table, ps[i].key) < KeyIndex(table, ps[j].key)
      {
        assert ps[j] in Present(tail) by { assert ps[j] == Present(tail)[j - |head|]; }
        if i < |head| {
          assert ps[i].key == table[0].0;
        } else {
          assert ps[i] == Present(tail)[i - |head|];
          assert ps[j] == Present(tail)[j - |head|];
        }
      }
    }
  }

  /** `value` when it is truthy. */
  function IfTruthy(value: Option<string>): Option<string> {
    if Truthy(value) then value else None
  }

  /** A number is appended when it is truthy, i.e. given and not 0. */
  function IfNonZero(n: Option<int>): Option<string> {
    if n.Some? && n.value != 0 then Some(IntToString(n.value)) else None
  }

  /** A flag is appended whenever it is defined, `false` included. */
  function IfDefined(b: Option<bool>): Option<string> {
    match b
    case Some(v) => Some(if v then "true" else "false")
    case None => None
  }

  datatype ListEventsOptions = ListEventsOptions(
    paginationCursor: Option<string>,
    paginationLimit: Option<int>,
    after: Option<string>,
    before: Option<string>,
    seriesMode: Option<string>,
    includeCancelled: Option<bool>)

  /** The candidate parameters of listEvents, in its fixed order. */
  function ListEventsTable(o: ListEventsOptions): Table {
    [ ("pagination_cursor", IfTruthy(o.paginationCursor)),
      ("pagination_limit", IfNonZero(o.paginationLimit)),
      ("after", IfTruthy(o.after)),
      ("before", IfTruthy(o.before)),
      ("series_mode", IfTruthy(o.seriesMode)),
      ("include_cancelled", IfDefined(o.includeCancelled)) ]
  }

  function ListEventsQuery(o: ListEventsOptions): seq<Param> {
    Present(ListEventsTable(o))
  }

  /** `if (value) params.append(key, value)`, the condition already folded into
      whether `value` is given. */
  method AppendWhen(params: seq<Param>, key: string, value: Option<string>) returns (r: seq<Param>)
    ensures r == params + Entry((key, value))
  {
    r := params;
    if value.Some? {
      r := r + [Param(key, value.value)];
    }
  }

  /** listEvents' successive `params.append` calls. */
  method BuildListEventsQuery(o: ListEventsOptions) returns (params: seq<Param>)
    ensures params == ListEventsQuery(o)
  {
    ghost var t := ListEventsTable(o);
    params := AppendWhen([], "pagination_cursor", IfTruthy(o.paginationCursor));
    assert params == Entry(t[0]);
    params := AppendWhen(params, "pagination_limit", IfNonZero(o.paginationLimit));
    params := AppendWhen(params, "after", IfTruthy(o.after));
    params := AppendWhen(params, "before", IfTruthy(o.before));
    params := AppendWhen(params, "series_mode", IfTruthy(o.seriesMode));
    params := AppendWhen(params, "include_cancelled", IfDefined(o.includeCancelled));
    PresentSix(t);
  }

  /** Concatenating tables concatenates their parameters. */
  lemma {:induction false} PresentAppend(a: Table, b: Table)
    ensures Present(a + b) == Present(a) + Present(b)
  {
    if a != [] {
      assert (a + b)[1..] == a[1..] + b;
      PresentAppend(a[1..], b);
    } else {
      assert a + b == b;
    }
  }

  lemma PresentTwo(t: Table)
    requires |t| == 2
    ensures Present(t) == Entry(t[0]) + Entry(t[1])
  {
    assert t[1..][1..] == [];
    assert Present(t[1..]) == Entry(t[1]) + [];
  }

  lemma PresentThree(t: Table)
    requires |t| == 3
    ensures Present(t) == Entry(t[0]) + Entry(t[1]) + Entry(t[2])
  {
    assert t[1..][1..][1..] == [];
    assert Present(t[1..][1..]) == Entry(t[2]);
  }

  lemma PresentSix(t: Table)
    requires |t| == 6
    ensures Present(t) == Entry(t[0]) + Entry(t[1]) + Entry(t[2]) + Entry(t[3]) + Entry(t[4]) + Entry(t[5])
  {
    assert t == t[..3] + t[3..];
    PresentAppend(t[..3], t[3..]);
    PresentThree(t[..3]);
    PresentThree(t[3..]);
  }

  /** The listEvents table names each parameter once. */
  lemma ListEventsTableDistinct(o: ListEventsOptions)
    ensures DistinctKeys(ListEventsTable(o))
  {
    var t := ListEventsTable(o);
    assert t[0].0[1] == 'a' && t[1].0[1] == 'a' && t[2].0[0] == 'a' && t[3].0[0] == 'b';
    assert t[4].0[0] == 's' && t[5].0[0] == 'i' && t[0].0[11] == 'c' && t[1].0[11] == 'l';
  }

  /** The listEvents query: each parameter only when set, in the fixed order
      pagination_cursor, pagination_limit, after, before, series_mode,
      include_cancelled; include_cancelled whenever defined, `false` included;
      and no "?" at all when nothing is set. */
  lemma ListEventsQueryShape(o: ListEventsOptions)
    ensures forall p :: p in ListEventsQuery(o) <==> (p.key, Some(p.value)) in ListEventsTable(o)
    ensures forall i, j :: 0 <= i < j < |ListEventsQuery(o)| ==>
      KeyIndex(ListEventsTable(o), ListEventsQuery(o)[i].key) < KeyIndex(ListEventsTable(o), ListEventsQuery(o)[j].key)
    ensures Param("include_cancelled", "false") in ListEventsQuery(o) <==> o.includeCancelled == Some(false)
    ensures QueryString(ListEventsQuery(o)) == "" <==>
      !Truthy(o.paginationCursor) && (o.paginationLimit.None? || o.paginationLimit.value == 0) &&
      !Truthy(o.after) && !Truthy(o.before) && !Truthy(o.seriesMode) && o.includeCancelled.None?
  {
    ListEventsQueryContents(o);
    ListEventsTableDistinct(o);
    PresentOrder(ListEventsTable(o));
    ListEventsIncludeCancelled(o);
    ListEventsQueryEmpty(o);
  }

  lemma ListEventsQueryContents(o: ListEventsOptions)
    ensures forall p :: p in ListEventsQuery(o) <==> (p.key, Some(p.value)) in ListEventsTable(o)
  {
    forall p ensures p in ListEventsQuery(o) <==> (p.key, Some(p.value)) in ListEventsTable(o) {
      PresentContents(ListEventsTable(o), p);
    }
  }

  lemma ListEventsIncludeCancelled(o: ListEventsOptions)
    ensures Param("include_cancelled", "false") in ListEventsQuery(o) <==> o.includeCancelled == Some(false)
  {
    var t := ListEventsTable(o);
    var p := Param("include_cancelled", "false");
    PresentContents(t, p);
    if (p.key, Some(p.value)) in t {
      var k :| 0 <= k < |t| && t[k] == (p.key, Some(p.value));
      assert k == 5 by {
        assert t[0].0[0] == 'p' && t[1].0[0] == 'p' && t[2].0[0] == 'a' && t[3].0[0] == 'b' && t[4].0[0] == 's';
      }
    }
    if o.includeCancelled == Some(false) {
      assert t[5] == (p.key, Some(p.value));
    }
  }

  lemma ListEventsQueryEmpty(o: ListEventsOptions)
    ensures QueryString(ListEventsQuery(o)) == "" <==>
      !Truthy(o.paginationCursor) && (o.paginationLimit.None? || o.paginationLimit.value == 0) &&
      !Truthy(o.after) && !Truthy(o.before) && !Truthy(o.seriesMode) && o.includeCancelled.None?
  {
    var t := ListEventsTable(o);
    PresentEmpty(t);
    assert ListEventsQuery(o) == [] ==> t[0].1.None? && t[1].1.None? && t[2].1.None? && t[3].1.None? && t[4].1.None? && t[5].1.None?;
  }

  datatype GuestPageOptions = GuestPageOptions(paginationCursor: Option<string>, paginationLimit: Option<int>)

  function EventGuestsTable(o: GuestPageOptions): Table {
    [ ("pagination_cursor", IfTruthy(o.paginationCursor)),
      ("pagination_limit", IfNonZero(o.paginationLimit)) ]
  }

  /** getEventGuests' query: the event id first, then the page options. */
  function EventGuestsQuery(eventApiId: string, o: GuestPageOptions): seq<Param> {
    [Param("event_api_id", eventApiId)] + Present(EventGuestsTable(o))
  }

  /** getEventGuests' successive `params.append` calls. */
  method BuildEventGuestsQuery(eventApiId: string, o: GuestPageOptions) returns (params: seq<Param>)
    ensures params == EventGuestsQuery(eventApiId, o)
  {
    ghost var table := EventGuestsTable(o);
    params := AppendWhen([Param("event_api_id", eventApiId)], "pagination_cursor", IfTruthy(o.paginationCursor));
    params := AppendWhen(params, "pagination_limit", IfNonZero(o.paginationLimit));
    PresentTwo(table);
  }

  // ---------------------------------------------------------------------------
  // Guest identifier choice

  datatype GuestIdentifier = GuestIdentifier(guestApiId: Option<string>, email: Option<string>, proxyKey: Option<string>)

  const MissingIdentifierText := "Must provide either guestApiId, email, or proxyKey to identify the guest"

  /** The identifiers in priority order, with the parameter name each is sent under. */
  function IdentifierPriority(ident: GuestIdentifier): Table {
    [("guest_api_id", ident.guestApiId), ("email", ident.email), ("proxy_key", ident.proxyKey)]
  }

  /** The position of the first truthy candidate. */
  function FirstTruthy(table: Table): (r: Option<nat>)
    ensures r.Some? ==> r.value < |table| && Truthy(table[r.value].1)
    ensures r.Some? ==> forall j :: 0 <= j < r.value ==> !Truthy(table[j].1)
    ensures r.None? ==> forall j :: 0 <= j < |table| ==> !Truthy(table[j].1)
  {
    if table == [] then None
    else if Truthy(table[0].1) then Some(0)
    else match FirstTruthy(table[1..])
      case None => None
      case Some(i) => Some(i + 1)
  }

  /** getEventGuest's if/else chain: the event id plus exactly one identifier. */
  function GuestLookupQuery(eventApiId: string, ident: GuestIdentifier): (r: Result<seq<Param>, McpError>)
    ensures r.Failure? <==> !Truthy(ident.guestApiId) && !Truthy(ident.email) && !Truthy(ident.proxyKey)
    ensures r.Success? ==> |r.value| == 2 && r.value[0] == Param("event_api_id", eventApiId) && r.value[1].value != ""
  {
    var base := [Param("event_api_id", eventApiId)];
    if Truthy(ident.guestApiId) then Success(base + [Param("guest_api_id", ident.guestApiId.value)])
    else if Truthy(ident.email) then Success(base + [Param("email", ident.email.value)])
    else if Truthy(ident.proxyKey) then Success(base + [Param("proxy_key", ident.proxyKey.value)])
    else Failure(McpError(InvalidParams, MissingIdentifierText))
  }

  /** The lookup sends the first truthy identifier in the order guest id, email,
      proxy key (empty strings count as absent) and nothing else, and fails with
      InvalidParams exactly when none is given. */
  lemma GuestLookupFollowsPriority(eventApiId: string, ident: GuestIdentifier)
    ensures GuestLookupQuery(eventApiId, ident).Failure? <==> FirstTruthy(IdentifierPriority(ident)).None?
    ensures GuestLookupQuery(eventApiId, ident).Failure? ==>
      GuestLookupQuery(eventApiId, ident).error == McpError(InvalidParams, MissingIdentifierText)
    ensures GuestLookupQuery(eventApiId, ident).Success? ==>
      var i := FirstTruthy(IdentifierPriority(ident)).value;
      var chosen := IdentifierPriority(ident)[i];
      GuestLookupQuery(eventApiId, ident).value ==
        [Param("event_api_id", eventApiId), Param(chosen.0, chosen.1.value)]
  {
    var t := IdentifierPriority(ident);
    assert t[1..][1..] == [t[2]];
    assert t[1..] == [t[1], t[2]];
  }

  // ---------------------------------------------------------------------------
  // Endpoints and envelope checks

  const MissingEventText := "Invalid API response: missing event data"
  const MissingGuestText := "Invalid API response: missing guest data"

  /** `if (!response.event) throw ...` */
  function RequireEvent(env: EventEnvelope): (r: Result<EventDetails, McpError>)
    ensures r.Success? <==> env.event.Some?
    ensures r.Success? ==> r.value == env.event.value
    ensures r.Failure? ==> r.error == McpError(InternalError, MissingEventText)
  {
    match env.event
    case Some(e) => Success(e)
    case None => Failure(McpError(InternalError, MissingEventText))
  }

  /** `if (!response.guest) throw ...` */
  function RequireGuest(env: GuestEnvelope): (r: Result<Guest, McpError>)
    ensures r.Success? <==> env.guest.Some?
    ensures r.Success? ==> r.value == env.guest.value
    ensures r.Failure? ==> r.error == McpError(InternalError, MissingGuestText)
  {
    match env.guest
    case Some(g) => Success(g)
    case None => Failure(McpError(InternalError, MissingGuestText))
  }

  function ListEventsRequest(o: ListEventsOptions): Request {
    Get("/calendar/list-events", ListEventsQuery(o), true)
  }

  /** listEvents: the page as the API returned it, or makeRequest's error. */
  function ListEvents(o: ListEventsOptions, send: Request -> Transport<Page<EventSummary>>): (r: Result<Page<EventSummary>, McpError>)
    ensures r.Success? <==>
      var t := send(Get("/calendar/list-events", ListEventsQuery(o), true));
      t.Received? && IsOk(t.status) && t.json.Success?
    ensures r.Success? ==> r.value == send(Get("/calendar/list-events", ListEventsQuery(o), true)).json.value
    ensures r.Failure? ==> r.error == MakeRequest(send(ListEventsRequest(o))).error
  {
    MakeRequest(send(ListEventsRequest(o)))
  }

  function GetEventRequest(eventApiId: string): Request {
    Get("/event/get", [Param("api_id", eventApiId)], false)
  }

  /** getEvent: the event of the envelope, the fixed error for an envelope
      without one, or makeRequest's error. */
  function GetEvent(eventApiId: string, send: Request -> Transport<EventEnvelope>): (r: Result<EventDetails, McpError>)
    ensures r.Success? <==>
      var t := send(GetEventRequest(eventApiId));
      t.Received? && IsOk(t.status) && t.json.Success? && t.json.value.event.Some?
    ensures r.Success? ==> r.value == send(GetEventRequest(eventApiId)).json.value.event.value
    ensures MakeRequest(send(GetEventRequest(eventApiId))).Success? && r.Failure? ==>
      r.error == McpError(InternalError, MissingEventText)
    ensures MakeRequest(send(GetEventRequest(eventApiId))).Failure? ==>
      r == Failure(MakeRequest(send(GetEventRequest(eventApiId))).error)
  {
    match MakeRequest(send(GetEventRequest(eventApiId)))
    case Failure(e) => Failure(e)
    case Success(env) => RequireEvent(env)
  }

  function EventGuestsRequest(eventApiId: string, o: GuestPageOptions): Request {
    Get("/event/get-guests", EventGuestsQuery(eventApiId, o), false)
  }

  /** getEventGuests: the page as the API returned it, or makeRequest's error. */
  function GetEventGuests(eventApiId: string, o: GuestPageOptions, send: Request -> Transport<Page<GuestEntry>>): (r: Result<Page<GuestEntry>, McpError>)
    ensures r.Success? <==>
      var t := send(Get("/event/get-guests", EventGuestsQuery(eventApiId, o), false));
      t.Received? && IsOk(t.status) && t.json.Success?
    ensures r.Success? ==> r.value == send(Get("/event/get-guests", EventGuestsQuery(eventApiId, o), false)).json.value
    ensures r.Failure? ==> r.error == MakeRequest(send(EventGuestsRequest(eventApiId, o))).error
  {
    MakeRequest(send(EventGuestsRequest(eventApiId, o)))
  }

  /** getEventGuest: with an identifier, the guest of the envelope answered to
      the lookup, the fixed error for an envelope without one, or makeRequest's
      error; without one, InvalidParams. */
  function GetEventGuest(eventApiId: string, ident: GuestIdentifier, send: Request -> Transport<GuestEnvelope>): (r: Result<Guest, McpError>)
    ensures FirstTruthy(IdentifierPriority(ident)).None? ==>
      r == Failure(McpError(InvalidParams, MissingIdentifierText))
    ensures GuestLookupQuery(eventApiId, ident).Success? ==>
      var t := send(Get("/event/get-guest", GuestLookupQuery(eventApiId, ident).value, false));
      && (r.Success? <==> t.Received? && IsOk(t.status) && t.json.Success? && t.json.value.guest.Some?)
      && (r.Success? ==> r.value == t.json.value.guest.value)
      && (MakeRequest(t).Success? && r.Failure? ==> r.error == McpError(InternalError, MissingGuestText))
      && (MakeRequest(t).Failure? ==> r == Failure(MakeRequest(t).error))
  {
    GuestLookupFollowsPriority(eventApiId, ident);
    match GuestLookupQuery(eventApiId, ident)
    case Failure(e) => Failure(e)
    case Success(q) =>
      match MakeRequest(send(Get("/event/get-guest", q, false)))
      case Failure(e) => Failure(e)
      case Success(env) => RequireGuest(env)
  }

  /** A lookup without an identifier fails the same way whatever the network would
      have answered: no request is made. */
  lemma NoIdentifierNoRequest(eventApiId: string, ident: GuestIdentifier,
                              send1: Request -> Transport<GuestEnvelope>, send2: Request -> Transport<GuestEnvelope>)
    requires !Truthy(ident.guestApiId) && !Truthy(ident.email) && !Truthy(ident.proxyKey)
    ensures GetEventGuest(eventApiId, ident, send1) == GetEventGuest(eventApiId, ident, send2)
    ensures GetEventGuest(eventApiId, ident, send1).error.code == InvalidParams
  {
  }

  function UpdateEventRequest(eventApiId: string, updates: EventUpdates): Request {
    Post("/event/update", UpdateBody(eventApiId, updates), true)
  }

  /** updateEvent: the updated event of the envelope, the fixed error for an
      envelope without one, or makeRequest's error. */
  function UpdateEvent(eventApiId: string, updates: EventUpdates, send: Request -> Transport<EventEnvelope>): (r: Result<EventDetails, McpError>)
    ensures r.Success? <==>
      var t := send(UpdateEventRequest(eventApiId, updates));
      t.Received? && IsOk(t.status) && t.json.Success? && t.json.value.event.Some?
    ensures r.Success? ==> r.value == send(UpdateEventRequest(eventApiId, updates)).json.value.event.value
    ensures MakeRequest(send(UpdateEventRequest(eventApiId, updates))).Success? && r.Failure? ==>
      r.error == McpError(InternalError, MissingEventText)
    ensures MakeRequest(send(UpdateEventRequest(eventApiId, updates))).Failure? ==>
      r == Failure(MakeRequest(send(UpdateEventRequest(eventApiId, updates))).error)
  {
    match MakeRequest(send(UpdateEventRequest(eventApiId, updates)))
    case Failure(e) => Failure(e)
    case Success(env) => RequireEvent(env)
  }
}

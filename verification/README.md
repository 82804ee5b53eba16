# Lu.ma MCP server: a verified model of its core

The Lu.ma MCP server (`src/index.ts`) exposes eight tools to an MCP client:
list_events, get_all_events, get_event, get_event_guest, get_event_guests,
get_all_event_guests, get_event_summary and update_event. Under the glue that
talks to the Lu.ma HTTP API and to the MCP SDK sits a small amount of
deterministic logic. This project models that logic in Dafny and proves what it
promises:

- **The HTTP client** (`api_client.dfy`). This covers:
  - how each endpoint builds its query: the fixed parameter order and conditional inclusion of `listEvents` and `getEventGuests`, and the identifier priority of `getEventGuest`;
  - how `makeRequest` maps an HTTP status to an error message, passes on errors that are already McpErrors, and wraps everything else;
  - the envelope checks that reject a response without its `event` or `guest`.

  The network is a parameter `send` that maps a request to what the round trip produced: a status, a body text and a parsed body, or a thrown value.
- **Pagination** (`pagination.dfy`). `getAllEvents` and `getAllEventGuests` are one cursor loop, `CollectPages`, over 100-entry pages. It is proved against `Follow`, a function giving the first `fuel` steps of the page conversation.
- **Values derived for display** (`event_display.dfy`, `duration.dfy`):
  - the event type;
  - the location and meeting-link fallback chains;
  - the 500-character description truncation;
  - a guest's approval status and company;
  - the ISO 8601 duration text of `getDuration`.
- **Grouping** (`grouping.dfy`). The `reduce` that groups events by visibility or type, and guests by approval status, is modelled as a method over a map plus the order in which keys were added. It is proved to partition the list.
- **update_event** (`update_event.dfy`):
  - the field-by-field change list;
  - the gate that calls the update endpoint only when something changes and approval is not required.
- **The CallTool handler** (`dispatcher.dfy`):
  - the tool-name switch;
  - the `Unknown tool` error;
  - the outer `catch` that passes McpErrors through and wraps every other error.

`types.dfy` holds the JSON shapes the server reads. JavaScript truthiness is explicit:
- an optional string is truthy when it is present and non-empty;
- a number is truthy when it is present and non-zero;
- an object is truthy when it is present.

`strings.dfy` holds decimal numerals (`toString` and `parseInt`) and `join`.

The source repeats some logic that the model defines once. The nine `Push…Change` methods of `UpdateEvent.ChangeList` are one straight-line block of `if`s in the source, with one method per `if`. `Pagination.CollectPages` is the loop that `getAllEvents` and `getAllEventGuests` each write out, parameterised by the request builder and by the projection of entries (`entry.guest` for guests). `EventDisplay.EventTypeOf` is the rule written out five times.

## Model

| member | source | states |
|---|---|---|
| Strings.NatToStringRoundTrip | src/index.ts:179 | reading back the decimal numeral of a number gives the number |
| Strings.NatToStringInjective | src/index.ts:179 | distinct numbers have distinct numerals |
| ApiClient.CatchNetwork | src/index.ts:189-196 | an McpError is rethrown unchanged; anything else becomes an InternalError "Network error: " followed by the error's message, or "Unknown error" for a thrown value that is not an Error |
| ApiClient.StatusMessage | src/index.ts:168-180 | the three fixed texts are given exactly for 401, 404 and 429; any other status gives "API error (", its numeral, "): " and the response body verbatim |
| ApiClient.MakeRequest | src/index.ts:157-197 | success exactly for a 2xx response whose body parsed, with the parsed body. A non-2xx status gives InternalError "Lu.ma API error: " plus the status message. A thrown McpError is passed on as it is. Any other thrown value gives InternalError "Network error: " plus its message, and so does a 2xx body that fails to parse, with the parser's message |
| ApiClient.UpstreamMessageRoundTrip | src/index.ts:164-185 | every non-2xx failure message can be read back. It names 401, 404 or 429, or it carries any other status and the response body verbatim |
| ApiClient.GenericMessageParses | src/index.ts:178-179 | "API error (status): body" is read back as that status and body |
| ApiClient.ParseStatusAndBodyOf | src/index.ts:179 | the status numeral, including a negative one, and the body are recovered from "status): body" |
| ApiClient.ParseSignedNumeral | src/index.ts:179 | an optional minus sign, digits, "): " and a body are read as the signed value and the body |
| ApiClient.NetworkErrorIsNotUpstream | src/index.ts:193-196 | a network failure message is never mistaken for an upstream status failure |
| ApiClient.QueryString | src/index.ts:234 | the query string is empty exactly when there are no parameters |
| ApiClient.AppendWhen | src/index.ts:210-212 | appends the parameter exactly when its value is given |
| ApiClient.PresentContents | src/index.ts:208-232 | a parameter is sent exactly when its table entry gives that value |
| ApiClient.PresentOrder | src/index.ts:208-232 | parameters come out in table order |
| ApiClient.PresentEmpty | src/index.ts:234 | nothing is sent exactly when no entry gives a value |
| ApiClient.BuildListEventsQuery | src/index.ts:208-232 | the successive appends produce the query defined by the listEvents table |
| ApiClient.ListEventsQueryShape | src/index.ts:208-234 | each parameter is present exactly when set, in the order pagination_cursor, pagination_limit, after, before, series_mode, include_cancelled. include_cancelled=false is sent exactly when include_cancelled is false. There is no "?" exactly when nothing is set |
| ApiClient.ListEventsQueryEmpty | src/index.ts:234 | the listEvents query string is empty exactly when every option is unset, falsy or zero, and include_cancelled is undefined |
| ApiClient.ListEventsIncludeCancelled | src/index.ts:230-232 | include_cancelled=false is sent exactly when the option is false |
| ApiClient.ListEvents | src/index.ts:200-236 | GET /calendar/list-events on the public API with the listEvents query; succeeds exactly for a 2xx response whose body parsed, and returns that page unchanged; a failure is makeRequest's error, passed on |
| ApiClient.BuildEventGuestsQuery | src/index.ts:314-322 | event_api_id comes first, then the cursor when truthy, then the limit when non-zero |
| ApiClient.GetEventGuests | src/index.ts:306-325 | GET /event/get-guests with the event guests query; succeeds exactly for a 2xx response whose body parsed, and returns that page unchanged; a failure is makeRequest's error, passed on |
| ApiClient.FirstTruthy | src/index.ts:280-286 | the position of the first truthy identifier, none before it truthy; None when none is truthy |
| ApiClient.GuestLookupQuery | src/index.ts:278-291 | fails exactly when no identifier is truthy; otherwise sends event_api_id and one non-empty identifier |
| ApiClient.GuestLookupFollowsPriority | src/index.ts:278-291 | exactly one identifier is sent, the first truthy one in the order guest id, email, proxy key. With none, the result is InvalidParams with the fixed message |
| ApiClient.RequireEvent | src/index.ts:263-270 | a response without `event` is an InternalError "Invalid API response: missing event data"; otherwise it gives the event |
| ApiClient.RequireGuest | src/index.ts:296-303 | a response without `guest` is an InternalError "Invalid API response: missing guest data"; otherwise it gives the guest |
| ApiClient.GetEvent | src/index.ts:257-271 | succeeds exactly when the request got a 2xx response with a parsed body holding an event, and returns that event. A parsed 2xx body without an event gives InternalError "Invalid API response: missing event data"; a failed request gives makeRequest's error |
| ApiClient.GetEventGuest | src/index.ts:273-304 | with no identifier it fails with InvalidParams. Otherwise it succeeds exactly when the lookup request got a 2xx response with a parsed body holding a guest, and returns that guest. A parsed 2xx body without a guest gives InternalError "Invalid API response: missing guest data"; a failed request gives makeRequest's error |
| ApiClient.NoIdentifierNoRequest | src/index.ts:286-293 | without an identifier the result does not depend on the network: no request is made |
| ApiClient.UpdateEvent | src/index.ts:347-364 | succeeds exactly when the update got a 2xx response with a parsed body holding an event, and returns that event. A parsed 2xx body without an event gives InternalError "Invalid API response: missing event data"; a failed request gives makeRequest's error |
| Pagination.FollowFuelMonotone | src/index.ts:243-252 | once the loop has finished, more steps change nothing |
| Pagination.FinishedWalksAgree | src/index.ts:243-252 | every finished run of the loop from the same cursor is the same run |
| Pagination.WalkLengths | src/index.ts:243-252 | one request per page received, plus one for a failure; the first request carries the starting cursor |
| Pagination.WalkAnswers | src/index.ts:244-249 | page k is the answer to request k |
| Pagination.WalkLinks | src/index.ts:250-251 | every later request carries the previous page's next_cursor, and that page said has_more |
| Pagination.WalkCollects | src/index.ts:243-254 | a collecting run stops right after the first page without has_more, and returns the entries of all its pages in arrival order |
| Pagination.WalkFails | src/index.ts:244-247 | a failing run stops at the first failed request and reports that failure |
| Pagination.LastPageEndsLoop | src/index.ts:250 | a page with has_more false ends the loop whatever its cursor |
| Pagination.CollectPages | src/index.ts:238-255 | the loop sends exactly the requests of the finished run and returns its outcome |
| Pagination.EventsPageRequests | src/index.ts:244-247 | the first events request has no cursor and limit 100; a later one passes the previous cursor when it is non-empty |
| Pagination.EventsPageQuery | src/index.ts:244-247 | only the truthy cursor and the limit "100" are set |
| Pagination.GetAllEvents | src/index.ts:238-255 | getAllEvents returns every event of the finished run, in page order, after exactly its requests |
| Pagination.TwoPagesCollected | src/index.ts:243-254 | two linked pages give their three events in order after two requests |
| Pagination.MissingCursorLoops | src/index.ts:250-251 | has_more without a non-empty next_cursor repeats the first request, so the loop never finishes within any number of steps |
| Pagination.MissingCursorNeverFinishes | src/index.ts:243-252 | such a server makes getAllEvents run forever |
| Pagination.GuestsPageRequestsShape | src/index.ts:333-336 | the first guests request names the event and asks for 100; a later one adds the previous cursor when non-empty |
| Pagination.GuestsPageQuery | src/index.ts:314-322 | the guests page query is event_api_id, the truthy cursor, then limit "100" |
| Pagination.GetAllEventGuests | src/index.ts:327-345 | getAllEventGuests returns the `.guest` of every entry of the finished run, in page order, after exactly its requests |
| EventDisplay.ParseTypeName | src/index.ts:665-671 | a parsed type name is the name of that type |
| EventDisplay.TypeNameRoundTrip | src/index.ts:665-671 | every type's name parses back to that type |
| EventDisplay.TypeNameInjective | src/index.ts:665-671 | distinct types have distinct names |
| EventDisplay.EventTypeOf | src/index.ts:794-799 | hybrid, online, in_person and unknown each hold exactly when their combination of meeting URL and address holds |
| EventDisplay.EventTypeRecordsBoth | src/index.ts:724-730 | the type records whether the event is joinable online and whether it has an address; two events share a type exactly when they agree on both |
| EventDisplay.EmptyUrlIsNoMeeting | src/index.ts:1001-1006 | an empty meeting URL counts as none |
| EventDisplay.Or | src/index.ts:713 | `a \|\| fallback` is the value when it is a non-empty string, the fallback otherwise |
| EventDisplay.SummaryLocation | src/index.ts:1028-1033 | the city, else the street address, else "Not specified"; "Not specified" without an address object |
| EventDisplay.ListedCity | src/index.ts:752 | the city when it is non-empty, else "Not specified" |
| EventDisplay.LocationOnlyWhenLocated | src/index.ts:1028-1033 | a summary location is shown only for a located event type, and a listed city then agrees with it |
| EventDisplay.LocationTextOf | src/index.ts:783-791 | without an address object there is no location information; otherwise the address, city and country each have their own fallback |
| EventDisplay.MeetingLink | src/index.ts:844 | the meeting URL, else the Zoom URL, else "No online meeting" |
| EventDisplay.MeetingLinkMatchesType | src/index.ts:844 | a meeting link is shown exactly for events whose type is joinable online |
| EventDisplay.Truncate | src/index.ts:829 | a short text is unchanged; a longer one keeps its first n characters followed by "..." |
| EventDisplay.TruncateIdempotent | src/index.ts:829 | truncating twice is truncating once |
| EventDisplay.DescriptionText | src/index.ts:829 | the description truncated at 500, or "No description provided" |
| EventDisplay.StatusOf | src/index.ts:954 | "pending" exactly when the status is missing, empty or "pending"; otherwise the status |
| EventDisplay.FindAnswer | src/index.ts:966 | the first answer of the given question type, or None exactly when there is none |
| EventDisplay.CompanyOf | src/index.ts:966 | the first company answer when it is non-empty, else "Not specified" |
| EventDisplay.FirstCompanyAnswerWins | src/index.ts:966 | an empty first company answer hides a later one |
| Duration.FindP | src/index.ts:805 | the unanchored pattern matches at the first `P`; None exactly when there is no `P` |
| Duration.Group | src/index.ts:805 | a `(\d+)X` group captures a non-empty digit run followed by its designator, or captures nothing and consumes nothing |
| Duration.MatchDuration | src/index.ts:805-806 | the match is null exactly when the string has no `P`; otherwise every capture is a numeral |
| Duration.Component | src/index.ts:809-811 | a component is shown exactly when its count is captured and positive, as the digits, a space and the unit, with an "s" exactly when the count is more than one |
| Duration.DurationParts | src/index.ts:808-811 | one component for each positive count among days, hours and minutes, in that order, each a digit-led component text |
| Duration.DurationText | src/index.ts:812 | never empty; "Unknown duration" when no component is shown |
| Duration.GetDuration | src/index.ts:802-818 | when a duration with a `P` is given, the text of its match; else hours between start and end when an end is given; else "Not specified" |
| Duration.DurationTextUnknown | src/index.ts:808-812 | "Unknown duration" exactly when no day, hour or minute count is positive; otherwise the shown components joined by ", " |
| Duration.IgnoredComponents | src/index.ts:807-811 | years, months and seconds never change the text |
| Duration.Format | src/index.ts:805 | a written duration starts with `P` |
| Duration.FormatRoundTrip | src/index.ts:805 | reading back a duration written with the pattern's designators gives the same counts |
| Duration.OneDayElevenHours | src/index.ts:805-812 | "P0Y0M1DT11H0M0S" reads as "1 day, 11 hours" |
| Grouping.FirstOccurrences | src/index.ts:719 | the distinct keys, each once |
| Grouping.FirstOccurrencesOrder | src/index.ts:719-720 | groups are listed in the order their keys first occur |
| Grouping.Members | src/index.ts:714-715 | every element of a group has the group's key |
| Grouping.GroupBy | src/index.ts:712-717 | the keys in first-occurrence order, one group per key, each group the elements with that key in their original order |
| Grouping.MembersCount | src/index.ts:719-720 | a group's size is the number of elements with its key |
| Grouping.GroupsPartition | src/index.ts:953-958 | the group sizes add up to the length of the list |
| Grouping.VisibilityKey | src/index.ts:713 | a non-empty visibility is itself the key; "public" exactly when the visibility is missing, empty or "public" |
| Grouping.TypeKey | src/index.ts:734 | the key names the event's type |
| Grouping.Counts | src/index.ts:719-720 | what the figures mean is stated by `Grouping.CountGroups` |
| Grouping.CountGroups | src/index.ts:712-720 | the summary figures list each key once in first-occurrence order; each is the number of elements with that key and positive, and they add up to the length of the list |
| Grouping.CountsOfGroupBy | src/index.ts:1040-1049 | the counts add up to the number of elements, every occurring key gets one, and each count is that key's number of elements |
| UpdateEvent.AllFieldsListed | src/index.ts:1101-1138 | every field is checked |
| UpdateEvent.Rule | src/index.ts:1101-1138 | the condition under which each field gets a line; defined here and characterised by `ChangedFieldsMeaning` |
| UpdateEvent.ChangedFields | src/index.ts:1099-1138 | the lines of the fields whose rule holds, in field order; characterised by `ChangedFieldsMeaning`, `ChangedFieldsOrdered` and `NoChangesMeansNoRule` |
| UpdateEvent.ChangeOf | src/index.ts:1101-1138 | a field's line belongs to that field |
| UpdateEvent.ChangedFieldsUnrolled | src/index.ts:1101-1138 | the change list is the nine fields' lines in order |
| UpdateEvent.ChangeList | src/index.ts:1099-1138 | the pushes build the change list |
| UpdateEvent.PushNameChange | src/index.ts:1101-1103 | adds a line exactly under the name rule |
| UpdateEvent.PushDescriptionChange | src/index.ts:1104-1108 | adds a line exactly under the description rule |
| UpdateEvent.PushStartChange | src/index.ts:1109-1111 | adds a line exactly under the start rule |
| UpdateEvent.PushEndChange | src/index.ts:1112-1116 | adds a line exactly under the end rule |
| UpdateEvent.PushTimezoneChange | src/index.ts:1117-1119 | adds a line exactly under the timezone rule |
| UpdateEvent.PushVisibilityChange | src/index.ts:1120-1122 | adds a line exactly under the visibility rule |
| UpdateEvent.PushTypeChange | src/index.ts:1123-1130 | adds a line exactly when a type is given and differs from the derived current type |
| UpdateEvent.PushMeetingUrlChange | src/index.ts:1131-1135 | adds a line exactly under the meeting URL rule |
| UpdateEvent.PushLocationChange | src/index.ts:1136-1138 | adds a line exactly when an address object is given |
| UpdateEvent.CollectSound | src/index.ts:1101-1138 | every line comes from a field whose rule holds and carries its values |
| UpdateEvent.CollectComplete | src/index.ts:1101-1138 | every field whose rule holds has its line |
| UpdateEvent.CollectOrdered | src/index.ts:1101-1138 | lines follow field order |
| UpdateEvent.ChangedFieldsMeaning | src/index.ts:1101-1138 | a field has a line exactly when its own rule holds, and each line carries that field's current and requested values |
| UpdateEvent.ChangedFieldsOrdered | src/index.ts:1099-1138 | the lines are in field order, at most one per field |
| UpdateEvent.NoChangesMeansNoRule | src/index.ts:1140-1149 | the list is empty exactly when no field's rule holds |
| UpdateEvent.UnlistedFields | src/index.ts:1077-1093 | cover URL, coordinates and Zoom URL never add a line |
| UpdateEvent.ApprovalRequired | src/index.ts:1077 | approval is required unless `require_approval` is `false` or `null`; a left-out value takes the default `true` |
| UpdateEvent.UpdateEventTool | src/index.ts:1076-1198 | a failed fetch is passed on after one request. With no changes, or with approval required, only the fetch is made. Otherwise the update is sent with api_id plus the updates, and a failure is wrapped "Failed to update event: ". The update request is made exactly when the fetch succeeded, the list is non-empty and `require_approval` is `false` or `null` |
| Dispatcher.ParseTool | src/index.ts:637-1206 | a recognised name is the name of that tool |
| Dispatcher.ToolNameRoundTrip | src/index.ts:637-1206 | every tool is reached by its own name, and no two tools share a name |
| Dispatcher.CatchTool | src/index.ts:1208-1216 | an McpError is rethrown unchanged; anything else becomes InternalError "Tool execution failed: " followed by its message |
| Dispatcher.CatchToolIdempotent | src/index.ts:1208-1216 | catching the catch's own error changes nothing |
| Dispatcher.CallTool | src/index.ts:636-1216 | an unknown name gives MethodNotFound "Unknown tool: name"; a known one gives its handler's text, or its failure through the outer catch |
| Dispatcher.CallToolRunsOnlyItsHandler | src/index.ts:637-1206 | the answer for a tool's name depends only on that tool's handler |
| Dispatcher.UnknownToolRunsNothing | src/index.ts:1202-1206 | an unknown name runs no handler and always gives MethodNotFound |
| Dispatcher.UpstreamFailureReachesClient | src/index.ts:1208-1211 | a failed API status reaches the client as an InternalError from which the upstream failure can still be read |
| Dispatcher.OtherFailuresAreWrapped | src/index.ts:1212-1215 | a non-McpError failure is wrapped and never looks like an upstream failure |

## Left out

- The HTTP transport of `makeRequest` is not modelled: URL and header assembly, `fetch`, `response.text()` and `response.json()`, percent-encoding in `URLSearchParams`, and the base-URL choice beyond a flag on the request (src/index.ts:149-162, 188). Status, body text and parsed body are inputs.
- The MCP SDK server, stdio transport, tool schema listing and `main` are not modelled. They are a foreign library and process plumbing.
- Reading `LUMA_API_KEY` from the environment and the lazy client initialisation are not modelled. They are environment access.
- Date handling is left out. This covers `new Date(...)`, `toLocaleString`, the chronological sort of get_all_events, and the `Math.round` of a floating-point hour difference. `Duration.GetDuration` only records that the hours fallback applies and which dates it uses.
- The Markdown text of every tool's answer is left out; the model covers the values that go into it. This includes the wording of each change line and the 50-character description preview inside the description line. `UpdateEvent.Change` carries the raw current and requested values instead. The tool handlers are a parameter of `Dispatcher.CallTool`.
- The get_event_summary handler and the list-formatting parts of the other handlers are left out as compositions. These include numbering, `formatAnswers` and the `include_guest_details` switch. Their pieces (`GetEvent`, `GetAllEventGuests`, `SummaryLocation`, `DurationText`, `GroupBy` with `StatusOf`) are modelled.
- McpError message prefix: the SDK's own "MCP error <code>: " prefix on `McpError.message` is foreign code. `McpError.message` is the text given to the constructor.
- Pagination.CollectPages: termination is a precondition (`Finishes`), because the source loops for as long as the server says `has_more`. `MissingCursorNeverFinishes` shows that a real server can violate it.
- `Strings.DecimalValue` models `parseInt` and `toString` on unbounded integers. JavaScript number precision for very long numerals is not modelled.
- `Strings.NatToString` does not model the exponent notation JavaScript uses for very large numbers.
- Lengths are counted in `char`s, not UTF-16 code units. This affects `EventDisplay.Truncate` on text outside the basic plane.
- `Grouping.GroupBy` keeps keys in insertion order. It does not model that `Object.entries` lists integer-like keys such as "1" first, in numeric order.
- JSON `null` and a missing field are both `None` in the event fields, the update fields and the listEvents options. Both are falsy, and the truthiness tests treat them the same. The `!== undefined` tests do not: a `null` description, end or meeting URL in update_event would count as given, and a `null` include_cancelled in listEvents would make `toString` throw; the model treats each as absent. `require_approval` is the exception the model does capture: `UpdateEvent.ApprovalArg` tells a left-out value, which takes the default, from `null`, which is falsy.
- JSON values of a type other than the schema's are not modelled. For example, a string `require_approval` is truthy in the source.
- `UpdateEvent.UpdateEventTool` returns structured outcomes, not the text of the three answers.
- The network `send` is a function of the request, so the same request always gets the same answer. A server whose answers change over time is not modelled. `Pagination.MissingCursorNeverFinishes` depends on this: a server that repeats the first request's page keeps the loop going.
- `pagination_limit` is a JavaScript number and the model uses an integer. A fractional limit such as 12.5 would be sent as "12.5". The `toString` of non-integers is not modelled.
- The reducers index a plain `{}` object. A key such as "constructor" or "__proto__" reads an inherited value, and the following `push` throws a TypeError, which the outer catch wraps. `Grouping.GroupBy` uses a map without inherited keys and does not model this.
- `response.json()` can yield `null`. Reading `response.event` or `response.guest` on it then throws a TypeError outside makeRequest's `try`, and the outer catch wraps it as "Tool execution failed: ...". The model's parsed body is always an envelope.

/** The CallTool handler: the tool name selects a handler, and whatever the
    handler throws is turned into an McpError on its way out. The handlers
    themselves are a parameter `run`; what they compute is modelled in the other
    modules, their text templates are not. */
module Dispatcher {
  import opened LumaTypes
  import opened Strings
  import ApiClient

  datatype Tool =
    | ListEventsTool
    | GetAllEventsTool
    | GetEventTool
    | GetEventGuestTool
    | GetEventGuestsTool
    | GetAllEventGuestsTool
    | GetEventSummaryTool
    | UpdateEventTool

  /** The name each tool is called by. */
  function ToolName(t: Tool): string {
    match t
    case ListEventsTool => "list_events"
    case GetAllEventsTool => "get_all_events"
    case GetEventTool => "get_event"
    case GetEventGuestTool => "get_event_guest"
    case GetEventGuestsTool => "get_event_guests"
    case GetAllEventGuestsTool => "get_all_event_guests"
    case GetEventSummaryTool => "get_event_summary"
    case UpdateEventTool => "update_event"
  }

  /** The `switch (name)`: the tool whose case label is `name`, if any. */
  function ParseTool(name: string): (r: Option<Tool>)
    ensures r.Some? ==> ToolName(r.value) == name
  {
    if name == "list_events" then Some(ListEventsTool)
    else if name == "get_all_events" then Some(GetAllEventsTool)
    else if name == "get_event" then Some(GetEventTool)
    else if name == "get_event_guest" then Some(GetEventGuestTool)
    else if name == "get_event_guests" then Some(GetEventGuestsTool)
    else if name == "get_all_event_guests" then Some(GetAllEventGuestsTool)
    else if name == "get_event_summary" then Some(GetEventSummaryTool)
    else if name == "update_event" then Some(UpdateEventTool)
    else None
  }

  /** Every tool is reached by its own name, so no two tools share a name. */
  lemma ToolNameRoundTrip(t: Tool, u: Tool)
    ensures ParseTool(ToolName(t)) == Some(t)
    ensures ToolName(t) == ToolName(u) ==> t == u
  {
  }

  const UnknownToolPrefix := "Unknown tool: "
  const ToolFailedPrefix := "Tool execution failed: "

  /** The outer `catch`: an McpError is rethrown as it is, anything else becomes
      an InternalError "Tool execution failed: ...". */
  function CatchTool(x: Exception): (e: McpError)
    ensures x.Mcp? ==> e == x.mcp
    ensures !x.Mcp? ==> e.code == InternalError && StartsWith(e.message, ToolFailedPrefix)
    ensures !x.Mcp? ==> e.message[|ToolFailedPrefix|..] == MessageOf(x)
  {
    if x.Mcp? then x.mcp
    else
      var m := ToolFailedPrefix + MessageOf(x);
      assert m[..|ToolFailedPrefix|] == ToolFailedPrefix;
      McpError(InternalError, m)
  }

  /** Catching what the catch itself threw changes nothing. */
  lemma CatchToolIdempotent(x: Exception)
    ensures CatchTool(Mcp(CatchTool(x))) == CatchTool(x)
  {
  }

  /** The `try { switch (name) ... } catch`: the text the handler returns, or the
      error the client receives. */
  function CallTool(name: string, run: Tool -> Result<string, Exception>): (r: Result<string, McpError>)
    ensures ParseTool(name).None? ==> r == Failure(McpError(MethodNotFound, UnknownToolPrefix + name))
    ensures ParseTool(name).Some? ==>
      var outcome := run(ParseTool(name).value);
      && (r.Success? <==> outcome.Success?)
      && (r.Success? ==> r.value == outcome.value)
      && (r.Failure? ==> r.error == CatchTool(outcome.error))
  {
    var attempt: Result<string, Exception> :=
      match ParseTool(name)
      case None => Failure(Mcp(McpError(MethodNotFound, UnknownToolPrefix + name)))
      case Some(t) => run(t);
    match attempt
    case Success(text) => Success(text)
    case Failure(x) => Failure(CatchTool(x))
  }

  /** A tool's handler is run for its own name and for no other: two handler
      tables that agree on a tool give the same answer for its name. */
  lemma CallToolRunsOnlyItsHandler(t: Tool, run: Tool -> Result<string, Exception>,
                                   other: Tool -> Result<string, Exception>)
    requires run(t) == other(t)
    ensures CallTool(ToolName(t), run) == CallTool(ToolName(t), other)
  {
    ToolNameRoundTrip(t, t);
  }

  /** An unknown name never reaches a handler: the answer is the same whatever
      the handlers do. */
  lemma UnknownToolRunsNothing(name: string, run: Tool -> Result<string, Exception>,
                               other: Tool -> Result<string, Exception>)
    requires ParseTool(name).None?
    ensures CallTool(name, run) == CallTool(name, other)
    ensures CallTool(name, run).error.code == MethodNotFound
  {
  }

  /** A failed API request reaches the client as makeRequest reported it: for a
      non-2xx status the client can still read which upstream failure it was. */
  lemma UpstreamFailureReachesClient<J>(t: Tool, run: Tool -> Result<string, Exception>,
                                        transport: ApiClient.Transport<J>)
    requires transport.Received? && !ApiClient.IsOk(transport.status)
    requires ApiClient.MakeRequest(transport).Failure?
    requires run(t) == Failure(Mcp(ApiClient.MakeRequest(transport).error))
    ensures CallTool(ToolName(t), run).Failure?
    ensures CallTool(ToolName(t), run).error.code == InternalError
    ensures ApiClient.ParseUpstream(CallTool(ToolName(t), run).error.message) ==
      Some(ApiClient.UpstreamOf(transport.status, transport.text))
  {
    ToolNameRoundTrip(t, t);
    ApiClient.UpstreamMessageRoundTrip(transport);
  }

  /** An error that is not an McpError is never passed off as an upstream
      failure. */
  lemma OtherFailuresAreWrapped(t: Tool, run: Tool -> Result<string, Exception>)
    requires run(t).Failure? && !run(t).error.Mcp?
    ensures CallTool(ToolName(t), run) ==
      Failure(McpError(InternalError, ToolFailedPrefix + MessageOf(run(t).error)))
    ensures ApiClient.ParseUpstream(CallTool(ToolName(t), run).error.message) == None
  {
    ToolNameRoundTrip(t, t);
    var m := CallTool(ToolName(t), run).error.message;
    assert m[0] == 'T' && ApiClient.ApiErrorPrefix[0] == 'L';
    ApiClient.DiffersAtFirst(m, ApiClient.ApiErrorPrefix);
  }
}

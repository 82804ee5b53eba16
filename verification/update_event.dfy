/** The update_event tool: fetch the event, list what the arguments would
    change field by field, and call the update endpoint only when something
    changes and approval is not required. */
module UpdateEvent {
  import opened LumaTypes
  import opened ApiClient
  import opened EventDisplay

  /** The fields the change list looks at, in the order it looks at them. */
  datatype Field = NameField | DescriptionField | StartField | EndField | TimezoneField
                 | VisibilityField | TypeField | MeetingUrlField | LocationField

  const FieldOrder: seq<Field> := [NameField, DescriptionField, StartField, EndField, TimezoneField,
                                   VisibilityField, TypeField, MeetingUrlField, LocationField]

  function Rank(f: Field): nat {
    match f
    case NameField => 0
    case DescriptionField => 1
    case StartField => 2
    case EndField => 3
    case TimezoneField => 4
    case VisibilityField => 5
    case TypeField => 6
    case MeetingUrlField => 7
    case LocationField => 8
  }

  /** One line of the change list: the field's current value and the value
      asked for (the Markdown wording of the line is not modelled). */
  datatype Change =
    | Renamed(fromName: string, toName: string)
    | Redescribed(fromDescription: Option<string>, toDescription: string)
    | StartMoved(fromStart: string, toStart: string)
    | EndMoved(fromEnd: Option<string>, toEnd: string)
    | TimezoneChanged(fromTimezone: string, toTimezone: string)
    | VisibilityChanged(fromVisibility: Option<string>, toVisibility: string)
    | Retyped(fromType: string, toType: string)
    | MeetingUrlChanged(fromUrl: Option<string>, toUrl: string)
    | LocationUpdated

  function FieldOf(ch: Change): Field {
    match ch
    case Renamed(_, _) => NameField
    case Redescribed(_, _) => DescriptionField
    case StartMoved(_, _) => StartField
    case EndMoved(_, _) => EndField
    case TimezoneChanged(_, _) => TimezoneField
    case VisibilityChanged(_, _) => VisibilityField
    case Retyped(_, _) => TypeField
    case MeetingUrlChanged(_, _) => MeetingUrlField
    case LocationUpdated => LocationField
  }

  /** Each field's own condition for a line in the change list. Name, start,
      timezone and visibility need a non-empty value that differs from the
      current one; description, end and meeting URL need any given value that
      differs; the type needs a non-empty value that differs from the type derived
      from the current event; an address object always counts. */
  predicate Rule(f: Field, current: EventDetails, u: EventUpdates) {
    match f
    case NameField => Truthy(u.name) && u.name.value != current.name
    case DescriptionField => u.description.Some? && u.description != current.description
    case StartField => Truthy(u.startAt) && u.startAt.value != current.startAt
    case EndField => u.endAt.Some? && u.endAt != current.endAt
    case TimezoneField => Truthy(u.timezone) && u.timezone.value != current.timezone
    case VisibilityField => Truthy(u.visibility) && u.visibility != current.visibility
    case TypeField => Truthy(u.eventType) && u.eventType.value != TypeName(EventTypeOf(current))
    case MeetingUrlField => u.meetingUrl.Some? && u.meetingUrl != current.meetingUrl
    case LocationField => u.geoAddressJson.Some?
  }

  /** Every field is looked at. */
  lemma AllFieldsListed(f: Field)
    ensures f in FieldOrder
  {
    assert FieldOrder[Rank(f)] == f;
  }

  /** The line a field contributes when its rule holds. */
  function ChangeOf(f: Field, current: EventDetails, u: EventUpdates): (ch: Change)
    requires Rule(f, current, u)
    ensures FieldOf(ch) == f
  {
    match f
    case NameField => Renamed(current.name, u.name.value)
    case DescriptionField => Redescribed(current.description, u.description.value)
    case StartField => StartMoved(current.startAt, u.startAt.value)
    case EndField => EndMoved(current.endAt, u.endAt.value)
    case TimezoneField => TimezoneChanged(current.timezone, u.timezone.value)
    case VisibilityField => VisibilityChanged(current.visibility, u.visibility.value)
    case TypeField => Retyped(TypeName(EventTypeOf(current)), u.eventType.value)
    case MeetingUrlField => MeetingUrlChanged(current.meetingUrl, u.meetingUrl.value)
    case LocationField => LocationUpdated
  }

  /** The line a field adds to the change list, if any. */
  function FieldLine(f: Field, current: EventDetails, u: EventUpdates): seq<Change> {
    if Rule(f, current, u) then [ChangeOf(f, current, u)] else []
  }

  function Collect(fields: seq<Field>, current: EventDetails, u: EventUpdates): seq<Change> {
    if fields == [] then []
    else Collect(fields[..|fields| - 1], current, u) + FieldLine(fields[|fields| - 1], current, u)
  }

  /** The change list: the line of each field whose rule holds, in field order. */
  function ChangedFields(current: EventDetails, u: EventUpdates): seq<Change> {
    Collect(FieldOrder, current, u)
  }

  lemma CollectStep(fields: seq<Field>, k: nat, current: EventDetails, u: EventUpdates)
    requires k < |fields|
    ensures Collect(fields[..k + 1], current, u) == Collect(fields[..k], current, u) + FieldLine(fields[k], current, u)
  {
    assert fields[..k + 1][..k] == fields[..k];
  }

  /** The lines of the first three fields. */
  lemma FirstThreeInOrder(current: EventDetails, u: EventUpdates)
    ensures Collect(FieldOrder[..3], current, u) ==
      FieldLine(NameField, current, u) + FieldLine(DescriptionField, current, u) + FieldLine(StartField, current, u)
  {
    var fs := FieldOrder;
    assert Collect(fs[..1], current, u) == FieldLine(NameField, current, u) by {
      assert fs[..1][..0] == [];
    }
    CollectStep(fs, 1, current, u);
    CollectStep(fs, 2, current, u);
  }

  /** The lines of the first six fields. */
  lemma FirstSixInOrder(current: EventDetails, u: EventUpdates)
    ensures Collect(FieldOrder[..6], current, u) ==
      FieldLine(NameField, current, u) + FieldLine(DescriptionField, current, u) + FieldLine(StartField, current, u) +
      FieldLine(EndField, current, u) + FieldLine(TimezoneField, current, u) + FieldLine(VisibilityField, current, u)
  {
    FirstThreeInOrder(current, u);
    CollectStep(FieldOrder, 3, current, u);
    CollectStep(FieldOrder, 4, current, u);
    CollectStep(FieldOrder, 5, current, u);
  }

  /** The change list written out field by field. */
  lemma ChangedFieldsUnrolled(current: EventDetails, u: EventUpdates)
    ensures ChangedFields(current, u) ==
      FieldLine(NameField, current, u) + FieldLine(DescriptionField, current, u) + FieldLine(StartField, current, u) +
      FieldLine(EndField, current, u) + FieldLine(TimezoneField, current, u) + FieldLine(VisibilityField, current, u) +
      FieldLine(TypeField, current, u) + FieldLine(MeetingUrlField, current, u) + FieldLine(LocationField, current, u)
  {
    FirstSixInOrder(current, u);
    CollectStep(FieldOrder, 6, current, u);
    CollectStep(FieldOrder, 7, current, u);
    CollectStep(FieldOrder, 8, current, u);
    assert FieldOrder[..9] == FieldOrder;
  }

  /** The sequence of checks of update_event, one per field, each appending a
      line to the list when its condition holds. */
  method ChangeList(current: EventDetails, u: EventUpdates) returns (changes: seq<Change>)
    ensures changes == ChangedFields(current, u)
  {
    changes := [];
    changes := PushNameChange(current, u, changes);
    changes := PushDescriptionChange(current, u, changes);
    changes := PushStartChange(current, u, changes);
    changes := PushEndChange(current, u, changes);
    changes := PushTimezoneChange(current, u, changes);
    changes := PushVisibilityChange(current, u, changes);
    changes := PushTypeChange(current, u, changes);
    changes := PushMeetingUrlChange(current, u, changes);
    changes := PushLocationChange(current, u, changes);
    assert [] + FieldLine(NameField, current, u) == FieldLine(NameField, current, u);
    ChangedFieldsUnrolled(current, u);
  }

  /** A name line when the requested name is non-empty and differs from the current one. */
  method PushNameChange(current: EventDetails, u: EventUpdates, changes: seq<Change>) returns (r: seq<Change>)
    ensures r == changes + FieldLine(NameField, current, u)
  {
    r := changes;
    if Truthy(u.name) && u.name.value != current.name {
      r := r + [Renamed(current.name, u.name.value)];
    }
  }

  /** A description line when a description is given and differs from the current one. */
  method PushDescriptionChange(current: EventDetails, u: EventUpdates, changes: seq<Change>) returns (r: seq<Change>)
    ensures r == changes + FieldLine(DescriptionField, current, u)
  {
    r := changes;
    if u.description.Some? && u.description != current.description {
      r := r + [Redescribed(current.description, u.description.value)];
    }
  }

  /** A start line when the requested start is non-empty and differs from the current one. */
  method PushStartChange(current: EventDetails, u: EventUpdates, changes: seq<Change>) returns (r: seq<Change>)
    ensures r == changes + FieldLine(StartField, current, u)
  {
    r := changes;
    if Truthy(u.startAt) && u.startAt.value != current.startAt {
      r := r + [StartMoved(current.startAt, u.startAt.value)];
    }
  }

  /** An end line when an end is given and differs from the current one. */
  method PushEndChange(current: EventDetails, u: EventUpdates, changes: seq<Change>) returns (r: seq<Change>)
    ensures r == changes + FieldLine(EndField, current, u)
  {
    r := changes;
    if u.endAt.Some? && u.endAt != current.endAt {
      r := r + [EndMoved(current.endAt, u.endAt.value)];
    }
  }

  /** A timezone line when the requested timezone is non-empty and differs from the current one. */
  method PushTimezoneChange(current: EventDetails, u: EventUpdates, changes: seq<Change>) returns (r: seq<Change>)
    ensures r == changes + FieldLine(TimezoneField, current, u)
  {
    r := changes;
    if Truthy(u.timezone) && u.timezone.value != current.timezone {
      r := r + [TimezoneChanged(current.timezone, u.timezone.value)];
    }
  }

  /** A visibility line when the requested visibility is non-empty and differs from the current one. */
  method PushVisibilityChange(current: EventDetails, u: EventUpdates, changes: seq<Change>) returns (r: seq<Change>)
    ensures r == changes + FieldLine(VisibilityField, current, u)
  {
    r := changes;
    if Truthy(u.visibility) && u.visibility != current.visibility {
      r := r + [VisibilityChanged(current.visibility, u.visibility.value)];
    }
  }

  /** A type line when a type is given and differs from the type derived from
      the current event. */
  method PushTypeChange(current: EventDetails, u: EventUpdates, changes: seq<Change>) returns (r: seq<Change>)
    ensures r == changes + FieldLine(TypeField, current, u)
  {
    r := changes;
    if Truthy(u.eventType) {
      var currentType := TypeName(EventTypeOf(current));
      if u.eventType.value != currentType {
        r := r + [Retyped(currentType, u.eventType.value)];
      }
    }
  }

  /** A meeting URL line when a meeting URL is given and differs from the current one. */
  method PushMeetingUrlChange(current: EventDetails, u: EventUpdates, changes: seq<Change>) returns (r: seq<Change>)
    ensures r == changes + FieldLine(MeetingUrlField, current, u)
  {
    r := changes;
    if u.meetingUrl.Some? && u.meetingUrl != current.meetingUrl {
      r := r + [MeetingUrlChanged(current.meetingUrl, u.meetingUrl.value)];
    }
  }

  /** A location line when an address object is given. */
  method PushLocationChange(current: EventDetails, u: EventUpdates, changes: seq<Change>) returns (r: seq<Change>)
    ensures r == changes + FieldLine(LocationField, current, u)
  {
    r := changes;
    if u.geoAddressJson.Some? {
      r := r + [LocationUpdated];
    }
  }

  // ---------------------------------------------------------------------------
  // What the change list says

  /** Every line comes from a field whose rule holds, and carries that field's
      current and requested values. */
  lemma {:induction false} CollectSound(fields: seq<Field>, current: EventDetails, u: EventUpdates, ch: Change)
    requires ch in Collect(fields, current, u)
    ensures FieldOf(ch) in fields && Rule(FieldOf(ch), current, u)
    ensures ch == ChangeOf(FieldOf(ch), current, u)
  {
    var init := fields[..|fields| - 1];
    assert fields == init + [fields[|fields| - 1]];
    if ch !in FieldLine(fields[|fields| - 1], current, u) {
      CollectSound(init, current, u, ch);
    }
  }

  /** Every field whose rule holds has its line. */
  lemma {:induction false} CollectComplete(fields: seq<Field>, current: EventDetails, u: EventUpdates, f: Field)
    requires f in fields && Rule(f, current, u)
    ensures ChangeOf(f, current, u) in Collect(fields, current, u)
  {
    var init := fields[..|fields| - 1];
    assert fields == init + [fields[|fields| - 1]];
    if fields[|fields| - 1] != f {
      CollectComplete(init, current, u, f);
    }
  }

  /** Lines in strictly increasing field order, so at most one per field. */
  predicate InFieldOrder(cs: seq<Change>) {
    forall i, j :: 0 <= i < j < |cs| ==> Rank(FieldOf(cs[i])) < Rank(FieldOf(cs[j]))
  }

  /** A line for a later field may follow lines in field order. */
  lemma InFieldOrderSnoc(cs: seq<Change>, ch: Change)
    requires InFieldOrder(cs)
    requires forall c :: c in cs ==> Rank(FieldOf(c)) < Rank(FieldOf(ch))
    ensures InFieldOrder(cs + [ch])
  {
    var ds := cs + [ch];
    forall i, j | 0 <= i < j < |ds|
      ensures Rank(FieldOf(ds[i])) < Rank(FieldOf(ds[j]))
    {
      assert ds[i] == cs[i] && cs[i] in cs;
      if j < |cs| {
        assert ds[j] == cs[j];
      }
    }
  }

  /** The lines follow the order of the fields. */
  lemma {:induction false} CollectOrdered(fields: seq<Field>, current: EventDetails, u: EventUpdates)
    requires forall i, j :: 0 <= i < j < |fields| ==> Rank(fields[i]) < Rank(fields[j])
    ensures InFieldOrder(Collect(fields, current, u))
  {
    if fields != [] {
      var init := fields[..|fields| - 1];
      var last := fields[|fields| - 1];
      var before := Collect(init, current, u);
      CollectOrdered(init, current, u);
      if Rule(last, current, u) {
        forall ch | ch in before
          ensures Rank(FieldOf(ch)) < Rank(FieldOf(ChangeOf(last, current, u)))
        {
          CollectSound(init, current, u, ch);
          var k :| 0 <= k < |init| && init[k] == FieldOf(ch);
          assert fields[k] == init[k];
        }
        InFieldOrderSnoc(before, ChangeOf(last, current, u));
      } else {
        assert Collect(fields, current, u) == before + [];
      }
    }
  }

  /** A field has a line in the change list exactly when its own rule holds, and
      every line carries its field's current and requested values. */
  lemma ChangedFieldsMeaning(current: EventDetails, u: EventUpdates, f: Field)
    ensures (exists ch :: ch in ChangedFields(current, u) && FieldOf(ch) == f) <==> Rule(f, current, u)
    ensures forall ch :: ch in ChangedFields(current, u) ==>
      Rule(FieldOf(ch), current, u) && ch == ChangeOf(FieldOf(ch), current, u)
  {
    AllFieldsListed(f);
    forall ch | ch in ChangedFields(current, u)
      ensures Rule(FieldOf(ch), current, u) && ch == ChangeOf(FieldOf(ch), current, u)
    {
      CollectSound(FieldOrder, current, u, ch);
    }
    if Rule(f, current, u) {
      CollectComplete(FieldOrder, current, u, f);
    }
  }

  /** The lines are in field order, so no field has two lines. */
  lemma ChangedFieldsOrdered(current: EventDetails, u: EventUpdates)
    ensures InFieldOrder(ChangedFields(current, u))
  {
    assert forall i :: 0 <= i < |FieldOrder| ==> Rank(FieldOrder[i]) == i;
    CollectOrdered(FieldOrder, current, u);
  }

  /** The list is empty exactly when no field's rule holds. */
  lemma NoChangesMeansNoRule(current: EventDetails, u: EventUpdates)
    ensures ChangedFields(current, u) == [] <==> forall g: Field :: !Rule(g, current, u)
  {
    if ChangedFields(current, u) == [] {
      forall g: Field
        ensures !Rule(g, current, u)
      {
        AllFieldsListed(g);
        if Rule(g, current, u) {
          CollectComplete(FieldOrder, current, u, g);
        }
      }
    } else {
      var ch := ChangedFields(current, u)[0];
      CollectSound(FieldOrder, current, u, ch);
    }
  }

  /** The cover image, the coordinates and the Zoom URL are forwarded to the
      update endpoint but never produce a line, so they alone cannot get past
      the empty check. */
  lemma UnlistedFields(current: EventDetails, u: EventUpdates, coverUrl: Option<string>,
                       latitude: Option<string>, longitude: Option<string>, zoom: Option<string>)
    ensures ChangedFields(current, u.(coverUrl := coverUrl, geoLatitude := latitude,
                                      geoLongitude := longitude, zoomMeetingUrl := zoom)) ==
      ChangedFields(current, u)
  {
    var v := u.(coverUrl := coverUrl, geoLatitude := latitude, geoLongitude := longitude, zoomMeetingUrl := zoom);
    assert forall f :: Rule(f, current, u) == Rule(f, current, v);
    assert forall f :: FieldLine(f, current, u) == FieldLine(f, current, v);
    ChangedFieldsUnrolled(current, u);
    ChangedFieldsUnrolled(current, v);
  }

  // ---------------------------------------------------------------------------
  // The tool

  /** The tool's arguments: the event, `require_approval`, and the rest, which is
      what is forwarded to the update endpoint. */
  datatype UpdateArgs = UpdateArgs(apiId: string, requireApproval: ApprovalArg, updates: EventUpdates)

  /** `require_approval` as the client sent it: left out, JSON `null`, or a
      boolean. The destructuring default applies only to a left-out value. */
  datatype ApprovalArg = Omitted | Null | Flag(flag: bool)

  datatype UpdateOutcome =
    | NothingToChange
    | AwaitingApproval(event: EventDetails, changes: seq<Change>)
    | Updated(changes: seq<Change>, updated: EventDetails)

  const UpdateFailedPrefix := "Failed to update event: "

  /** `require_approval = true` followed by `if (require_approval)`: a left-out
      value takes the default, and `null` is falsy, so the update is sent only
      for an explicit `false` or `null`. */
  function ApprovalRequired(args: UpdateArgs): (r: bool)
    ensures !r <==> args.requireApproval == Flag(false) || args.requireApproval == Null
    ensures args.requireApproval == Omitted ==> r
  {
    match args.requireApproval
    case Omitted => true
    case Null => false
    case Flag(b) => b
  }

  method UpdateEventTool(args: UpdateArgs, send: Request -> Transport<EventEnvelope>)
    returns (result: Result<UpdateOutcome, McpError>, requests: seq<Request>)
    ensures GetEvent(args.apiId, send).Failure? ==>
      requests == [GetEventRequest(args.apiId)] && result == Failure(GetEvent(args.apiId, send).error)
    ensures GetEvent(args.apiId, send).Success? ==>
      var current := GetEvent(args.apiId, send).value;
      var changes := ChangedFields(current, args.updates);
      && (changes == [] ==>
            requests == [GetEventRequest(args.apiId)] && result == Success(NothingToChange))
      && (changes != [] && ApprovalRequired(args) ==>
            requests == [GetEventRequest(args.apiId)] && result == Success(AwaitingApproval(current, changes)))
      && (changes != [] && !ApprovalRequired(args) ==>
            requests == [GetEventRequest(args.apiId), UpdateEventRequest(args.apiId, args.updates)] &&
            result == match UpdateEvent(args.apiId, args.updates, send)
                      case Success(e) => Success(Updated(changes, e))
                      case Failure(err) => Failure(McpError(InternalError, UpdateFailedPrefix + err.message)))
    ensures UpdateEventRequest(args.apiId, args.updates) in requests <==>
      GetEvent(args.apiId, send).Success? &&
      ChangedFields(GetEvent(args.apiId, send).value, args.updates) != [] &&
      (args.requireApproval == Flag(false) || args.requireApproval == Null)
  {
    requests := [GetEventRequest(args.apiId)];
    var fetched := GetEvent(args.apiId, send);
    if fetched.Failure? {
      return Failure(fetched.error), requests;
    }
    var current := fetched.value;
    var changes := ChangeList(current, args.updates);
    if |changes| == 0 {
      return Success(NothingToChange), requests;
    }
    var requireApproval := match args.requireApproval
      case Omitted => true
      case Null => false
      case Flag(b) => b;
    if requireApproval {
      return Success(AwaitingApproval(current, changes)), requests;
    }
    requests := requests + [UpdateEventRequest(args.apiId, args.updates)];
    var updated := UpdateEvent(args.apiId, args.updates, send);
    match updated
    case Success(e) =>
      result := Success(Updated(changes, e));
    case Failure(err) =>
      result := Failure(McpError(InternalError, UpdateFailedPrefix + MessageOf(Mcp(err))));
  }
}

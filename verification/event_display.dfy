/** The values the tool handlers derive from an event or a guest before putting
    them into text: the event type, the location and meeting fallbacks, the
    truncated description, and a guest's company. */
module EventDisplay {
  import opened LumaTypes

  /** getEventType: one rule, written out in list_events, get_all_events,
      get_event, get_event_summary and update_event. */
  datatype EventType = Hybrid | Online | InPerson | UnknownType

  function TypeName(t: EventType): string {
    match t
    case Hybrid => "hybrid"
    case Online => "online"
    case InPerson => "in_person"
    case UnknownType => "unknown"
  }

  /** The type a name stands for, the inverse of `TypeName`. */
  function ParseTypeName(s: string): (r: Option<EventType>)
    ensures r.Some? ==> TypeName(r.value) == s
  {
    if s == "hybrid" then Some(Hybrid)
    else if s == "online" then Some(Online)
    else if s == "in_person" then Some(InPerson)
    else if s == "unknown" then Some(UnknownType)
    else None
  }

  lemma TypeNameRoundTrip(t: EventType)
    ensures ParseTypeName(TypeName(t)) == Some(t)
  {
  }

  /** Distinct types have distinct names. */
  lemma TypeNameInjective(t: EventType, u: EventType)
    requires TypeName(t) == TypeName(u)
    ensures t == u
  {
    TypeNameRoundTrip(t);
    TypeNameRoundTrip(u);
  }

  /** Whether the event can be joined online: a meeting or Zoom URL is set. */
  predicate HasMeeting(e: EventDetails) {
    Truthy(e.meetingUrl) || Truthy(e.zoomMeetingUrl)
  }

  /** Whether the event has a place: an address object is present. */
  predicate HasVenue(e: EventDetails) {
    e.geoAddressJson.Some?
  }

  function EventTypeOf(e: EventDetails): (t: EventType)
    ensures t == Hybrid <==> HasMeeting(e) && HasVenue(e)
    ensures t == Online <==> HasMeeting(e) && !HasVenue(e)
    ensures t == InPerson <==> !HasMeeting(e) && HasVenue(e)
    ensures t == UnknownType <==> !HasMeeting(e) && !HasVenue(e)
  {
    if Truthy(e.meetingUrl) || Truthy(e.zoomMeetingUrl) then
      (if e.geoAddressJson.Some? then Hybrid else Online)
    else
      (if e.geoAddressJson.Some? then InPerson else UnknownType)
  }

  /** The two questions a type answers. */
  predicate Joinable(t: EventType) {
    t == Hybrid || t == Online
  }

  predicate Located(t: EventType) {
    t == Hybrid || t == InPerson
  }

  /** The type records exactly whether the event has a meeting URL and whether it
      has an address; two events get the same type exactly when they agree on
      both. */
  lemma EventTypeRecordsBoth(e: EventDetails, f: EventDetails)
    ensures Joinable(EventTypeOf(e)) == HasMeeting(e)
    ensures Located(EventTypeOf(e)) == HasVenue(e)
    ensures EventTypeOf(e) == EventTypeOf(f) <==> HasMeeting(e) == HasMeeting(f) && HasVenue(e) == HasVenue(f)
  {
  }

  /** An empty meeting URL counts as no URL. */
  lemma EmptyUrlIsNoMeeting(e: EventDetails)
    requires e.meetingUrl == Some("") && !Truthy(e.zoomMeetingUrl)
    ensures EventTypeOf(e) == EventTypeOf(e.(meetingUrl := None))
    ensures !Joinable(EventTypeOf(e))
  {
  }

  // ---------------------------------------------------------------------------
  // `a || b` over optional strings

  /** `a || fallback`: the value when it is a non-empty string, the fallback otherwise. */
  function Or(a: Option<string>, fallback: string): (r: string)
    ensures Truthy(a) ==> r == a.value
    ensures !Truthy(a) ==> r == fallback
  {
    if Truthy(a) then a.value else fallback
  }

  /** getLocation of get_event_summary: the city, else the street address, else
      "Not specified"; "Not specified" too when there is no address object. */
  function SummaryLocation(e: EventDetails): (r: string)
    ensures e.geoAddressJson.None? ==> r == "Not specified"
    ensures e.geoAddressJson.Some? && Truthy(e.geoAddressJson.value.city) ==> r == e.geoAddressJson.value.city.value
    ensures e.geoAddressJson.Some? && !Truthy(e.geoAddressJson.value.city) && Truthy(e.geoAddressJson.value.address) ==>
      r == e.geoAddressJson.value.address.value
    ensures e.geoAddressJson.Some? && !Truthy(e.geoAddressJson.value.city) && !Truthy(e.geoAddressJson.value.address) ==>
      r == "Not specified"
  {
    if e.geoAddressJson.Some? then
      Or(e.geoAddressJson.value.city, Or(e.geoAddressJson.value.address, "Not specified"))
    else "Not specified"
  }

  /** The Location of each event in get_all_events: `geo_address_json?.city`. */
  function ListedCity(e: EventDetails): (r: string)
    ensures e.geoAddressJson.Some? && Truthy(e.geoAddressJson.value.city) ==> r == e.geoAddressJson.value.city.value
    ensures !(e.geoAddressJson.Some? && Truthy(e.geoAddressJson.value.city)) ==> r == "Not specified"
  {
    if e.geoAddressJson.Some? then Or(e.geoAddressJson.value.city, "Not specified")
    else "Not specified"
  }

  /** A location other than "Not specified" is only shown for an event whose type
      says it has a place, and then the listed city agrees with it. */
  lemma LocationOnlyWhenLocated(e: EventDetails)
    requires SummaryLocation(e) != "Not specified"
    ensures Located(EventTypeOf(e))
    ensures ListedCity(e) != "Not specified" ==> ListedCity(e) == SummaryLocation(e)
  {
  }

  /** getLocationText of get_event: three lines from the address object, or a
      single line saying there is none. */
  datatype LocationText = AddressLines(address: string, city: string, country: string) | NoLocationInformation

  function LocationTextOf(e: EventDetails): (r: LocationText)
    ensures r.NoLocationInformation? <==> e.geoAddressJson.None?
    ensures r.AddressLines? ==>
      var a := e.geoAddressJson.value;
      && r.address == (if Truthy(a.fullAddress) then a.fullAddress.value
                       else if Truthy(a.address) then a.address.value else "Not specified")
      && r.city == (if Truthy(a.city) then a.city.value else "Not specified")
      && r.country == (if Truthy(a.country) then a.country.value else "Not specified")
  {
    match e.geoAddressJson
    case None => NoLocationInformation
    case Some(a) =>
      AddressLines(Or(a.fullAddress, Or(a.address, "Not specified")),
                   Or(a.city, "Not specified"),
                   Or(a.country, "Not specified"))
  }

  /** The Meeting URL line of get_event: the meeting URL, else the Zoom URL. */
  function MeetingLink(e: EventDetails): (r: string)
    ensures !HasMeeting(e) ==> r == "No online meeting"
    ensures HasMeeting(e) ==> r == (if Truthy(e.meetingUrl) then e.meetingUrl.value else e.zoomMeetingUrl.value)
  {
    Or(e.meetingUrl, Or(e.zoomMeetingUrl, "No online meeting"))
  }

  /** A meeting link is shown exactly for the events whose type is joinable
      online. */
  lemma MeetingLinkMatchesType(e: EventDetails)
    requires !Truthy(e.meetingUrl) || e.meetingUrl.value != "No online meeting"
    requires !Truthy(e.zoomMeetingUrl) || e.zoomMeetingUrl.value != "No online meeting"
    ensures MeetingLink(e) != "No online meeting" <==> Joinable(EventTypeOf(e))
  {
  }

  // ---------------------------------------------------------------------------
  // Description

  /** `s.substring(0, n) + (s.length > n ? '...' : '')` */
  function Truncate(s: string, n: nat): (r: string)
    ensures |s| <= n ==> r == s
    ensures |s| > n ==> |r| == n + 3 && r[..n] == s[..n] && r[n..] == "..."
  {
    if |s| > n then s[..n] + "..." else s
  }

  /** Truncating twice is truncating once. */
  lemma TruncateIdempotent(s: string, n: nat)
    ensures Truncate(Truncate(s, n), n) == Truncate(s, n)
  {
    if |s| > n {
      var t := Truncate(s, n);
      assert t[..n] == s[..n];
    }
  }

  /** The Description line of get_event: the first 500 characters, with "..." when
      there were more, or "No description provided". */
  function DescriptionText(e: EventDetails): (r: string)
    ensures !Truthy(e.description) ==> r == "No description provided"
    ensures Truthy(e.description) ==> r == Truncate(e.description.value, 500)
  {
    if Truthy(e.description) then Truncate(e.description.value, 500) else "No description provided"
  }

  // ---------------------------------------------------------------------------
  // Guests

  /** The approval status shown and grouped on: "pending" when there is none. */
  function StatusOf(g: Guest): (r: string)
    ensures r == "pending" <==> !Truthy(g.approvalStatus) || g.approvalStatus.value == "pending"
    ensures r != "pending" ==> r == g.approvalStatus.value
  {
    if Truthy(g.approvalStatus) then g.approvalStatus.value else "pending"
  }

  /** The index of the first answer to a question of the given type. */
  function FindAnswer(answers: seq<RegistrationAnswer>, questionType: string): (r: Option<nat>)
    ensures r.None? <==> forall i :: 0 <= i < |answers| ==> answers[i].questionType != questionType
    ensures r.Some? ==>
      && r.value < |answers| && answers[r.value].questionType == questionType
      && forall i :: 0 <= i < r.value ==> answers[i].questionType != questionType
  {
    if answers == [] then None
    else if answers[0].questionType == questionType then Some(0)
    else match FindAnswer(answers[1..], questionType)
      case None => None
      case Some(k) => Some(k + 1)
  }

  /** The Company of get_all_event_guests: the answer to the first question of
      type "company", when it is non-empty. */
  function CompanyOf(g: Guest): (r: string)
    ensures g.registrationAnswers.None? ==> r == "Not specified"
    ensures g.registrationAnswers.Some? ==>
      var found := FindAnswer(g.registrationAnswers.value, "company");
      r == (if found.Some? && g.registrationAnswers.value[found.value].answer != ""
            then g.registrationAnswers.value[found.value].answer else "Not specified")
  {
    match g.registrationAnswers
    case None => "Not specified"
    case Some(answers) =>
      match FindAnswer(answers, "company")
      case None => "Not specified"
      case Some(i) => Or(Some(answers[i].answer), "Not specified")
  }

  /** Only the first company answer is read: an empty one hides any later one. */
  lemma FirstCompanyAnswerWins(g: Guest, later: string)
    requires g.registrationAnswers == Some([RegistrationAnswer("Company", "", "company"),
                                            RegistrationAnswer("Employer", later, "company")])
    ensures CompanyOf(g) == "Not specified"
  {
    assert FindAnswer(g.registrationAnswers.value, "company") == Some(0);
  }
}

/** The route table of `appointmentRoutes.js`: for each of the five
    appointment operations, the HTTP verb, the path pattern under the
    router's mount point, and the role gate that runs after authentication.
    Express tries the routes in declaration order and dispatches to the
    first whose verb and pattern match. The router is created with its
    defaults, so matching ignores letter case and one trailing slash. */
module AppointmentRoutes {
  import opened Common
  import opened Text

  datatype Verb = Get | Post | Patch

  /** The controller function a route dispatches to. */
  datatype Handler =
    | ListDoctors          // getDoctors
    | ListAvailableSlots   // getAvailableSlots
    | Book                 // bookAppointment
    | ListAppointments     // getAppointments
    | UpdateStatus         // updateAppointmentStatus

  /** `protect` alone, or `protect` followed by `authorizeRoles(role)`. */
  datatype Gate = AnyCaller | OnlyRole(role: Role)

  /** A path segment of a pattern: a literal, or a parameter such as `:id`. */
  datatype Segment = Literal(text: string) | Param

  datatype Route = Route(verb: Verb, pattern: seq<Segment>, handler: Handler, gate: Gate)

  /** The five routes, in declaration order. */
  const Table: seq<Route> := [
    Route(Get, [Literal("doctors")], ListDoctors, OnlyRole(Patient)),
    Route(Get, [Literal("slots")], ListAvailableSlots, OnlyRole(Patient)),
    Route(Post, [Literal("book")], Book, OnlyRole(Patient)),
    Route(Get, [], ListAppointments, AnyCaller),
    Route(Patch, [Param, Literal("status")], UpdateStatus, OnlyRole(Doctor))
  ]

  /** A request path split at `/` (the root path is the empty sequence, so
      `//` is `[""]`), with the empty segment that a trailing slash leaves
      after a named segment dropped. */
  function Unslashed(path: seq<string>): (p: seq<string>)
    ensures p == path || (p != [] && p + [""] == path)
  {
    if |path| >= 2 && path[|path| - 1] == "" then path[..|path| - 1] else path
  }

  /** A request path matches a pattern: once a trailing slash is dropped,
      the same number of segments, every literal segment equal up to letter
      case, and every parameter segment not empty. */
  predicate PathMatches(pattern: seq<Segment>, path: seq<string>) {
    var p := Unslashed(path);
    |pattern| == |p|
    && forall k :: 0 <= k < |pattern| ==>
         match pattern[k]
         case Literal(text) => ToLower(p[k]) == text
         case Param => p[k] != []
  }

  /** The first route of `routes` that the request matches. */
  function Resolve(routes: seq<Route>, verb: Verb, path: seq<string>): (r: Option<Route>)
    ensures r.Some? ==> r.value in routes && r.value.verb == verb && PathMatches(r.value.pattern, path)
    ensures r.None? ==> forall rt :: rt in routes ==> !(rt.verb == verb && PathMatches(rt.pattern, path))
  {
    if routes == [] then None
    else if routes[0].verb == verb && PathMatches(routes[0].pattern, path) then Some(routes[0])
    else Resolve(routes[1..], verb, path)
  }

  /** Whether a caller with `role` passes the gate. */
  predicate Permits(g: Gate, role: Role) {
    match g
    case AnyCaller => true
    case OnlyRole(r) => r == role
  }

  /** The gate in front of a handler. */
  function GateOf(h: Handler): (g: Gate)
    ensures exists rt :: rt in Table && rt.handler == h && rt.gate == g
  {
    match h
    case ListDoctors => assert Table[0].handler == h; Table[0].gate
    case ListAvailableSlots => assert Table[1].handler == h; Table[1].gate
    case Book => assert Table[2].handler == h; Table[2].gate
    case ListAppointments => assert Table[3].handler == h; Table[3].gate
    case UpdateStatus => assert Table[4].handler == h; Table[4].gate
  }

  /** What happens to an authenticated request: no route (`None`), or the
      handler it reaches and whether the gate lets the caller through. */
  function Dispatch(verb: Verb, path: seq<string>, role: Role): (r: Option<(Handler, bool)>)
    ensures r.Some? ==> r.value.1 == Permits(GateOf(r.value.0), role)
  {
    match Resolve(Table, verb, path)
    case None => None
    case Some(rt) => Some((rt.handler, Permits(rt.gate, role)))
  }

  /** The role gates: listing doctors, querying slots and booking are for
      patients only, listing appointments for every authenticated caller,
      and changing a status for doctors only. */
  lemma Gates(role: Role)
    ensures Permits(GateOf(ListDoctors), role) <==> role == Patient
    ensures Permits(GateOf(ListAvailableSlots), role) <==> role == Patient
    ensures Permits(GateOf(Book), role) <==> role == Patient
    ensures Permits(GateOf(ListAppointments), role)
    ensures Permits(GateOf(UpdateStatus), role) <==> role == Doctor
  {
  }

  /** The route at position `k` answers a request it matches when no earlier
      route matches it. */
  lemma {:induction false} FirstMatch(routes: seq<Route>, k: nat, verb: Verb, path: seq<string>)
    requires k < |routes| && routes[k].verb == verb && PathMatches(routes[k].pattern, path)
    requires forall j :: 0 <= j < k ==> !(routes[j].verb == verb && PathMatches(routes[j].pattern, path))
    ensures Resolve(routes, verb, path) == Some(routes[k])
    decreases k
  {
    if k > 0 {
      FirstMatch(routes[1..], k - 1, verb, path);
    }
  }

  /** `GET /doctors` reaches `getDoctors`, for patients only, in any letter
      case and with or without a trailing slash. */
  lemma DoctorsRoute(segment: string, role: Role)
    requires ToLower(segment) == "doctors"
    ensures Dispatch(Get, [segment], role) == Some((ListDoctors, role == Patient))
    ensures Dispatch(Get, [segment, ""], role) == Some((ListDoctors, role == Patient))
  {
    assert Unslashed([segment, ""]) == [segment];
    assert PathMatches(Table[0].pattern, [segment]);
    FirstMatch(Table, 0, Get, [segment]);
    assert PathMatches(Table[0].pattern, [segment, ""]);
    FirstMatch(Table, 0, Get, [segment, ""]);
  }

  /** `GET /slots` reaches `getAvailableSlots`, for patients only; the
      earlier `/doctors` route does not shadow it. */
  lemma SlotsRoute(segment: string, role: Role)
    requires ToLower(segment) == "slots"
    ensures Dispatch(Get, [segment], role) == Some((ListAvailableSlots, role == Patient))
    ensures Dispatch(Get, [segment, ""], role) == Some((ListAvailableSlots, role == Patient))
  {
    assert "slots"[0] != "doctors"[0];
    assert Unslashed([segment]) == [segment];
    assert Unslashed([segment, ""]) == [segment];
    assert ToLower(Unslashed([segment])[0]) != "doctors";
    assert !PathMatches(Table[0].pattern, [segment]);
    assert PathMatches(Table[1].pattern, [segment]);
    FirstMatch(Table, 1, Get, [segment]);
    assert PathMatches(Table[1].pattern, [segment, ""]);
    FirstMatch(Table, 1, Get, [segment, ""]);
  }

  /** `POST /book` reaches `bookAppointment`, for patients only. */
  lemma BookRoute(segment: string, role: Role)
    requires ToLower(segment) == "book"
    ensures Dispatch(Post, [segment], role) == Some((Book, role == Patient))
    ensures Dispatch(Post, [segment, ""], role) == Some((Book, role == Patient))
  {
    assert Unslashed([segment, ""]) == [segment];
    assert PathMatches(Table[2].pattern, [segment]);
    FirstMatch(Table, 2, Post, [segment]);
    assert PathMatches(Table[2].pattern, [segment, ""]);
    FirstMatch(Table, 2, Post, [segment, ""]);
  }

  /** `GET /` reaches `getAppointments`, for every authenticated caller. */
  lemma ListRoute(role: Role)
    ensures Dispatch(Get, [], role) == Some((ListAppointments, true))
  {
    FirstMatch(Table, 3, Get, []);
  }

  /** `PATCH /:id/status` reaches `updateAppointmentStatus` for any id, for
      doctors only. */
  lemma StatusRoute(id: string, segment: string, role: Role)
    requires id != [] && ToLower(segment) == "status"
    ensures Dispatch(Patch, [id, segment], role) == Some((UpdateStatus, role == Doctor))
    ensures Dispatch(Patch, [id, segment, ""], role) == Some((UpdateStatus, role == Doctor))
  {
    assert Unslashed([id, segment, ""]) == [id, segment];
    assert PathMatches(Table[4].pattern, [id, segment]);
    FirstMatch(Table, 4, Patch, [id, segment]);
    assert PathMatches(Table[4].pattern, [id, segment, ""]);
    FirstMatch(Table, 4, Patch, [id, segment, ""]);
  }

  /** A capitalised path with a trailing slash, `GET /Doctors/`, still
      reaches `getDoctors`. */
  lemma CapitalisedDoctorsRoute(role: Role)
    ensures Dispatch(Get, ["Doctors", ""], role) == Some((ListDoctors, role == Patient))
  {
    assert ToLower("Doctors") == "doctors";
    DoctorsRoute("Doctors", role);
  }

  /** No two routes of the table answer the same request. */
  lemma RoutesDisjoint(verb: Verb, path: seq<string>)
    ensures forall i, j :: 0 <= i < j < |Table| && Table[i].verb == verb && Table[j].verb == verb
              ==> !(PathMatches(Table[i].pattern, path) && PathMatches(Table[j].pattern, path))
  {
    forall i, j | 0 <= i < j < |Table| && Table[i].verb == verb && Table[j].verb == verb
      ensures !(PathMatches(Table[i].pattern, path) && PathMatches(Table[j].pattern, path))
    {
      if i == 0 && j == 1 && PathMatches(Table[0].pattern, path) {
        assert ToLower(Unslashed(path)[0]) == "doctors";
        assert "doctors"[0] != "slots"[0];
      }
    }
  }
}

/** What the client's invalidations say over a run of connections and messages. */
module LiveInvalidations {
  import opened Lists
  import opened Options
  import opened LiveUpdates

  datatype Envelope = Envelope(eventType: string, sequence: nat, payload: string)

  datatype Resource = Overview | Incidents | Evidence | Copilot | Review | Simulation | All

  datatype Invalidation = Invalidation(resource: Resource, payload: string)

  function ResourceOf(eventType: string): Resource {
    match eventType
    case "system.overview.updated" => Overview
    case "baseline.readiness.updated" => Overview
    case "incident.lifecycle.changed" => Incidents
    case "incident.updated" => Incidents
    case "evidence.package.created" => Evidence
    case "copilot.progress.updated" => Copilot
    case "copilot.message.validated" => Copilot
    case "copilot.fallback.ready" => Copilot
    case "human_review.updated" => Review
    case "simulation.status.changed" => Simulation
    case _ => All
  }

  // ---- runs of the client -----------------------------------------------------------

  /** A connection, or a message: None where it is no envelope. */
  datatype Input = Connected | Heard(message: Option<Envelope>)

  function Reaction(last: nat, x: Input): seq<Invalidation> {
    match x
    case Connected => if last > 0 then [Invalidation(All, "")] else []
    case Heard(None) => [Invalidation(All, "")]
    case Heard(Some(e)) =>
      (if Gap(last, e.sequence) then [Invalidation(All, e.payload)] else [])
      + [Invalidation(ResourceOf(e.eventType), e.payload)]
  }

  function SeenAfter(last: nat, x: Input): nat {
    match x case Heard(Some(e)) => e.sequence case _ => last
  }

  function Seen(xs: seq<Input>): nat { if xs == [] then 0 else SeenAfter(Seen(Front(xs)), Last(xs)) }

  function Emitted(xs: seq<Input>): seq<Invalidation> {
    if xs == [] then [] else Emitted(Front(xs)) + Reaction(Seen(Front(xs)), Last(xs))
  }

  // ---- which events concern which resource ----------------------------------------

  predicate Concerns(t: string, r: Resource) {
    match r
    case Overview => t in {"system.overview.updated", "baseline.readiness.updated"}
    case Incidents => t in {"incident.lifecycle.changed", "incident.updated"}
    case Evidence => t == "evidence.package.created"
    case Copilot => t in {"copilot.progress.updated", "copilot.message.validated", "copilot.fallback.ready"}
    case Review => t == "human_review.updated"
    case Simulation => t == "simulation.status.changed"
    case All => false
  }

  lemma ResourceIs(t: string, r: Resource)
    requires r != All
    ensures ResourceOf(t) == r <==> Concerns(t, r)
  {
  }

  ghost predicate Known(t: string) { exists r :: Concerns(t, r) }

  lemma KnownIff(t: string)
    ensures ResourceOf(t) != All <==> Known(t)
  {
    if ResourceOf(t) != All {
      ResourceIs(t, ResourceOf(t));
    }
    forall r | Concerns(t, r) ensures ResourceOf(t) != All {
      ResourceIs(t, r);
    }
  }

  function ConcernOf(x: Input, r: Resource): seq<string> {
    match x
    case Heard(Some(e)) => if Concerns(e.eventType, r) then [e.payload] else []
    case _ => []
  }

  /** The payloads of the events that concern the resource. */
  function Concerning(xs: seq<Input>, r: Resource): seq<string> {
    if xs == [] then [] else Concerning(Front(xs), r) + ConcernOf(Last(xs), r)
  }

  /** The payloads with which the resource was invalidated. */
  function Invalidated(vs: seq<Invalidation>, r: Resource): seq<string> {
    if vs == [] then [] else Invalidated(Front(vs), r) + if Last(vs).resource == r then [Last(vs).payload] else []
  }

  lemma {:induction false} InvalidatedConcat(vs: seq<Invalidation>, us: seq<Invalidation>, r: Resource)
    ensures Invalidated(vs + us, r) == Invalidated(vs, r) + Invalidated(us, r)
  {
    if us == [] {
      assert vs + us == vs;
    } else {
      assert Front(vs + us) == vs + Front(us);
      InvalidatedConcat(vs, Front(us), r);
    }
  }

  lemma InvalidatedOne(v: Invalidation, r: Resource)
    ensures Invalidated([v], r) == if v.resource == r then [v.payload] else []
  {
    assert Front([v]) == [];
  }

  /** A resource is invalidated for the events that concern it, once each and in their
      order, and for no others. */
  lemma {:induction false} InvalidatedExactly(xs: seq<Input>, r: Resource)
    requires r != All
    ensures Invalidated(Emitted(xs), r) == Concerning(xs, r)
  {
    if xs != [] {
      InvalidatedExactly(Front(xs), r);
      var last, x := Seen(Front(xs)), Last(xs);
      InvalidatedConcat(Emitted(Front(xs)), Reaction(last, x), r);
      ReactionConcerns(last, x, r);
    }
  }

  lemma ReactionConcerns(last: nat, x: Input, r: Resource)
    requires r != All
    ensures Invalidated(Reaction(last, x), r) == ConcernOf(x, r)
  {
    match x
    case Heard(Some(e)) =>
      var gap := if Gap(last, e.sequence) then [Invalidation(All, e.payload)] else [];
      var own := Invalidation(ResourceOf(e.eventType), e.payload);
      InvalidatedConcat(gap, [own], r);
      InvalidatedOne(Invalidation(All, e.payload), r);
      InvalidatedOne(own, r);
      ResourceIs(e.eventType, r);
    case _ => InvalidatedOne(Invalidation(All, ""), r);
  }

  // ---- invalidating everything ------------------------------------------------------

  function LastNumber(xs: seq<Input>): Option<nat> {
    if xs == [] then None
    else match Last(xs) case Heard(Some(e)) => Some(e.sequence) case _ => LastNumber(Front(xs))
  }

  lemma {:induction false} SeenIs(xs: seq<Input>)
    ensures Seen(xs) == if LastNumber(xs).Some? then LastNumber(xs).value else 0
  {
    if xs != [] {
      SeenIs(Front(xs));
    }
  }

  /** What makes the client ask for everything at this input, and how often: being
      reconnected after it has seen a number, a garbled message, a number that is not the next,
      an event of an unknown type. */
  ghost function Asks(before: seq<Input>, x: Input): nat {
    var n := LastNumber(before);
    var numbered := n.Some? && n.value > 0;
    match x
    case Connected => if numbered then 1 else 0
    case Heard(None) => 1
    case Heard(Some(e)) =>
      (if numbered && e.sequence != n.value + 1 then 1 else 0) + if Known(e.eventType) then 0 else 1
  }

  ghost function AllAsks(xs: seq<Input>): nat {
    if xs == [] then 0 else AllAsks(Front(xs)) + Asks(Front(xs), Last(xs))
  }

  lemma {:induction false} EverythingExactly(xs: seq<Input>)
    ensures |Invalidated(Emitted(xs), All)| == AllAsks(xs)
  {
    if xs != [] {
      var front, x := Front(xs), Last(xs);
      EverythingExactly(front);
      SeenIs(front);
      InvalidatedConcat(Emitted(front), Reaction(Seen(front), x), All);
      ReactionAsks(front, x);
    }
  }

  lemma ReactionAsks(before: seq<Input>, x: Input)
    ensures |Invalidated(Reaction(Seen(before), x), All)| == Asks(before, x)
  {
    SeenIs(before);
    match x
    case Heard(Some(e)) =>
      var gap := if Gap(Seen(before), e.sequence) then [Invalidation(All, e.payload)] else [];
      var own := Invalidation(ResourceOf(e.eventType), e.payload);
      InvalidatedConcat(gap, [own], All);
      InvalidatedOne(Invalidation(All, e.payload), All);
      InvalidatedOne(own, All);
      KnownIff(e.eventType);
    case _ => InvalidatedOne(Invalidation(All, ""), All);
  }
}

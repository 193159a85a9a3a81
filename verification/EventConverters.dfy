/**
 * The event converter: turns each event individual of an episode's event
 * ontology into knowledge-base assertions. States (contact, support, grasp)
 * become a state, a situation manifesting in it and a role binding, and are
 * registered in `assertedStates`; actions (pick-up, pre-grasp, reaching)
 * become sub-actions of the episode's top-level action. The registry is what
 * the two situation linkers scan.
 */
module EventConverters {
  import opened Common
  import opened Knowledge

  const GRASP_STATE := SOMA + "GraspState"
  const CONTACT_STATE := SOMA + "ContactState"
  const SUPPORT_STATE := SOMA + "SupportState"
  const PHYSICAL_ACTION := SOMA + "PhysicalAction"
  const PICKING_UP := SOMA + "PickingUp"
  const GRASPING := SOMA + "Grasping"
  const REACHING := SOMA + "Reaching"
  const PHYSICAL_TASK := SOMA + "PhysicalTask"
  const PATIENT := SOMA + "Patient"
  const GOAL_ROLE := SOMA + "GoalRole"
  const SITUATION_TRANSITION := SOMA + "SituationTransition"
  const DUL_SITUATION := DUL + "Situation"

  /** The kinds of event the dispatch table knows, one per converter. */
  datatype EventKind =
    | GraspingSomething | SlicingSomething | TouchingSituation | SupportedBySituation
    | ContainerManipulation | PickUpSituation | PreGraspSituation | PutDownSituation
    | ReachingForSomething | SlidingSituation | TransportingSituation

  /** The dispatch table: class name of an event to the converter for it. */
  const Converters: map<string, EventKind> := map[
    "GraspingSomething" := GraspingSomething,
    "SlicingSomething" := SlicingSomething,
    "TouchingSituation" := TouchingSituation,
    "SupportedBySituation" := SupportedBySituation,
    "ContainerManipulation" := ContainerManipulation,
    "PickUpSituation" := PickUpSituation,
    "PreGraspSituation" := PreGraspSituation,
    "PutDownSituation" := PutDownSituation,
    "ReachingForSomething" := ReachingForSomething,
    "SlidingSituation" := SlidingSituation,
    "TransportingSituation" := TransportingSituation
  ]

  /** The table key of each kind. */
  function KindName(k: EventKind): string {
    match k
    case GraspingSomething => "GraspingSomething"
    case SlicingSomething => "SlicingSomething"
    case TouchingSituation => "TouchingSituation"
    case SupportedBySituation => "SupportedBySituation"
    case ContainerManipulation => "ContainerManipulation"
    case PickUpSituation => "PickUpSituation"
    case PreGraspSituation => "PreGraspSituation"
    case PutDownSituation => "PutDownSituation"
    case ReachingForSomething => "ReachingForSomething"
    case SlidingSituation => "SlidingSituation"
    case TransportingSituation => "TransportingSituation"
  }

  /** Every kind is in the table under its own name. */
  lemma KindNameInConverters(k: EventKind)
    ensures KindName(k) in Converters && Converters[KindName(k)] == k
  {
    match k
    case GraspingSomething =>
    case SlicingSomething =>
    case TouchingSituation =>
    case SupportedBySituation =>
    case ContainerManipulation =>
    case PickUpSituation =>
    case PreGraspSituation =>
    case PutDownSituation =>
    case ReachingForSomething =>
    case SlidingSituation =>
    case TransportingSituation =>
  }

  /** The table holds no other names: each key is the name of the kind it maps to. */
  lemma ConvertersKeyIsKindName(name: string)
    requires name in Converters
    ensures KindName(Converters[name]) == name
  {
  }

  /** The kinds whose converter asserts a state. */
  predicate IsStateKind(k: EventKind) {
    k == GraspingSomething || k == TouchingSituation || k == SupportedBySituation
  }

  /** The kinds whose converter is an empty stub that returns None. */
  predicate IsStubKind(k: EventKind) {
    k == SlicingSomething || k == ContainerManipulation || k == PutDownSituation
    || k == SlidingSituation || k == TransportingSituation
  }

  /**
   * An event individual as the converters read it: its name, the name of its
   * first class, and the property values they look up (time points by name,
   * related individuals by IRI).
   */
  datatype Event = Event(
    name: string,
    className: string,
    startTime: seq<string>,
    endTime: seq<string>,
    performedBy: seq<Iri>,
    objectActedOn: seq<Iri>,
    inContact: seq<Iri>,
    isSupported: seq<Iri>,
    isSupporting: seq<Iri>)

  /** What a conversion can raise. */
  datatype ConvertError =
    | UnknownEventType(className: string)  // no entry in the dispatch table
    | MissingRoleFiller(property: string)  // `indi.<property>[0]` on an empty list
    | BadTimestamp(timePoint: string)      // `float(...)` of a time point's last segment failed
    | TooFewParticipants                   // `participants[1]` on a one-element list
    | NoTimeInterval(entity: Iri)          // `has_time_interval` has no solution

  const STATE_CLASS_NAMES: seq<string> := ["TouchingSituation", "SupportedBySituation", "GraspingSomething"]

  predicate IsState(e: Event) {
    e.className in STATE_CLASS_NAMES
  }

  predicate IsAction(e: Event) {
    !IsState(e)
  }

  /**
   * Classification agrees with the dispatch table: an event is a state exactly
   * when the table sends it to a state converter; every other event, including
   * one the table does not know, is an action.
   */
  lemma ClassificationMatchesTable(e: Event)
    ensures IsState(e) <==> e.className in Converters && IsStateKind(Converters[e.className])
    ensures IsAction(e) <==> e.className !in Converters || !IsStateKind(Converters[e.className])
    ensures IsAction(e) <==> !IsState(e)
  {
  }

  // ---------------------------------------------------------------------------
  // Reading an event

  /** `float(tp.name.split("_")[-1])` for the first time point of a property. */
  function Timestamp(parse: string -> Option<real>, timePoints: seq<string>, property: string): Result<real, ConvertError> {
    if |timePoints| == 0 then Err(MissingRoleFiller(property))
    else match parse(LastSegment(timePoints[0], '_'))
      case None => Err(BadTimestamp(timePoints[0]))
      case Some(t) => Ok(t)
  }

  /** A time point named `<prefix>_<number>` is read as the number after its last underscore. */
  lemma {:induction false} TimestampOfTimePoint(parse: string -> Option<real>, prefix: string, number: string, rest: seq<string>, property: string)
    requires '_' !in number
    ensures Timestamp(parse, [prefix + "_" + number] + rest, property)
      == (match parse(number) case None => Err(BadTimestamp(prefix + "_" + number)) case Some(t) => Ok(t))
  {
    LastSegmentAfterSeparator(prefix, '_', number);
  }

  /** The start and end timestamps of an event, read start first. */
  function EventInterval(parse: string -> Option<real>, e: Event): Result<Interval, ConvertError> {
    match Timestamp(parse, e.startTime, "startTime")
    case Err(err) => Err(err)
    case Ok(start) =>
      match Timestamp(parse, e.endTime, "endTime")
      case Err(err) => Err(err)
      case Ok(end) => Ok(Interval(start, end))
  }

  /** An event's interval and two role fillers, in the order a converter reads them. */
  datatype Roles = Roles(interval: Interval, first: Iri, second: Iri)

  /** Interval, then `performedBy[0]`, then `objectActedOn[0]` (grasping and the three actions). */
  function ActorAndObject(parse: string -> Option<real>, e: Event): (r: Result<Roles, ConvertError>)
    ensures r.Ok? <==> EventInterval(parse, e).Ok? && |e.performedBy| > 0 && |e.objectActedOn| > 0
  {
    match EventInterval(parse, e)
    case Err(err) => Err(err)
    case Ok(iv) =>
      if |e.performedBy| == 0 then Err(MissingRoleFiller("performedBy"))
      else if |e.objectActedOn| == 0 then Err(MissingRoleFiller("objectActedOn"))
      else Ok(Roles(iv, e.performedBy[0], e.objectActedOn[0]))
  }

  /** Interval, then `isSupported[0]` (the supportee), then `isSupporting[0]` (the supporter). */
  function SupporteeAndSupporter(parse: string -> Option<real>, e: Event): (r: Result<Roles, ConvertError>)
    ensures r.Ok? <==> EventInterval(parse, e).Ok? && |e.isSupported| > 0 && |e.isSupporting| > 0
  {
    match EventInterval(parse, e)
    case Err(err) => Err(err)
    case Ok(iv) =>
      if |e.isSupported| == 0 then Err(MissingRoleFiller("isSupported"))
      else if |e.isSupporting| == 0 then Err(MissingRoleFiller("isSupporting"))
      else Ok(Roles(iv, e.isSupported[0], e.isSupporting[0]))
  }

  // ---------------------------------------------------------------------------
  // Participants

  /** The participant list after `_assert_state` has made sure the agent is in it. */
  function WithAgent(participants: seq<Iri>, agent: Iri): (r: seq<Iri>)
    ensures agent in r
    ensures participants <= r && |r| <= |participants| + 1
    ensures |r| == |participants| + 1 <==> agent !in participants
  {
    if agent in participants then participants else participants + [agent]
  }

  /** The list `_assert_state` keeps has at least two entries unless it held nothing but the agent. */
  lemma WithAgentShort(participants: seq<Iri>, agent: Iri)
    ensures |WithAgent(participants, agent)| < 2 <==> participants == [] || participants == [agent]
  {
    if participants != [] && participants != [agent] && |participants| == 1 {
      assert agent !in participants;
    }
  }

  /** A Python list of IRIs: `_assert_state` appends to the caller's list in place. */
  class IriList {
    var items: seq<Iri>

    constructor (items: seq<Iri>)
      ensures this.items == items
    {
      this.items := items;
    }

    method Append(x: Iri)
      modifies this
      ensures items == old(items) + [x]
    {
      items := items + [x];
    }
  }

  // ---------------------------------------------------------------------------
  // The registry and the situation linkers

  /** `f` is a `manifestsIn` link to `s`. */
  predicate ManifestsIn(f: Fact, s: Iri) {
    f.HoldsFact? && f.relation == MANIFESTS_IN && f.target == s
  }

  /** What holds of every registered state: the log knows its interval and a situation manifests in it. */
  predicate Registered(facts: seq<Fact>, s: Iri) {
    IntervalOf(facts, s).Some? && exists i | 0 <= i < |facts| :: ManifestsIn(facts[i], s)
  }

  lemma RegisteredStable(facts: seq<Fact>, more: seq<Fact>, s: Iri)
    requires Registered(facts, s)
    ensures Registered(facts + more, s)
  {
    IntervalOfStable(facts, more, s);
    var i :| 0 <= i < |facts| && ManifestsIn(facts[i], s);
    assert (facts + more)[i] == facts[i];
  }

  /** `start <= t <= end` for the interval the log gives `s` (a state without one never matches). */
  predicate ActiveAt(facts: seq<Fact>, s: Iri, t: real) {
    match IntervalOf(facts, s)
    case Some(iv) => iv.start <= t <= iv.end
    case None => false
  }

  /** `not (end < s.start or s.end < start)`: the closed intervals share a point. */
  predicate Overlaps(facts: seq<Fact>, s: Iri, start: real, end: real) {
    match IntervalOf(facts, s)
    case Some(iv) => !(end < iv.start || iv.end < start)
    case None => false
  }

  /** The registered states the point-in-time linker links to, in registry order. */
  function StatesActiveAt(facts: seq<Fact>, states: seq<Iri>, t: real): seq<Iri> {
    Filter(states, s => ActiveAt(facts, s, t))
  }

  /** The registered states the interval linker links to, in registry order. */
  function StatesOverlapping(facts: seq<Fact>, states: seq<Iri>, start: real, end: real): seq<Iri> {
    Filter(states, s => Overlaps(facts, s, start, end))
  }

  /** One `manifestsIn` link from `situation` to each state, in order. */
  function ManifestLinks(situation: Iri, states: seq<Iri>): (r: seq<Fact>)
    ensures |r| == |states|
    ensures forall i | 0 <= i < |r| :: r[i] == HoldsFact(situation, MANIFESTS_IN, states[i])
  {
    seq(|states|, i requires 0 <= i < |states| => HoldsFact(situation, MANIFESTS_IN, states[i]))
  }

  /**
   * The point-in-time linker links to exactly the registered states whose
   * closed interval contains `t`, each in registry order and none invented.
   */
  lemma StatesActiveAtSpec(facts: seq<Fact>, states: seq<Iri>, t: real, s: Iri)
    ensures s in StatesActiveAt(facts, states, t) <==>
      s in states && IntervalOf(facts, s).Some? && IntervalOf(facts, s).value.start <= t <= IntervalOf(facts, s).value.end
    ensures IsSubsequence(StatesActiveAt(facts, states, t), states)
  {
    FilterMembership(states, x => ActiveAt(facts, x, t), s);
    FilterIsSubsequence(states, x => ActiveAt(facts, x, t));
  }

  /**
   * The interval linker links to exactly the registered states whose closed
   * interval overlaps `[start, end]`, in registry order.
   */
  lemma StatesOverlappingSpec(facts: seq<Fact>, states: seq<Iri>, start: real, end: real, s: Iri)
    ensures s in StatesOverlapping(facts, states, start, end) <==>
      s in states && IntervalOf(facts, s).Some?
      && IntervalOf(facts, s).value.start <= end && start <= IntervalOf(facts, s).value.end
    ensures IsSubsequence(StatesOverlapping(facts, states, start, end), states)
  {
    FilterMembership(states, x => Overlaps(facts, x, start, end), s);
    FilterIsSubsequence(states, x => Overlaps(facts, x, start, end));
  }

  /** The overlap test is the right one for closed intervals: it holds exactly when they share a point. */
  lemma OverlapMeansCommonPoint(facts: seq<Fact>, s: Iri, start: real, end: real, t: real)
    requires start <= end
    requires IntervalOf(facts, s).Some? && IntervalOf(facts, s).value.start <= IntervalOf(facts, s).value.end
    ensures Overlaps(facts, s, start, end) ==>
      var c := if start < IntervalOf(facts, s).value.start then IntervalOf(facts, s).value.start else start;
      ActiveAt(facts, s, c) && start <= c <= end
    ensures ActiveAt(facts, s, t) && start <= t <= end ==> Overlaps(facts, s, start, end)
  {
  }

  /** A state is active at `t` exactly when it overlaps the one-point interval `[t, t]`. */
  lemma ActiveAtIsPointOverlap(facts: seq<Fact>, s: Iri, t: real)
    ensures ActiveAt(facts, s, t) <==> Overlaps(facts, s, t, t)
  {
  }

  lemma StatesActiveAtAppend(facts: seq<Fact>, states: seq<Iri>, s: Iri, t: real)
    ensures StatesActiveAt(facts, states + [s], t)
      == StatesActiveAt(facts, states, t) + (if ActiveAt(facts, s, t) then [s] else [])
  {
    FilterAppend(states, [s], x => ActiveAt(facts, x, t));
  }

  lemma StatesOverlappingAppend(facts: seq<Fact>, states: seq<Iri>, s: Iri, start: real, end: real)
    ensures StatesOverlapping(facts, states + [s], start, end)
      == StatesOverlapping(facts, states, start, end) + (if Overlaps(facts, s, start, end) then [s] else [])
  {
    FilterAppend(states, [s], x => Overlaps(facts, x, start, end));
  }

  /** Facts that give no state an interval leave the point-in-time selection unchanged. */
  lemma StatesActiveAtUntimed(facts: seq<Fact>, more: seq<Fact>, states: seq<Iri>, t: real)
    requires forall i | 0 <= i < |more| :: more[i].SituationFact? || more[i].HoldsFact?
    ensures StatesActiveAt(facts + more, states, t) == StatesActiveAt(facts, states, t)
  {
    forall i | 0 <= i < |states|
      ensures ActiveAt(facts + more, states[i], t) == ActiveAt(facts, states[i], t)
    {
      IntervalOfAppendOther(facts, more, states[i]);
    }
    FilterCongruent(states, x => ActiveAt(facts + more, x, t), x => ActiveAt(facts, x, t));
  }

  /** Facts that give no state an interval leave the interval selection unchanged. */
  lemma StatesOverlappingUntimed(facts: seq<Fact>, more: seq<Fact>, states: seq<Iri>, start: real, end: real)
    requires forall i | 0 <= i < |more| :: more[i].SituationFact? || more[i].HoldsFact?
    ensures StatesOverlapping(facts + more, states, start, end) == StatesOverlapping(facts, states, start, end)
  {
    forall i | 0 <= i < |states|
      ensures Overlaps(facts + more, states[i], start, end) == Overlaps(facts, states[i], start, end)
    {
      IntervalOfAppendOther(facts, more, states[i]);
    }
    FilterCongruent(states, x => Overlaps(facts + more, x, start, end), x => Overlaps(facts, x, start, end));
  }

  // ---------------------------------------------------------------------------
  // What converting one event does

  /** What a converter reads besides the event: `float`, the agent, and the episode's top-level action. */
  datatype Setting = Setting(parse: string -> Option<real>, agent: Iri, topLevelAction: Iri)

  /**
   * The effect of converting one event when the next fresh IRI is `next`:
   * what `convert` returns or raises, the facts it appends to the log in
   * order, how many IRIs it creates, and the states it registers.
   */
  datatype Outcome = Outcome(result: Result<Option<Iri>, ConvertError>, added: seq<Fact>, created: nat, registered: seq<Iri>)

  /** Raised before anything was asserted. */
  function Raised(err: ConvertError): Outcome {
    Outcome(Err(err), [], 0, [])
  }

  /** `convert_grasping_something`. */
  function GraspOutcome(c: Setting, e: Event, next: nat): Outcome {
    match ActorAndObject(c.parse, e)
    case Err(err) => Raised(err)
    case Ok(roles) => Outcome(Ok(Some(Generated(next))), GraspFacts(c.agent, roles, next), 2, [Generated(next)])
  }

  /**
   * A grasp state over the gripper, the grasped object and the agent; a
   * situation over the gripper and the grasped object only; the link; the
   * grasp binding, grasped object first.
   */
  function GraspFacts(agent: Iri, roles: Roles, next: nat): seq<Fact> {
    var s := Generated(next);
    var situation := Generated(next + 1);
    [StateFact(s, WithAgent([roles.first, roles.second], agent), roles.interval, GRASP_STATE),
     SituationFact(situation, agent, [roles.first, roles.second], DUL_SITUATION),
     HoldsFact(situation, MANIFESTS_IN, s),
     RoleBindingFact("object_grasped_in_situation", [roles.second, roles.first, situation])]
  }

  /** `convert_touching_situation`. */
  function ContactOutcome(c: Setting, e: Event, next: nat): Outcome {
    match EventInterval(c.parse, e)
    case Err(err) => Raised(err)
    case Ok(iv) => ContactOutcomeOver(c.agent, e.inContact, iv, next)
  }

  /**
   * The part of `convert_touching_situation` after the timestamps are read:
   * the state and the situation, both over the contacts and the agent, are
   * asserted before `participants[1]` can raise, and the state is registered
   * only after the binding.
   */
  function ContactOutcomeOver(agent: Iri, inContact: seq<Iri>, iv: Interval, next: nat): Outcome {
    var participants := WithAgent(inContact, agent);
    if |participants| < 2 then Outcome(Err(TooFewParticipants), ContactFacts(participants, agent, iv, next), 2, [])
    else
      var binding := RoleBindingFact("objects_touch_in_situation", [participants[0], participants[1], Generated(next + 1)]);
      Outcome(Ok(Some(Generated(next))), ContactFacts(participants, agent, iv, next) + [binding], 2, [Generated(next)])
  }

  function ContactFacts(participants: seq<Iri>, agent: Iri, iv: Interval, next: nat): seq<Fact> {
    var s := Generated(next);
    var situation := Generated(next + 1);
    [StateFact(s, participants, iv, CONTACT_STATE),
     SituationFact(situation, agent, participants, DUL_SITUATION),
     HoldsFact(situation, MANIFESTS_IN, s)]
  }

  /** `convert_supported_by_situation`. */
  function SupportOutcome(c: Setting, e: Event, next: nat): Outcome {
    match SupporteeAndSupporter(c.parse, e)
    case Err(err) => Raised(err)
    case Ok(roles) => Outcome(Ok(Some(Generated(next))), SupportFacts(c.agent, roles, next), 2, [Generated(next)])
  }

  /** A support state and its situation, both over supportee, supporter and agent; the link; the support binding. */
  function SupportFacts(agent: Iri, roles: Roles, next: nat): seq<Fact> {
    var s := Generated(next);
    var situation := Generated(next + 1);
    var participants := WithAgent([roles.first, roles.second], agent);
    [StateFact(s, participants, roles.interval, SUPPORT_STATE),
     SituationFact(situation, agent, participants, DUL_SITUATION),
     HoldsFact(situation, MANIFESTS_IN, s),
     RoleBindingFact("object_supported_in_situation", [roles.first, roles.second, situation])]
  }

  /** An implemented action converter: a sub-action for `task`, and the object in `role` when there is one. */
  function ActionOutcome(c: Setting, e: Event, next: nat, task: string, role: Option<string>): Outcome {
    match ActorAndObject(c.parse, e)
    case Err(err) => Raised(err)
    case Ok(roles) => Outcome(Ok(Some(Generated(next))), ActionFacts(c.topLevelAction, roles, next, task, role), 1, [])
  }

  function ActionFacts(topLevelAction: Iri, roles: Roles, next: nat, task: string, role: Option<string>): seq<Fact> {
    var a := Generated(next);
    [SubActionFact(a, topLevelAction, PHYSICAL_ACTION, task, roles.interval)]
      + (match role case None => [] case Some(rl) => [ParticipantRoleFact(a, roles.second, rl)])
  }

  /** The converter the dispatch table holds for each kind. */
  function KindOutcome(k: EventKind, c: Setting, e: Event, next: nat): Outcome {
    match k
    case GraspingSomething => GraspOutcome(c, e, next)
    case TouchingSituation => ContactOutcome(c, e, next)
    case SupportedBySituation => SupportOutcome(c, e, next)
    case PickUpSituation => ActionOutcome(c, e, next, PICKING_UP, None)
    case PreGraspSituation => ActionOutcome(c, e, next, GRASPING, Some(PATIENT))
    case ReachingForSomething => ActionOutcome(c, e, next, REACHING, Some(GOAL_ROLE))
    case SlicingSomething => Outcome(Ok(None), [], 0, [])
    case ContainerManipulation => Outcome(Ok(None), [], 0, [])
    case PutDownSituation => Outcome(Ok(None), [], 0, [])
    case SlidingSituation => Outcome(Ok(None), [], 0, [])
    case TransportingSituation => Outcome(Ok(None), [], 0, [])
  }

  /** `convert`: the table's converter for the event's class name; a name the table lacks raises `KeyError`. */
  function EventOutcome(c: Setting, e: Event, next: nat): Outcome {
    if e.className in Converters then KindOutcome(Converters[e.className], c, e, next)
    else Raised(UnknownEventType(e.className))
  }

  /**
   * `o` creates IRIs from `next` on only; when it returns an IRI, that IRI is
   * `next`, asserted by its first fact with the interval `iv`.
   */
  ghost predicate CreatesFrom(o: Outcome, next: nat, iv: Result<Interval, ConvertError>) {
    && (forall i | 0 <= i < |o.added| :: CreatesBelow(o.added[i], next + o.created))
    && (o.result.Ok? && o.result.value.Some? ==>
          && o.result.value.value == Generated(next) && o.added != []
          && GivesInterval(o.added[0], Generated(next)) && iv.Ok? && o.added[0].interval == iv.value)
  }

  /** `o` registers a state exactly when `registers` and it succeeds, and then registers the IRI it returns. */
  ghost predicate RegistersOnSuccess(o: Outcome, registers: bool) {
    && (o.registered != [] <==> registers && o.result.Ok?)
    && (o.registered != [] ==> o.result.value.Some? && o.registered == [o.result.value.value])
  }

  /** `facts` creates IRIs below `bound` only, and its first fact asserts `Generated(next)` with the interval `iv`. */
  ghost predicate AssertsFirst(facts: seq<Fact>, next: nat, bound: nat, iv: Interval) {
    && facts != [] && GivesInterval(facts[0], Generated(next)) && facts[0].interval == iv
    && forall i | 0 <= i < |facts| :: CreatesBelow(facts[i], bound)
  }

  lemma GraspOutcomeShape(c: Setting, e: Event, next: nat)
    ensures CreatesFrom(GraspOutcome(c, e, next), next, EventInterval(c.parse, e))
    ensures RegistersOnSuccess(GraspOutcome(c, e, next), true)
  {
    if ActorAndObject(c.parse, e).Ok? {
      var roles := ActorAndObject(c.parse, e).value;
      AllCreateBelow(GraspFacts(c.agent, roles, next), next + 2);
      assert AssertsFirst(GraspFacts(c.agent, roles, next), next, next + 2, roles.interval);
    }
  }

  lemma ContactOutcomeShape(c: Setting, e: Event, next: nat)
    ensures CreatesFrom(ContactOutcome(c, e, next), next, EventInterval(c.parse, e))
    ensures RegistersOnSuccess(ContactOutcome(c, e, next), true)
  {
    if EventInterval(c.parse, e).Ok? {
      ContactOutcomeOverShape(c.agent, e.inContact, EventInterval(c.parse, e), next);
    }
  }

  lemma ContactOutcomeOverShape(agent: Iri, inContact: seq<Iri>, iv: Result<Interval, ConvertError>, next: nat)
    requires iv.Ok?
    ensures CreatesFrom(ContactOutcomeOver(agent, inContact, iv.value, next), next, iv)
    ensures RegistersOnSuccess(ContactOutcomeOver(agent, inContact, iv.value, next), true)
  {
    var participants := WithAgent(inContact, agent);
    var facts := ContactFacts(participants, agent, iv.value, next);
    if |participants| < 2 {
      AllCreateBelow(facts, next + 2);
    } else {
      var binding := RoleBindingFact("objects_touch_in_situation", [participants[0], participants[1], Generated(next + 1)]);
      AllCreateBelow(facts + [binding], next + 2);
      assert AssertsFirst(facts + [binding], next, next + 2, iv.value);
    }
  }

  lemma SupportOutcomeShape(c: Setting, e: Event, next: nat)
    ensures CreatesFrom(SupportOutcome(c, e, next), next, EventInterval(c.parse, e))
    ensures RegistersOnSuccess(SupportOutcome(c, e, next), true)
  {
    if SupporteeAndSupporter(c.parse, e).Ok? {
      var roles := SupporteeAndSupporter(c.parse, e).value;
      AllCreateBelow(SupportFacts(c.agent, roles, next), next + 2);
      assert AssertsFirst(SupportFacts(c.agent, roles, next), next, next + 2, roles.interval);
    }
  }

  lemma ActionOutcomeShape(c: Setting, e: Event, next: nat, task: string, role: Option<string>)
    ensures CreatesFrom(ActionOutcome(c, e, next, task, role), next, EventInterval(c.parse, e))
    ensures RegistersOnSuccess(ActionOutcome(c, e, next, task, role), false)
    ensures ActionOutcome(c, e, next, task, role).result.Ok? ==> ActionOutcome(c, e, next, task, role).result.value.Some?
  {
    if ActorAndObject(c.parse, e).Ok? {
      var roles := ActorAndObject(c.parse, e).value;
      AllCreateBelow(ActionFacts(c.topLevelAction, roles, next, task, role), next + 1);
      assert AssertsFirst(ActionFacts(c.topLevelAction, roles, next, task, role), next, next + 1, roles.interval);
    }
  }

  /** Every fact of a list of at most four creates only IRIs below `bound`, checked one by one. */
  lemma AllCreateBelow(facts: seq<Fact>, bound: nat)
    requires |facts| <= 4
    requires |facts| > 0 ==> CreatesBelow(facts[0], bound)
    requires |facts| > 1 ==> CreatesBelow(facts[1], bound)
    requires |facts| > 2 ==> CreatesBelow(facts[2], bound)
    requires |facts| > 3 ==> CreatesBelow(facts[3], bound)
    ensures forall i | 0 <= i < |facts| :: CreatesBelow(facts[i], bound)
  {
    forall i | 0 <= i < |facts| ensures CreatesBelow(facts[i], bound) {
      if i == 0 {
      } else if i == 1 {
      } else if i == 2 {
      } else {
        assert i == 3;
      }
    }
  }

  lemma KindOutcomeShape(k: EventKind, c: Setting, e: Event, next: nat)
    ensures CreatesFrom(KindOutcome(k, c, e, next), next, EventInterval(c.parse, e))
    ensures RegistersOnSuccess(KindOutcome(k, c, e, next), IsStateKind(k))
    ensures KindOutcome(k, c, e, next).result.Ok? ==> (KindOutcome(k, c, e, next).result.value.None? <==> IsStubKind(k))
  {
    if IsStateKind(k) {
      StateKindShape(k, c, e, next);
    } else if IsStubKind(k) {
      StubKindOutcome(k, c, e, next);
    } else {
      ActionKindShape(k, c, e, next);
    }
  }

  /** A stub converter returns None and asserts nothing. */
  lemma StubKindOutcome(k: EventKind, c: Setting, e: Event, next: nat)
    requires IsStubKind(k)
    ensures KindOutcome(k, c, e, next) == Outcome(Ok(None), [], 0, [])
  {
    match k
    case SlicingSomething =>
    case ContainerManipulation =>
    case PutDownSituation =>
    case SlidingSituation =>
    case TransportingSituation =>
  }

  lemma StateKindShape(k: EventKind, c: Setting, e: Event, next: nat)
    requires IsStateKind(k)
    ensures CreatesFrom(KindOutcome(k, c, e, next), next, EventInterval(c.parse, e))
    ensures RegistersOnSuccess(KindOutcome(k, c, e, next), true)
    ensures KindOutcome(k, c, e, next).result.Ok? ==> KindOutcome(k, c, e, next).result.value.Some?
  {
    match k
    case GraspingSomething => GraspOutcomeShape(c, e, next);
    case TouchingSituation => ContactOutcomeShape(c, e, next);
    case SupportedBySituation => SupportOutcomeShape(c, e, next);
  }

  lemma ActionKindShape(k: EventKind, c: Setting, e: Event, next: nat)
    requires !IsStateKind(k) && !IsStubKind(k)
    ensures CreatesFrom(KindOutcome(k, c, e, next), next, EventInterval(c.parse, e))
    ensures RegistersOnSuccess(KindOutcome(k, c, e, next), false)
    ensures KindOutcome(k, c, e, next).result.Ok? ==> KindOutcome(k, c, e, next).result.value.Some?
  {
    match k
    case PickUpSituation => ActionOutcomeShape(c, e, next, PICKING_UP, None);
    case PreGraspSituation => ActionOutcomeShape(c, e, next, GRASPING, Some(PATIENT));
    case ReachingForSomething => ActionOutcomeShape(c, e, next, REACHING, Some(GOAL_ROLE));
  }

  /**
   * Only a state converter that succeeds registers a state: exactly one, the
   * first IRI it creates, which is also what `convert` returns. Any IRI
   * `convert` returns is that first fresh one. It returns None exactly for
   * the stub converters, which assert nothing; it raises `UnknownEventType`
   * exactly for a class name the table lacks, and then asserts nothing.
   */
  lemma OutcomeRegistration(c: Setting, e: Event, next: nat)
    ensures var o := EventOutcome(c, e, next);
      && (o.registered != [] <==> IsState(e) && o.result.Ok?)
      && (o.registered != [] ==> o.registered == [Generated(next)] && o.result == Ok(Some(Generated(next))))
      && (o.result.Ok? && o.result.value.Some? ==> o.result.value.value == Generated(next))
      && (o.result.Ok? && o.result.value.None? <==> e.className in Converters && IsStubKind(Converters[e.className]))
      && (o.result.Ok? && o.result.value.None? ==> o.added == [] && o.created == 0)
      && (o.result == Err(UnknownEventType(e.className)) <==> e.className !in Converters)
  {
    ClassificationMatchesTable(e);
    if e.className in Converters {
      var k := Converters[e.className];
      KindOutcomeShape(k, c, e, next);
      if IsStubKind(k) {
        StubKindOutcome(k, c, e, next);
      }
      KindNeverUnknown(k, c, e, next);
    }
  }

  /** No converter of the table raises `UnknownEventType`. */
  lemma KindNeverUnknown(k: EventKind, c: Setting, e: Event, next: nat)
    ensures !(KindOutcome(k, c, e, next).result.Err? && KindOutcome(k, c, e, next).result.error.UnknownEventType?)
  {
  }

  /**
   * What a conversion creates is fresh and the knowledge base answers for it:
   * every IRI in the log lies below the advanced counter, and the IRI
   * `convert` returns has the event's start and end as its interval, whatever
   * was asserted before.
   */
  lemma OutcomeInterval(c: Setting, e: Event, next: nat, facts: seq<Fact>)
    requires forall i | 0 <= i < |facts| :: CreatesBelow(facts[i], next)
    ensures var o := EventOutcome(c, e, next);
      && (forall i | 0 <= i < |facts + o.added| :: CreatesBelow((facts + o.added)[i], next + o.created))
      && (o.result.Ok? && o.result.value.Some? ==>
            EventInterval(c.parse, e).Ok?
            && IntervalOf(facts + o.added, o.result.value.value) == Some(EventInterval(c.parse, e).value))
  {
    var o := EventOutcome(c, e, next);
    if e.className in Converters {
      KindOutcomeShape(Converters[e.className], c, e, next);
    }
    assert CreatesFrom(o, next, EventInterval(c.parse, e));
    LogCreatesBelow(facts, o.added, next, next + o.created);
    if o.result.Ok? && o.result.value.Some? {
      FreshInterval(facts, o.added, next);
    }
  }

  lemma LogCreatesBelow(facts: seq<Fact>, added: seq<Fact>, next: nat, bound: nat)
    requires next <= bound
    requires forall i | 0 <= i < |facts| :: CreatesBelow(facts[i], next)
    requires forall i | 0 <= i < |added| :: CreatesBelow(added[i], bound)
    ensures forall i | 0 <= i < |facts + added| :: CreatesBelow((facts + added)[i], bound)
  {
    forall i | 0 <= i < |facts + added| ensures CreatesBelow((facts + added)[i], bound) {
      if i < |facts| {
        assert CreatesBelow(facts[i], next);
      } else {
        assert (facts + added)[i] == added[i - |facts|];
      }
    }
  }

  /** An entity asserted first by `added`, absent from a log below `next`, gets the interval asserted with it. */
  lemma FreshInterval(facts: seq<Fact>, added: seq<Fact>, next: nat)
    requires forall i | 0 <= i < |facts| :: CreatesBelow(facts[i], next)
    requires added != [] && GivesInterval(added[0], Generated(next))
    ensures IntervalOf(facts + added, Generated(next)) == Some(added[0].interval)
  {
    var x := Generated(next);
    forall i | 0 <= i < |facts| ensures !GivesInterval(facts[i], x) {
      assert CreatesBelow(facts[i], next);
    }
    IntervalOfFresh(facts, added[0], x);
    assert facts + added == (facts + [added[0]]) + added[1..];
    IntervalOfStable(facts + [added[0]], added[1..], x);
  }

  // ---------------------------------------------------------------------------
  // The converter

  /**
   * The converter of one episode. It writes into the knowledge base `kb`, on
   * behalf of `agent`, under the episode's `topLevelAction`; `parseFloat` is
   * Python's `float` on the text of a timestamp.
   */
  class EventConverter {
    const kb: KnowledgeBase
    const agent: Iri
    const topLevelAction: Iri
    const parseFloat: string -> Option<real>
    var assertedStates: seq<Iri>

    /** Every registered state is known to the knowledge base, with its interval and a situation. */
    ghost predicate Valid()
      reads this, kb
    {
      kb.Valid() && forall i | 0 <= i < |assertedStates| :: Registered(kb.facts, assertedStates[i])
    }

    /** What the converters read besides the event. */
    function Context(): Setting {
      Setting(parseFloat, agent, topLevelAction)
    }

    /** The log, the counter and the registry have moved from `facts`, `next` and `states` by exactly `o`. */
    ghost predicate Applied(o: Outcome, facts: seq<Fact>, next: nat, states: seq<Iri>)
      reads this, kb
    {
      kb.facts == facts + o.added && kb.nextId == next + o.created && assertedStates == states + o.registered
    }

    constructor (kb: KnowledgeBase, agent: Iri, topLevelAction: Iri, parseFloat: string -> Option<real>)
      requires kb.Valid()
      ensures Valid()
      ensures this.kb == kb && this.agent == agent && this.topLevelAction == topLevelAction
      ensures this.parseFloat == parseFloat && assertedStates == []
    {
      this.kb := kb;
      this.agent := agent;
      this.topLevelAction := topLevelAction;
      this.parseFloat := parseFloat;
      assertedStates := [];
    }

    /** `ensure_once(kb_project(...))` of a fact that creates nothing. */
    method Project(f: Fact)
      requires Valid() && CreatesNothing(f)
      modifies kb
      ensures Valid()
      ensures kb.facts == old(kb.facts) + [f] && kb.nextId == old(kb.nextId)
    {
      kb.Project(f);
      forall i | 0 <= i < |assertedStates| ensures Registered(kb.facts, assertedStates[i]) {
        RegisteredStable(old(kb.facts), [f], assertedStates[i]);
      }
    }

    /** `_assert_state`: adds the agent to the caller's list if absent, then asserts the state. */
    method AssertState(participants: IriList, interval: Interval, stateType: string) returns (s: Iri)
      requires Valid()
      modifies participants, kb
      ensures Valid()
      ensures participants.items == WithAgent(old(participants.items), agent)
      ensures s == Generated(old(kb.nextId)) && kb.nextId == old(kb.nextId) + 1
      ensures kb.facts == old(kb.facts) + [StateFact(s, participants.items, interval, stateType)]
      ensures IntervalOf(kb.facts, s) == Some(interval)
    {
      if agent !in participants.items {
        participants.Append(agent);
      }
      s := kb.AssertState(participants.items, interval, stateType);
      forall i | 0 <= i < |assertedStates| ensures Registered(kb.facts, assertedStates[i]) {
        RegisteredStable(old(kb.facts), [StateFact(s, participants.items, interval, stateType)], assertedStates[i]);
      }
    }

    /** `_assert_situation_for_state`: a situation over `objects` that manifests in the state. */
    method AssertSituationForState(state: Iri, objects: seq<Iri>) returns (situation: Iri)
      requires Valid()
      modifies kb
      ensures Valid()
      ensures situation == Generated(old(kb.nextId)) && kb.nextId == old(kb.nextId) + 1
      ensures kb.facts == old(kb.facts) + [SituationFact(situation, agent, objects, DUL_SITUATION),
                                           HoldsFact(situation, MANIFESTS_IN, state)]
      ensures IntervalOf(kb.facts, state) == IntervalOf(old(kb.facts), state)
    {
      situation := kb.AssertSituation(agent, objects, DUL_SITUATION);
      forall i | 0 <= i < |assertedStates| ensures Registered(kb.facts, assertedStates[i]) {
        RegisteredStable(old(kb.facts), [SituationFact(situation, agent, objects, DUL_SITUATION)], assertedStates[i]);
      }
      Project(HoldsFact(situation, MANIFESTS_IN, state));
      UntimedSuffix(old(kb.facts), kb.facts, state);
    }

    /**
     * Projects a state's role binding and adds the state, whose interval is
     * known and whose situation was just linked to it, to the registry.
     */
    method BindAndRegister(state: Iri, binding: Fact)
      requires Valid() && binding.RoleBindingFact? && IntervalOf(kb.facts, state).Some?
      requires |kb.facts| > 0 && ManifestsIn(kb.facts[|kb.facts| - 1], state)
      modifies this, kb
      ensures Valid()
      ensures kb.facts == old(kb.facts) + [binding] && kb.nextId == old(kb.nextId)
      ensures assertedStates == old(assertedStates) + [state]
    {
      ghost var linked := kb.facts;
      Project(binding);
      IntervalOfStable(linked, [binding], state);
      assert kb.facts[|linked| - 1] == linked[|linked| - 1];
      assertedStates := assertedStates + [state];
    }

    /**
     * `convert_grasping_something`: a grasp state over the gripper, the
     * grasped object and the agent; a situation over the gripper and the
     * grasped object only (a fresh list is passed); the grasp role binding.
     */
    method ConvertGraspingSomething(e: Event) returns (r: Result<Option<Iri>, ConvertError>)
      requires Valid()
      modifies this, kb
      ensures Valid()
      ensures r == GraspOutcome(Context(), e, old(kb.nextId)).result
      ensures Applied(GraspOutcome(Context(), e, old(kb.nextId)), old(kb.facts), old(kb.nextId), old(assertedStates))
    {
      var roles := ActorAndObject(parseFloat, e);
      if roles.Err? {
        return Err(roles.error);
      }
      var state := AssertGrasp(roles.value);
      r := Ok(Some(state));
    }

    /** The part of `convert_grasping_something` after the gripper, the object and the timestamps are read. */
    method AssertGrasp(roles: Roles) returns (state: Iri)
      requires Valid()
      modifies this, kb
      ensures Valid()
      ensures state == Generated(old(kb.nextId))
      ensures Applied(Outcome(Ok(Some(state)), GraspFacts(agent, roles, old(kb.nextId)), 2, [state]),
                      old(kb.facts), old(kb.nextId), old(assertedStates))
    {
      var gripper, graspedObject := roles.first, roles.second;
      var participants := new IriList([gripper, graspedObject]);
      state := AssertState(participants, roles.interval, GRASP_STATE);
      ghost var stateFact := StateFact(state, participants.items, roles.interval, GRASP_STATE);
      var situation := AssertSituationForState(state, [gripper, graspedObject]);
      ghost var linked := kb.facts;
      var binding := RoleBindingFact("object_grasped_in_situation", [graspedObject, gripper, situation]);
      BindAndRegister(state, binding);
      AppendFour(old(kb.facts), stateFact, linked[|linked| - 2], linked[|linked| - 1], binding, kb.facts);
    }

    /**
     * `convert_touching_situation`: a contact state over the objects in
     * contact and the agent; the situation gets the same (extended) list; the
     * role binding reads its first two entries, which fails after the state
     * and the situation are asserted when the list holds only the agent.
     */
    method ConvertTouchingSituation(e: Event) returns (r: Result<Option<Iri>, ConvertError>)
      requires Valid()
      modifies this, kb
      ensures Valid()
      ensures r == ContactOutcome(Context(), e, old(kb.nextId)).result
      ensures Applied(ContactOutcome(Context(), e, old(kb.nextId)), old(kb.facts), old(kb.nextId), old(assertedStates))
    {
      var iv := EventInterval(parseFloat, e);
      if iv.Err? {
        return Err(iv.error);
      }
      r := AssertContact(e.inContact, iv.value);
    }

    /** The part of `convert_touching_situation` after the timestamps are read. */
    method AssertContact(inContact: seq<Iri>, iv: Interval) returns (r: Result<Option<Iri>, ConvertError>)
      requires Valid()
      modifies this, kb
      ensures Valid()
      ensures r == ContactOutcomeOver(agent, inContact, iv, old(kb.nextId)).result
      ensures Applied(ContactOutcomeOver(agent, inContact, iv, old(kb.nextId)), old(kb.facts), old(kb.nextId), old(assertedStates))
    {
      var participants := new IriList(inContact);
      var state := AssertState(participants, iv, CONTACT_STATE);
      var items := participants.items;
      ghost var stateFact := StateFact(state, items, iv, CONTACT_STATE);
      var situation := AssertSituationForState(state, items);
      ghost var linked := kb.facts;
      AppendThree(old(kb.facts), stateFact, linked[|linked| - 2], linked[|linked| - 1], linked);
      if |items| < 2 {
        return Err(TooFewParticipants);
      }
      var binding := RoleBindingFact("objects_touch_in_situation", [items[0], items[1], situation]);
      BindAndRegister(state, binding);
      r := Ok(Some(state));
    }

    /**
     * `convert_supported_by_situation`: a support state over the supportee,
     * the supporter and the agent; the situation gets the same (extended) list.
     */
    method ConvertSupportedBySituation(e: Event) returns (r: Result<Option<Iri>, ConvertError>)
      requires Valid()
      modifies this, kb
      ensures Valid()
      ensures r == SupportOutcome(Context(), e, old(kb.nextId)).result
      ensures Applied(SupportOutcome(Context(), e, old(kb.nextId)), old(kb.facts), old(kb.nextId), old(assertedStates))
    {
      var roles := SupporteeAndSupporter(parseFloat, e);
      if roles.Err? {
        return Err(roles.error);
      }
      var state := AssertSupport(roles.value);
      r := Ok(Some(state));
    }

    /** The part of `convert_supported_by_situation` after the supportee, the supporter and the timestamps are read. */
    method AssertSupport(roles: Roles) returns (state: Iri)
      requires Valid()
      modifies this, kb
      ensures Valid()
      ensures state == Generated(old(kb.nextId))
      ensures Applied(Outcome(Ok(Some(state)), SupportFacts(agent, roles, old(kb.nextId)), 2, [state]),
                      old(kb.facts), old(kb.nextId), old(assertedStates))
    {
      var supportee, supporter := roles.first, roles.second;
      var participants := new IriList([supportee, supporter]);
      state := AssertState(participants, roles.interval, SUPPORT_STATE);
      ghost var stateFact := StateFact(state, participants.items, roles.interval, SUPPORT_STATE);
      var situation := AssertSituationForState(state, participants.items);
      ghost var linked := kb.facts;
      var binding := RoleBindingFact("object_supported_in_situation", [supportee, supporter, situation]);
      BindAndRegister(state, binding);
      AppendFour(old(kb.facts), stateFact, linked[|linked| - 2], linked[|linked| - 1], binding, kb.facts);
    }

    /**
     * The three implemented action converters: a sub-action of the top-level
     * action for `task`, plus, when `role` is given, the object in that role.
     * The actor is read (and must be present) but not asserted.
     */
    method ConvertAction(e: Event, task: string, role: Option<string>) returns (r: Result<Option<Iri>, ConvertError>)
      requires Valid()
      modifies kb
      ensures Valid()
      ensures r == ActionOutcome(Context(), e, old(kb.nextId), task, role).result
      ensures Applied(ActionOutcome(Context(), e, old(kb.nextId), task, role), old(kb.facts), old(kb.nextId), old(assertedStates))
    {
      var roles := ActorAndObject(parseFloat, e);
      if roles.Err? {
        return Err(roles.error);
      }
      var action := AssertAction(roles.value, task, role);
      r := Ok(Some(action));
    }

    /** The part of an action converter after the actor, the object and the timestamps are read. */
    method AssertAction(roles: Roles, task: string, role: Option<string>) returns (action: Iri)
      requires Valid()
      modifies kb
      ensures Valid()
      ensures action == Generated(old(kb.nextId))
      ensures Applied(Outcome(Ok(Some(action)), ActionFacts(topLevelAction, roles, old(kb.nextId), task, role), 1, []),
                      old(kb.facts), old(kb.nextId), old(assertedStates))
    {
      action := AddSubaction(task, roles.interval);
      if role.Some? {
        Project(ParticipantRoleFact(action, roles.second, role.value));
      }
    }

    /** `add_subaction_with_task` under the top-level action, keeping the registry valid. */
    method AddSubaction(task: string, interval: Interval) returns (a: Iri)
      requires Valid()
      modifies kb
      ensures Valid()
      ensures a == Generated(old(kb.nextId)) && kb.nextId == old(kb.nextId) + 1
      ensures kb.facts == old(kb.facts) + [SubActionFact(a, topLevelAction, PHYSICAL_ACTION, task, interval)]
    {
      a := kb.AddSubactionWithTask(topLevelAction, PHYSICAL_ACTION, task, interval);
      forall i | 0 <= i < |assertedStates| ensures Registered(kb.facts, assertedStates[i]) {
        RegisteredStable(old(kb.facts), [SubActionFact(a, topLevelAction, PHYSICAL_ACTION, task, interval)], assertedStates[i]);
      }
    }

    /** `create_anonymous_action`: a sub-action for the generic physical task. */
    method CreateAnonymousAction(start: real, end: real) returns (a: Iri)
      requires Valid()
      modifies kb
      ensures Valid()
      ensures a == Generated(old(kb.nextId)) && kb.nextId == old(kb.nextId) + 1
      ensures kb.facts == old(kb.facts) + [SubActionFact(a, topLevelAction, PHYSICAL_ACTION, PHYSICAL_TASK, Interval(start, end))]
      ensures IntervalOf(kb.facts, a) == Some(Interval(start, end))
    {
      kb.NextIsFresh();
      IntervalOfFresh(kb.facts, SubActionFact(Generated(kb.nextId), topLevelAction, PHYSICAL_ACTION, PHYSICAL_TASK, Interval(start, end)), Generated(kb.nextId));
      a := AddSubaction(PHYSICAL_TASK, Interval(start, end));
    }

    /**
     * `convert`: looks the event's class name up in the dispatch table and
     * runs that converter. An unknown name raises before anything is asserted.
     * Only a state converter that succeeds registers a state, exactly one, the
     * one it returns; the stub converters return None and assert nothing.
     */
    method Convert(e: Event) returns (r: Result<Option<Iri>, ConvertError>)
      requires Valid()
      modifies this, kb
      ensures Valid()
      ensures r == EventOutcome(Context(), e, old(kb.nextId)).result
      ensures Applied(EventOutcome(Context(), e, old(kb.nextId)), old(kb.facts), old(kb.nextId), old(assertedStates))
      ensures old(kb.facts) <= kb.facts
      ensures e.className !in Converters ==>
        r == Err(UnknownEventType(e.className)) && kb.facts == old(kb.facts) && kb.nextId == old(kb.nextId)
      ensures e.className in Converters && IsStubKind(Converters[e.className]) ==>
        r == Ok(None) && kb.facts == old(kb.facts) && kb.nextId == old(kb.nextId)
      ensures IsState(e) && r.Ok? ==>
        r.value.Some? && assertedStates == old(assertedStates) + [r.value.value]
      ensures !(IsState(e) && r.Ok?) ==> assertedStates == old(assertedStates)
    {
      if e.className !in Converters {
        return Err(UnknownEventType(e.className));
      }
      ClassificationMatchesTable(e);
      OutcomeRegistration(Context(), e, kb.nextId);
      var kind := Converters[e.className];
      if IsStateKind(kind) {
        r := ConvertStateOfKind(kind, e);
      } else if IsStubKind(kind) {
        r := Ok(None);
      } else {
        r := ConvertActionOfKind(kind, e);
      }
    }

    /** The table's entries for the three state kinds, each running its own converter. */
    method ConvertStateOfKind(kind: EventKind, e: Event) returns (r: Result<Option<Iri>, ConvertError>)
      requires Valid() && IsStateKind(kind)
      modifies this, kb
      ensures Valid()
      ensures r == KindOutcome(kind, Context(), e, old(kb.nextId)).result
      ensures Applied(KindOutcome(kind, Context(), e, old(kb.nextId)), old(kb.facts), old(kb.nextId), old(assertedStates))
    {
      match kind
      case GraspingSomething => r := ConvertGraspingSomething(e);
      case TouchingSituation => r := ConvertTouchingSituation(e);
      case SupportedBySituation => r := ConvertSupportedBySituation(e);
    }

    /** The table's entries for the three implemented action kinds, each running its own converter. */
    method ConvertActionOfKind(kind: EventKind, e: Event) returns (r: Result<Option<Iri>, ConvertError>)
      requires Valid() && !IsStateKind(kind) && !IsStubKind(kind)
      modifies kb
      ensures Valid()
      ensures r == KindOutcome(kind, Context(), e, old(kb.nextId)).result
      ensures Applied(KindOutcome(kind, Context(), e, old(kb.nextId)), old(kb.facts), old(kb.nextId), old(assertedStates))
    {
      match kind
      case PickUpSituation => r := ConvertAction(e, PICKING_UP, None);
      case PreGraspSituation => r := ConvertAction(e, GRASPING, Some(PATIENT));
      case ReachingForSomething => r := ConvertAction(e, REACHING, Some(GOAL_ROLE));
    }

    /**
     * `_assert_situation_manifesting_at_timestamp`: a new situation over
     * `objects`, linked by `manifestsIn` to every registered state whose
     * interval contains `t`, in registry order.
     */
    method AssertSituationManifestingAtTimestamp(t: real, objects: seq<Iri>) returns (situation: Iri)
      requires Valid()
      modifies kb
      ensures Valid()
      ensures situation == Generated(old(kb.nextId)) && kb.nextId == old(kb.nextId) + 1
      ensures kb.facts == old(kb.facts) + [SituationFact(situation, agent, objects, DUL_SITUATION)]
                          + ManifestLinks(situation, StatesActiveAt(old(kb.facts), assertedStates, t))
    {
      situation := kb.AssertSituation(agent, objects, DUL_SITUATION);
      forall i | 0 <= i < |assertedStates| ensures Registered(kb.facts, assertedStates[i]) {
        RegisteredStable(old(kb.facts), [SituationFact(situation, agent, objects, DUL_SITUATION)], assertedStates[i]);
      }
      StatesActiveAtUntimed(old(kb.facts), [SituationFact(situation, agent, objects, DUL_SITUATION)], assertedStates, t);
      LinkStatesActiveAt(situation, t);
    }

    /** The loop of the point-in-time linker: a link to each registered state active at `t`. */
    method LinkStatesActiveAt(situation: Iri, t: real)
      requires Valid()
      modifies kb
      ensures Valid() && kb.nextId == old(kb.nextId)
      ensures kb.facts == old(kb.facts) + ManifestLinks(situation, StatesActiveAt(old(kb.facts), assertedStates, t))
    {
      ghost var before := kb.facts;
      var i := 0;
      while i < |assertedStates|
        invariant 0 <= i <= |assertedStates|
        invariant Valid() && kb.nextId == old(kb.nextId)
        invariant kb.facts == before + ManifestLinks(situation, StatesActiveAt(before, assertedStates[..i], t))
      {
        LinkIfActiveAt(situation, i, t, before);
        i := i + 1;
      }
      assert assertedStates[..i] == assertedStates;
    }

    /** One turn of that loop: the link to the `i`-th registered state, when its interval passes the test. */
    method LinkIfActiveAt(situation: Iri, i: nat, t: real, ghost before: seq<Fact>)
      requires Valid() && i < |assertedStates|
      requires kb.facts == before + ManifestLinks(situation, StatesActiveAt(before, assertedStates[..i], t))
      modifies kb
      ensures Valid() && kb.nextId == old(kb.nextId)
      ensures kb.facts == before + ManifestLinks(situation, StatesActiveAt(before, assertedStates[..i + 1], t))
    {
      var state := assertedStates[i];
      assert Registered(kb.facts, state);
      UntimedSuffix(before, kb.facts, state);
      var iv := IntervalOf(kb.facts, state);
      if iv.value.start <= t <= iv.value.end {
        Project(HoldsFact(situation, MANIFESTS_IN, state));
      }
      assert assertedStates[..i + 1] == assertedStates[..i] + [state];
      StatesActiveAtAppend(before, assertedStates[..i], state, t);
    }

    /**
     * `_assert_situation_transition_manifesting_during_interval`: a new
     * situation transition (no objects) linked by `manifestsIn` to every
     * registered state whose interval overlaps `[start, end]`, in registry order.
     */
    method AssertSituationTransitionManifestingDuringInterval(start: real, end: real) returns (transition: Iri)
      requires Valid()
      modifies kb
      ensures Valid()
      ensures transition == Generated(old(kb.nextId)) && kb.nextId == old(kb.nextId) + 1
      ensures kb.facts == old(kb.facts) + [SituationFact(transition, agent, [], SITUATION_TRANSITION)]
                          + ManifestLinks(transition, StatesOverlapping(old(kb.facts), assertedStates, start, end))
    {
      transition := kb.AssertSituation(agent, [], SITUATION_TRANSITION);
      forall i | 0 <= i < |assertedStates| ensures Registered(kb.facts, assertedStates[i]) {
        RegisteredStable(old(kb.facts), [SituationFact(transition, agent, [], SITUATION_TRANSITION)], assertedStates[i]);
      }
      StatesOverlappingUntimed(old(kb.facts), [SituationFact(transition, agent, [], SITUATION_TRANSITION)], assertedStates, start, end);
      LinkStatesOverlapping(transition, start, end);
    }

    /** The loop of the interval linker: a link to each registered state overlapping `[start, end]`. */
    method LinkStatesOverlapping(transition: Iri, start: real, end: real)
      requires Valid()
      modifies kb
      ensures Valid() && kb.nextId == old(kb.nextId)
      ensures kb.facts == old(kb.facts) + ManifestLinks(transition, StatesOverlapping(old(kb.facts), assertedStates, start, end))
    {
      ghost var before := kb.facts;
      var i := 0;
      while i < |assertedStates|
        invariant 0 <= i <= |assertedStates|
        invariant Valid() && kb.nextId == old(kb.nextId)
        invariant kb.facts == before + ManifestLinks(transition, StatesOverlapping(before, assertedStates[..i], start, end))
      {
        LinkIfOverlapping(transition, i, start, end, before);
        i := i + 1;
      }
      assert assertedStates[..i] == assertedStates;
    }

    /** One turn of that loop: the link to the `i`-th registered state, when its interval passes the test. */
    method LinkIfOverlapping(transition: Iri, i: nat, start: real, end: real, ghost before: seq<Fact>)
      requires Valid() && i < |assertedStates|
      requires kb.facts == before + ManifestLinks(transition, StatesOverlapping(before, assertedStates[..i], start, end))
      modifies kb
      ensures Valid() && kb.nextId == old(kb.nextId)
      ensures kb.facts == before + ManifestLinks(transition, StatesOverlapping(before, assertedStates[..i + 1], start, end))
    {
      var state := assertedStates[i];
      assert Registered(kb.facts, state);
      UntimedSuffix(before, kb.facts, state);
      var iv := IntervalOf(kb.facts, state);
      if !(end < iv.value.start || iv.value.end < start) {
        Project(HoldsFact(transition, MANIFESTS_IN, state));
      }
      assert assertedStates[..i + 1] == assertedStates[..i] + [state];
      StatesOverlappingAppend(before, assertedStates[..i], state, start, end);
    }

    /**
     * `_assert_situation_transition_for_action`: looks up the action's
     * interval (raising when the knowledge base has none), builds the
     * transition over it, and links it to the initial and terminal situations
     * and to the action.
     */
    method AssertSituationTransitionForAction(action: Iri, initial: Iri, terminal: Iri)
      returns (r: Result<Iri, ConvertError>)
      requires Valid()
      modifies kb
      ensures Valid()
      ensures match IntervalOf(old(kb.facts), action)
        case None =>
          r == Err(NoTimeInterval(action)) && kb.facts == old(kb.facts) && kb.nextId == old(kb.nextId)
        case Some(iv) =>
          var transition := Generated(old(kb.nextId));
          && r == Ok(transition) && kb.nextId == old(kb.nextId) + 1
          && kb.facts == old(kb.facts) + [SituationFact(transition, agent, [], SITUATION_TRANSITION)]
               + ManifestLinks(transition, StatesOverlapping(old(kb.facts), assertedStates, iv.start, iv.end))
               + [HoldsFact(transition, HAS_INITIAL_SITUATION, initial),
                  HoldsFact(transition, HAS_TERMINAL_SITUATION, terminal),
                  HoldsFact(transition, MANIFESTS_IN, action)]
    {
      var iv := IntervalOf(kb.facts, action);
      if iv.None? {
        return Err(NoTimeInterval(action));
      }
      var transition := AssertSituationTransitionManifestingDuringInterval(iv.value.start, iv.value.end);
      Project(HoldsFact(transition, HAS_INITIAL_SITUATION, initial));
      Project(HoldsFact(transition, HAS_TERMINAL_SITUATION, terminal));
      Project(HoldsFact(transition, MANIFESTS_IN, action));
      r := Ok(transition);
    }
  }

  /** Facts appended after a situation was created give no state an interval. */
  lemma UntimedSuffix(before: seq<Fact>, facts: seq<Fact>, s: Iri)
    requires before <= facts
    requires forall i | |before| <= i < |facts| :: facts[i].SituationFact? || facts[i].HoldsFact?
    ensures IntervalOf(facts, s) == IntervalOf(before, s)
  {
    var more := facts[|before|..];
    assert facts == before + more;
    IntervalOfAppendOther(before, more, s);
  }
}

/**
 * The knowledge base that the converter writes the episode into, seen only
 * through what the converter does with it: every assertion appends a fact to
 * a log, and every assertion that creates an entity (a state, a situation, a
 * sub-action) hands out a fresh IRI. Querying is limited to the one question
 * the converter asks, `has_time_interval(Entity, Start, End)`, answered from
 * the log. The query language and the reasoner behind it are not modelled.
 */
module Knowledge {
  import opened Common

  const SOMA := "http://www.ease-crc.org/ont/SOMA.owl#"
  const DUL := "http://www.ontologydesignpatterns.org/ont/dul/DUL.owl#"

  const MANIFESTS_IN := SOMA + "manifestsIn"
  const HAS_INITIAL_SITUATION := SOMA + "hasInitialSituation"
  const HAS_TERMINAL_SITUATION := SOMA + "hasTerminalSituation"

  /** A closed time interval `[start, end]`; timestamps are only ever compared. */
  datatype Interval = Interval(start: real, end: real)

  /** A pose sample of one frame, as `Datapoint.from_unreal` receives it. */
  datatype Datapoint = Datapoint(timestamp: real, frame: Iri, reference: string, pose: seq<real>)

  datatype Fact =
      /** `assert_state(participants, start, end, state_type)` */
    | StateFact(state: Iri, participants: seq<Iri>, interval: Interval, stateType: string)
      /** `assert_situation(agent, objects, situation_type)` */
    | SituationFact(situation: Iri, agent: Iri, objects: seq<Iri>, situationType: string)
      /** `add_subaction_with_task(parent, sub_action_type, task_type, start, end)` */
    | SubActionFact(action: Iri, parent: Iri, subActionType: string, taskType: string, interval: Interval)
      /** `add_participant_with_role(action, participant, role)` */
    | ParticipantRoleFact(action: Iri, participant: Iri, role: string)
      /** `kb_project(holds(subject, relation, object))` */
    | HoldsFact(subject: Iri, relation: string, target: Iri)
      /** `kb_project(binding(args...))`, e.g. `object_grasped_in_situation` */
    | RoleBindingFact(binding: string, args: seq<Iri>)
      /** `kb_project([is_individual(o), instance_of(o, type)])` */
    | ObjectFact(individual: Iri, objectType: string)
      /** `assert_tf_trajectory(points)` */
    | TrajectoryFact(points: seq<Datapoint>)

  /** States, situations and sub-actions are the facts that create an entity; the others only relate existing ones. */
  predicate CreatesNothing(f: Fact) {
    !f.StateFact? && !f.SituationFact? && !f.SubActionFact?
  }

  /** `f` answers `has_time_interval(x, Start, End)`: states and sub-actions carry an interval. */
  predicate GivesInterval(f: Fact, x: Iri) {
    (f.StateFact? && f.state == x) || (f.SubActionFact? && f.action == x)
  }

  /** The first answer to `has_time_interval(x, Start, End)`, as `ensure_once` takes it. */
  function IntervalOf(facts: seq<Fact>, x: Iri): (r: Option<Interval>)
  {
    if facts == [] then None
    else if GivesInterval(facts[0], x) then Some(facts[0].interval)
    else IntervalOf(facts[1..], x)
  }

  /** Appending to the log never changes an answer that was already there. */
  lemma {:induction false} IntervalOfStable(facts: seq<Fact>, more: seq<Fact>, x: Iri)
    requires IntervalOf(facts, x).Some?
    ensures IntervalOf(facts + more, x) == IntervalOf(facts, x)
  {
    assert (facts + more)[0] == facts[0];
    if !GivesInterval(facts[0], x) {
      assert (facts + more)[1..] == facts[1..] + more;
      IntervalOfStable(facts[1..], more, x);
    }
  }

  /** Appending facts that carry no interval for `x` changes no answer about `x`. */
  lemma {:induction false} IntervalOfAppendOther(facts: seq<Fact>, more: seq<Fact>, x: Iri)
    requires forall i | 0 <= i < |more| :: !GivesInterval(more[i], x)
    ensures IntervalOf(facts + more, x) == IntervalOf(facts, x)
    decreases |facts|
  {
    if facts == [] {
      assert facts + more == more;
      IntervalOfNone(more, x);
    } else {
      assert (facts + more)[0] == facts[0];
      assert (facts + more)[1..] == facts[1..] + more;
      IntervalOfAppendOther(facts[1..], more, x);
    }
  }

  /** The log answers `has_time_interval(x, ...)` exactly when one of its facts gives `x` an interval. */
  lemma {:induction false} IntervalOfSomeIff(facts: seq<Fact>, x: Iri)
    ensures IntervalOf(facts, x).Some? <==> exists i | 0 <= i < |facts| :: GivesInterval(facts[i], x)
    decreases |facts|
  {
    if facts != [] {
      IntervalOfSomeIff(facts[1..], x);
      assert forall i | 1 <= i < |facts| :: facts[i] == facts[1..][i - 1];
    }
  }

  lemma IntervalOfNone(facts: seq<Fact>, x: Iri)
    requires forall i | 0 <= i < |facts| :: !GivesInterval(facts[i], x)
    ensures IntervalOf(facts, x).None?
  {
    IntervalOfSomeIff(facts, x);
  }

  /** The interval asserted together with a fresh entity is the one the log gives back. */
  lemma {:induction false} IntervalOfFresh(facts: seq<Fact>, f: Fact, x: Iri)
    requires forall i | 0 <= i < |facts| :: !GivesInterval(facts[i], x)
    requires GivesInterval(f, x)
    ensures IntervalOf(facts + [f], x) == Some(f.interval)
    decreases |facts|
  {
    if facts == [] {
      assert facts + [f] == [f];
    } else {
      assert (facts + [f])[0] == facts[0];
      assert (facts + [f])[1..] == facts[1..] + [f];
      IntervalOfFresh(facts[1..], f, x);
    }
  }

  /** Every generated IRI a fact creates lies below `bound`. */
  predicate CreatesBelow(f: Fact, bound: nat) {
    && (f.StateFact? && f.state.Generated? ==> f.state.id < bound)
    && (f.SituationFact? && f.situation.Generated? ==> f.situation.id < bound)
    && (f.SubActionFact? && f.action.Generated? ==> f.action.id < bound)
  }

  /** The knowledge-base session of one episode: its fact log and its IRI counter. */
  class KnowledgeBase {
    var facts: seq<Fact>
    var nextId: nat

    /** No generated IRI has been handed out twice: each lies below the counter. */
    ghost predicate Valid()
      reads this
    {
      forall i | 0 <= i < |facts| :: CreatesBelow(facts[i], nextId)
    }

    /** No fact in the log gives an interval for the IRI the counter will hand out next. */
    lemma NextIsFresh()
      requires Valid()
      ensures forall i | 0 <= i < |facts| :: !GivesInterval(facts[i], Generated(nextId))
    {
      forall i | 0 <= i < |facts|
        ensures !GivesInterval(facts[i], Generated(nextId))
      {
        assert CreatesBelow(facts[i], nextId);
      }
    }

    constructor ()
      ensures Valid() && facts == [] && nextId == 0
    {
      facts := [];
      nextId := 0;
    }

    /** Hands out a fresh IRI. */
    method NewIri() returns (x: Iri)
      requires Valid()
      modifies this
      ensures Valid()
      ensures x == Generated(old(nextId)) && nextId == old(nextId) + 1 && facts == old(facts)
    {
      x := Generated(nextId);
      nextId := nextId + 1;
      forall i | 0 <= i < |facts| ensures CreatesBelow(facts[i], nextId) {
        assert CreatesBelow(facts[i], nextId - 1);
      }
    }

    /** `kb_project(...)` of a fact that creates nothing new. */
    method Project(f: Fact)
      requires Valid() && CreatesNothing(f)
      modifies this
      ensures Valid()
      ensures facts == old(facts) + [f] && nextId == old(nextId)
    {
      facts := facts + [f];
    }

    /** `assert_state`: a fresh state with its participants and interval. */
    method AssertState(participants: seq<Iri>, interval: Interval, stateType: string) returns (s: Iri)
      requires Valid()
      modifies this
      ensures Valid()
      ensures s == Generated(old(nextId)) && nextId == old(nextId) + 1
      ensures facts == old(facts) + [StateFact(s, participants, interval, stateType)]
      ensures IntervalOf(facts, s) == Some(interval)
    {
      NextIsFresh();
      IntervalOfFresh(facts, StateFact(Generated(nextId), participants, interval, stateType), Generated(nextId));
      s := NewIri();
      facts := facts + [StateFact(s, participants, interval, stateType)];
    }

    /** `assert_situation`: a fresh situation of the given type over the given objects. */
    method AssertSituation(agent: Iri, objects: seq<Iri>, situationType: string) returns (s: Iri)
      requires Valid()
      modifies this
      ensures Valid()
      ensures s == Generated(old(nextId)) && nextId == old(nextId) + 1
      ensures facts == old(facts) + [SituationFact(s, agent, objects, situationType)]
    {
      s := NewIri();
      facts := facts + [SituationFact(s, agent, objects, situationType)];
    }

    /** `add_subaction_with_task`: a fresh sub-action of `parent` for a task, with its interval. */
    method AddSubactionWithTask(parent: Iri, subActionType: string, taskType: string, interval: Interval)
      returns (a: Iri)
      requires Valid()
      modifies this
      ensures Valid()
      ensures a == Generated(old(nextId)) && nextId == old(nextId) + 1
      ensures facts == old(facts) + [SubActionFact(a, parent, subActionType, taskType, interval)]
      ensures IntervalOf(facts, a) == Some(interval)
    {
      NextIsFresh();
      IntervalOfFresh(facts, SubActionFact(Generated(nextId), parent, subActionType, taskType, interval), Generated(nextId));
      a := NewIri();
      facts := facts + [SubActionFact(a, parent, subActionType, taskType, interval)];
    }
  }
}

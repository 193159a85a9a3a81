# VR NEEM converter — a Dafny model

The VR NEEM converter turns a virtual-reality demonstration into a NEEM, an
episode written into the KnowRob knowledge base. A demonstration has three
parts:

- a MongoDB dump of per-frame poses;
- a semantic map ontology (`*_SM.owl`) listing the scene's objects;
- an event ontology (`<collection>_ED.owl`) listing what happened: grasping,
  touching and support states, and pick-up, reach and put-down actions.

The converter does four things:

- picks the first non-empty, non-`.meta` collection;
- asserts every map object as an individual of its class, and records which
  objects take part in some event;
- converts the events through a dispatch table keyed on the event's class
  name, states before actions;
- asserts one TF trajectory for the tracked objects and for the
  end-effector hand with its thumb and index tips.

States get a situation that manifests them. Actions get situations and a
situation transition, linked to the asserted states that are active at a
time point or that overlap the action's interval.

Two command-line helpers are modelled too:

- The cleaning script removes every touching situation where a hand touches
  the floor. It removes it from the event ontology and from the episode's
  HTML timeline.
- The pose helper converts an Unreal pose into a right-handed pose in
  metres.

The model has five modules:

- `Common`: `Option`/`Result`, IRIs, and Python's `filter`,
  `split(c)[-1]` and `endswith`.
- `Knowledge` (`KnowledgeBase.dfy`): the knowledge base as an append-only
  log of facts with a fresh-IRI counter. It answers the one query the
  converter asks, `has_time_interval`.
- `EventConverters`: the `EventConverter` class.
- `NeemConverter`: the `VRNeemConverter` class and the TF datapoint
  extraction.
- `CleanDemonstrations` and `UnrealPose`: the two scripts.

Every raised exception is an `Err` value. This covers a `KeyError` from the
dispatch table, an `IndexError` from `[0]` on an empty property, a failed
`float(...)`, a failed `next(...)` and a query with no solution. Up to the
point where it is raised, the model records exactly the facts the source had
already asserted.

## Model

| member | source | states |
|---|---|---|
| EventConverters.KindNameInConverters | vr_neem_converter/event_converters.py:15-27 | Every converter the class offers is reachable from the dispatch table, under its event class name. |
| EventConverters.ConvertersKeyIsKindName | vr_neem_converter/event_converters.py:15-27 | Every key of the dispatch table leads to the converter named by that key, so no two class names share a converter by mistake. |
| EventConverters.ClassificationMatchesTable | vr_neem_converter/event_converters.py:37-43 | An event is a state exactly when the table sends its class name to one of the three state converters. It is an action exactly when it is not a state, and this includes class names the table does not know. |
| EventConverters.TimestampOfTimePoint | vr_neem_converter/event_converters.py:29-31 | A time point named `<prefix>_<number>` yields the parse of `<number>`, whatever underscores the prefix holds. |
| Common.LastSegment | vr_neem_converter/event_converters.py:31 | `split(sep)[-1]` is the suffix after the last separator: it holds no separator, and it is either the whole string or preceded by a separator. |
| Common.LastSegmentAfterSeparator | vr_neem_converter/event_converters.py:31 | The last segment of `prefix + sep + tail` is `tail` whenever `tail` holds no separator. |
| EventConverters.ActorAndObject | vr_neem_converter/event_converters.py:50-53 | Reading an action's roles succeeds exactly when both timestamps parse and `performedBy` and `objectActedOn` are non-empty. |
| EventConverters.SupporteeAndSupporter | vr_neem_converter/event_converters.py:92-95 | Reading a support state succeeds exactly when both timestamps parse and `isSupported` and `isSupporting` are non-empty. |
| EventConverters.WithAgent | vr_neem_converter/event_converters.py:224-227 | After the call the participants contain the agent. The old list is a prefix, and the list grew by one element exactly when the agent was missing. |
| EventConverters.WithAgentShort | vr_neem_converter/event_converters.py:76-83 | The contact state has fewer than two participants (so `participants[1]` raises) exactly when `inContact` is empty or is only the agent. |
| EventConverters.IriList.Append | vr_neem_converter/event_converters.py:227 | Appending to the caller's participant list changes it in place: exactly the new element is added at the end. |
| EventConverters.RegisteredStable | vr_neem_converter/event_converters.py:61-62 | A state registered in the log stays registered whatever is asserted later. |
| EventConverters.StatesActiveAtSpec | vr_neem_converter/event_converters.py:178-185 | The states linked to a time-point situation are exactly the asserted states whose interval contains the time point, in assertion order. |
| EventConverters.StatesOverlappingSpec | vr_neem_converter/event_converters.py:191-199 | The states linked to a transition are exactly the asserted states whose interval meets the action's interval at its start, inside it or at its end, in assertion order. |
| EventConverters.OverlapMeansCommonPoint | vr_neem_converter/event_converters.py:196 | For well-ordered intervals, the three-way overlap test holds exactly when the two intervals share a point. |
| EventConverters.ActiveAtIsPointOverlap | vr_neem_converter/event_converters.py:183 | The test "active at t" is the overlap test against the degenerate interval `[t, t]`. |
| EventConverters.StatesActiveAtAppend | vr_neem_converter/event_converters.py:178-185 | Asserting one more state adds it at the end of the active list when it is active at the time point, and otherwise changes nothing. |
| EventConverters.StatesOverlappingAppend | vr_neem_converter/event_converters.py:191-199 | Asserting one more state adds it at the end of the overlap list when it overlaps, and otherwise changes nothing. |
| EventConverters.StatesActiveAtUntimed | vr_neem_converter/event_converters.py:176-183 | Situations and `holds` facts asserted before the lookup do not change which states are active. |
| EventConverters.StatesOverlappingUntimed | vr_neem_converter/event_converters.py:189-196 | Situations and `holds` facts asserted before the lookup do not change which states overlap. |
| EventConverters.EventConverter.constructor | vr_neem_converter/event_converters.py:11-13 | A new converter writes to the episode's knowledge base and starts with no asserted states. |
| EventConverters.EventConverter.Project | vr_neem_converter/event_converters.py:59-61 | `kb_project` of a relation appends exactly that fact and creates no IRI. |
| EventConverters.EventConverter.AssertState | vr_neem_converter/event_converters.py:224-229 | Adds the agent to the caller's participant list. Asserts exactly one fresh state over the extended list, and the knowledge base answers `has_time_interval` for it with the given interval. |
| EventConverters.EventConverter.AssertSituationForState | vr_neem_converter/event_converters.py:217-222 | Asserts a fresh situation over the objects and makes the state manifest in it. The state's interval is unchanged. |
| EventConverters.EventConverter.BindAndRegister | vr_neem_converter/event_converters.py:59-62 | The role binding is appended and the state joins the end of the asserted-state list. |
| EventConverters.EventConverter.ConvertGraspingSomething | vr_neem_converter/event_converters.py:45-63 | If a timestamp or a role is missing, nothing is asserted and the error is returned. Otherwise the facts are a grasp state over gripper, object and agent, its situation, the manifestation and the grasp binding, and the state is registered. |
| EventConverters.EventConverter.AssertGrasp | vr_neem_converter/event_converters.py:54-63 | Asserts the grasp state over gripper, object and agent, its situation over gripper and object only, the link and the binding with the grasped object first; creates two IRIs and registers the state. |
| EventConverters.EventConverter.ConvertTouchingSituation | vr_neem_converter/event_converters.py:69-86 | A timestamp error asserts nothing. Otherwise the facts are a contact state over the contacts plus agent, its situation and the manifestation. |
| EventConverters.EventConverter.AssertContact | vr_neem_converter/event_converters.py:74-86 | If there are fewer than two participants, the state and situation stay asserted but `TooFewParticipants` is raised and nothing is registered. Otherwise the contact binding over the first two participants is added and the state is registered. |
| EventConverters.EventConverter.ConvertSupportedBySituation | vr_neem_converter/event_converters.py:88-106 | A missing role or timestamp asserts nothing. Otherwise the facts are a support state over supportee, supporter and agent, its situation, the manifestation and the support binding, and the state is registered. |
| EventConverters.EventConverter.AssertSupport | vr_neem_converter/event_converters.py:96-106 | Asserts the support state and its situation over supportee, supporter and agent, the link and the support binding; creates two IRIs and registers the state. |
| EventConverters.EventConverter.ConvertAction | vr_neem_converter/event_converters.py:112-158 | A missing role or timestamp asserts nothing. Otherwise one fresh sub-action of the top-level action is asserted with the event's interval, plus the object's role when the event kind has one. |
| EventConverters.EventConverter.AssertAction | vr_neem_converter/event_converters.py:120-139 | Asserts one fresh sub-action of the top-level action for the task with the event's interval, plus the object in the given role when there is one; registers nothing. |
| EventConverters.EventConverter.AddSubaction | vr_neem_converter/event_converters.py:120-123 | Asserts exactly one fresh physical sub-action of the top-level action for the task. |
| EventConverters.EventConverter.CreateAnonymousAction | vr_neem_converter/event_converters.py:168-173 | Asserts one fresh physical sub-action with the generic task. Its interval is the one the knowledge base gives back. |
| EventConverters.EventConverter.Convert | vr_neem_converter/event_converters.py:33-35 | Runs the converter the dispatch table gives the event's class name: the result, the facts appended, the IRIs created and the states registered are exactly `EventOutcome` of the event. An unknown class name raises `UnknownEventType` and asserts nothing. The five stub converters return None and assert nothing. A state that converts successfully is appended to the asserted states; nothing else changes that list. The log only grows. |
| EventConverters.EventConverter.ConvertStateOfKind | vr_neem_converter/event_converters.py:33-35 | For each of the three state kinds, runs that kind's own converter: result and effect are exactly that kind's `KindOutcome` (grasp, contact or support). |
| EventConverters.EventConverter.ConvertActionOfKind | vr_neem_converter/event_converters.py:33-35 | For each implemented action kind, runs the action converter with that kind's task and role: pick-up with `PickingUp` and no role, pre-grasp with `Grasping` and `Patient`, reaching with `Reaching` and `GoalRole`. |
| EventConverters.OutcomeRegistration | vr_neem_converter/event_converters.py:33-35 | Only a state converter that succeeds registers a state: exactly one, the first fresh IRI, which is also what `convert` returns. Any returned IRI is that first fresh one. `convert` returns None exactly for the stub converters, which assert nothing, and raises `UnknownEventType` exactly for a class name the table lacks. |
| EventConverters.KindOutcomeShape | vr_neem_converter/event_converters.py:15-27 | Every converter of the table creates IRIs from the counter on only. An IRI it returns is the first it creates, asserted with the event's interval. It registers a state exactly when it is a state converter and succeeds, and returns None exactly when it is a stub. |
| EventConverters.StubKindOutcome | vr_neem_converter/event_converters.py:65-67 | Each of the five stub converters (slicing, container manipulation, put-down, sliding, transporting; the same `pass` body at lines 108-110, 141-143, 160-166) returns None and asserts nothing. |
| EventConverters.OutcomeInterval | vr_neem_converter/event_converters.py:224-229 | After a conversion every IRI in the log lies below the advanced counter, and an IRI `convert` returns gets the event's start and end from `has_time_interval`, whatever was asserted before. |
| EventConverters.EventConverter.AssertSituationManifestingAtTimestamp | vr_neem_converter/event_converters.py:175-186 | Asserts a fresh situation and then links it to exactly the registered states active at the time point, in order. |
| EventConverters.EventConverter.LinkStatesActiveAt | vr_neem_converter/event_converters.py:178-185 | The loop appends one `manifestsIn` link per registered state active at the time point, and nothing else. |
| EventConverters.EventConverter.LinkIfActiveAt | vr_neem_converter/event_converters.py:178-185 | One turn of the loop: the log grows from the links to the active states before the `i`-th to the links to the active states up to and including it. |
| EventConverters.EventConverter.AssertSituationTransitionManifestingDuringInterval | vr_neem_converter/event_converters.py:188-200 | Asserts a fresh transition and then links it to exactly the registered states overlapping the interval, in order. |
| EventConverters.EventConverter.LinkStatesOverlapping | vr_neem_converter/event_converters.py:191-199 | The loop appends one `manifestsIn` link per registered state overlapping the interval, and nothing else. |
| EventConverters.EventConverter.LinkIfOverlapping | vr_neem_converter/event_converters.py:191-199 | One turn of the loop: the log grows from the links to the overlapping states before the `i`-th to the links to the overlapping states up to and including it. |
| EventConverters.EventConverter.AssertSituationTransitionForAction | vr_neem_converter/event_converters.py:202-215 | If the action has no interval, `NoTimeInterval` is raised and nothing is asserted. Otherwise a transition over the action's interval gets its overlapping states, its initial and terminal situations, and the action manifesting in it. |
| Knowledge.IntervalOfStable | vr_neem_converter/event_converters.py:179-180 | Once `has_time_interval` has an answer for an entity, later assertions never change it. |
| Knowledge.IntervalOfAppendOther | vr_neem_converter/event_converters.py:179-180 | Facts that give no interval to an entity leave the answer for it unchanged. |
| Knowledge.IntervalOfSomeIff | vr_neem_converter/event_converters.py:204-206 | `has_time_interval` succeeds exactly when some asserted state or sub-action carries the entity. |
| Knowledge.IntervalOfFresh | vr_neem_converter/event_converters.py:228-229 | A freshly asserted state or sub-action gets back exactly the interval asserted with it. |
| Knowledge.KnowledgeBase.AssertState | vr_neem_converter/event_converters.py:228-229 | Appends one state with a fresh IRI. The knowledge base answers its interval. |
| Knowledge.KnowledgeBase.AssertSituation | vr_neem_converter/event_converters.py:218-219 | Appends one situation with a fresh IRI. |
| Knowledge.KnowledgeBase.AddSubactionWithTask | vr_neem_converter/event_converters.py:120-123 | Appends one sub-action with a fresh IRI. The knowledge base answers its interval. |
| NeemConverter.FirstEligible | vr_neem_converter/neem_converter.py:50-55 | The chosen collection is the first whose name does not end in `.meta` and which has documents. No collection is chosen exactly when none qualifies. |
| NeemConverter.SelectCollection | vr_neem_converter/neem_converter.py:50-55 | The loop with its two `continue`s picks the collection `FirstEligible` names. |
| NeemConverter.Put | vr_neem_converter/neem_converter.py:92-94 | Dictionary assignment: the entry is set, and the key joins the insertion order only if it was new. |
| NeemConverter.FirstKeyWhere | vr_neem_converter/neem_converter.py:110-112 | `next(...)` over the dictionary's items returns the first key, in insertion order, whose class satisfies the test. It fails exactly when no entry does. |
| NeemConverter.AnyPropertyValueSpec | vr_neem_converter/neem_converter.py:177-180 | The nested property loops return True exactly when some value of some property is the object. |
| NeemConverter.IsActiveObjectSpec | vr_neem_converter/neem_converter.py:171-181 | An object is active exactly when some event individual with a start time has it among its property values. |
| NeemConverter.ObjectTableStep | vr_neem_converter/neem_converter.py:82-92 | With distinct IRIs, every map individual enters the object table once, under its own IRI and with its type. |
| NeemConverter.ActiveTableStep | vr_neem_converter/neem_converter.py:93-94 | The active table gains the individual exactly when it is active, with the same type. |
| NeemConverter.RecordObject | vr_neem_converter/neem_converter.py:92-94 | Recording an object with a fresh IRI extends the object table by it. The active table gains it exactly when it is active. |
| NeemConverter.ObjectTablesMeaning | vr_neem_converter/neem_converter.py:92-94 | The active objects are exactly the known objects that are active, and each has the same type in both tables. |
| NeemConverter.ShortNames | vr_neem_converter/neem_converter.py:107 | The short name after `#` of every active IRI is a key, and every entry maps a short name back to an active IRI with that short name. When two active IRIs share a short name only one of them is kept, so not every active IRI is reachable. |
| NeemConverter.TfFrames | vr_neem_converter/neem_converter.py:107-112 | Succeeds exactly when some object has the end-effector class, some class mentions `rThumb` and some mentions `rIndex`. Otherwise it raises for the first of the three lookups, in source order, that finds nothing. The hand, thumb and index IRIs are objects with those classes, and the short-name table is that of the active objects. |
| NeemConverter.DatapointsAppend | vr_neem_converter/neem_converter.py:114-115 | The datapoints of consecutive documents are concatenated in document order. |
| NeemConverter.ObjectPointsAreKnownRecords | vr_neem_converter/neem_converter.py:118-126 | Pose records whose short id is not an active object are skipped. The others give one world-frame point each, in order. |
| NeemConverter.BonePointsAreTrackedBones | vr_neem_converter/neem_converter.py:143-151 | Only bones 3 and 7 produce points, one each, in order, as the thumb tip and the index tip. |
| NeemConverter.SkeletonPointsOnlyEndEffector | vr_neem_converter/neem_converter.py:129-151 | Every skeleton point belongs to the end-effector hand or to its thumb or index tip. A document where no hand is the active end effector gives none. |
| NeemConverter.DatapointsHaveKnownFrames | vr_neem_converter/neem_converter.py:114-151 | Every asserted datapoint is in the world frame and names an active object, the hand, the thumb or the index tip. |
| NeemConverter.UpToSentinel | vr_neem_converter/neem_converter.py:162-169 | The converted events are a prefix of the filtered events that stops right after the first sentinel, or takes everything when there is no sentinel. |
| NeemConverter.StatesBeforeActions | vr_neem_converter/neem_converter.py:154-169 | The conversion order is the states up to their sentinel followed by the actions up to theirs. Each half keeps the ontology's order. |
| NeemConverter.CollectObjectPoints | vr_neem_converter/neem_converter.py:118-126 | The `individuals` loop produces exactly `ObjectPoints`. |
| NeemConverter.CollectBonePoints | vr_neem_converter/neem_converter.py:143-151 | The bone loop produces exactly `BonePoints`. |
| NeemConverter.CollectSkeletonPoints | vr_neem_converter/neem_converter.py:129-151 | The hand loop produces exactly `SkeletonPoints`. |
| NeemConverter.CollectDatapoints | vr_neem_converter/neem_converter.py:115-151 | The document loop produces exactly `Datapoints`. |
| NeemConverter.FirstEndingWith | vr_neem_converter/neem_converter.py:65-66 | The semantic map file is the first name ending in `SM.owl`. There is none exactly when no name ends that way. |
| NeemConverter.ConvertUpTo | vr_neem_converter/neem_converter.py:162-169 | One loop of `_assert_events`, continuing the run before it: the result, the facts appended, the IRIs created and the states registered are those of `RunOn` over the events up to and including the sentinel, or over all of them when there is none. The first event that raises ends the run with its error (`RunOnStopsAtError`). |
| NeemConverter.RunOnAfterError | vr_neem_converter/neem_converter.py:162-169 | Once a run has raised, the events after it change nothing. |
| NeemConverter.RunOnSucceeds | vr_neem_converter/neem_converter.py:162-169 | A run succeeds exactly when the run it continues did and every event's own conversion returned. |
| NeemConverter.RunOnStopsAtError | vr_neem_converter/neem_converter.py:162-169 | When the run up to an event is fine and that event's conversion raises, the run ends right after that event, with that event's error. |
| NeemConverter.RunOnPrefix | vr_neem_converter/neem_converter.py:162-163 | A run over the first `n` events looks at no other event. |
| NeemConverter.RunOnConcat | vr_neem_converter/neem_converter.py:162-167 | Running over `a + b` is running over `a` and then, continuing that run, over `b`. |
| NeemConverter.RunUpToSentinel | vr_neem_converter/neem_converter.py:162-165 | The run of a loop up to its sentinel is the run over exactly the events `UpToSentinel` keeps. |
| NeemConverter.EventsRunIsTwoLoops | vr_neem_converter/neem_converter.py:162-169 | The run over `ConversionOrder` is the state loop up to its sentinel, continued by the action loop up to its sentinel with the counter where the state loop left it. |
| NeemConverter.SentinelReach | vr_neem_converter/neem_converter.py:162-165 | A loop that has met no sentinel before an event converts it, and stops right after it when it is the sentinel. |
| NeemConverter.ConvertEvent | vr_neem_converter/neem_converter.py:163 | Converting an event through the event converter moves the log, the counter and the registry by exactly the outcome `convert` gives at the current counter. |
| NeemConverter.ConvertAt | vr_neem_converter/neem_converter.py:162-163 | One pass of a loop converts the next event and extends the run over the events before it by exactly that event's outcome, in the log, the counter and the registry. |
| NeemConverter.VRNeemConverter.constructor | vr_neem_converter/neem_converter.py:20-43 | Starts with empty object tables, the configured agent and the configured end-effector class. |
| NeemConverter.VRNeemConverter.AssertObjectsAndAgent | vr_neem_converter/neem_converter.py:74-99 | In the log of this model it appends exactly the object facts, in map order, and creates no IRI; what `assert_agent_and_hand` asserts is not in the log (see "Left out"). The object table holds every map object under its IRI with its type, keyed in map order. The active table holds exactly the active objects among them, with the same types (`ActiveAmong`). The agent is the one `assert_agent_and_hand` returns, given as `handAgent`. |
| NeemConverter.VRNeemConverter.AssertEvents | vr_neem_converter/neem_converter.py:154-169 | The result, the facts appended and the IRIs created are those of `EventsRun`: every event of `ConversionOrder` converted in turn by the converter the dispatch table gives it, each with the counter where the previous one left it. The first event that raises ends it with its error. |
| NeemConverter.VRNeemConverter.AssertTf | vr_neem_converter/neem_converter.py:101-152 | If the hand, thumb or index IRI cannot be found, the error is raised and nothing is asserted. Otherwise exactly one trajectory fact holding `Datapoints` of all documents is appended. |
| NeemConverter.VRNeemConverter.ConvertEpisode | vr_neem_converter/neem_converter.py:65-70 | Stores the agent, the object table and the active table of the map, types included. Appends the object facts and then exactly what `EventsAndTf` gives: the run of the events and, unless an event raised, the trajectory of the documents or the error of the frame lookup. A successful episode ends with its trajectory. |
| NeemConverter.VRNeemConverter.AssertEventsAndTf | vr_neem_converter/neem_converter.py:69-70 | Result and appended facts are those of `EventsAndTf`: the events are converted first; an event that raises ends it with `EventFailed` and no trajectory; otherwise `_assert_tf` appends the trajectory or raises its lookup error. On success the log ends with the trajectory. |
| NeemConverter.VRNeemConverter.Convert | vr_neem_converter/neem_converter.py:45-72 | Without an eligible collection nothing is asserted. Without a semantic map file it raises `NoSemanticMap` and the log is unchanged. In the source that lookup runs inside `with Episode(...)`, after the episode is entered; the episode is left out of this model, so none of what entering it asserts is in the log. Otherwise only the first eligible collection is converted: its tables are stored, and the log gains the object facts and what `EventsAndTf` gives for its documents and its `<collection>_ED.owl` events. |
| CleanDemonstrations.ThingParticipatesSpec | vr_neem_converter/scripts/clean_vr_demonstrations.py:25-30 | A thing class participates exactly when some individual in contact has it among its classes. |
| CleanDemonstrations.AnyOfClassSpec | vr_neem_converter/scripts/clean_vr_demonstrations.py:26-30 | The early-return loop returns True exactly when some element has the class. |
| CleanDemonstrations.HandParticipatesInContact | vr_neem_converter/scripts/clean_vr_demonstrations.py:13-17 | Raises exactly when the map lacks one of the two hand classes. Otherwise the answer is whether the right or the left hand is in contact. |
| CleanDemonstrations.FloorParticipatesInContact | vr_neem_converter/scripts/clean_vr_demonstrations.py:20-22 | Raises exactly when the map lacks the floor class. Otherwise the answer is whether the floor is in contact. |
| CleanDemonstrations.SelectionIsHandTouchingFloor | vr_neem_converter/scripts/clean_vr_demonstrations.py:38-43 | With all three classes in the map, the individuals chosen for removal are exactly the touching situations where a hand and the floor are in contact, in ontology order. |
| CleanDemonstrations.RemovalTestAnswers | vr_neem_converter/scripts/clean_vr_demonstrations.py:41-42 | Whatever classes the semantic map defines, a test that does not raise answers whether the individual is a touching situation with a hand and the floor in contact. |
| CleanDemonstrations.SelectionOkIsHandTouchingFloor | vr_neem_converter/scripts/clean_vr_demonstrations.py:38-43 | A selection that does not raise is exactly the touching situations where a hand and the floor are in contact, in ontology order, with or without a complete semantic map. |
| CleanDemonstrations.SelectionWithoutTouching | vr_neem_converter/scripts/clean_vr_demonstrations.py:40-43 | Without touching situations the map is never consulted, and nothing is removed. |
| CleanDemonstrations.SelectionErrorNeedsTouching | vr_neem_converter/scripts/clean_vr_demonstrations.py:40-43 | Selection raises only if there is a touching situation and the map lacks a hand or the floor class. |
| CleanDemonstrations.SelectionOnlyHandTouchingFloor | vr_neem_converter/scripts/clean_vr_demonstrations.py:38-43 | Every individual chosen for removal is an individual of the ontology: a touching situation with a hand and the floor in contact. |
| CleanDemonstrations.SelectForRemoval | vr_neem_converter/scripts/clean_vr_demonstrations.py:39-43 | The selection loop computes exactly `Selection`, including the error raised by the first failing class lookup. |
| CleanDemonstrations.SelectionErrorPersists | vr_neem_converter/scripts/clean_vr_demonstrations.py:39-43 | Once the loop has raised on a prefix of the individuals, the whole selection raises the same error. |
| CleanDemonstrations.Ontology.Destroy | vr_neem_converter/scripts/clean_vr_demonstrations.py:47 | `destroy_entity` removes every occurrence of that individual and keeps the rest in order. |
| CleanDemonstrations.DestroyAll | vr_neem_converter/scripts/clean_vr_demonstrations.py:46-47 | After the loop the ontology holds exactly the individuals not chosen for removal, in order. |
| CleanDemonstrations.SplitLines | vr_neem_converter/scripts/clean_vr_demonstrations.py:51 | `splitlines()` gives at least one line for non-empty text, and no line holds a line boundary. |
| CleanDemonstrations.JoinSplitLines | vr_neem_converter/scripts/clean_vr_demonstrations.py:51-57 | For text whose only breaks are `\n` and that does not end in one, joining the split lines with `\n` gives the text back. |
| CleanDemonstrations.RemoveLines | vr_neem_converter/scripts/clean_vr_demonstrations.py:50-55 | The line loop keeps exactly the lines that mention no removed individual's name. |
| CleanDemonstrations.KeptLines | vr_neem_converter/scripts/clean_vr_demonstrations.py:50-57 | The kept lines are a subsequence of the timeline. A line is kept exactly when it mentions no removed name, and with no names every line is kept. |
| CleanDemonstrations.CleanedSpec | vr_neem_converter/scripts/clean_vr_demonstrations.py:33-57 | After cleaning, an individual remains exactly when it was there and was not a hand-touches-floor situation, and exactly when it was there and was not selected; the remaining ones keep their order. The new timeline is the kept lines joined with `\n`. The kept lines are a subsequence of the old lines and are exactly the lines that mention no selected individual's name. This holds of the list of lines; the joined text can still contain a name that holds a line break. |
| CleanDemonstrations.RemainingIndividuals | vr_neem_converter/scripts/clean_vr_demonstrations.py:38-47 | For a selection that does not raise, the individuals left after destroying it keep their order and are exactly the ones that were not hand-touches-floor situations. |
| CleanDemonstrations.NothingRemoved | vr_neem_converter/scripts/clean_vr_demonstrations.py:44-57 | When nothing is selected, the ontology is unchanged and the timeline is only re-split and re-joined; plain text comes back identical. |
| CleanDemonstrations.FilterHandTouchingFloor | vr_neem_converter/scripts/clean_vr_demonstrations.py:33-57 | A missing class raises, and no individual is destroyed. Otherwise the ontology and the returned timeline are the cleaned ones. |
| CleanDemonstrations.TimelinePath | vr_neem_converter/scripts/clean_vr_demonstrations.py:69 | The timeline path is the episode path without its last six characters, followed by `TL.html`. |
| CleanDemonstrations.TimelineOfEpisodeData | vr_neem_converter/scripts/clean_vr_demonstrations.py:69 | `<episode>_ED.owl` has the timeline `<episode>_TL.html`. |
| CleanDemonstrations.CleanEpisode | vr_neem_converter/scripts/clean_vr_demonstrations.py:66-81 | An episode without a timeline file is skipped and left untouched. Otherwise its ontology and timeline are cleaned as `FilterHandTouchingFloor` does. |
| UnrealPose.CentimetresToMetres | vr_neem_converter/scripts/convert_unreal_pose.py:9 | Each coordinate in metres is the centimetre value divided by 100. |
| UnrealPose.ToRightHandedComponents | vr_neem_converter/scripts/convert_unreal_pose.py:8-12 | The printed pose is `y/100, x/100, z/100, -qx, qy, -qz, qw`. |
| UnrealPose.SwapXYInvolutive | vr_neem_converter/scripts/convert_unreal_pose.py:10 | Exchanging x and y twice is the identity. |
| UnrealPose.FlipOrientationInvolutive | vr_neem_converter/scripts/convert_unreal_pose.py:11 | Negating qx and qz twice is the identity. |
| UnrealPose.ToUnrealInvertsToRightHanded | vr_neem_converter/scripts/convert_unreal_pose.py:8-12 | Converting back from the right-handed pose gives the original Unreal pose, so no input is lost. |
| UnrealPose.ToRightHandedInvertsToUnreal | vr_neem_converter/scripts/convert_unreal_pose.py:8-12 | Every seven-value right-handed pose is the conversion of some Unreal pose. |
| UnrealPose.ToRightHandedInjective | vr_neem_converter/scripts/convert_unreal_pose.py:8-12 | Different Unreal poses print different right-handed poses. |

## Left out

- Files and databases are not modelled: `mongorestore`, the MongoDB client, `os.listdir`, `glob`, reading, writing and copying files, and creating output directories. The documents of the chosen collection, the directory listing and the loaded ontologies are parameters.
- Ontology loading (`load_ontology`, owlready2) is left out. The semantic map, the event ontology and the cleaning script's ontology are given as values: lists of individuals with their first class and the properties the code reads.
- KnowRob, Prolog and `NEEMInterface` are left out. Every assertion is a fact appended to a log, and fresh IRIs come from a counter. The only query answered is `has_time_interval`, the first solution from the log. `is_class(Class)` is the parameter `knownClasses`.
- The `Episode` context manager is left out: it creates the top-level action and saves the NEEM on exit. The top-level action is a constructor parameter.
- `assert_agent_and_hand` and the `search_one` for the end-effector class (`vr_neem_converter/utils.py`) are not part of this model. Their result, the agent IRI, is the parameter `handAgent`.
- `float(...)` is the parameter `parseFloat`. It returns `None` where Python raises `ValueError`.
- `Datapoint.from_unreal` and `Rotation.from_quat` are left out. A datapoint keeps the timestamp, frame, `"world"` and the raw pose list; the unit and rotation conversion is the pose helper's business.
- NeemConverter.VRNeemConverter.AssertObjectsAndAgent: the facts that `assert_agent_and_hand` (neem_converter.py:98) asserts through the knowledge-base interface are not in the modelled log. Its body is not part of this model, so the log holds only the object facts of lines 82-91.
- NeemConverter.VRNeemConverter.AssertObjectsAndAgent: assumes the semantic map's individuals have distinct IRIs (`DistinctIris`). An owlready2 ontology cannot hold two individuals with one IRI.
- NeemConverter.IsActiveObjectSpec: property values are IRIs of individuals. Literal values such as numbers have no `.iri`, and Python would raise on them; the model does not represent them.
- CleanDemonstrations.Ontology.Destroy: removes the individual from the ontology's list only. That `destroy_entity` also deletes the relations other individuals hold to it is not modelled.
- The cleaning script's `main` is modelled for one episode file (`CleanEpisode`). The loop over all `*_ED.owl` files, the `next(glob("**/*_SM.owl"))` lookup of its semantic map and the copying of the input tree are I/O.
- `print` calls, the argument parsers and the hard-coded default paths are left out.
- CleanDemonstrations.JoinSplitLines: stated only for text with `\n` breaks and no trailing newline. Otherwise `"\n".join(html.splitlines())` drops a trailing newline and turns `\r\n` and the other boundaries into `\n`, as Python does.
- UnrealPose: real arithmetic stands for floats. Rounding of `/ 100.0` is not modelled.
- `vr_neem_converter/vr_neem_converter.py`, `vr_neem_converter/utils.py` (`pose_to_knowrob_string`) and `neem_plotter/neem_plotter.py` are not part of this model.

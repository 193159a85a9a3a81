/**
 * The episode converter: picks the episode collection of a VR recording,
 * records the objects of the semantic map (and which of them take part in
 * events), has the event converter assert the events, and turns the pose
 * records of the episode into one TF trajectory.
 *
 * The MongoDB collections, the semantic map and the event ontology are given
 * as values; loading, restoring and writing them is not part of this model.
 */
module NeemConverter {
  import opened Common
  import opened Knowledge
  import opened EventConverters

  const PHYSICAL_OBJECT := DUL + "PhysicalObject"

  /** The event names after whose conversion each loop of `_assert_events` stops. */
  const STATE_SENTINEL := "ESoDdqHPokacDoi5yhRweQ"
  const ACTION_SENTINEL := "KAAqauDdyUSR5O0SPmGtbQ"

  /** Bone indices of the thumb tip and the index-finger tip in a hand record. */
  const THUMB_TIP_BONE := 3
  const INDEX_TIP_BONE := 7

  // ---------------------------------------------------------------------------
  // The recording

  datatype Bone = Bone(idx: int, pose: seq<real>)

  /** An entry of a document's `individuals`: an object pose in the world frame. */
  datatype PoseRecord = PoseRecord(id: string, pose: seq<real>)

  /** An entry of a document's `skel_individuals`: a hand, its pose and its bones. */
  datatype HandRecord = HandRecord(id: string, pose: seq<real>, bones: seq<Bone>)

  datatype Document = Document(timestamp: real, individuals: seq<PoseRecord>, skelIndividuals: seq<HandRecord>)

  datatype Collection = Collection(name: string, documents: seq<Document>)

  /** An individual of the semantic map: its IRI and the IRI of its first class. */
  datatype MapIndividual = MapIndividual(iri: string, classIri: string)

  /**
   * An individual of the event ontology as `_is_active_object` sees it:
   * whether it has a `startTime`, and for each of its properties the IRIs of
   * the individuals it relates it to.
   */
  datatype OntologyIndividual = OntologyIndividual(hasStartTime: bool, propertyValues: seq<seq<string>>)

  /** The event ontology of an episode, read both ways the converter reads it. */
  datatype EventOntology = EventOntology(individuals: seq<OntologyIndividual>, events: seq<Event>)

  /** What converting an episode can raise. */
  datatype NeemError =
    | EventFailed(error: ConvertError)  // raised while converting an event
    | NoObjectOfClass(what: string)     // `next(...)` found no object of the class (StopIteration)
    | NoSemanticMap                     // `next(...)` found no file ending in `SM.owl` (StopIteration)

  // ---------------------------------------------------------------------------
  // Choosing the collection

  /** A collection `convert` does not skip: not a `.meta` collection, and not empty. */
  predicate Eligible(c: Collection) {
    !EndsWith(c.name, ".meta") && |c.documents| > 0
  }

  /** The index of the first eligible collection, if any. */
  function FirstEligible(collections: seq<Collection>, from: nat := 0): (r: Option<nat>)
    requires from <= |collections|
    ensures r.Some? ==> from <= r.value < |collections| && Eligible(collections[r.value])
    ensures r.Some? ==> forall j | from <= j < r.value :: !Eligible(collections[j])
    ensures r.None? ==> forall j | from <= j < |collections| :: !Eligible(collections[j])
    decreases |collections| - from
  {
    if from == |collections| then None
    else if Eligible(collections[from]) then Some(from)
    else FirstEligible(collections, from + 1)
  }

  /**
   * The loop of `convert` up to its unconditional `break`: the first eligible
   * collection, if there is one, is the only one processed.
   */
  method SelectCollection(collections: seq<Collection>) returns (r: Option<nat>)
    ensures r == FirstEligible(collections)
  {
    var i := 0;
    while i < |collections|
      invariant 0 <= i <= |collections|
      invariant FirstEligible(collections) == FirstEligible(collections, i)
    {
      if EndsWith(collections[i].name, ".meta") {
        i := i + 1;
        continue;
      }
      if |collections[i].documents| == 0 {
        i := i + 1;
        continue;
      }
      return Some(i);
    }
    return None;
  }

  // ---------------------------------------------------------------------------
  // Python dictionaries

  /** A Python dict from IRI to IRI: its keys in insertion order, and its entries. */
  datatype Dict = Dict(keys: seq<string>, entries: map<string, string>)

  /** Each key is listed once, and the listed keys are exactly the entries' keys. */
  ghost predicate WellFormed(d: Dict) {
    (forall i, j | 0 <= i < j < |d.keys| :: d.keys[i] != d.keys[j])
    && (forall k :: k in d.entries <==> k in d.keys)
  }

  const EmptyDict := Dict([], map[])

  /** `d[k] = v`: a new key goes to the end; an existing key keeps its place and gets the new value. */
  function Put(d: Dict, k: string, v: string): (r: Dict)
    requires WellFormed(d)
    ensures WellFormed(r)
    ensures r.entries == d.entries[k := v]
    ensures k in d.entries ==> r.keys == d.keys
    ensures k !in d.entries ==> r.keys == d.keys + [k]
  {
    if k in d.entries then Dict(d.keys, d.entries[k := v]) else Dict(d.keys + [k], d.entries[k := v])
  }

  /** The first key, in insertion order, whose value satisfies `p`: Python's `next(k for k, v in d.items() if p(v))`. */
  function FirstKeyWhere(d: Dict, p: string -> bool): (r: Option<string>)
    requires WellFormed(d)
    ensures r.Some? ==> r.value in d.entries && p(d.entries[r.value])
    ensures r.Some? ==> exists i | 0 <= i < |d.keys| ::
      (d.keys[i] == r.value && forall j | 0 <= j < i :: !p(d.entries[d.keys[j]]))
    ensures r.None? ==> forall k | k in d.entries :: !p(d.entries[k])
  {
    FirstKeyFrom(d, p, 0)
  }

  function FirstKeyFrom(d: Dict, p: string -> bool, from: nat): (r: Option<string>)
    requires WellFormed(d) && from <= |d.keys|
    requires forall j | 0 <= j < from :: !p(d.entries[d.keys[j]])
    ensures r.Some? ==> r.value in d.entries && p(d.entries[r.value])
    ensures r.Some? ==> exists i | from <= i < |d.keys| ::
      (d.keys[i] == r.value && forall j | 0 <= j < i :: !p(d.entries[d.keys[j]]))
    ensures r.None? ==> forall j | 0 <= j < |d.keys| :: !p(d.entries[d.keys[j]])
    decreases |d.keys| - from
  {
    if from == |d.keys| then None
    else if p(d.entries[d.keys[from]]) then Some(d.keys[from])
    else FirstKeyFrom(d, p, from + 1)
  }

  // ---------------------------------------------------------------------------
  // Objects and active objects

  /** The class an object is asserted with: its first class when the knowledge base knows it, else PhysicalObject. */
  function ObjectType(o: MapIndividual, knownClasses: seq<string>): string {
    if o.classIri in knownClasses then o.classIri else PHYSICAL_OBJECT
  }

  /** The `kb_project([is_individual(o), instance_of(o, type)])` of each object, in map order. */
  function ObjectFacts(objects: seq<MapIndividual>, knownClasses: seq<string>): (r: seq<Fact>)
    ensures |r| == |objects|
    ensures forall i | 0 <= i < |objects| ::
      r[i] == ObjectFact(Named(objects[i].iri), ObjectType(objects[i], knownClasses))
  {
    seq(|objects|, i requires 0 <= i < |objects| => ObjectFact(Named(objects[i].iri), ObjectType(objects[i], knownClasses)))
  }

  lemma ObjectFactsStep(objects: seq<MapIndividual>, o: MapIndividual, knownClasses: seq<string>)
    ensures ObjectFacts(objects + [o], knownClasses)
         == ObjectFacts(objects, knownClasses) + [ObjectFact(Named(o.iri), ObjectType(o, knownClasses))]
  {
  }

  function Iris(objects: seq<MapIndividual>): (r: seq<string>)
    ensures |r| == |objects| && forall i | 0 <= i < |objects| :: r[i] == objects[i].iri
  {
    seq(|objects|, i requires 0 <= i < |objects| => objects[i].iri)
  }

  /** No two individuals of the map share an IRI (an ontology holds each entity once). */
  predicate DistinctIris(objects: seq<MapIndividual>) {
    forall i, j | 0 <= i < j < |objects| :: objects[i].iri != objects[j].iri
  }

  /** Some value of some property of `e` is the individual `o`. */
  predicate Mentions(e: OntologyIndividual, o: string) {
    exists p, v | 0 <= p < |e.propertyValues| && 0 <= v < |e.propertyValues[p]| :: e.propertyValues[p][v] == o
  }

  /**
   * `_is_active_object`: scans the individuals that have a `startTime`,
   * their properties and the values of each, and answers true at the first
   * value that is `o`.
   */
  function IsActiveObject(o: string, onto: seq<OntologyIndividual>): bool
    decreases |onto|
  {
    if onto == [] then false
    else (onto[0].hasStartTime && AnyPropertyValue(o, onto[0].propertyValues)) || IsActiveObject(o, onto[1..])
  }

  /** `_is_active_object` with the event ontology fixed, as a test on IRIs. */
  function ActiveIn(onto: seq<OntologyIndividual>): string -> bool {
    o => IsActiveObject(o, onto)
  }

  function AnyPropertyValue(o: string, props: seq<seq<string>>): bool
    decreases |props|
  {
    if props == [] then false
    else o in props[0] || AnyPropertyValue(o, props[1..])
  }

  lemma {:induction false} AnyPropertyValueSpec(o: string, props: seq<seq<string>>)
    ensures AnyPropertyValue(o, props) <==> exists p, v | 0 <= p < |props| && 0 <= v < |props[p]| :: props[p][v] == o
    decreases |props|
  {
    if props != [] {
      AnyPropertyValueSpec(o, props[1..]);
      if o in props[0] {
        var v :| 0 <= v < |props[0]| && props[0][v] == o;
        assert props[0][v] == o;
      }
      if exists p, v | 0 <= p < |props| && 0 <= v < |props[p]| :: props[p][v] == o {
        var p, v :| 0 <= p < |props| && 0 <= v < |props[p]| && props[p][v] == o;
        if p > 0 {
          assert props[1..][p - 1][v] == o;
        }
      }
    }
  }

  /** An object is active exactly when some individual with a `startTime` has it as a property value. */
  lemma {:induction false} IsActiveObjectSpec(o: string, onto: seq<OntologyIndividual>)
    ensures IsActiveObject(o, onto) <==> exists i | 0 <= i < |onto| :: onto[i].hasStartTime && Mentions(onto[i], o)
    decreases |onto|
  {
    if onto != [] {
      IsActiveObjectSpec(o, onto[1..]);
      AnyPropertyValueSpec(o, onto[0].propertyValues);
      assert forall i | 1 <= i < |onto| :: onto[1..][i - 1] == onto[i];
    }
  }

  /** After the objects `objs`, `objects` holds each of them under its IRI, in map order, with its type. */
  ghost predicate ObjectTable(objects: Dict, objs: seq<MapIndividual>, knownClasses: seq<string>) {
    && WellFormed(objects)
    && objects.keys == Iris(objs)
    && (forall j | 0 <= j < |objs| ::
          objs[j].iri in objects.entries && objects.entries[objs[j].iri] == ObjectType(objs[j], knownClasses))
  }

  /** After the objects `objs`, `active` holds the active ones among them, in map order, with their types. */
  ghost predicate ActiveTable(active: Dict, objs: seq<MapIndividual>, knownClasses: seq<string>, onto: seq<OntologyIndividual>) {
    && WellFormed(active)
    && active.keys == Filter(Iris(objs), ActiveIn(onto))
    && (forall j | 0 <= j < |objs| && IsActiveObject(objs[j].iri, onto) ::
          objs[j].iri in active.entries && active.entries[objs[j].iri] == ObjectType(objs[j], knownClasses))
  }

  /** Recording one more object, with a fresh IRI, keeps the object table right. */
  lemma ObjectTableStep(objects: Dict, objs: seq<MapIndividual>, o: MapIndividual, knownClasses: seq<string>)
    requires ObjectTable(objects, objs, knownClasses)
    requires forall j | 0 <= j < |objs| :: objs[j].iri != o.iri
    ensures o.iri !in objects.entries
    ensures ObjectTable(Put(objects, o.iri, ObjectType(o, knownClasses)), objs + [o], knownClasses)
  {
    forall j | 0 <= j < |objs| ensures objects.keys[j] != o.iri {
      assert objects.keys[j] == objs[j].iri;
    }
    var objs' := objs + [o];
    var objects' := Put(objects, o.iri, ObjectType(o, knownClasses));
    assert Iris(objs') == Iris(objs) + [o.iri];
    forall j | 0 <= j < |objs'|
      ensures objs'[j].iri in objects'.entries && objects'.entries[objs'[j].iri] == ObjectType(objs'[j], knownClasses)
    {
      if j < |objs| {
        assert objs'[j] == objs[j];
      }
    }
  }

  /** Recording one more object, with a fresh IRI, keeps the table of active objects right. */
  lemma ActiveTableStep(active: Dict, objs: seq<MapIndividual>, o: MapIndividual,
                        knownClasses: seq<string>, onto: seq<OntologyIndividual>)
    requires ActiveTable(active, objs, knownClasses, onto)
    requires forall j | 0 <= j < |objs| :: objs[j].iri != o.iri
    ensures var t := ObjectType(o, knownClasses);
      ActiveTable(if IsActiveObject(o.iri, onto) then Put(active, o.iri, t) else active, objs + [o], knownClasses, onto)
  {
    var objs' := objs + [o];
    var active' := if IsActiveObject(o.iri, onto) then Put(active, o.iri, ObjectType(o, knownClasses)) else active;
    assert o.iri !in active.entries by {
      FilterMembership(Iris(objs), ActiveIn(onto), o.iri);
    }
    assert Iris(objs') == Iris(objs) + [o.iri];
    FilterAppend(Iris(objs), [o.iri], ActiveIn(onto));
    forall j | 0 <= j < |objs'| && IsActiveObject(objs'[j].iri, onto)
      ensures objs'[j].iri in active'.entries && active'.entries[objs'[j].iri] == ObjectType(objs'[j], knownClasses)
    {
      if j < |objs| {
        assert objs'[j] == objs[j];
      }
    }
  }

  /** The object at index `i` of a map with distinct IRIs differs from every object before it. */
  lemma DistinctFromPrefix(objects: seq<MapIndividual>, i: nat)
    requires DistinctIris(objects) && i < |objects|
    ensures forall j | 0 <= j < |objects[..i]| :: objects[..i][j].iri != objects[i].iri
  {
    forall j | 0 <= j < |objects[..i]| ensures objects[..i][j].iri != objects[i].iri {
      assert objects[..i][j] == objects[j];
    }
  }

  /**
   * `objects[iri] = obj_type`, then `active_objects[iri] = obj_type` when the
   * object is active: recording an object with a fresh IRI keeps both tables right.
   */
  method RecordObject(objects: Dict, active: Dict, objs: seq<MapIndividual>, o: MapIndividual,
                      knownClasses: seq<string>, onto: seq<OntologyIndividual>)
    returns (objects': Dict, active': Dict)
    requires ObjectTable(objects, objs, knownClasses) && ActiveTable(active, objs, knownClasses, onto)
    requires forall j | 0 <= j < |objs| :: objs[j].iri != o.iri
    ensures ObjectTable(objects', objs + [o], knownClasses) && ActiveTable(active', objs + [o], knownClasses, onto)
  {
    var objType := ObjectType(o, knownClasses);
    ObjectTableStep(objects, objs, o, knownClasses);
    ActiveTableStep(active, objs, o, knownClasses, onto);
    objects' := Put(objects, o.iri, objType);
    active' := active;
    if IsActiveObject(o.iri, onto) {
      active' := Put(active, o.iri, objType);
    }
  }

  /**
   * The tables' meaning: an object is active exactly when it is recorded and
   * `_is_active_object` holds of it, and an active object has the type it
   * was recorded with.
   */
  lemma ObjectTablesMeaning(objects: Dict, active: Dict, objs: seq<MapIndividual>,
                            knownClasses: seq<string>, onto: seq<OntologyIndividual>)
    requires ObjectTable(objects, objs, knownClasses) && ActiveTable(active, objs, knownClasses, onto)
    ensures forall k :: k in active.entries <==> k in objects.entries && IsActiveObject(k, onto)
    ensures forall k | k in active.entries :: active.entries[k] == objects.entries[k]
  {
    forall k ensures k in active.entries <==> k in objects.entries && IsActiveObject(k, onto) {
      ActiveKeyMeaning(objects, active, objs, knownClasses, onto, k);
    }
    forall k | k in active.entries ensures active.entries[k] == objects.entries[k] {
      ActiveKeyMeaning(objects, active, objs, knownClasses, onto, k);
    }
  }

  /** `active` holds exactly the entries of `objects` whose key is an active object. */
  ghost predicate ActiveAmong(active: Dict, objects: Dict, onto: seq<OntologyIndividual>) {
    && (forall k :: k in active.entries <==> k in objects.entries && IsActiveObject(k, onto))
    && (forall k | k in active.entries :: active.entries[k] == objects.entries[k])
  }

  lemma ActiveKeyMeaning(objects: Dict, active: Dict, objs: seq<MapIndividual>,
                         knownClasses: seq<string>, onto: seq<OntologyIndividual>, k: string)
    requires ObjectTable(objects, objs, knownClasses) && ActiveTable(active, objs, knownClasses, onto)
    ensures k in active.entries <==> k in objects.entries && IsActiveObject(k, onto)
    ensures k in active.entries ==> active.entries[k] == objects.entries[k]
  {
    FilterMembership(Iris(objs), ActiveIn(onto), k);
    if k in active.entries {
      var j :| 0 <= j < |objs| && Iris(objs)[j] == k;
    }
  }

  // ---------------------------------------------------------------------------
  // TF datapoints

  /** `{iri.split("#")[-1]: iri for iri in keys}`: a later IRI with the same short name wins. */
  function ShortNames(keys: seq<string>): (r: map<string, string>)
    ensures forall s | s in r :: r[s] in keys && LastSegment(r[s], '#') == s
    ensures forall k | k in keys :: LastSegment(k, '#') in r
    decreases |keys|
  {
    if keys == [] then map[]
    else
      var last := keys[|keys| - 1];
      ShortNames(keys[..|keys| - 1])[LastSegment(last, '#') := last]
  }

  function ClassIs(cls: string): string -> bool {
    c => c == cls
  }

  function ClassMentions(part: string): string -> bool {
    c => IsSubstring(part, c)
  }

  /** Some object of `d` has a class satisfying `p`. */
  predicate HasObjectWhere(d: Dict, p: string -> bool) {
    exists k | k in d.entries :: p(d.entries[k])
  }

  /** The frames `_assert_tf` writes for: active objects by short name, and the hand, thumb and index IRIs. */
  datatype Frames = Frames(objectIris: map<string, string>, hand: string, thumb: string, index: string)

  /**
   * The preparation of `_assert_tf`: the short-name table of the active
   * objects, then the first object of the end-effector class, the first
   * whose class mentions `rThumb` and the first whose class mentions
   * `rIndex`, in that order; a missing one raises StopIteration.
   */
  function TfFrames(allObjects: Dict, activeObjects: Dict, endEffectorClass: string): (r: Result<Frames, NeemError>)
    requires WellFormed(allObjects)
    ensures r.Ok? <==>
      (HasObjectWhere(allObjects, ClassIs(endEffectorClass))
       && HasObjectWhere(allObjects, ClassMentions("rThumb")) && HasObjectWhere(allObjects, ClassMentions("rIndex")))
    ensures !HasObjectWhere(allObjects, ClassIs(endEffectorClass)) ==> r == Err(NoObjectOfClass(endEffectorClass))
    ensures HasObjectWhere(allObjects, ClassIs(endEffectorClass)) && !HasObjectWhere(allObjects, ClassMentions("rThumb"))
      ==> r == Err(NoObjectOfClass("rThumb"))
    ensures (HasObjectWhere(allObjects, ClassIs(endEffectorClass)) && HasObjectWhere(allObjects, ClassMentions("rThumb"))
             && !HasObjectWhere(allObjects, ClassMentions("rIndex")))
      ==> r == Err(NoObjectOfClass("rIndex"))
    ensures r.Ok? ==> var f := r.value;
      && f.hand in allObjects.entries && allObjects.entries[f.hand] == endEffectorClass
      && f.thumb in allObjects.entries && IsSubstring("rThumb", allObjects.entries[f.thumb])
      && f.index in allObjects.entries && IsSubstring("rIndex", allObjects.entries[f.index])
      && (forall s | s in f.objectIris :: f.objectIris[s] in activeObjects.keys && LastSegment(f.objectIris[s], '#') == s)
      && (forall k | k in activeObjects.keys :: LastSegment(k, '#') in f.objectIris)
  {
    match FirstKeyWhere(allObjects, ClassIs(endEffectorClass))
    case None => Err(NoObjectOfClass(endEffectorClass))
    case Some(hand) =>
      match FirstKeyWhere(allObjects, ClassMentions("rThumb"))
      case None => Err(NoObjectOfClass("rThumb"))
      case Some(thumb) =>
        match FirstKeyWhere(allObjects, ClassMentions("rIndex"))
        case None => Err(NoObjectOfClass("rIndex"))
        case Some(index) => Ok(Frames(ShortNames(activeObjects.keys), hand, thumb, index))
  }

  function WorldPoint(ts: real, frame: string, pose: seq<real>): Datapoint {
    Datapoint(ts, Named(frame), "world", pose)
  }

  /** The datapoints of a document's object records: one per record whose id is a known short name. */
  function ObjectPoints(ts: real, records: seq<PoseRecord>, f: Frames): seq<Datapoint>
    decreases |records|
  {
    if records == [] then []
    else
      var rec := records[|records| - 1];
      ObjectPoints(ts, records[..|records| - 1], f)
        + (if rec.id in f.objectIris then [WorldPoint(ts, f.objectIris[rec.id], rec.pose)] else [])
  }

  /** A tracked bone's datapoint: the thumb tip for bone 3, the index tip for bone 7, nothing for the others. */
  function BonePoint(ts: real, b: Bone, f: Frames): seq<Datapoint> {
    if b.idx == THUMB_TIP_BONE then [WorldPoint(ts, f.thumb, b.pose)]
    else if b.idx == INDEX_TIP_BONE then [WorldPoint(ts, f.index, b.pose)]
    else []
  }

  function BonePoints(ts: real, bones: seq<Bone>, f: Frames): seq<Datapoint>
    decreases |bones|
  {
    if bones == [] then [] else BonePoints(ts, bones[..|bones| - 1], f) + BonePoint(ts, bones[|bones| - 1], f)
  }

  /** A hand record is the end effector when its id is the short name of the end-effector hand. */
  predicate IsEndEffector(h: HandRecord, f: Frames) {
    h.id in f.objectIris && f.objectIris[h.id] == f.hand
  }

  /** The end-effector hand gives its own datapoint followed by those of its tracked bones; other hands give none. */
  function HandPoints(ts: real, h: HandRecord, f: Frames): seq<Datapoint> {
    if IsEndEffector(h, f) then [WorldPoint(ts, f.hand, h.pose)] + BonePoints(ts, h.bones, f) else []
  }

  function SkeletonPoints(ts: real, hands: seq<HandRecord>, f: Frames): seq<Datapoint>
    decreases |hands|
  {
    if hands == [] then [] else SkeletonPoints(ts, hands[..|hands| - 1], f) + HandPoints(ts, hands[|hands| - 1], f)
  }

  /** A document's datapoints: its objects first, then its hands. */
  function DocumentPoints(d: Document, f: Frames): seq<Datapoint> {
    ObjectPoints(d.timestamp, d.individuals, f) + SkeletonPoints(d.timestamp, d.skelIndividuals, f)
  }

  /** The trajectory of a collection: the documents' datapoints in document order. */
  function Datapoints(docs: seq<Document>, f: Frames): seq<Datapoint>
    decreases |docs|
  {
    if docs == [] then [] else Datapoints(docs[..|docs| - 1], f) + DocumentPoints(docs[|docs| - 1], f)
  }

  /** The trajectory of two runs of documents is the trajectory of the first followed by that of the second. */
  lemma {:induction false} DatapointsAppend(a: seq<Document>, b: seq<Document>, f: Frames)
    ensures Datapoints(a + b, f) == Datapoints(a, f) + Datapoints(b, f)
    decreases |b|
  {
    if b == [] {
      assert a + b == a;
    } else {
      assert (a + b)[..|a + b| - 1] == a + b[..|b| - 1];
      DatapointsAppend(a, b[..|b| - 1], f);
    }
  }

  /** The bones that yield a datapoint: the thumb tip and the index-finger tip. */
  predicate Tracked(b: Bone) {
    b.idx == THUMB_TIP_BONE || b.idx == INDEX_TIP_BONE
  }

  /**
   * The bone datapoints are the tracked bones, in order, each written for
   * the thumb IRI when it is bone 3 and for the index IRI when it is bone 7.
   */
  lemma {:induction false} BonePointsAreTrackedBones(ts: real, bones: seq<Bone>, f: Frames)
    ensures var tracked := Filter(bones, Tracked);
      var r := BonePoints(ts, bones, f);
      |r| == |tracked|
      && forall i | 0 <= i < |r| ::
           r[i] == WorldPoint(ts, if tracked[i].idx == THUMB_TIP_BONE then f.thumb else f.index, tracked[i].pose)
    decreases |bones|
  {
    if bones != [] {
      var init, b := bones[..|bones| - 1], bones[|bones| - 1];
      assert bones == init + [b];
      BonePointsAreTrackedBones(ts, init, f);
      FilterAppend(init, [b], Tracked);
      assert Filter([b], Tracked) == (if Tracked(b) then [b] else []) + Filter([], Tracked);
    }
  }

  /** Each object datapoint is written for the full IRI of the active object whose short name is the record's id. */
  lemma {:induction false} ObjectPointsAreKnownRecords(ts: real, records: seq<PoseRecord>, f: Frames)
    ensures var known := Filter(records, (rec: PoseRecord) => rec.id in f.objectIris);
      var r := ObjectPoints(ts, records, f);
      |r| == |known|
      && forall i | 0 <= i < |r| ::
           known[i].id in f.objectIris && r[i] == WorldPoint(ts, f.objectIris[known[i].id], known[i].pose)
    decreases |records|
  {
    if records != [] {
      var init, rec := records[..|records| - 1], records[|records| - 1];
      assert records == init + [rec];
      ObjectPointsAreKnownRecords(ts, init, f);
      FilterAppend(init, [rec], (rec: PoseRecord) => rec.id in f.objectIris);
      assert Filter([rec], (rec: PoseRecord) => rec.id in f.objectIris)
        == (if rec.id in f.objectIris then [rec] else []) + Filter([], (rec: PoseRecord) => rec.id in f.objectIris);
    }
  }

  /** A world-frame datapoint of the end-effector hand, its thumb or its index finger. */
  predicate HandFrame(d: Datapoint, f: Frames) {
    d.reference == "world" && (d.frame == Named(f.hand) || d.frame == Named(f.thumb) || d.frame == Named(f.index))
  }

  /** A frame a datapoint can be written for: an active object, the end-effector hand, its thumb or its index finger. */
  predicate KnownFrame(d: Datapoint, f: Frames) {
    HandFrame(d, f) || (d.reference == "world" && exists s | s in f.objectIris :: d.frame == Named(f.objectIris[s]))
  }

  lemma HandPointsFrames(ts: real, h: HandRecord, f: Frames)
    ensures forall d | d in HandPoints(ts, h, f) :: HandFrame(d, f)
  {
    if IsEndEffector(h, f) {
      var bones := BonePoints(ts, h.bones, f);
      BonePointsAreTrackedBones(ts, h.bones, f);
      forall d | d in bones ensures HandFrame(d, f) {
        var i :| 0 <= i < |bones| && bones[i] == d;
      }
    }
  }

  lemma {:induction false} SkeletonPointsOnlyEndEffector(ts: real, hands: seq<HandRecord>, f: Frames)
    ensures forall d | d in SkeletonPoints(ts, hands, f) :: HandFrame(d, f)
    ensures (forall i | 0 <= i < |hands| :: !IsEndEffector(hands[i], f)) ==> SkeletonPoints(ts, hands, f) == []
    decreases |hands|
  {
    if hands != [] {
      var init, h := hands[..|hands| - 1], hands[|hands| - 1];
      assert SkeletonPoints(ts, hands, f) == SkeletonPoints(ts, init, f) + HandPoints(ts, h, f);
      SkeletonPointsOnlyEndEffector(ts, init, f);
      HandPointsFrames(ts, h, f);
      assert forall i | 0 <= i < |init| :: init[i] == hands[i];
    }
  }

  /**
   * Every datapoint of the trajectory is in the world frame and written for an
   * active object, the end-effector hand, its thumb or its index finger; the
   * hands that are not the end effector contribute nothing.
   */
  lemma {:induction false} DatapointsHaveKnownFrames(docs: seq<Document>, f: Frames)
    ensures forall d | d in Datapoints(docs, f) :: KnownFrame(d, f)
    decreases |docs|
  {
    if docs != [] {
      var init, doc := docs[..|docs| - 1], docs[|docs| - 1];
      assert Datapoints(docs, f) == Datapoints(init, f) + DocumentPoints(doc, f);
      DatapointsHaveKnownFrames(init, f);
      DocumentPointsFrames(doc, f);
    }
  }

  lemma DocumentPointsFrames(doc: Document, f: Frames)
    ensures forall d | d in DocumentPoints(doc, f) :: KnownFrame(d, f)
  {
    ObjectPointsFrames(doc.timestamp, doc.individuals, f);
    SkeletonPointsOnlyEndEffector(doc.timestamp, doc.skelIndividuals, f);
  }

  lemma ObjectPointsFrames(ts: real, records: seq<PoseRecord>, f: Frames)
    ensures forall d | d in ObjectPoints(ts, records, f) :: KnownFrame(d, f)
  {
    var objs := ObjectPoints(ts, records, f);
    ObjectPointsAreKnownRecords(ts, records, f);
    var known := Filter(records, (rec: PoseRecord) => rec.id in f.objectIris);
    forall d | d in objs ensures KnownFrame(d, f) {
      var i :| 0 <= i < |objs| && objs[i] == d;
      var s := known[i].id;
      assert d.frame == Named(f.objectIris[s]);
    }
  }

  // ---------------------------------------------------------------------------
  // Order of event conversion

  /** The events a loop of `_assert_events` converts: all of them up to and including the first named `sentinel`. */
  function UpToSentinel(events: seq<Event>, sentinel: string): (r: seq<Event>)
    ensures r <= events
    ensures forall i | 0 <= i < |r| - 1 :: r[i].name != sentinel
    ensures |r| < |events| ==> r != [] && r[|r| - 1].name == sentinel
    decreases |events|
  {
    if events == [] then []
    else if events[0].name == sentinel then [events[0]]
    else [events[0]] + UpToSentinel(events[1..], sentinel)
  }

  /** The events `_assert_events` converts, in order: the states up to their sentinel, then the actions up to theirs. */
  function ConversionOrder(events: seq<Event>): seq<Event> {
    UpToSentinel(Filter(events, IsState), STATE_SENTINEL) + UpToSentinel(Filter(events, IsAction), ACTION_SENTINEL)
  }

  /**
   * States are converted before any action: the conversion order is a run of
   * states followed by a run of actions, each in ontology order.
   */
  lemma StatesBeforeActions(events: seq<Event>)
    ensures var order := ConversionOrder(events);
      forall i, j | 0 <= i < j < |order| :: IsAction(order[i]) ==> IsAction(order[j])
    ensures IsSubsequence(UpToSentinel(Filter(events, IsState), STATE_SENTINEL), events)
    ensures IsSubsequence(UpToSentinel(Filter(events, IsAction), ACTION_SENTINEL), events)
  {
    var states := UpToSentinel(Filter(events, IsState), STATE_SENTINEL);
    var actions := UpToSentinel(Filter(events, IsAction), ACTION_SENTINEL);
    forall i | 0 <= i < |states| ensures IsState(states[i]) {
      FilterMembership(events, IsState, states[i]);
    }
    forall i | 0 <= i < |actions| ensures IsAction(actions[i]) {
      FilterMembership(events, IsAction, actions[i]);
    }
    FilterIsSubsequence(events, IsState);
    FilterIsSubsequence(events, IsAction);
    PrefixIsSubsequence(states, Filter(events, IsState), events);
    PrefixIsSubsequence(actions, Filter(events, IsAction), events);
  }

  lemma {:induction false} PrefixIsSubsequence<T>(a: seq<T>, b: seq<T>, c: seq<T>)
    requires a <= b && IsSubsequence(b, c)
    ensures IsSubsequence(a, c)
    decreases |c|
  {
    if a != [] && c != [] {
      if b[0] == c[0] && IsSubsequence(b[1..], c[1..]) {
        PrefixIsSubsequence(a[1..], b[1..], c[1..]);
      } else {
        PrefixIsSubsequence(a, b, c[1..]);
      }
    }
  }

  // ---------------------------------------------------------------------------
  // Collecting the datapoints

  /** The inner loop over a document's `individuals`: records whose id is not a known short name are skipped. */
  method CollectObjectPoints(ts: real, records: seq<PoseRecord>, f: Frames) returns (points: seq<Datapoint>)
    ensures points == ObjectPoints(ts, records, f)
  {
    points := [];
    var i := 0;
    while i < |records|
      invariant 0 <= i <= |records|
      invariant points == ObjectPoints(ts, records[..i], f)
    {
      var rec := records[i];
      assert records[..i + 1][..i] == records[..i];
      if rec.id !in f.objectIris {
        i := i + 1;
        continue;
      }
      points := points + [WorldPoint(ts, f.objectIris[rec.id], rec.pose)];
      i := i + 1;
    }
    assert records[..i] == records;
  }

  /** The loop over a hand's bones: bone 3 is written for the thumb, bone 7 for the index finger, the others skipped. */
  method CollectBonePoints(ts: real, bones: seq<Bone>, f: Frames) returns (points: seq<Datapoint>)
    ensures points == BonePoints(ts, bones, f)
  {
    points := [];
    var i := 0;
    while i < |bones|
      invariant 0 <= i <= |bones|
      invariant points == BonePoints(ts, bones[..i], f)
    {
      var bone := bones[i];
      assert bones[..i + 1][..i] == bones[..i];
      var boneIri;
      if bone.idx == THUMB_TIP_BONE {
        boneIri := f.thumb;
      } else if bone.idx == INDEX_TIP_BONE {
        boneIri := f.index;
      } else {
        i := i + 1;
        continue;
      }
      points := points + [WorldPoint(ts, boneIri, bone.pose)];
      i := i + 1;
    }
    assert bones[..i] == bones;
  }

  /**
   * The inner loop over a document's `skel_individuals`: a hand that is not an
   * active object, or is not the end-effector hand, is skipped; the end
   * effector gives its own pose and then its tracked bones.
   */
  method CollectSkeletonPoints(ts: real, hands: seq<HandRecord>, f: Frames) returns (points: seq<Datapoint>)
    ensures points == SkeletonPoints(ts, hands, f)
  {
    points := [];
    var i := 0;
    while i < |hands|
      invariant 0 <= i <= |hands|
      invariant points == SkeletonPoints(ts, hands[..i], f)
    {
      var hand := hands[i];
      assert hands[..i + 1][..i] == hands[..i];
      assert SkeletonPoints(ts, hands[..i + 1], f) == points + HandPoints(ts, hand, f);
      if hand.id !in f.objectIris {
        assert HandPoints(ts, hand, f) == [];
        i := i + 1;
        continue;
      }
      var handId := f.objectIris[hand.id];
      if handId != f.hand {
        assert HandPoints(ts, hand, f) == [];
        i := i + 1;
        continue;
      }
      var bonePoints := CollectBonePoints(ts, hand.bones, f);
      points := points + ([WorldPoint(ts, handId, hand.pose)] + bonePoints);
      i := i + 1;
    }
    assert hands[..i] == hands;
  }

  /** The loop over the documents of the episode collection: each document's objects, then its hands. */
  method CollectDatapoints(docs: seq<Document>, f: Frames) returns (points: seq<Datapoint>)
    ensures points == Datapoints(docs, f)
  {
    points := [];
    var i := 0;
    while i < |docs|
      invariant 0 <= i <= |docs|
      invariant points == Datapoints(docs[..i], f)
    {
      var doc := docs[i];
      assert docs[..i + 1][..i] == docs[..i];
      var objectPoints := CollectObjectPoints(doc.timestamp, doc.individuals, f);
      var skeletonPoints := CollectSkeletonPoints(doc.timestamp, doc.skelIndividuals, f);
      points := points + objectPoints + skeletonPoints;
      i := i + 1;
    }
    assert docs[..i] == docs;
  }

  /** The first name ending in `suffix`, as `next(filter(lambda fn: fn.endswith(suffix), names))` finds it. */
  function FirstEndingWith(names: seq<string>, suffix: string): (r: Option<string>)
    ensures r.Some? ==> exists i | 0 <= i < |names| ::
      (names[i] == r.value && EndsWith(r.value, suffix) && forall j | 0 <= j < i :: !EndsWith(names[j], suffix))
    ensures r.None? ==> forall i | 0 <= i < |names| :: !EndsWith(names[i], suffix)
    decreases |names|
  {
    if names == [] then None
    else if EndsWith(names[0], suffix) then Some(names[0])
    else
      var r := FirstEndingWith(names[1..], suffix);
      assert forall i | 1 <= i < |names| :: names[1..][i - 1] == names[i];
      r
  }

  // ---------------------------------------------------------------------------
  // Converting the events

  /**
   * The effect of converting events one after the other, each with the
   * counter where the previous one left it: the facts appended, the IRIs
   * created and the states registered. The first conversion that raises ends
   * the run with its error.
   */
  datatype Run = Run(result: Result<(), ConvertError>, added: seq<Fact>, created: nat, registered: seq<Iri>)

  /** Converting nothing. */
  const NoRun := Run(Ok(()), [], 0, [])

  /** The run `a`, then one more conversion with the outcome `o`; nothing more once `a` has raised. */
  function Then(a: Run, o: Outcome): Run {
    if a.result.Err? then a
    else Run(if o.result.Err? then Err(o.result.error) else Ok(()),
             a.added + o.added, a.created + o.created, a.registered + o.registered)
  }

  /** What converting one event does, for each value of the counter. */
  function Converting(c: Setting): (Event, nat) -> Outcome {
    (e: Event, next: nat) => EventOutcome(c, e, next)
  }

  /**
   * A loop of `_assert_events` over the first `n` of `events`, without its
   * sentinel test, continuing the run `prior` that began with the counter at
   * `next`; `convert` gives each event's outcome.
   */
  function RunOn(convert: (Event, nat) -> Outcome, prior: Run, events: seq<Event>, n: nat, next: nat): Run
    requires n <= |events|
    decreases n
  {
    if n == 0 then prior
    else
      var before := RunOn(convert, prior, events, n - 1, next);
      Then(before, convert(events[n - 1], next + before.created))
  }

  /** Once a run has raised, the events after it change nothing. */
  lemma {:induction false} RunOnAfterError(convert: (Event, nat) -> Outcome, prior: Run, events: seq<Event>,
                                           i: nat, n: nat, next: nat)
    requires i <= n <= |events|
    requires RunOn(convert, prior, events, i, next).result.Err?
    ensures RunOn(convert, prior, events, n, next) == RunOn(convert, prior, events, i, next)
    decreases n
  {
    if n > i {
      RunOnAfterError(convert, prior, events, i, n - 1, next);
    }
  }

  /** Each of the first `n` events' own conversion returns. */
  ghost predicate EachReturns(convert: (Event, nat) -> Outcome, prior: Run, events: seq<Event>, n: nat, next: nat)
    requires n <= |events|
  {
    forall k | 0 <= k < n :: Returns(convert, prior, events, k, next)
  }

  /** The own conversion of `events[k]` returns, with the counter where the run before it left it. */
  ghost predicate Returns(convert: (Event, nat) -> Outcome, prior: Run, events: seq<Event>, k: nat, next: nat)
    requires k < |events|
  {
    convert(events[k], next + RunOn(convert, prior, events, k, next).created).result.Ok?
  }

  /** A run succeeds exactly when the run it continues did and every event's own conversion returns. */
  lemma {:induction false} RunOnSucceeds(convert: (Event, nat) -> Outcome, prior: Run, events: seq<Event>, n: nat,
                                         next: nat)
    requires n <= |events|
    ensures RunOn(convert, prior, events, n, next).result.Ok?
      <==> prior.result.Ok? && EachReturns(convert, prior, events, n, next)
    decreases n
  {
    if n > 0 {
      RunOnSucceeds(convert, prior, events, n - 1, next);
      assert EachReturns(convert, prior, events, n, next)
        <==> EachReturns(convert, prior, events, n - 1, next) && Returns(convert, prior, events, n - 1, next);
    }
  }

  /**
   * A run stops at the event that raises: when the run before `events[k]`
   * is fine and `events[k]` raises, the run is the run up to and including
   * `events[k]`, and its error is that event's error.
   */
  lemma RunOnStopsAtError(convert: (Event, nat) -> Outcome, prior: Run, events: seq<Event>, k: nat, n: nat, next: nat)
    requires k < n <= |events|
    requires RunOn(convert, prior, events, k, next).result.Ok?
    requires convert(events[k], next + RunOn(convert, prior, events, k, next).created).result.Err?
    ensures RunOn(convert, prior, events, n, next) == RunOn(convert, prior, events, k + 1, next)
    ensures RunOn(convert, prior, events, n, next).result
      == Err(convert(events[k], next + RunOn(convert, prior, events, k, next).created).result.error)
  {
    RunOnAfterError(convert, prior, events, k + 1, n, next);
  }

  /** A run over the first `n` events looks at no other event. */
  lemma {:induction false} RunOnPrefix(convert: (Event, nat) -> Outcome, prior: Run, s: seq<Event>, t: seq<Event>,
                                       n: nat, next: nat)
    requires n <= |s| && n <= |t|
    requires forall k | 0 <= k < n :: s[k] == t[k]
    ensures RunOn(convert, prior, s, n, next) == RunOn(convert, prior, t, n, next)
    decreases n
  {
    if n > 0 {
      RunOnPrefix(convert, prior, s, t, n - 1, next);
    }
  }

  /** Running over `a + b` is running over `a` and then, continuing that run, over `b`. */
  lemma {:induction false} RunOnConcat(convert: (Event, nat) -> Outcome, prior: Run, a: seq<Event>, b: seq<Event>,
                                       m: nat, next: nat)
    requires m <= |b|
    ensures RunOn(convert, prior, a + b, |a| + m, next)
      == RunOn(convert, RunOn(convert, prior, a, |a|, next), b, m, next)
    decreases m
  {
    if m == 0 {
      RunOnPrefix(convert, prior, a + b, a, |a|, next);
    } else {
      RunOnConcat(convert, prior, a, b, m - 1, next);
      assert (a + b)[|a| + m - 1] == b[m - 1];
    }
  }

  /** The run of `_assert_events`: the events of the conversion order, converted in that order. */
  function EventsRun(convert: (Event, nat) -> Outcome, events: seq<Event>, next: nat): Run {
    var order := ConversionOrder(events);
    RunOn(convert, NoRun, order, |order|, next)
  }

  /** The run of a loop of `_assert_events` is the run over the events it converts. */
  lemma RunUpToSentinel(convert: (Event, nat) -> Outcome, prior: Run, events: seq<Event>, sentinel: string, next: nat)
    ensures var u := UpToSentinel(events, sentinel);
      RunOn(convert, prior, events, |u|, next) == RunOn(convert, prior, u, |u|, next)
  {
    var u := UpToSentinel(events, sentinel);
    RunOnPrefix(convert, prior, events, u, |u|, next);
  }

  /**
   * That run is the run of the two loops of `_assert_events`: the states up to
   * and including their sentinel, then, continuing it, the actions up to and
   * including theirs.
   */
  lemma EventsRunIsTwoLoops(convert: (Event, nat) -> Outcome, events: seq<Event>, next: nat)
    ensures var states := Filter(events, IsState);
      var actions := Filter(events, IsAction);
      var first := RunOn(convert, NoRun, states, |UpToSentinel(states, STATE_SENTINEL)|, next);
      EventsRun(convert, events, next) == RunOn(convert, first, actions, |UpToSentinel(actions, ACTION_SENTINEL)|, next)
  {
    var states := Filter(events, IsState);
    var actions := Filter(events, IsAction);
    RunOnTwoPrefixes(convert, states, actions, UpToSentinel(states, STATE_SENTINEL),
                     UpToSentinel(actions, ACTION_SENTINEL), next);
  }

  /** Running over a prefix `s` of `x` and then a prefix `a` of `y` is running over the first `|s|` of `x`, then the first `|a|` of `y`. */
  lemma RunOnTwoPrefixes(convert: (Event, nat) -> Outcome, x: seq<Event>, y: seq<Event>, s: seq<Event>, a: seq<Event>,
                         next: nat)
    requires s <= x && a <= y
    ensures RunOn(convert, NoRun, s + a, |s + a|, next)
      == RunOn(convert, RunOn(convert, NoRun, x, |s|, next), y, |a|, next)
  {
    var first := RunOn(convert, NoRun, s, |s|, next);
    assert RunOn(convert, NoRun, s + a, |s| + |a|, next) == RunOn(convert, first, a, |a|, next) by {
      RunOnConcat(convert, NoRun, s, a, |a|, next);
    }
    assert first == RunOn(convert, NoRun, x, |s|, next) by {
      RunOnPrefix(convert, NoRun, x, s, |s|, next);
    }
    RunOnPrefix(convert, first, y, a, |a|, next);
  }

  /**
   * A loop that has met no sentinel before `events[i]` goes on to convert it:
   * the events up to the sentinel reach past `i`, and end right after it when
   * it is the sentinel.
   */
  lemma SentinelReach(events: seq<Event>, i: nat, sentinel: string)
    requires i < |events| && i <= |UpToSentinel(events, sentinel)|
    requires i > 0 ==> events[i - 1].name != sentinel
    ensures i < |UpToSentinel(events, sentinel)|
    ensures events[i].name == sentinel ==> |UpToSentinel(events, sentinel)| == i + 1
  {
  }

  /** `convert` gives, for each event and counter, what converting the event does under `c`. */
  ghost predicate Agrees(convert: (Event, nat) -> Outcome, c: Setting) {
    forall e: Event, next: nat {:trigger EventOutcome(c, e, next)} :: convert(e, next) == EventOutcome(c, e, next)
  }

  /** The converter's log, counter and registry are where `run`, begun at `facts`, `start` and `states`, left them. */
  ghost predicate Mirrors(ec: EventConverter, run: Run, start: nat, facts: seq<Fact>, states: seq<Iri>)
    reads ec, ec.kb
  {
    ec.kb.facts == facts + run.added && ec.kb.nextId == start + run.created && ec.assertedStates == states + run.registered
  }

  /** The event converter's `convert`, seen through `convert`. */
  method ConvertEvent(ec: EventConverter, e: Event, ghost convert: (Event, nat) -> Outcome)
    returns (r: Result<Option<Iri>, ConvertError>)
    requires ec.Valid() && Agrees(convert, ec.Context())
    modifies ec, ec.kb
    ensures ec.Valid() && Agrees(convert, ec.Context())
    ensures r == convert(e, old(ec.kb.nextId)).result
    ensures ec.Applied(convert(e, old(ec.kb.nextId)), old(ec.kb.facts), old(ec.kb.nextId), old(ec.assertedStates))
  {
    r := ec.Convert(e);
  }

  /** `Mirrors` holds of a run equal to one it holds of. */
  lemma MirrorsSame(ec: EventConverter, a: Run, b: Run, start: nat, facts: seq<Fact>, states: seq<Iri>)
    requires a == b && Mirrors(ec, a, start, facts, states)
    ensures Mirrors(ec, b, start, facts, states)
  {
  }

  /**
   * One pass of a loop of `_assert_events`: converts `events[i]` with the
   * event converter, extending the run over the events before it by one.
   */
  method ConvertAt(ec: EventConverter, events: seq<Event>, i: nat, ghost convert: (Event, nat) -> Outcome,
                   ghost prior: Run, ghost start: nat, ghost facts: seq<Fact>, ghost states: seq<Iri>)
    returns (r: Result<(), ConvertError>)
    requires i < |events|
    requires ec.Valid() && Agrees(convert, ec.Context())
    requires RunOn(convert, prior, events, i, start).result.Ok?
    requires Mirrors(ec, RunOn(convert, prior, events, i, start), start, facts, states)
    modifies ec, ec.kb
    ensures ec.Valid() && Agrees(convert, ec.Context())
    ensures r == RunOn(convert, prior, events, i + 1, start).result
    ensures Mirrors(ec, RunOn(convert, prior, events, i + 1, start), start, facts, states)
  {
    ghost var before := RunOn(convert, prior, events, i, start);
    var res := ConvertEvent(ec, events[i], convert);
    ghost var o := convert(events[i], start + before.created);
    assert ec.kb.facts == facts + (before.added + o.added);
    assert ec.assertedStates == states + (before.registered + o.registered);
    r := if res.Err? then Err(res.error) else Ok(());
  }

  /**
   * One loop of `_assert_events`, continuing the run `prior` that began with
   * the counter at `start`, the log at `facts` and the registry at `states`:
   * converts `events` in order and stops after the one named `sentinel`; an
   * event whose conversion raises ends the loop with that error. `convert`
   * is what converting an event does.
   */
  method ConvertUpTo(ec: EventConverter, events: seq<Event>, sentinel: string, ghost convert: (Event, nat) -> Outcome,
                     ghost prior: Run, ghost start: nat, ghost facts: seq<Fact>, ghost states: seq<Iri>)
    returns (r: Result<(), ConvertError>)
    requires ec.Valid() && Agrees(convert, ec.Context())
    requires prior.result.Ok? && Mirrors(ec, prior, start, facts, states)
    modifies ec, ec.kb
    ensures ec.Valid()
    ensures var run := RunOn(convert, prior, events, |UpToSentinel(events, sentinel)|, start);
      r == run.result && Mirrors(ec, run, start, facts, states)
  {
    ghost var m := |UpToSentinel(events, sentinel)|;
    var i := 0;
    ghost var run := prior;
    while i < |events|
      invariant 0 <= i <= m <= |events|
      invariant ec.Valid() && Agrees(convert, ec.Context())
      invariant i > 0 ==> events[i - 1].name != sentinel
      invariant run == RunOn(convert, prior, events, i, start)
      invariant run.result.Ok? && Mirrors(ec, run, start, facts, states)
    {
      SentinelReach(events, i, sentinel);
      r := ConvertAt(ec, events, i, convert, prior, start, facts, states);
      run := RunOn(convert, prior, events, i + 1, start);
      if r.Err? || events[i].name == sentinel {
        if r.Err? {
          RunOnAfterError(convert, prior, events, i + 1, m, start);
        }
        MirrorsSame(ec, run, RunOn(convert, prior, events, m, start), start, facts, states);
        return;
      }
      i := i + 1;
    }
    MirrorsSame(ec, run, RunOn(convert, prior, events, m, start), start, facts, states);
    assert run.result.value == ();
    return Ok(());
  }

  // ---------------------------------------------------------------------------
  // The converter

  /** The log ends with the trajectory of `collection`, written for the frames the two object tables give. */
  ghost predicate EndsWithTrajectory(facts: seq<Fact>, collection: Collection, allObjects: Dict, activeObjects: Dict,
                                     endEffectorClass: string)
  {
    && WellFormed(allObjects)
    && TfFrames(allObjects, activeObjects, endEffectorClass).Ok?
    && |facts| > 0
    && facts[|facts| - 1] == TrajectoryFact(Datapoints(collection.documents, TfFrames(allObjects, activeObjects, endEffectorClass).value))
  }

  /** What the events and then the trajectory of an episode do to the log and the counter. */
  datatype EpisodeRun = EpisodeRun(result: Result<(), NeemError>, added: seq<Fact>, created: nat)

  /**
   * `_assert_events` and then `_assert_tf`: the events in conversion order;
   * unless one of them raised, the trajectory of `documents` for the frames
   * `frames` gives, unless finding a frame raised.
   */
  function EventsAndTf(c: Setting, events: seq<Event>, documents: seq<Document>, frames: Result<Frames, NeemError>,
                       next: nat): EpisodeRun
  {
    var run := EventsRun(Converting(c), events, next);
    if run.result.Err? then EpisodeRun(Err(EventFailed(run.result.error)), run.added, run.created)
    else match frames
      case Err(e) => EpisodeRun(Err(e), run.added, run.created)
      case Ok(f) => EpisodeRun(Ok(()), run.added + [TrajectoryFact(Datapoints(documents, f))], run.created)
  }

  /** The file of an episode's events, `<collection>_ED.owl`. */
  function EventOntologyFile(collection: string): string {
    collection + "_ED.owl"
  }

  /**
   * The episode converter. It writes into `kb` under the episode's
   * `topLevelAction`; `parseFloat` is Python's `float` on the text of a
   * timestamp; `endEffectorClass` names the class of the hand whose poses are
   * recorded. `agent`, `allObjects` and `activeObjects` are set by `Convert`.
   */
  class VRNeemConverter {
    const kb: KnowledgeBase
    const topLevelAction: Iri
    const parseFloat: string -> Option<real>
    const endEffectorClass: string
    var agent: Iri
    var allObjects: Dict
    var activeObjects: Dict

    ghost predicate Valid()
      reads this, kb
    {
      kb.Valid() && WellFormed(allObjects) && WellFormed(activeObjects)
    }

    constructor (kb: KnowledgeBase, topLevelAction: Iri, parseFloat: string -> Option<real>, agent: Iri, endEffectorClass: string)
      requires kb.Valid()
      ensures Valid()
      ensures this.kb == kb && this.topLevelAction == topLevelAction && this.parseFloat == parseFloat
      ensures this.agent == agent && this.endEffectorClass == endEffectorClass
      ensures allObjects == EmptyDict && activeObjects == EmptyDict
    {
      this.kb := kb;
      this.topLevelAction := topLevelAction;
      this.parseFloat := parseFloat;
      this.agent := agent;
      this.endEffectorClass := endEffectorClass;
      allObjects := EmptyDict;
      activeObjects := EmptyDict;
    }

    /**
     * `_assert_objects_and_agent`: asserts each object of the semantic map
     * with its type, in map order, and returns the agent, the objects by IRI
     * with their types, and the active ones among them. The agent is what
     * asserting the agent and its hand returns, `handAgent` here.
     */
    method AssertObjectsAndAgent(semanticMap: seq<MapIndividual>, onto: seq<OntologyIndividual>,
                                 knownClasses: seq<string>, handAgent: Iri)
      returns (agentIri: Iri, objects: Dict, active: Dict)
      requires kb.Valid() && DistinctIris(semanticMap)
      modifies kb
      ensures kb.Valid()
      ensures kb.facts == old(kb.facts) + ObjectFacts(semanticMap, knownClasses) && kb.nextId == old(kb.nextId)
      ensures agentIri == handAgent
      ensures ObjectTable(objects, semanticMap, knownClasses) && ActiveTable(active, semanticMap, knownClasses, onto)
      ensures ActiveAmong(active, objects, onto)
    {
      objects, active := EmptyDict, EmptyDict;
      var i := 0;
      while i < |semanticMap|
        invariant 0 <= i <= |semanticMap|
        invariant kb.Valid() && kb.nextId == old(kb.nextId)
        invariant kb.facts == old(kb.facts) + ObjectFacts(semanticMap[..i], knownClasses)
        invariant ObjectTable(objects, semanticMap[..i], knownClasses)
        invariant ActiveTable(active, semanticMap[..i], knownClasses, onto)
      {
        var o := semanticMap[i];
        var objType := ObjectType(o, knownClasses);
        kb.Project(ObjectFact(Named(o.iri), objType));
        assert semanticMap[..i + 1] == semanticMap[..i] + [o];
        ObjectFactsStep(semanticMap[..i], o, knownClasses);
        AppendToLog(old(kb.facts), ObjectFacts(semanticMap[..i], knownClasses), ObjectFact(Named(o.iri), objType), kb.facts);
        DistinctFromPrefix(semanticMap, i);
        objects, active := RecordObject(objects, active, semanticMap[..i], o, knownClasses, onto);
        i := i + 1;
      }
      assert semanticMap[..i] == semanticMap;
      ObjectTablesMeaning(objects, active, semanticMap, knownClasses, onto);
      agentIri := handAgent;
    }

    /**
     * `_assert_events`: converts the states up to and including the state
     * sentinel, then the actions up to and including the action sentinel, each
     * in ontology order; the first conversion that raises ends it. The
     * converter sees the agent and top-level action of this converter.
     */
    method AssertEvents(events: seq<Event>) returns (r: Result<(), ConvertError>)
      requires kb.Valid()
      modifies kb
      ensures kb.Valid()
      ensures var run := EventsRun(Converting(Setting(parseFloat, agent, topLevelAction)), events, old(kb.nextId));
        r == run.result && kb.facts == old(kb.facts) + run.added && kb.nextId == old(kb.nextId) + run.created
    {
      var ec := new EventConverter(kb, agent, topLevelAction, parseFloat);
      ghost var c := Converting(ec.Context());
      var states := Filter(events, IsState);
      var actions := Filter(events, IsAction);
      assert old(kb.facts) + [] == old(kb.facts);
      assert Agrees(c, ec.Context());
      r := ConvertUpTo(ec, states, STATE_SENTINEL, c, NoRun, old(kb.nextId), old(kb.facts), []);
      ghost var first := RunOn(c, NoRun, states, |UpToSentinel(states, STATE_SENTINEL)|, old(kb.nextId));
      if r.Err? {
        RunOnAfterError(c, first, actions, 0, |UpToSentinel(actions, ACTION_SENTINEL)|, old(kb.nextId));
        EventsRunIsTwoLoops(c, events, old(kb.nextId));
        return;
      }
      r := ConvertUpTo(ec, actions, ACTION_SENTINEL, c, first, old(kb.nextId), old(kb.facts), []);
      EventsRunIsTwoLoops(c, events, old(kb.nextId));
    }

    /**
     * `_assert_tf`: looks up the frames, then collects the datapoints of every
     * document of the episode in order and asserts them as one trajectory. A
     * frame that cannot be found raises before anything is asserted.
     */
    method AssertTf(episode: Collection) returns (r: Result<(), NeemError>)
      requires kb.Valid() && WellFormed(allObjects)
      modifies kb
      ensures kb.Valid() && kb.nextId == old(kb.nextId)
      ensures match TfFrames(allObjects, activeObjects, endEffectorClass)
        case Err(e) => r == Err(e) && kb.facts == old(kb.facts)
        case Ok(f) => r == Ok(()) && kb.facts == old(kb.facts) + [TrajectoryFact(Datapoints(episode.documents, f))]
    {
      var frames := TfFrames(allObjects, activeObjects, endEffectorClass);
      if frames.Err? {
        return Err(frames.error);
      }
      var datapoints := CollectDatapoints(episode.documents, frames.value);
      kb.Project(TrajectoryFact(datapoints));
      r := Ok(());
    }

    /**
     * The body of the `with Episode(...)` block of `convert` for one
     * collection: the objects, then the events, then the trajectory; the
     * first of them that raises ends the conversion.
     */
    method ConvertEpisode(collection: Collection, semanticMap: seq<MapIndividual>, onto: EventOntology,
                          knownClasses: seq<string>, handAgent: Iri)
      returns (r: Result<(), NeemError>)
      requires Valid() && DistinctIris(semanticMap)
      modifies this, kb
      ensures Valid()
      ensures agent == handAgent
      ensures ObjectTable(allObjects, semanticMap, knownClasses)
      ensures ActiveTable(activeObjects, semanticMap, knownClasses, onto.individuals)
      ensures var ep := EventsAndTf(Setting(parseFloat, handAgent, topLevelAction), onto.events, collection.documents,
                                    TfFrames(allObjects, activeObjects, endEffectorClass), old(kb.nextId));
        && r == ep.result
        && kb.facts == old(kb.facts) + ObjectFacts(semanticMap, knownClasses) + ep.added
        && kb.nextId == old(kb.nextId) + ep.created
      ensures r.Ok? ==> EndsWithTrajectory(kb.facts, collection, allObjects, activeObjects, endEffectorClass)
    {
      agent, allObjects, activeObjects := AssertObjectsAndAgent(semanticMap, onto.individuals, knownClasses, handAgent);
      r := AssertEventsAndTf(collection, onto.events);
    }

    /** The events and then the trajectory of an episode whose objects are recorded. */
    method AssertEventsAndTf(collection: Collection, events: seq<Event>) returns (r: Result<(), NeemError>)
      requires Valid()
      modifies kb
      ensures Valid()
      ensures var ep := EventsAndTf(Setting(parseFloat, agent, topLevelAction), events, collection.documents,
                                    TfFrames(allObjects, activeObjects, endEffectorClass), old(kb.nextId));
        r == ep.result && kb.facts == old(kb.facts) + ep.added && kb.nextId == old(kb.nextId) + ep.created
      ensures r.Ok? ==> EndsWithTrajectory(kb.facts, collection, allObjects, activeObjects, endEffectorClass)
    {
      var converted := AssertEvents(events);
      if converted.Err? {
        return Err(EventFailed(converted.error));
      }
      ghost var log := kb.facts;
      r := AssertTf(collection);
      assert r.Ok? ==> kb.facts == log + [kb.facts[|kb.facts| - 1]];
    }

    /**
     * `convert`: converts the first collection that is neither a `.meta`
     * collection nor empty, and no other. Its semantic map is the first file
     * of the recording directory ending in `SM.owl`, its event ontology the
     * file `<collection>_ED.owl`. `loadMap` and `loadEvents` read an
     * ontology file.
     */
    method Convert(collections: seq<Collection>, recordingFiles: seq<string>,
                   loadMap: string -> seq<MapIndividual>, loadEvents: string -> EventOntology,
                   knownClasses: seq<string>, handAgent: Iri)
      returns (r: Result<(), NeemError>)
      requires Valid()
      requires forall file :: DistinctIris(loadMap(file))
      modifies this, kb
      ensures Valid()
      ensures match FirstEligible(collections)
        case None => r == Ok(()) && kb.facts == old(kb.facts) && kb.nextId == old(kb.nextId)
        case Some(c) =>
          match FirstEndingWith(recordingFiles, "SM.owl")
          case None => r == Err(NoSemanticMap) && kb.facts == old(kb.facts) && kb.nextId == old(kb.nextId)
          case Some(mapFile) =>
            var semanticMap := loadMap(mapFile);
            var onto := loadEvents(EventOntologyFile(collections[c].name));
            var ep := EventsAndTf(Setting(parseFloat, handAgent, topLevelAction), onto.events, collections[c].documents,
                                  TfFrames(allObjects, activeObjects, endEffectorClass), old(kb.nextId));
            && agent == handAgent
            && ObjectTable(allObjects, semanticMap, knownClasses)
            && ActiveTable(activeObjects, semanticMap, knownClasses, onto.individuals)
            && r == ep.result
            && kb.facts == old(kb.facts) + ObjectFacts(semanticMap, knownClasses) + ep.added
            && kb.nextId == old(kb.nextId) + ep.created
            && (r.Ok? ==> EndsWithTrajectory(kb.facts, collections[c], allObjects, activeObjects, endEffectorClass))
    {
      var selected := SelectCollection(collections);
      if selected.None? {
        return Ok(());
      }
      var collection := collections[selected.value];
      var mapFile := FirstEndingWith(recordingFiles, "SM.owl");
      if mapFile.None? {
        return Err(NoSemanticMap);
      }
      r := ConvertEpisode(collection, loadMap(mapFile.value), loadEvents(EventOntologyFile(collection.name)),
                          knownClasses, handAgent);
    }
  }
}

/**
 * The script that cleans recorded VR demonstrations: in every episode it
 * destroys the touching situations in which a hand touches the floor, and
 * removes every line of the episode's HTML timeline that names one of them.
 *
 * Ontologies are values here (their classes and individuals); loading and
 * saving them, copying the directory tree and reading and writing the
 * timeline files are not part of this model.
 */
module CleanDemonstrations {
  import opened Common

  const KNOWROB := "http://knowrob.org/kb/knowrob.owl#"
  const TOUCHING_SITUATION := KNOWROB + "TouchingSituation"
  const RIGHT_HAND := KNOWROB + "GenesisRightHand"
  const LEFT_HAND := KNOWROB + "GenesisLeftHand"
  const FLOOR := KNOWROB + "IAIFloor"

  /** An object something is in contact with, as far as the script reads it: its classes (`is_a`). */
  datatype Thing = Thing(classes: seq<string>)

  /** An individual of an episode ontology: its name, its classes and what it is `inContact` with. */
  datatype Individual = Individual(name: string, classes: seq<string>, inContact: seq<Thing>)

  /** The semantic map, seen through the classes `search(iri=...)` can find in it. */
  datatype SemanticMap = SemanticMap(classes: seq<string>)

  /** `search(iri=...)[0]` on an empty result raises IndexError. */
  datatype CleanError = MissingClass(iri: string)

  /** `ontology.search(iri=iri)[0]`: the class with that IRI. */
  function FindClass(classes: seq<string>, iri: string): (r: Result<string, CleanError>)
    ensures r.Ok? <==> iri in classes
    ensures r.Ok? ==> r.value == iri
    ensures r.Err? ==> r.error == MissingClass(iri)
  {
    if iri in classes then Ok(iri) else Err(MissingClass(iri))
  }

  // ---------------------------------------------------------------------------
  // Who is in contact

  /** The early-return loop of `thing_participates_in_contact` over the objects in contact. */
  function AnyOfClass(things: seq<Thing>, thingClass: string): bool
    decreases |things|
  {
    if things == [] then false
    else if thingClass in things[0].classes then true
    else AnyOfClass(things[1..], thingClass)
  }

  /** `thing_participates_in_contact` */
  function ThingParticipatesInContact(contact: Individual, thingClass: string): bool {
    AnyOfClass(contact.inContact, thingClass)
  }

  /** A thing of the class participates exactly when some object in contact has the class among its types. */
  lemma {:induction false} ThingParticipatesSpec(contact: Individual, thingClass: string)
    ensures ThingParticipatesInContact(contact, thingClass)
      <==> exists i | 0 <= i < |contact.inContact| :: thingClass in contact.inContact[i].classes
  {
    AnyOfClassSpec(contact.inContact, thingClass);
  }

  lemma {:induction false} AnyOfClassSpec(things: seq<Thing>, thingClass: string)
    ensures AnyOfClass(things, thingClass) <==> exists i | 0 <= i < |things| :: thingClass in things[i].classes
    decreases |things|
  {
    if things != [] {
      AnyOfClassSpec(things[1..], thingClass);
      assert forall i | 1 <= i < |things| :: things[1..][i - 1] == things[i];
    }
  }

  /**
   * `hand_participates_in_contact`: both hand classes are looked up in the
   * semantic map (either missing raises), then the right hand or the left
   * hand must be in contact.
   */
  function HandParticipatesInContact(contact: Individual, semanticMap: SemanticMap): (r: Result<bool, CleanError>)
    ensures r.Err? <==> RIGHT_HAND !in semanticMap.classes || LEFT_HAND !in semanticMap.classes
    ensures r.Ok? ==> r.value == (ThingParticipatesInContact(contact, RIGHT_HAND) || ThingParticipatesInContact(contact, LEFT_HAND))
  {
    match FindClass(semanticMap.classes, RIGHT_HAND)
    case Err(e) => Err(e)
    case Ok(rightHand) =>
      match FindClass(semanticMap.classes, LEFT_HAND)
      case Err(e) => Err(e)
      case Ok(leftHand) => Ok(ThingParticipatesInContact(contact, rightHand) || ThingParticipatesInContact(contact, leftHand))
  }

  /** `floor_participates_in_contact`: the floor class is looked up (missing raises), then it must be in contact. */
  function FloorParticipatesInContact(contact: Individual, semanticMap: SemanticMap): (r: Result<bool, CleanError>)
    ensures r.Err? <==> FLOOR !in semanticMap.classes
    ensures r.Ok? ==> r.value == ThingParticipatesInContact(contact, FLOOR)
  {
    match FindClass(semanticMap.classes, FLOOR)
    case Err(e) => Err(e)
    case Ok(floor) => Ok(ThingParticipatesInContact(contact, floor))
  }

  /**
   * The test of the selection loop for one individual: only a touching
   * situation is examined; the floor is examined only when a hand
   * participates (`and` stops early).
   */
  function RemovalTest(indi: Individual, touchingClass: string, semanticMap: SemanticMap): Result<bool, CleanError> {
    if touchingClass !in indi.classes then Ok(false)
    else
      match HandParticipatesInContact(indi, semanticMap)
      case Err(e) => Err(e)
      case Ok(hand) => if !hand then Ok(false) else FloorParticipatesInContact(indi, semanticMap)
  }

  /** A touching situation in which a hand, right or left, and the floor both participate. */
  predicate HandTouchesFloor(indi: Individual, touchingClass: string) {
    && touchingClass in indi.classes
    && (ThingParticipatesInContact(indi, RIGHT_HAND) || ThingParticipatesInContact(indi, LEFT_HAND))
    && ThingParticipatesInContact(indi, FLOOR)
  }

  function HandTouchesFloorOf(touchingClass: string): Individual -> bool {
    indi => HandTouchesFloor(indi, touchingClass)
  }

  /** The semantic map defines both hand classes and the floor class. */
  predicate Complete(semanticMap: SemanticMap) {
    RIGHT_HAND in semanticMap.classes && LEFT_HAND in semanticMap.classes && FLOOR in semanticMap.classes
  }

  /** The individuals the selection loop collects, in order; the first individual whose test raises ends it. */
  function Selection(individuals: seq<Individual>, touchingClass: string, semanticMap: SemanticMap): Result<seq<Individual>, CleanError>
    decreases |individuals|
  {
    if individuals == [] then Ok([])
    else
      var last := individuals[|individuals| - 1];
      match Selection(individuals[..|individuals| - 1], touchingClass, semanticMap)
      case Err(e) => Err(e)
      case Ok(selected) =>
        match RemovalTest(last, touchingClass, semanticMap)
        case Err(e) => Err(e)
        case Ok(remove) => Ok(if remove then selected + [last] else selected)
  }

  /**
   * With a complete semantic map nothing raises, and exactly the touching
   * situations in which a hand and the floor participate are selected, in
   * ontology order.
   */
  lemma {:induction false} SelectionIsHandTouchingFloor(individuals: seq<Individual>, touchingClass: string, semanticMap: SemanticMap)
    requires Complete(semanticMap)
    ensures Selection(individuals, touchingClass, semanticMap) == Ok(Filter(individuals, HandTouchesFloorOf(touchingClass)))
    decreases |individuals|
  {
    if individuals != [] {
      var init, last := individuals[..|individuals| - 1], individuals[|individuals| - 1];
      SelectionIsHandTouchingFloor(init, touchingClass, semanticMap);
      assert RemovalTest(last, touchingClass, semanticMap) == Ok(HandTouchesFloor(last, touchingClass));
      assert individuals == init + [last];
      FilterAppend(init, [last], HandTouchesFloorOf(touchingClass));
      var selectedLast := Filter([last], HandTouchesFloorOf(touchingClass));
      assert selectedLast == (if HandTouchesFloor(last, touchingClass) then [last] else []) + Filter([], HandTouchesFloorOf(touchingClass));
      var selectedInit := Filter(init, HandTouchesFloorOf(touchingClass));
      if HandTouchesFloor(last, touchingClass) {
        assert Selection(individuals, touchingClass, semanticMap) == Ok(selectedInit + [last]);
        assert selectedLast == [last];
      } else {
        assert Selection(individuals, touchingClass, semanticMap) == Ok(selectedInit);
        assert selectedInit + selectedLast == selectedInit;
      }
    }
  }

  /**
   * Whatever the semantic map defines, a test that does not raise answers
   * whether a hand and the floor participate in a touching situation.
   */
  lemma RemovalTestAnswers(indi: Individual, touchingClass: string, semanticMap: SemanticMap)
    requires RemovalTest(indi, touchingClass, semanticMap).Ok?
    ensures RemovalTest(indi, touchingClass, semanticMap).value == HandTouchesFloor(indi, touchingClass)
  {
  }

  /**
   * A selection that does not raise is exactly the touching situations in
   * which a hand and the floor participate, in ontology order, whether or
   * not the semantic map is complete.
   */
  lemma {:induction false} SelectionOkIsHandTouchingFloor(individuals: seq<Individual>, touchingClass: string, semanticMap: SemanticMap)
    requires Selection(individuals, touchingClass, semanticMap).Ok?
    ensures Selection(individuals, touchingClass, semanticMap).value == Filter(individuals, HandTouchesFloorOf(touchingClass))
    decreases |individuals|
  {
    if individuals != [] {
      var init, last := individuals[..|individuals| - 1], individuals[|individuals| - 1];
      SelectionOkIsHandTouchingFloor(init, touchingClass, semanticMap);
      RemovalTestAnswers(last, touchingClass, semanticMap);
      assert individuals == init + [last];
      FilterAppend(init, [last], HandTouchesFloorOf(touchingClass));
      var selectedLast := Filter([last], HandTouchesFloorOf(touchingClass));
      assert selectedLast == (if HandTouchesFloor(last, touchingClass) then [last] else []) + Filter([], HandTouchesFloorOf(touchingClass));
      var selectedInit := Filter(init, HandTouchesFloorOf(touchingClass));
      if !HandTouchesFloor(last, touchingClass) {
        assert selectedInit + selectedLast == selectedInit;
      }
    }
  }

  /** An episode without touching situations never looks at the semantic map: nothing raises and nothing is selected. */
  lemma {:induction false} SelectionWithoutTouching(individuals: seq<Individual>, touchingClass: string, semanticMap: SemanticMap)
    requires forall i | 0 <= i < |individuals| :: touchingClass !in individuals[i].classes
    ensures Selection(individuals, touchingClass, semanticMap) == Ok([])
    decreases |individuals|
  {
    if individuals != [] {
      var init := individuals[..|individuals| - 1];
      assert forall i | 0 <= i < |init| :: init[i] == individuals[i];
      SelectionWithoutTouching(init, touchingClass, semanticMap);
      assert RemovalTest(individuals[|individuals| - 1], touchingClass, semanticMap) == Ok(false);
    }
  }

  /** Only a touching situation can make the selection raise. */
  lemma {:induction false} SelectionErrorNeedsTouching(individuals: seq<Individual>, touchingClass: string, semanticMap: SemanticMap)
    requires Selection(individuals, touchingClass, semanticMap).Err?
    ensures exists i | 0 <= i < |individuals| :: touchingClass in individuals[i].classes
    ensures !Complete(semanticMap)
  {
    if forall i | 0 <= i < |individuals| :: touchingClass !in individuals[i].classes {
      SelectionWithoutTouching(individuals, touchingClass, semanticMap);
    }
    if Complete(semanticMap) {
      SelectionIsHandTouchingFloor(individuals, touchingClass, semanticMap);
    }
  }

  /** The loop that builds `indis_to_remove`. */
  method SelectForRemoval(individuals: seq<Individual>, touchingClass: string, semanticMap: SemanticMap)
    returns (r: Result<seq<Individual>, CleanError>)
    ensures r == Selection(individuals, touchingClass, semanticMap)
  {
    var toRemove := [];
    var i := 0;
    while i < |individuals|
      invariant 0 <= i <= |individuals|
      invariant Selection(individuals[..i], touchingClass, semanticMap) == Ok(toRemove)
    {
      var indi := individuals[i];
      assert individuals[..i + 1][..i] == individuals[..i];
      ghost var verdict := RemovalTest(indi, touchingClass, semanticMap);
      if touchingClass in indi.classes {
        var hand := HandParticipatesInContact(indi, semanticMap);
        if hand.Err? {
          assert verdict == Err(hand.error);
          SelectionErrorPersists(individuals, i + 1, touchingClass, semanticMap);
          return Err(hand.error);
        }
        if hand.value {
          var floor := FloorParticipatesInContact(indi, semanticMap);
          assert verdict == floor;
          if floor.Err? {
            SelectionErrorPersists(individuals, i + 1, touchingClass, semanticMap);
            return Err(floor.error);
          }
          if floor.value {
            toRemove := toRemove + [indi];
          }
        } else {
          assert verdict == Ok(false);
        }
      } else {
        assert verdict == Ok(false);
      }
      i := i + 1;
    }
    assert individuals[..i] == individuals;
    return Ok(toRemove);
  }

  /** Once the selection over a prefix has raised, the selection over the whole list raises the same error. */
  lemma {:induction false} SelectionErrorPersists(individuals: seq<Individual>, n: nat, touchingClass: string, semanticMap: SemanticMap)
    requires n <= |individuals| && Selection(individuals[..n], touchingClass, semanticMap).Err?
    ensures Selection(individuals, touchingClass, semanticMap) == Selection(individuals[..n], touchingClass, semanticMap)
    decreases |individuals| - n
  {
    if n < |individuals| {
      assert individuals[..n + 1][..n] == individuals[..n];
      SelectionErrorPersists(individuals, n + 1, touchingClass, semanticMap);
    } else {
      assert individuals[..n] == individuals;
    }
  }

  // ---------------------------------------------------------------------------
  // The episode ontology

  function Other(x: Individual): Individual -> bool {
    i => i != x
  }

  function NotIn(removed: seq<Individual>): Individual -> bool {
    i => i !in removed
  }

  /** An episode ontology whose individuals can be destroyed in place. */
  class Ontology {
    const classes: seq<string>
    var individuals: seq<Individual>

    constructor (classes: seq<string>, individuals: seq<Individual>)
      ensures this.classes == classes && this.individuals == individuals
    {
      this.classes := classes;
      this.individuals := individuals;
    }

    /** `destroy_entity(x)`: the individual is gone; the others keep their order. */
    method Destroy(x: Individual)
      modifies this
      ensures individuals == Filter(old(individuals), Other(x))
    {
      individuals := Filter(individuals, Other(x));
    }
  }

  // ---------------------------------------------------------------------------
  // Timeline lines

  /** The characters Python's `str.splitlines` breaks lines at. */
  predicate IsLineBoundary(c: char) {
    c == '\n' || c == '\r' || c == '\U{0B}' || c == '\U{0C}' || c == '\U{1C}' || c == '\U{1D}' || c == '\U{1E}'
    || c == '\U{85}' || c == '\U{2028}' || c == '\U{2029}'
  }

  /** The index of the first line boundary at or after `from`, or `|s|` when there is none. */
  function NextBoundary(s: string, from: nat): (k: nat)
    requires from <= |s|
    ensures from <= k <= |s|
    ensures k < |s| ==> IsLineBoundary(s[k])
    ensures forall j | from <= j < k :: !IsLineBoundary(s[j])
    decreases |s| - from
  {
    if from == |s| || IsLineBoundary(s[from]) then from else NextBoundary(s, from + 1)
  }

  /**
   * Python's `s.splitlines()`: the lines of `s` without their line breaks; a
   * `\r\n` is one break, and a final break does not start an empty line.
   */
  function SplitLines(s: string): (r: seq<string>)
    ensures s != [] ==> r != []
    ensures forall i | 0 <= i < |r| :: forall c | c in r[i] :: !IsLineBoundary(c)
    decreases |s|
  {
    if s == [] then []
    else
      var k := NextBoundary(s, 0);
      if k == |s| then [s]
      else
        var next := if s[k] == '\r' && k + 1 < |s| && s[k + 1] == '\n' then k + 2 else k + 1;
        [s[..k]] + SplitLines(s[next..])
  }

  /** `"\n".join(lines)` */
  function JoinLines(lines: seq<string>): string
    decreases |lines|
  {
    if lines == [] then []
    else if |lines| == 1 then lines[0]
    else lines[0] + "\n" + JoinLines(lines[1..])
  }

  /** A text whose only line breaks are `\n` and which does not end with one. */
  predicate PlainText(s: string) {
    (forall i | 0 <= i < |s| :: IsLineBoundary(s[i]) ==> s[i] == '\n') && !EndsWith(s, "\n")
  }

  /** Splitting a plain text into lines and joining them with `\n` gives the text back. */
  lemma {:induction false} JoinSplitLines(s: string)
    requires PlainText(s)
    ensures JoinLines(SplitLines(s)) == s
    decreases |s|
  {
    if s != [] {
      var k := NextBoundary(s, 0);
      if k < |s| {
        var rest := s[k + 1..];
        PlainTextAfterBreak(s, k);
        JoinSplitLines(rest);
        assert SplitLines(s) == [s[..k]] + SplitLines(rest);
        JoinFirstLine(s[..k], SplitLines(rest));
        assert s == s[..k] + "\n" + rest;
      }
    }
  }

  /** What follows a line break of a plain text is a non-empty plain text. */
  lemma PlainTextAfterBreak(s: string, k: nat)
    requires PlainText(s) && k < |s| && IsLineBoundary(s[k])
    ensures s[k] == '\n' && k + 1 < |s| && PlainText(s[k + 1..])
  {
    var rest := s[k + 1..];
    forall i | 0 <= i < |rest| && IsLineBoundary(rest[i]) ensures rest[i] == '\n' {
      assert rest[i] == s[k + 1 + i];
    }
    assert rest[|rest| - 1..] == s[|s| - 1..];
  }

  /** Joining a first line and further lines puts one `\n` between the first line and the rest. */
  lemma JoinFirstLine(first: string, lines: seq<string>)
    requires lines != []
    ensures JoinLines([first] + lines) == first + "\n" + JoinLines(lines)
  {
    assert ([first] + lines)[1..] == lines;
  }

  /** `any(name in line for name in names)` */
  predicate MentionsAny(line: string, names: seq<string>) {
    exists i | 0 <= i < |names| :: IsSubstring(names[i], line)
  }

  function KeepsLine(names: seq<string>): string -> bool {
    line => !MentionsAny(line, names)
  }

  function Names(individuals: seq<Individual>): (r: seq<string>)
    ensures |r| == |individuals| && forall i | 0 <= i < |individuals| :: r[i] == individuals[i].name
  {
    seq(|individuals|, i requires 0 <= i < |individuals| => individuals[i].name)
  }

  /** The loop that builds `cleaned_html`: the lines that name none of the removed individuals, in order. */
  method RemoveLines(lines: seq<string>, names: seq<string>) returns (kept: seq<string>)
    ensures kept == Filter(lines, KeepsLine(names))
  {
    kept := [];
    var i := 0;
    while i < |lines|
      invariant 0 <= i <= |lines|
      invariant Filter(lines, KeepsLine(names)) == kept + Filter(lines[i..], KeepsLine(names))
    {
      var line := lines[i];
      assert lines[i..][1..] == lines[i + 1..];
      var removeLine := MentionsAny(line, names);
      if !removeLine {
        kept := kept + [line];
      }
      i := i + 1;
    }
  }

  /**
   * The kept lines are the input lines in their order, minus exactly those
   * that name a removed individual; with nothing removed every line is kept.
   */
  lemma KeptLines(lines: seq<string>, names: seq<string>)
    ensures var kept := Filter(lines, KeepsLine(names));
      && IsSubsequence(kept, lines)
      && (forall line :: line in kept <==> line in lines && !MentionsAny(line, names))
      && (names == [] ==> kept == lines)
  {
    FilterIsSubsequence(lines, KeepsLine(names));
    forall line ensures line in Filter(lines, KeepsLine(names)) <==> line in lines && !MentionsAny(line, names) {
      FilterMembership(lines, KeepsLine(names), line);
    }
    if names == [] {
      FilterAll(lines, KeepsLine(names));
    }
  }

  // ---------------------------------------------------------------------------
  // Cleaning an episode

  /**
   * What `filter_hand_touching_floor` leaves behind: the individuals that
   * remain in the ontology and the new timeline text, or what it raises.
   */
  function Cleaned(classes: seq<string>, individuals: seq<Individual>, html: string, semanticMap: SemanticMap)
    : Result<(seq<Individual>, string), CleanError>
  {
    if TOUCHING_SITUATION !in classes then Err(MissingClass(TOUCHING_SITUATION))
    else
      match Selection(individuals, TOUCHING_SITUATION, semanticMap)
      case Err(e) => Err(e)
      case Ok(removed) =>
        Ok((Filter(individuals, NotIn(removed)),
            JoinLines(Filter(SplitLines(html), KeepsLine(Names(removed))))))
  }

  /**
   * Cleaning destroys exactly the selected touching situations, keeping the
   * order of the others. The new timeline is its lines joined with `\n`,
   * keeping, in order, exactly the lines that name none of them: no kept
   * line names a destroyed individual (the joined text can, when a name
   * holds a line break).
   */
  lemma CleanedSpec(classes: seq<string>, individuals: seq<Individual>, html: string, semanticMap: SemanticMap)
    requires Cleaned(classes, individuals, html, semanticMap).Ok?
    ensures var removed := Selection(individuals, TOUCHING_SITUATION, semanticMap).value;
      var (remaining, text) := Cleaned(classes, individuals, html, semanticMap).value;
      var kept := Filter(SplitLines(html), KeepsLine(Names(removed)));
      && IsSubsequence(remaining, individuals)
      && (forall x :: x in remaining <==> x in individuals && x !in removed)
      && (forall x | x in removed :: x in individuals && HandTouchesFloor(x, TOUCHING_SITUATION))
      && (forall x :: x in remaining <==> x in individuals && !HandTouchesFloor(x, TOUCHING_SITUATION))
      && text == JoinLines(kept)
      && IsSubsequence(kept, SplitLines(html))
      && (forall line :: line in kept <==> line in SplitLines(html) && !MentionsAny(line, Names(removed)))
  {
    var removed := Selection(individuals, TOUCHING_SITUATION, semanticMap).value;
    var remaining := Filter(individuals, NotIn(removed));
    var kept := Filter(SplitLines(html), KeepsLine(Names(removed)));
    assert Cleaned(classes, individuals, html, semanticMap).value == (remaining, JoinLines(kept));
    RemainingIndividuals(individuals, removed, semanticMap);
    KeptLines(SplitLines(html), Names(removed));
  }

  /** The individuals a successful selection leaves are exactly those that are not hand-touches-floor situations. */
  lemma RemainingIndividuals(individuals: seq<Individual>, removed: seq<Individual>, semanticMap: SemanticMap)
    requires Selection(individuals, TOUCHING_SITUATION, semanticMap) == Ok(removed)
    ensures var remaining := Filter(individuals, NotIn(removed));
      && IsSubsequence(remaining, individuals)
      && (forall x :: x in remaining <==> x in individuals && x !in removed)
      && (forall x | x in removed :: x in individuals && HandTouchesFloor(x, TOUCHING_SITUATION))
      && (forall x :: x in remaining <==> x in individuals && !HandTouchesFloor(x, TOUCHING_SITUATION))
  {
    FilterIsSubsequence(individuals, NotIn(removed));
    SelectionOkIsHandTouchingFloor(individuals, TOUCHING_SITUATION, semanticMap);
    assert removed == Filter(individuals, HandTouchesFloorOf(TOUCHING_SITUATION));
    forall x
      ensures x in Filter(individuals, NotIn(removed)) <==> x in individuals && x !in removed
      ensures x in Filter(individuals, NotIn(removed)) <==> x in individuals && !HandTouchesFloor(x, TOUCHING_SITUATION)
    {
      FilterMembership(individuals, NotIn(removed), x);
      FilterMembership(individuals, HandTouchesFloorOf(TOUCHING_SITUATION), x);
    }
    SelectionOnlyHandTouchingFloor(individuals, TOUCHING_SITUATION, semanticMap);
  }

  /**
   * A selection that succeeds holds only touching situations of the
   * episode in which a hand and the floor participate.
   */
  lemma {:induction false} SelectionOnlyHandTouchingFloor(individuals: seq<Individual>, touchingClass: string, semanticMap: SemanticMap)
    requires Selection(individuals, touchingClass, semanticMap).Ok?
    ensures forall x | x in Selection(individuals, touchingClass, semanticMap).value ::
      x in individuals && HandTouchesFloor(x, touchingClass)
    decreases |individuals|
  {
    if individuals != [] {
      var init, last := individuals[..|individuals| - 1], individuals[|individuals| - 1];
      SelectionOnlyHandTouchingFloor(init, touchingClass, semanticMap);
      assert individuals == init + [last];
    }
  }

  /** When nothing is selected, the ontology is unchanged and the timeline is its lines re-joined with `\n`. */
  lemma NothingRemoved(classes: seq<string>, individuals: seq<Individual>, html: string, semanticMap: SemanticMap)
    requires TOUCHING_SITUATION in classes
    requires Selection(individuals, TOUCHING_SITUATION, semanticMap) == Ok([])
    ensures Cleaned(classes, individuals, html, semanticMap) == Ok((individuals, JoinLines(SplitLines(html))))
    ensures PlainText(html) ==> Cleaned(classes, individuals, html, semanticMap) == Ok((individuals, html))
  {
    FilterAll(individuals, NotIn([]));
    FilterAll(SplitLines(html), KeepsLine(Names([])));
    if PlainText(html) {
      JoinSplitLines(html);
    }
  }

  /**
   * `filter_hand_touching_floor`: selects the touching situations in which a
   * hand touches the floor, destroys them in the ontology, and returns the
   * timeline without the lines that name them. When it raises, nothing has
   * been destroyed.
   */
  method FilterHandTouchingFloor(onto: Ontology, html: string, semanticMap: SemanticMap) returns (r: Result<string, CleanError>)
    modifies onto
    ensures match Cleaned(onto.classes, old(onto.individuals), html, semanticMap)
      case Err(e) => r == Err(e) && onto.individuals == old(onto.individuals)
      case Ok((remaining, text)) => r == Ok(text) && onto.individuals == remaining
  {
    var touchingClass := FindClass(onto.classes, TOUCHING_SITUATION);
    if touchingClass.Err? {
      return Err(touchingClass.error);
    }
    var selection := SelectForRemoval(onto.individuals, touchingClass.value, semanticMap);
    if selection.Err? {
      return Err(selection.error);
    }
    var toRemove := selection.value;
    DestroyAll(onto, toRemove);
    var cleanedHtml := RemoveLines(SplitLines(html), Names(toRemove));
    return Ok(JoinLines(cleanedHtml));
  }

  /** The loop `for indi in indis_to_remove: destroy_entity(indi)`. */
  method DestroyAll(onto: Ontology, toRemove: seq<Individual>)
    modifies onto
    ensures onto.individuals == Filter(old(onto.individuals), NotIn(toRemove))
  {
    ghost var before := onto.individuals;
    FilterAll(before, NotIn([]));
    var i := 0;
    while i < |toRemove|
      invariant 0 <= i <= |toRemove|
      invariant onto.individuals == Filter(before, NotIn(toRemove[..i]))
    {
      assert toRemove[..i + 1] == toRemove[..i] + [toRemove[i]];
      DestroyStep(before, toRemove[..i], toRemove[i]);
      onto.Destroy(toRemove[i]);
      i := i + 1;
    }
    assert toRemove[..i] == toRemove;
  }

  /** Destroying one more individual removes it from what is left. */
  lemma DestroyStep(individuals: seq<Individual>, destroyed: seq<Individual>, x: Individual)
    ensures Filter(Filter(individuals, NotIn(destroyed)), Other(x)) == Filter(individuals, NotIn(destroyed + [x]))
  {
    FilterTwice(individuals, NotIn(destroyed), Other(x), NotIn(destroyed + [x]));
  }

  // ---------------------------------------------------------------------------
  // The episodes of a demonstration directory

  /** The timeline of an episode: its ontology path without the last six characters, then `TL.html`. */
  function TimelinePath(episodeDataPath: string): (r: string)
    ensures EndsWith(r, "TL.html")
    ensures r[..|r| - 7] <= episodeDataPath && |r| - 7 == if |episodeDataPath| >= 6 then |episodeDataPath| - 6 else 0
  {
    (if |episodeDataPath| >= 6 then episodeDataPath[..|episodeDataPath| - 6] else []) + "TL.html"
  }

  /** The timeline of `<episode>_ED.owl` is `<episode>_TL.html`. */
  lemma TimelineOfEpisodeData(episode: string)
    ensures TimelinePath(episode + "_ED.owl") == episode + "_TL.html"
  {
    var p := episode + "_ED.owl";
    assert p[..|p| - 6] == episode + "_";
  }

  /**
   * One pass of the loop in `main`: an episode whose timeline file is missing
   * is skipped unchanged; otherwise its ontology is cleaned and the new
   * timeline text is returned. `timelines` maps the existing timeline files
   * to their text.
   */
  method CleanEpisode(episodeDataPath: string, onto: Ontology, timelines: map<string, string>, semanticMap: SemanticMap)
    returns (r: Result<Option<string>, CleanError>)
    modifies onto
    ensures TimelinePath(episodeDataPath) !in timelines ==> r == Ok(None) && onto.individuals == old(onto.individuals)
    ensures TimelinePath(episodeDataPath) in timelines ==>
      match Cleaned(onto.classes, old(onto.individuals), timelines[TimelinePath(episodeDataPath)], semanticMap)
      case Err(e) => r == Err(e) && onto.individuals == old(onto.individuals)
      case Ok((remaining, text)) => r == Ok(Some(text)) && onto.individuals == remaining
  {
    var htmlPath := TimelinePath(episodeDataPath);
    if htmlPath !in timelines {
      return Ok(None);
    }
    var html := timelines[htmlPath];
    var cleaned := FilterHandTouchingFloor(onto, html, semanticMap);
    if cleaned.Err? {
      return Err(cleaned.error);
    }
    return Ok(Some(cleaned.value));
  }
}

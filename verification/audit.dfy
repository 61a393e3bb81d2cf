/** Audit flags and inherited components (internal/a11y/engine.go). */
module Audit {
  import opened Models

  datatype Level = Good | Limited | No
  datatype Slot = Entrance | Pathways | Restroom | Parking | Elevator

  /** The submitted facts of a component: those that raise flags by name, the others as `rest`. */
  datatype Facts =
    | EntranceFacts(isLevel: Option<bool>, hasFixedRamp: Option<bool>, hasRemovableRamp: Option<bool>, width: Option<Level>, rest: string)
    | PathwayFacts(width: Option<Level>, rest: string)
    | RestroomFacts(doorWidth: Option<Level>, turningRadius: Option<Level>, hasGrabRails: Option<bool>, rest: string)
    | ParkingFacts(hasDisabledSpaces: Option<bool>, rest: string)
    | ElevatorFacts(width: Option<Level>, depth: Option<Level>, doorWidth: Option<Level>,
                    hasBraille: Option<bool>, hasAudio: Option<bool>, rest: string)

  const NARROW_WIDTH := "narrow width"
  const NO_LEVEL_ROUTE := "no level route (no ramp and not level)"
  const NARROW_DOOR := "narrow door"
  const SMALL_TURNING := "small turning radius"
  const NO_GRAB_RAILS := "missing grab rails"
  const SMALL_CABIN_WIDTH := "small cabin width"
  const SMALL_CABIN_DEPTH := "small cabin depth"
  const NO_BRAILLE := "missing braille"
  const NO_AUDIO := "missing audio"
  const NO_DISABLED_SPACES := "no disabled spaces"
  const NARROW_PATHWAY := "narrow pathway"

  function If(condition: bool, flag: string): seq<string> {
    if condition then [flag] else []
  }

  function FlagsOf(f: Facts): seq<string> {
    match f
    case EntranceFacts(isLevel, fixed, removable, width, _) =>
      If(width == Some(No), NARROW_WIDTH)
      + If(isLevel == Some(false) && fixed != Some(true) && removable != Some(true), NO_LEVEL_ROUTE)
    case PathwayFacts(width, _) => If(width == Some(No), NARROW_PATHWAY)
    case RestroomFacts(door, turning, rails, _) =>
      If(door == Some(No), NARROW_DOOR) + If(turning == Some(No), SMALL_TURNING) + If(rails == Some(false), NO_GRAB_RAILS)
    case ParkingFacts(spaces, _) => If(spaces == Some(false), NO_DISABLED_SPACES)
    case ElevatorFacts(width, depth, door, braille, audio, _) =>
      If(width == Some(No), SMALL_CABIN_WIDTH) + If(depth == Some(No), SMALL_CABIN_DEPTH) + If(door == Some(No), NARROW_DOOR)
      + If(braille == Some(false), NO_BRAILLE) + If(audio == Some(false), NO_AUDIO)
  }

  predicate NoBetterLevel(x: Option<Level>, y: Option<Level>) {
    x == y || (x == Some(Good) && y == Some(Limited)) || (x.Some? && y == Some(No))
  }

  predicate NoBetter(x: Option<bool>, y: Option<bool>) {
    x == y || (x == Some(true) && y == Some(false))
  }

  /** `g` answers the same questions as `f`, none of them better. */
  predicate NoBetterThan(f: Facts, g: Facts) {
    match (f, g)
    case (EntranceFacts(a, b, c, d, _), EntranceFacts(a', b', c', d', _)) =>
      NoBetter(a, a') && NoBetter(b, b') && NoBetter(c, c') && NoBetterLevel(d, d')
    case (PathwayFacts(a, _), PathwayFacts(a', _)) => NoBetterLevel(a, a')
    case (RestroomFacts(a, b, c, _), RestroomFacts(a', b', c', _)) => NoBetterLevel(a, a') && NoBetterLevel(b, b') && NoBetter(c, c')
    case (ParkingFacts(a, _), ParkingFacts(a', _)) => NoBetter(a, a')
    case (ElevatorFacts(a, b, c, d, e, _), ElevatorFacts(a', b', c', d', e', _)) =>
      NoBetterLevel(a, a') && NoBetterLevel(b, b') && NoBetterLevel(c, c') && NoBetter(d, d') && NoBetter(e, e')
    case _ => false
  }

  /** An improvement never raises a flag. */
  lemma WorseAnswersKeepFlags(f: Facts, g: Facts)
    requires NoBetterThan(f, g)
    ensures forall flag :: flag in FlagsOf(f) ==> flag in FlagsOf(g)
  {
  }

  lemma FlagsAreDistinct()
    ensures NARROW_WIDTH != NO_LEVEL_ROUTE
    ensures NARROW_DOOR != SMALL_TURNING && SMALL_TURNING != NO_GRAB_RAILS && NO_GRAB_RAILS != NARROW_DOOR
    ensures SMALL_CABIN_WIDTH != SMALL_CABIN_DEPTH && NARROW_DOOR !in [SMALL_CABIN_WIDTH, SMALL_CABIN_DEPTH, NO_BRAILLE, NO_AUDIO]
    ensures NO_BRAILLE != NO_AUDIO && NO_BRAILLE !in [SMALL_CABIN_WIDTH, SMALL_CABIN_DEPTH] && NO_AUDIO !in [SMALL_CABIN_WIDTH, SMALL_CABIN_DEPTH]
  {
    assert SMALL_CABIN_WIDTH[12] == 'w' && SMALL_CABIN_DEPTH[12] == 'd';
    assert SMALL_TURNING[0] == 's' && NARROW_DOOR[0] == 'n' && NO_GRAB_RAILS[0] == 'm';
    assert SMALL_CABIN_WIDTH[0] == 's' && SMALL_CABIN_DEPTH[0] == 's' && NO_BRAILLE[0] == 'm' && NO_AUDIO[0] == 'm';
    assert |NO_BRAILLE| != |NO_AUDIO| && |NARROW_WIDTH| != |NO_LEVEL_ROUTE|;
  }

  /** No flag is raised twice. */
  lemma NoFlagTwice(f: Facts, i: nat, j: nat)
    requires i < j < |FlagsOf(f)|
    ensures FlagsOf(f)[i] != FlagsOf(f)[j]
  {
    if f.ElevatorFacts? {
      NoElevatorFlagTwice(f, i, j);
    } else {
      FlagsAreDistinct();
    }
  }

  lemma NoElevatorFlagTwice(f: Facts, i: nat, j: nat)
    requires f.ElevatorFacts? && i < j < |FlagsOf(f)|
    ensures FlagsOf(f)[i] != FlagsOf(f)[j]
  {
    FlagsAreDistinct();
  }

  /** `g` answers some of the questions that `f` answers, the same way. */
  predicate Forgets(f: Facts, g: Facts) {
    match (f, g)
    case (EntranceFacts(a, b, c, d, _), EntranceFacts(a', b', c', d', _)) => Kept(a, a') && Kept(b, b') && Kept(c, c') && Kept(d, d')
    case (PathwayFacts(a, _), PathwayFacts(a', _)) => Kept(a, a')
    case (RestroomFacts(a, b, c, _), RestroomFacts(a', b', c', _)) => Kept(a, a') && Kept(b, b') && Kept(c, c')
    case (ParkingFacts(a, _), ParkingFacts(a', _)) => Kept(a, a')
    case (ElevatorFacts(a, b, c, d, e, _), ElevatorFacts(a', b', c', d', e', _)) =>
      Kept(a, a') && Kept(b, b') && Kept(c, c') && Kept(d, d') && Kept(e, e')
    case _ => false
  }

  predicate Kept<T(==)>(x: Option<T>, y: Option<T>) {
    y == x || y == None
  }

  predicate HasRamp(f: Facts) {
    f.EntranceFacts? && (f.hasFixedRamp == Some(true) || f.hasRemovableRamp == Some(true))
  }

  /** Leaving a question unanswered raises no flag, with one exception: an entrance that is not
      level is flagged when its ramp goes unmentioned. */
  lemma UnknownRaisesNothingIff(f: Facts, g: Facts)
    requires Forgets(f, g)
    ensures (forall flag :: flag in FlagsOf(g) ==> flag in FlagsOf(f))
       <==> !(g.EntranceFacts? && g.isLevel == Some(false) && HasRamp(f) && !HasRamp(g))
  {
    if g.EntranceFacts? && g.isLevel == Some(false) && HasRamp(f) && !HasRamp(g) {
      assert |NO_LEVEL_ROUTE| != |NARROW_WIDTH|;
      assert NO_LEVEL_ROUTE in FlagsOf(g) && NO_LEVEL_ROUTE !in FlagsOf(f);
    }
  }

  // ---------------------------------------------------------------- what a flag tells

  /** What can be answered badly. */
  datatype Question =
    | EntranceWidth | Levelness | PathwayWidth | RestroomDoor | TurningRadius | GrabRails | DisabledSpaces
    | CabinWidth | CabinDepth | ElevatorDoor | Braille | Audio

  /** Whether a component has the question; a ramp makes the levelness of an entrance irrelevant. */
  predicate Asks(f: Facts, q: Question) {
    match q
    case EntranceWidth => f.EntranceFacts?
    case Levelness => f.EntranceFacts? && !HasRamp(f)
    case PathwayWidth => f.PathwayFacts?
    case RestroomDoor | TurningRadius | GrabRails => f.RestroomFacts?
    case DisabledSpaces => f.ParkingFacts?
    case CabinWidth | CabinDepth | ElevatorDoor | Braille | Audio => f.ElevatorFacts?
  }

  /** The same component with the one answer made the worst. */
  function Worsened(f: Facts, q: Question): Facts
    requires Asks(f, q)
  {
    match q
    case EntranceWidth => EntranceFacts(f.isLevel, f.hasFixedRamp, f.hasRemovableRamp, Some(No), f.rest)
    case Levelness => EntranceFacts(Some(false), f.hasFixedRamp, f.hasRemovableRamp, f.width, f.rest)
    case PathwayWidth => PathwayFacts(Some(No), f.rest)
    case RestroomDoor => RestroomFacts(Some(No), f.turningRadius, f.hasGrabRails, f.rest)
    case TurningRadius => RestroomFacts(f.doorWidth, Some(No), f.hasGrabRails, f.rest)
    case GrabRails => RestroomFacts(f.doorWidth, f.turningRadius, Some(false), f.rest)
    case DisabledSpaces => ParkingFacts(Some(false), f.rest)
    case CabinWidth => ElevatorFacts(Some(No), f.depth, f.doorWidth, f.hasBraille, f.hasAudio, f.rest)
    case CabinDepth => ElevatorFacts(f.width, Some(No), f.doorWidth, f.hasBraille, f.hasAudio, f.rest)
    case ElevatorDoor => ElevatorFacts(f.width, f.depth, Some(No), f.hasBraille, f.hasAudio, f.rest)
    case Braille => ElevatorFacts(f.width, f.depth, f.doorWidth, Some(false), f.hasAudio, f.rest)
    case Audio => ElevatorFacts(f.width, f.depth, f.doorWidth, f.hasBraille, Some(false), f.rest)
  }

  predicate IsBad(f: Facts, q: Question) {
    Asks(f, q) && Worsened(f, q) == f
  }

  function FlagAbout(q: Question): string {
    match q
    case EntranceWidth => "narrow width"
    case Levelness => "no level route (no ramp and not level)"
    case PathwayWidth => "narrow pathway"
    case RestroomDoor | ElevatorDoor => "narrow door"
    case TurningRadius => "small turning radius"
    case GrabRails => "missing grab rails"
    case DisabledSpaces => "no disabled spaces"
    case CabinWidth => "small cabin width"
    case CabinDepth => "small cabin depth"
    case Braille => "missing braille"
    case Audio => "missing audio"
  }

  lemma FlagAboutOneQuestion(f: Facts, q: Question, p: Question)
    requires Asks(f, q) && Asks(f, p) && FlagAbout(q) == FlagAbout(p)
    ensures q == p
  {
    FlagsAreDistinct();
  }

  /** The flags are those of the bad answers, and a component without a bad answer has none. */
  ghost predicate Tells(f: Facts, flags: seq<string>) {
    && (forall flag :: flag in flags <==> exists q :: IsBad(f, q) && FlagAbout(q) == flag)
    && ((forall q :: !IsBad(f, q)) ==> flags == [])
  }

  lemma FlagsTell(f: Facts)
    ensures Tells(f, FlagsOf(f))
  {
    forall flag | flag in FlagsOf(f)
      ensures exists q :: IsBad(f, q) && FlagAbout(q) == flag
    {
      var q := QuestionOf(f, flag);
    }
    forall q | IsBad(f, q)
      ensures FlagAbout(q) in FlagsOf(f)
    {
      BadAnswerIsFlagged(f, q);
    }
    if FlagsOf(f) != [] {
      var q := QuestionOf(f, FlagsOf(f)[0]);
    }
  }

  lemma BadAnswerIsFlagged(f: Facts, q: Question)
    requires IsBad(f, q)
    ensures FlagAbout(q) in FlagsOf(f)
  {
  }

  lemma QuestionOf(f: Facts, flag: string) returns (q: Question)
    requires flag in FlagsOf(f)
    ensures IsBad(f, q) && FlagAbout(q) == flag
  {
    match f
    case EntranceFacts(_, _, _, width, _) => q := if width == Some(No) && flag == NARROW_WIDTH then EntranceWidth else Levelness;
    case PathwayFacts(_, _) => q := PathwayWidth;
    case RestroomFacts(door, turning, _, _) =>
      q := if door == Some(No) && flag == NARROW_DOOR then RestroomDoor
           else if turning == Some(No) && flag == SMALL_TURNING then TurningRadius else GrabRails;
    case ParkingFacts(_, _) => q := DisabledSpaces;
    case ElevatorFacts(width, depth, door, braille, _, _) =>
      q := if width == Some(No) && flag == SMALL_CABIN_WIDTH then CabinWidth
           else if depth == Some(No) && flag == SMALL_CABIN_DEPTH then CabinDepth
           else if door == Some(No) && flag == NARROW_DOOR then ElevatorDoor
           else if braille == Some(false) && flag == NO_BRAILLE then Braille else Audio;
  }

  /** Making one answer bad that was not adds its flag and no other. */
  lemma OneBadAnswerOneFlag(f: Facts, q: Question)
    requires Asks(f, q) && !IsBad(f, q)
    ensures FlagAbout(q) !in FlagsOf(f)
    ensures forall flag :: flag in FlagsOf(Worsened(f, q)) <==> flag in FlagsOf(f) || flag == FlagAbout(q)
  {
    var g := Worsened(f, q);
    FlagsTell(f);
    FlagsTell(g);
    if FlagAbout(q) in FlagsOf(f) {
      var p := QuestionOf(f, FlagAbout(q));
      FlagAboutOneQuestion(f, q, p);
    }
    forall p
      ensures IsBad(g, p) <==> IsBad(f, p) || p == q
    {
      OtherAnswersStay(f, q, p);
    }
  }

  lemma OtherAnswersStay(f: Facts, q: Question, p: Question)
    requires Asks(f, q)
    ensures IsBad(Worsened(f, q), p) <==> IsBad(f, p) || p == q
  {
  }

  /** A component as stored or returned. */
  datatype Part = Part(facts: Facts, auditFlags: seq<string>, isInherited: bool, sourceId: string)

  datatype Profile = Profile(id: string, placeId: Option<PlaceId>, reports: seq<string>, parts: map<Slot, Part>, userVerified: bool,
                             submittedBy: Option<string>, submittedAt: Option<Time>, updatedAt: Time)

  const EMPTY := Profile("", None, [], map[], false, None, None, 0)

  ghost predicate Honest(p: Profile) {
    forall s :: s in p.parts ==> p.parts[s].auditFlags == FlagsOf(p.parts[s].facts)
  }

  function Flagged(p: Profile): Profile {
    p.(parts := map s | s in p.parts :: p.parts[s].(auditFlags := FlagsOf(p.parts[s].facts)))
  }

  function Taken(p: Part, inheritedFrom: Option<string>): Part {
    if inheritedFrom.None? then p else p.(isInherited := true, sourceId := inheritedFrom.value)
  }

  /** Inherits what the child does not have; submittedBy is not copied. */
  function Effective(child: Option<Profile>, parentId: string, parent: Option<Profile>): Profile {
    var own := if child.Some? then child.value.(submittedBy := None) else EMPTY;
    if parent.None? then own
    else
      var theirs := parent.value.parts;
      own.(parts := map s | s in own.parts.Keys + theirs.Keys ::
             if s in own.parts then own.parts[s] else Taken(theirs[s], Some(parentId)))
  }

  /** Inheriting again changes nothing, a place's own components always win, what is inherited is
      marked with its parent, and flags stay honest. */
  lemma EffectiveProfileLaws(child: Option<Profile>, parentId: string, parent: Option<Profile>)
    ensures var e := Effective(child, parentId, parent);
            && Effective(Some(e), parentId, parent) == e
            && (child.Some? ==> child.value.parts.Keys <= e.parts.Keys)
            && (child.Some? ==> forall s :: s in child.value.parts ==> e.parts[s] == child.value.parts[s])
            && (forall s :: s in e.parts && (child.None? || s !in child.value.parts) ==>
                  parent.Some? && s in parent.value.parts
                  && e.parts[s] == Part(parent.value.parts[s].facts, parent.value.parts[s].auditFlags, true, parentId))
            && (parent.Some? ==> parent.value.parts.Keys <= e.parts.Keys)
            && (var own := if child.None? then EMPTY else child.value;
                e == own.(parts := e.parts, submittedBy := None))
            && ((child.Some? ==> Honest(child.value)) && (parent.Some? ==> Honest(parent.value)) ==> Honest(e))
  {
    var e := Effective(child, parentId, parent);
    var again := Effective(Some(e), parentId, parent);
    assert again.parts == e.parts;
  }

  // ---------------------------------------------------------------- the objects

  class Component {
    var facts: Facts
    var auditFlags: seq<string>
    var isInherited: bool
    var sourceId: string

    function Value(): Part
      reads this
    {
      Part(facts, auditFlags, isInherited, sourceId)
    }

    constructor (p: Part)
      ensures Value() == p
    {
      facts, auditFlags, isInherited, sourceId := p.facts, p.auditFlags, p.isInherited, p.sourceId;
    }
  }

  function Marked(parts: map<Slot, Part>, parentId: string): map<Slot, Part> {
    map s | s in parts :: Taken(parts[s], Some(parentId))
  }

  lemma EffectiveByUnion(child: Option<Profile>, parentId: string, parent: Profile)
    ensures var own := Effective(child, "", None);
            Effective(child, parentId, Some(parent)) == own.(parts := Marked(parent.parts, parentId) + own.parts)
  {
  }

  ghost predicate Distinct(slots: map<Slot, Component>) {
    forall s, t :: s in slots && t in slots && s != t ==> slots[s] != slots[t]
  }

  ghost function Parts(slots: map<Slot, Component>): map<Slot, Part>
    reads slots.Values
  {
    map s | s in slots :: slots[s].Value()
  }

  /** The five component pointers are a map from slots; an absent slot is a nil pointer. */
  class ProfileObject {
    var id: string
    var placeId: Option<PlaceId>
    var reports: seq<string>
    var slots: map<Slot, Component>
    var userVerified: bool
    var submittedBy: Option<string>
    var submittedAt: Option<Time>
    var updatedAt: Time

    ghost function Value(): Profile
      reads this, slots.Values
    {
      Profile(id, placeId, reports, Parts(slots), userVerified, submittedBy, submittedAt, updatedAt)
    }

    constructor ()
      ensures Value() == EMPTY && slots == map[]
    {
      id, placeId, reports, slots := "", None, [], map[];
      userVerified, submittedBy, submittedAt, updatedAt := false, None, None, 0;
    }

    /** The scalar fields of `from`, except submittedBy. */
    method CopyScalars(from: ProfileObject)
      requires slots == map[]
      modifies this
      ensures Value() == from.Value().(parts := map[], submittedBy := old(submittedBy)) && slots == map[]
    {
      id, placeId, reports := from.id, from.placeId, from.reports;
      userVerified, submittedAt, updatedAt := from.userVerified, from.submittedAt, from.updatedAt;
    }

    method SetSlots(slots: map<Slot, Component>, ghost parts: map<Slot, Part>)
      requires parts == Parts(slots)
      modifies this`slots
      ensures Value() == old(Value()).(parts := parts) && this.slots == slots
    {
      this.slots := slots;
    }
  }

  /** The order in which the source visits the slots. */
  function Index(s: Slot): nat {
    match s case Entrance => 0 case Pathways => 1 case Restroom => 2 case Parking => 3 case Elevator => 4
  }

  lemma OnlySlotAt(s: Slot)
    ensures forall t: Slot :: Index(t) < Index(s) + 1 <==> Index(t) < Index(s) || t == s
  {
  }

  /** The components hold `before`, flagged in the first `done` slots. */
  ghost predicate FlaggedIn(slots: map<Slot, Component>, before: map<Slot, Part>, done: nat)
    reads slots.Values
  {
    && Distinct(slots) && slots.Keys == before.Keys
    && (forall s :: s in slots && Index(s) >= done ==> slots[s].Value() == before[s])
    && (forall s :: s in slots && Index(s) < done ==> slots[s].Value() == before[s].(auditFlags := FlagsOf(before[s].facts)))
  }

  method FlagComponent(slots: map<Slot, Component>, s: Slot, ghost before: map<Slot, Part>, ghost done: nat)
    requires FlaggedIn(slots, before, done) && Index(s) == done
    modifies slots.Values
    ensures FlaggedIn(slots, before, done + 1)
  {
    if s in slots {
      slots[s].auditFlags := FlagsOf(slots[s].facts);
    }
  }

  /** Writes the flags of every component in place; flags supplied before are lost. */
  method WithAuditFlags(profile: ProfileObject?)
    requires profile != null ==> Distinct(profile.slots)
    modifies if profile == null then {} else profile.slots.Values
    ensures profile != null ==> profile.Value() == Flagged(old(profile.Value()))
    ensures profile != null ==> forall s :: s in profile.slots ==> Tells(profile.slots[s].facts, profile.slots[s].auditFlags)
  {
    if profile == null { return; }
    FlagComponents(profile.slots, Parts(profile.slots));
    FlaggedTells(profile.slots, old(profile.Value()));
  }

  lemma FlaggedTells(slots: map<Slot, Component>, p: Profile)
    requires Parts(slots) == Flagged(p).parts
    ensures forall s :: s in slots ==> Tells(slots[s].facts, slots[s].auditFlags)
  {
    forall s | s in slots
      ensures Tells(slots[s].facts, slots[s].auditFlags)
    {
      assert Parts(slots)[s] == Flagged(p).parts[s];
      FlagsTell(slots[s].facts);
    }
  }

  method FlagComponents(slots: map<Slot, Component>, ghost before: map<Slot, Part>)
    requires FlaggedIn(slots, before, 0)
    modifies slots.Values
    ensures Parts(slots) == Flagged(EMPTY.(parts := before)).parts
  {
    FlagDoorways(slots, before);
    FlagComponent(slots, Restroom, before, 2);
    FlagComponent(slots, Parking, before, 3);
    FlagComponent(slots, Elevator, before, 4);
    AllFlagged(slots, before);
  }

  method FlagDoorways(slots: map<Slot, Component>, ghost before: map<Slot, Part>)
    requires FlaggedIn(slots, before, 0)
    modifies slots.Values
    ensures FlaggedIn(slots, before, 2)
  {
    FlagComponent(slots, Entrance, before, 0);
    FlagComponent(slots, Pathways, before, 1);
  }

  lemma AllFlagged(slots: map<Slot, Component>, before: map<Slot, Part>)
    requires FlaggedIn(slots, before, 5)
    ensures Parts(slots) == Flagged(EMPTY.(parts := before)).parts
  {
  }

  /** `to` holds `own` and, in the first `done` slots that `own` leaves empty, copies of `theirs`. */
  ghost predicate CopiedIn(to: map<Slot, Component>, own: map<Slot, Component>, theirs: map<Slot, Part>, done: nat)
    reads to.Values
  {
    && Distinct(to) && (forall s :: s in to <==> s in own || (s in theirs && Index(s) < done))
    && (forall s :: s in own ==> to[s] == own[s])
    && (forall s :: s in to && s !in own ==> to[s].Value() == theirs[s])
  }

  method CopyOf(from: Component, inheritedFrom: Option<string>) returns (c: Component)
    ensures fresh(c) && c.Value() == Taken(from.Value(), inheritedFrom)
  {
    c := new Component(from.Value());
    if inheritedFrom.Some? {
      c.isInherited, c.sourceId := true, inheritedFrom.value;
    }
  }

  /** A copy of the component in slot `s`, for an empty slot; marked if inherited. */
  method CopyComponent(from: map<Slot, Component>, to: map<Slot, Component>, s: Slot, inheritedFrom: Option<string>,
                       ghost own: map<Slot, Component>, ghost theirs: map<Slot, Part>, ghost done: nat)
    returns (r: map<Slot, Component>)
    requires CopiedIn(to, own, theirs, done) && Index(s) == done && from.Keys == theirs.Keys
    requires s in from ==> theirs[s] == Taken(from[s].Value(), inheritedFrom)
    ensures CopiedIn(r, own, theirs, done + 1)
    ensures forall t :: t in r ==> (t in to && r[t] == to[t]) || fresh(r[t])
  {
    r := to;
    if s !in to && s in from {
      var c := CopyOf(from[s], inheritedFrom);
      r := to[s := c];
      OneMoreCopy(to, own, theirs, s, c);
    } else {
      NoMoreCopy(to, own, theirs, s);
    }
  }

  lemma OneMoreCopy(to: map<Slot, Component>, own: map<Slot, Component>, theirs: map<Slot, Part>, s: Slot, c: Component)
    requires CopiedIn(to, own, theirs, Index(s)) && s !in to && s in theirs && c !in to.Values && c.Value() == theirs[s]
    ensures CopiedIn(to[s := c], own, theirs, Index(s) + 1)
  {
    OnlySlotAt(s);
  }

  lemma NoMoreCopy(to: map<Slot, Component>, own: map<Slot, Component>, theirs: map<Slot, Part>, s: Slot)
    requires CopiedIn(to, own, theirs, Index(s)) && (s in to || s !in theirs)
    ensures CopiedIn(to, own, theirs, Index(s) + 1)
  {
    OnlySlotAt(s);
  }

  method CopyComponents(from: map<Slot, Component>, to: map<Slot, Component>, inheritedFrom: Option<string>, ghost theirs: map<Slot, Part>)
    returns (r: map<Slot, Component>)
    requires Distinct(to) && from.Keys == theirs.Keys
    requires forall s :: s in from ==> theirs[s] == Taken(from[s].Value(), inheritedFrom)
    ensures CopiedIn(r, to, theirs, 5)
    ensures forall t :: t in r ==> (t in to && r[t] == to[t]) || fresh(r[t])
  {
    r := CopyDoorways(from, to, inheritedFrom, theirs);
    r := CopyComponent(from, r, Restroom, inheritedFrom, to, theirs, 2);
    r := CopyComponent(from, r, Parking, inheritedFrom, to, theirs, 3);
    r := CopyComponent(from, r, Elevator, inheritedFrom, to, theirs, 4);
  }

  method CopyDoorways(from: map<Slot, Component>, to: map<Slot, Component>, inheritedFrom: Option<string>, ghost theirs: map<Slot, Part>)
    returns (r: map<Slot, Component>)
    requires Distinct(to) && from.Keys == theirs.Keys
    requires forall s :: s in from ==> theirs[s] == Taken(from[s].Value(), inheritedFrom)
    ensures CopiedIn(r, to, theirs, 2)
    ensures forall t :: t in r ==> (t in to && r[t] == to[t]) || fresh(r[t])
  {
    r := CopyComponent(from, to, Entrance, inheritedFrom, to, theirs, 0);
    r := CopyComponent(from, r, Pathways, inheritedFrom, to, theirs, 1);
  }

  lemma AllCopied(to: map<Slot, Component>, own: map<Slot, Component>, theirs: map<Slot, Part>)
    requires CopiedIn(to, own, theirs, 5)
    ensures to.Keys == own.Keys + theirs.Keys
    ensures Parts(to) == theirs + Parts(own)
  {
  }

  ghost function ValueOf(p: ProfileObject?): Option<Profile>
    reads p, if p == null then {} else p.slots.Values
  {
    if p == null then None else Some(p.Value())
  }

  method CopyOfChild(child: ProfileObject?) returns (effective: ProfileObject)
    ensures fresh(effective) && Distinct(effective.slots) && forall s :: s in effective.slots ==> fresh(effective.slots[s])
    ensures effective.Value() == Effective(old(ValueOf(child)), "", None)
  {
    if child == null {
      effective := new ProfileObject();
      return;
    }
    ghost var c := child.Value();
    var slots := CopyComponents(child.slots, map[], None, c.parts);
    AllCopied(slots, map[], c.parts);
    assert c.parts + map[] == c.parts;
    effective := OfChild(child, slots, c);
  }

  /** A new profile with the scalar fields of the child and the given components. */
  method OfChild(child: ProfileObject, slots: map<Slot, Component>, ghost c: Profile) returns (effective: ProfileObject)
    requires c == child.Value() && Parts(slots) == c.parts
    ensures fresh(effective) && effective.slots == slots && effective.Value() == Effective(Some(c), "", None)
  {
    effective := new ProfileObject();
    effective.CopyScalars(child);
    effective.SetSlots(slots, c.parts);
  }

  /** The result is made of fresh objects; nothing of the child or the parent is written. */
  method ComputeEffectiveProfile(child: ProfileObject?, parentId: string, parent: ProfileObject?) returns (effective: ProfileObject)
    ensures fresh(effective) && Distinct(effective.slots) && forall s :: s in effective.slots ==> fresh(effective.slots[s])
    ensures effective.Value() == Effective(old(ValueOf(child)), parentId, old(ValueOf(parent)))
  {
    effective := CopyOfChild(child);
    if parent == null { return; }
    ghost var c, p := old(ValueOf(child)), old(parent.Value());
    ghost var own, theirs := effective.Value(), Marked(p.parts, parentId);
    EffectiveByUnion(c, parentId, p);
    var slots := CopyComponents(parent.slots, effective.slots, Some(parentId), theirs);
    Inherit(effective, slots, own, theirs);
  }

  /** Gives the profile the components it has and copies of the parent's. */
  method Inherit(effective: ProfileObject, slots: map<Slot, Component>, ghost own: Profile, ghost theirs: map<Slot, Part>)
    requires effective.Value() == own && CopiedIn(slots, effective.slots, theirs, 5)
    modifies effective`slots
    ensures effective.slots == slots && effective.Value() == own.(parts := theirs + own.parts)
  {
    AllCopied(slots, effective.slots, theirs);
    effective.SetSlots(slots, theirs + own.parts);
  }
}

/** The JSON form of an accessibility profile (pkg/models/accessibility.go) and what a merge patch
    of that form does to the profile itself. */
module ProfileJson {
  import opened Models
  import opened MergePatch

  /** Go field types. Pointers hold any value or nil; the others encode their zero value as absence. */
  datatype Leaf = PtrBool | PtrInt | PtrString | PlainBool | PlainString | Strings | Reports

  /** A leaf, or a pointer to a struct with these members. */
  datatype Shape = LeafOf(leaf: Leaf) | StructOf(fields: map<string, Shape>)

  predicate Accepts(leaf: Leaf, j: Json) {
    match leaf
    case PtrBool | PlainBool => j.Bool?
    case PtrInt => j.Num? && j.n == j.n.Floor as real
    case PtrString | PlainString => j.Str?
    case Strings => j.Arr? && forall i :: 0 <= i < |j.items| ==> j.items[i].Str?
    case Reports => j.Arr?
  }

  predicate IsZero(leaf: Leaf, j: Json) {
    match leaf
    case PlainBool => j == Bool(false)
    case PlainString => j == Str("")
    case Strings | Reports => j == Arr([])
    case PtrBool | PtrInt | PtrString => false
  }

  const DOOR := StructOf(map["type" := LeafOf(PlainString), "width" := LeafOf(PtrString)])

  const ENTRANCE := StructOf(map[
    "is_level" := LeafOf(PtrBool), "has_fixed_ramp" := LeafOf(PtrBool), "has_removable_ramp" := LeafOf(PtrBool),
    "slope_percent" := LeafOf(PtrString), "width" := LeafOf(PtrString), "door" := DOOR, "has_intercom" := LeafOf(PtrBool),
    "audit_flags" := LeafOf(Strings), "is_inherited" := LeafOf(PlainBool), "source_id" := LeafOf(PlainString)])

  const PATHWAYS := StructOf(map[
    "width" := LeafOf(PtrString), "surface" := LeafOf(PlainString), "is_kerbstone_free" := LeafOf(PtrBool),
    "has_steps" := LeafOf(PtrBool),
    "audit_flags" := LeafOf(Strings), "is_inherited" := LeafOf(PlainBool), "source_id" := LeafOf(PlainString)])

  const RESTROOM := StructOf(map[
    "is_accessible" := LeafOf(PtrBool), "door_width" := LeafOf(PtrString), "turning_radius" := LeafOf(PtrString),
    "has_grab_rails" := LeafOf(PtrBool), "has_roll_in_shower" := LeafOf(PtrBool), "toilet_seat_height" := LeafOf(PtrString),
    "has_emergency_pull" := LeafOf(PtrBool), "has_changing_table" := LeafOf(PtrBool),
    "audit_flags" := LeafOf(Strings), "is_inherited" := LeafOf(PlainBool), "source_id" := LeafOf(PlainString)])

  const PARKING := StructOf(map[
    "has_disabled_spaces" := LeafOf(PtrBool), "count" := LeafOf(PtrInt), "distance_to_entrance" := LeafOf(PtrString),
    "width" := LeafOf(PtrString), "has_dedicated_signage" := LeafOf(PtrBool),
    "audit_flags" := LeafOf(Strings), "is_inherited" := LeafOf(PlainBool), "source_id" := LeafOf(PlainString)])

  const ELEVATOR := StructOf(map[
    "width" := LeafOf(PtrString), "depth" := LeafOf(PtrString), "door_width" := LeafOf(PtrString),
    "has_braille" := LeafOf(PtrBool), "has_audio" := LeafOf(PtrBool),
    "audit_flags" := LeafOf(Strings), "is_inherited" := LeafOf(PlainBool), "source_id" := LeafOf(PlainString)])

  /** SubmittedBy is not part of the JSON form. */
  const PROFILE := StructOf(map[
    "id" := LeafOf(PlainString), "place_id" := LeafOf(PlainString), "source_reports" := LeafOf(Reports),
    "entrance" := ENTRANCE, "pathways" := PATHWAYS, "restroom" := RESTROOM, "parking" := PARKING, "elevator" := ELEVATOR,
    "user_verified" := LeafOf(PlainBool), "submitted_at" := LeafOf(PtrString), "updated_at" := LeafOf(PlainString)])

  /** A Go value: nil or zero, a leaf that is neither, or a struct. */
  datatype Val = Nil | Leaf(j: Json) | Struct(fields: map<string, Val>)

  ghost predicate WellTyped(shape: Shape, v: Val)
    decreases shape
  {
    match shape
    case LeafOf(leaf) => v == Nil || (v.Leaf? && Accepts(leaf, v.j) && !IsZero(leaf, v.j))
    case StructOf(fs) => v == Nil || (v.Struct? && v.fields.Keys == fs.Keys && forall k :: k in fs ==> WellTyped(fs[k], v.fields[k]))
  }

  function Encode(v: Val): Json
    decreases v
  {
    match v
    case Nil => Null
    case Leaf(j) => j
    case Struct(fs) => Obj(map k | k in fs && fs[k] != Nil :: Encode(fs[k]))
  }

  /** None is a type error. Members the struct does not have are ignored. */
  function Decode(shape: Shape, j: Json): Option<Val>
    decreases shape
  {
    if j == Null then Some(Nil)
    else
      match shape
      case LeafOf(leaf) => if !Accepts(leaf, j) then None else if IsZero(leaf, j) then Some(Nil) else Some(Leaf(j))
      case StructOf(fs) =>
        if !j.Obj? || exists k :: k in fs && Decode(fs[k], Member(j, k)) == None then None
        else Some(Struct(map k | k in fs :: Decode(fs[k], Member(j, k)).value))
  }

  function Part(v: Val, k: string): Val {
    if v.Struct? && k in v.fields then v.fields[k] else Nil
  }

  /** The patch read as an update of the Go value: omitted members keep, null clears, objects recurse. */
  function Update(shape: Shape, v: Val, patch: Json): Option<Val>
    decreases shape
  {
    if patch == Null then Some(Nil)
    else
      match shape
      case LeafOf(leaf) => if !Accepts(leaf, patch) then None else if IsZero(leaf, patch) then Some(Nil) else Some(Leaf(patch))
      case StructOf(fs) =>
        if !patch.Obj? || exists k :: k in fs && k in patch.fields && Update(fs[k], Part(v, k), patch.fields[k]) == None then None
        else Some(Struct(map k | k in fs ::
               if k in patch.fields then Update(fs[k], Part(v, k), patch.fields[k]).value else Part(v, k)))
  }

  lemma {:induction false} DecodeEncode(shape: Shape, v: Val)
    requires WellTyped(shape, v)
    ensures Decode(shape, Encode(v)) == Some(v)
    decreases shape
  {
    if shape.StructOf? && v.Struct? {
      var j, fs := Encode(v), shape.fields;
      forall k | k in fs
        ensures Decode(fs[k], Member(j, k)) == Some(v.fields[k])
      {
        assert Member(j, k) == Encode(v.fields[k]);
        DecodeEncode(fs[k], v.fields[k]);
      }
      var decoded := map k | k in fs :: Decode(fs[k], Member(j, k)).value;
      assert decoded.Keys == v.fields.Keys && forall k :: k in decoded ==> decoded[k] == v.fields[k];
      assert decoded == v.fields;
    }
  }

  /** Merging into any JSON text of a value and decoding is the update of the value, type errors included. */
  lemma {:induction false} MergeIsUpdate(shape: Shape, j: Json, v: Val, patch: Json)
    requires Decode(shape, j) == Some(v)
    ensures Decode(shape, Merge(j, patch)) == Update(shape, v, patch)
    decreases shape
  {
    if patch.Obj? && shape.StructOf? {
      var fs, merged := shape.fields, Merge(j, patch);
      forall k | k in fs
        ensures Decode(fs[k], Member(merged, k)) == PartAfter(fs, v, patch, k)
      {
        MergedMember(j, patch, k);
        assert Decode(fs[k], Member(j, k)) == Some(Part(v, k));
        if k in patch.fields {
          MergeIsUpdate(fs[k], Member(j, k), Part(v, k), patch.fields[k]);
        }
      }
      SameStruct(fs, v, patch, merged);
    } else if patch.Obj? {
      assert Merge(j, patch).Obj?;
    }
  }

  function PartAfter(fs: map<string, Shape>, v: Val, patch: Json, k: string): Option<Val>
    requires k in fs && patch.Obj?
  {
    if k in patch.fields then Update(fs[k], Part(v, k), patch.fields[k]) else Some(Part(v, k))
  }

  lemma SameStruct(fs: map<string, Shape>, v: Val, patch: Json, merged: Json)
    requires patch.Obj? && merged.Obj?
    requires forall k :: k in fs ==> Decode(fs[k], Member(merged, k)) == PartAfter(fs, v, patch, k)
    ensures Decode(StructOf(fs), merged) == Update(StructOf(fs), v, patch)
  {
    if forall k :: k in fs ==> Decode(fs[k], Member(merged, k)) != None {
      assert forall k :: k in fs && k in patch.fields ==> Update(fs[k], Part(v, k), patch.fields[k]) != None;
      var a := map k | k in fs :: Decode(fs[k], Member(merged, k)).value;
      var b := map k | k in fs :: if k in patch.fields then Update(fs[k], Part(v, k), patch.fields[k]).value else Part(v, k);
      assert a == b;
    } else {
      var k :| k in fs && Decode(fs[k], Member(merged, k)) == None;
      assert k in patch.fields && Update(fs[k], Part(v, k), patch.fields[k]) == None;
    }
  }

  /** Encoding a profile, applying the merge patch and decoding is a field-by-field update of the
      profile: omitted members keep, null clears, and objects update member by member. */
  lemma PatchIsFieldwise(profile: Val, patch: Json)
    requires WellTyped(PROFILE, profile)
    ensures Decode(PROFILE, Merge(Encode(profile), patch)) == Update(PROFILE, profile, patch)
  {
    DecodeEncode(PROFILE, profile);
    MergeIsUpdate(PROFILE, Encode(profile), profile, patch);
  }

  /** One member of one struct, the rest as it was. */
  ghost predicate OneFactSet(fs: map<string, Shape>, v: Val, u: Val, c: string, f: string, x: Val)
    requires c in fs && fs[c].StructOf? && f in fs[c].fields
  {
    && u.Struct? && u.fields.Keys == fs.Keys
    && (forall k :: k in fs && k != c ==> u.fields[k] == Part(v, k))
    && u.fields[c].Struct? && u.fields[c].fields.Keys == fs[c].fields.Keys
    && (forall k :: k in fs[c].fields && k != f ==> u.fields[c].fields[k] == Part(Part(v, c), k))
    && u.fields[c].fields[f] == x
  }

  lemma OneFactUpdate(fs: map<string, Shape>, v: Val, c: string, f: string, j: Json)
    requires c in fs && fs[c].StructOf? && f in fs[c].fields && fs[c].fields[f].LeafOf?
    ensures var u := Update(StructOf(fs), v, Obj(map[c := Obj(map[f := j])])); var leaf := fs[c].fields[f].leaf;
            && (u == None <==> j != Null && !Accepts(leaf, j))
            && (u.Some? ==> OneFactSet(fs, v, u.value, c, f, if j == Null || IsZero(leaf, j) then Nil else Leaf(j)))
  {
    var inner, outer := Obj(map[f := j]), Obj(map[c := Obj(map[f := j])]);
    UpdateByParts(fs[c].fields, Part(v, c), inner);
    UpdateByParts(fs, v, outer);
    assert PartAfter(fs[c].fields, Part(v, c), inner, f) == Update(fs[c].fields[f], Part(Part(v, c), f), j);
    assert PartAfter(fs, v, outer, c) == Update(fs[c], Part(v, c), inner);
  }

  /** A PATCH that answers one question: it is a type error exactly when the value is neither null nor one
      of the field's Go type, and otherwise changes that answer and nothing else. */
  lemma OneFactPatch(profile: Val, c: string, f: string, j: Json)
    requires WellTyped(PROFILE, profile)
    requires c in PROFILE.fields && PROFILE.fields[c].StructOf? && f in PROFILE.fields[c].fields && PROFILE.fields[c].fields[f].LeafOf?
    ensures var u := Patched(profile, Obj(map[c := Obj(map[f := j])])); var leaf := PROFILE.fields[c].fields[f].leaf;
            && (u == None <==> j != Null && !Accepts(leaf, j))
            && (u.Some? ==> OneFactSet(PROFILE.fields, profile, u.value, c, f, if j == Null || IsZero(leaf, j) then Nil else Leaf(j)))
  {
    PatchIsFieldwise(profile, Obj(map[c := Obj(map[f := j])]));
    OneFactUpdate(PROFILE.fields, profile, c, f, j);
  }

  lemma {:induction false} DecodeIsWellTyped(shape: Shape, j: Json)
    ensures Decode(shape, j).Some? ==> WellTyped(shape, Decode(shape, j).value)
    decreases shape
  {
    if shape.StructOf? && j.Obj? {
      forall k | k in shape.fields {
        DecodeIsWellTyped(shape.fields[k], Member(j, k));
      }
    }
  }

  /** What one PATCH leaves in the row, or None when the merged JSON does not decode. */
  function Patched(profile: Val, patch: Json): Option<Val> {
    Decode(PROFILE, Merge(Encode(profile), patch))
  }

  /** Storing the profile between two patches loses nothing: the second patch gives what it would
      give on the merged JSON text itself. */
  lemma StoringBetweenPatches(profile: Val, p: Json, q: Json)
    requires Patched(profile, p).Some?
    ensures Patched(Patched(profile, p).value, q) == Decode(PROFILE, Merge(Merge(Encode(profile), p), q))
  {
    var j, v := Merge(Encode(profile), p), Patched(profile, p).value;
    DecodeIsWellTyped(PROFILE, j);
    DecodeEncode(PROFILE, v);
    MergeIsUpdate(PROFILE, Encode(v), v, q);
    MergeIsUpdate(PROFILE, j, v, q);
  }

  // ---------------------------------------------------------------- two patches of a profile

  /** One patch for "first p, then q" on values of the shape. It depends on p, q and the shape only:
      where p clears a struct and q sets members of it, the others are set to null. */
  function ComposeOn(shape: Shape, p: Json, q: Json): Json
    decreases shape
  {
    match shape
    case LeafOf(_) => q
    case StructOf(fs) =>
      if !q.Obj? then q
      else if p.Obj? then
        Obj(map k | k in p.fields.Keys + q.fields.Keys ::
              if k !in q.fields then p.fields[k]
              else if k in p.fields && k in fs then ComposeOn(fs[k], p.fields[k], q.fields[k]) else q.fields[k])
      else
        Obj(map k | k in fs.Keys + q.fields.Keys ::
              if k !in q.fields then Null else if k in fs then ComposeOn(fs[k], Null, q.fields[k]) else q.fields[k])
  }

  lemma {:induction false} UpdatesCompose(shape: Shape, v: Val, p: Json, q: Json)
    requires Update(shape, v, p).Some?
    ensures Update(shape, Update(shape, v, p).value, q) == Update(shape, v, ComposeOn(shape, p, q))
    decreases shape
  {
    if shape.StructOf? && q.Obj? {
      var fs, mid, pq := shape.fields, Update(shape, v, p).value, ComposeOn(shape, p, q);
      forall k | k in fs
        ensures PartAfter(fs, mid, q, k) == PartAfter(fs, v, pq, k)
      {
        if k in q.fields && (p == Null || k in p.fields) {
          UpdatesCompose(fs[k], Part(v, k), if p == Null then Null else p.fields[k], q.fields[k]);
        }
      }
      SameUpdate(fs, mid, q, v, pq);
    }
  }

  lemma SameUpdate(fs: map<string, Shape>, u: Val, p: Json, v: Val, q: Json)
    requires p.Obj? && q.Obj?
    requires forall k :: k in fs ==> PartAfter(fs, u, p, k) == PartAfter(fs, v, q, k)
    ensures Update(StructOf(fs), u, p) == Update(StructOf(fs), v, q)
  {
    UpdateByParts(fs, u, p);
    UpdateByParts(fs, v, q);
    if forall k :: k in fs ==> PartAfter(fs, u, p, k) != None {
      assert (map k | k in fs :: PartAfter(fs, u, p, k).value) == (map k | k in fs :: PartAfter(fs, v, q, k).value);
    }
  }

  lemma UpdateByParts(fs: map<string, Shape>, v: Val, patch: Json)
    requires patch.Obj?
    ensures Update(StructOf(fs), v, patch) == None <==> exists k :: k in fs && PartAfter(fs, v, patch, k) == None
    ensures (forall k :: k in fs ==> PartAfter(fs, v, patch, k) != None) ==>
              Update(StructOf(fs), v, patch) == Some(Struct(map k | k in fs :: PartAfter(fs, v, patch, k).value))
  {
    if forall k :: k in fs ==> PartAfter(fs, v, patch, k) != None {
      assert forall k :: k in fs && k in patch.fields ==> PartAfter(fs, v, patch, k) == Update(fs[k], Part(v, k), patch.fields[k]);
      var parts := map k | k in fs :: PartAfter(fs, v, patch, k).value;
      assert Update(StructOf(fs), v, patch).Some?;
      assert Update(StructOf(fs), v, patch).value.fields == parts;
    } else {
      var k :| k in fs && PartAfter(fs, v, patch, k) == None;
      assert k in patch.fields && Update(fs[k], Part(v, k), patch.fields[k]) == None;
    }
  }

  /** Two successive patches of a profile are one patch, which depends only on the two: for every
      pair whose first patch applies, type errors of the second included. */
  lemma SuccessivePatchesAreOne(profile: Val, p: Json, q: Json)
    requires WellTyped(PROFILE, profile) && Patched(profile, p).Some?
    ensures Patched(Patched(profile, p).value, q) == Patched(profile, ComposeOn(PROFILE, p, q))
  {
    DecodeIsWellTyped(PROFILE, Merge(Encode(profile), p));
    PatchIsFieldwise(profile, p);
    PatchIsFieldwise(Patched(profile, p).value, q);
    PatchIsFieldwise(profile, ComposeOn(PROFILE, p, q));
    UpdatesCompose(PROFILE, profile, p, q);
  }

  // ---------------------------------------------------------------- the order of two patches

  /** Whether a patch fits the shape; that does not depend on the value it updates. */
  predicate Fits(shape: Shape, p: Json) {
    Update(shape, Nil, p).Some?
  }

  lemma {:induction false} FitsWhateverTheValue(shape: Shape, v: Val, p: Json)
    ensures Update(shape, v, p).Some? <==> Fits(shape, p)
    decreases shape
  {
    if shape.StructOf? && p.Obj? {
      var fs := shape.fields;
      forall k | k in fs && k in p.fields
        ensures Update(fs[k], Part(v, k), p.fields[k]).Some? <==> Update(fs[k], Nil, p.fields[k]).Some?
      {
        FitsWhateverTheValue(fs[k], Part(v, k), p.fields[k]);
      }
      UpdateByParts(fs, v, p);
      UpdateByParts(fs, Nil, p);
      assert forall k :: k in fs ==> (PartAfter(fs, v, p, k) == None <==> PartAfter(fs, Nil, p, k) == None);
    }
  }

  /** The value after p and then q; None when either does not fit. */
  function Then(shape: Shape, v: Val, p: Json, q: Json): Option<Val> {
    var mid := Update(shape, v, p);
    if mid.None? then None else Update(shape, mid.value, q)
  }

  /** Leaves get the same value, structs are both cleared, or members patched by both commute. Members
      outside the schema do not matter, nor does how a leaf's zero is written. */
  predicate CommutesOn(shape: Shape, p: Json, q: Json)
    decreases shape
  {
    match shape
    case LeafOf(_) => Update(shape, Nil, p) == Update(shape, Nil, q)
    case StructOf(fs) =>
      || (p == Null && q == Null)
      || (p.Obj? && q.Obj? && forall k :: k in fs && k in p.fields && k in q.fields ==> CommutesOn(fs[k], p.fields[k], q.fields[k]))
  }

  lemma {:induction false} CommutingUpdates(shape: Shape, v: Val, p: Json, q: Json)
    requires Fits(shape, p) && Fits(shape, q) && CommutesOn(shape, p, q)
    ensures Then(shape, v, p, q) == Then(shape, v, q, p)
    decreases shape
  {
    FitsWhateverTheValue(shape, v, p);
    FitsWhateverTheValue(shape, v, q);
    if shape.StructOf? && p.Obj? {
      var fs, a, b := shape.fields, Update(shape, v, p).value, Update(shape, v, q).value;
      UpdateByParts(fs, Nil, p);
      UpdateByParts(fs, Nil, q);
      forall k | k in fs
        ensures PartAfter(fs, a, q, k) == PartAfter(fs, b, p, k)
      {
        if k in p.fields && k in q.fields {
          assert PartAfter(fs, Nil, p, k) != None && PartAfter(fs, Nil, q, k) != None;
          CommutingUpdates(fs[k], Part(v, k), p.fields[k], q.fields[k]);
          FitsWhateverTheValue(fs[k], Part(v, k), p.fields[k]);
          FitsWhateverTheValue(fs[k], Part(v, k), q.fields[k]);
        }
      }
      SameUpdate(fs, a, q, b, p);
    }
  }

  /** Patches that commute on the empty value commute. */
  lemma {:induction false} CommutingOnNothing(shape: Shape, p: Json, q: Json)
    requires Fits(shape, p) && Fits(shape, q) && Then(shape, Nil, p, q) == Then(shape, Nil, q, p)
    ensures CommutesOn(shape, p, q)
    decreases shape
  {
    FitsWhateverTheValue(shape, Update(shape, Nil, p).value, q);
    FitsWhateverTheValue(shape, Update(shape, Nil, q).value, p);
    if shape.StructOf? && p.Obj? && q.Obj? {
      var fs := shape.fields;
      forall k | k in fs && k in p.fields && k in q.fields
        ensures CommutesOn(fs[k], p.fields[k], q.fields[k])
      {
        MemberThen(fs, p, q, k);
        MemberThen(fs, q, p, k);
        CommutingOnNothing(fs[k], p.fields[k], q.fields[k]);
      }
    }
  }

  /** What two patches make of a member that both set. */
  lemma MemberThen(fs: map<string, Shape>, p: Json, q: Json, k: string)
    requires p.Obj? && q.Obj? && k in fs && k in p.fields && k in q.fields
    requires Then(StructOf(fs), Nil, p, q).Some?
    ensures Fits(fs[k], p.fields[k]) && Fits(fs[k], q.fields[k])
    ensures Then(fs[k], Nil, p.fields[k], q.fields[k]) == Some(Part(Then(StructOf(fs), Nil, p, q).value, k))
  {
    var a := Update(StructOf(fs), Nil, p).value;
    UpdateByParts(fs, Nil, p);
    UpdateByParts(fs, a, q);
    assert PartAfter(fs, Nil, p, k) != None && PartAfter(fs, a, q, k) != None;
    FitsWhateverTheValue(fs[k], Part(a, k), q.fields[k]);
  }

  lemma OrderOnOne(shape: Shape, v: Val, p: Json, q: Json)
    requires !Fits(shape, p) || !Fits(shape, q) || CommutesOn(shape, p, q)
    ensures Then(shape, v, p, q) == Then(shape, v, q, p)
  {
    FitsWhateverTheValue(shape, v, p);
    FitsWhateverTheValue(shape, v, q);
    if Fits(shape, p) && Fits(shape, q) {
      CommutingUpdates(shape, v, p, q);
    } else if Fits(shape, p) {
      FitsWhateverTheValue(shape, Update(shape, v, p).value, q);
    } else if Fits(shape, q) {
      FitsWhateverTheValue(shape, Update(shape, v, q).value, p);
    }
  }

  function PatchedTwice(profile: Val, p: Json, q: Json): Option<Val> {
    var mid := Patched(profile, p);
    if mid.None? then None else Patched(mid.value, q)
  }

  lemma TwiceOn(shape: Shape, v: Val, p: Json, q: Json)
    requires WellTyped(shape, v)
    ensures var mid := Decode(shape, Merge(Encode(v), p));
            Then(shape, v, p, q) == if mid.None? then None else Decode(shape, Merge(Encode(mid.value), q))
  {
    DecodeEncode(shape, v);
    MergeIsUpdate(shape, Encode(v), v, p);
    var mid := Decode(shape, Merge(Encode(v), p));
    if mid.Some? {
      DecodeIsWellTyped(shape, Merge(Encode(v), p));
      DecodeEncode(shape, mid.value);
      MergeIsUpdate(shape, Encode(mid.value), mid.value, q);
    }
  }

  ghost predicate OrderIsFree(p: Json, q: Json) {
    forall profile :: WellTyped(PROFILE, profile) ==> PatchedTwice(profile, p, q) == PatchedTwice(profile, q, p)
  }

  /** The order of two patches matters to no profile exactly when one of them fits none, or they
      commute member by member. */
  lemma CommutingPatchesOnProfiles(p: Json, q: Json)
    ensures OrderIsFree(p, q) <==> !Fits(PROFILE, p) || !Fits(PROFILE, q) || CommutesOn(PROFILE, p, q)
    ensures p.Obj? && q.Obj? && p.fields.Keys !! q.fields.Keys ==> OrderIsFree(p, q)
  {
    if !Fits(PROFILE, p) || !Fits(PROFILE, q) || CommutesOn(PROFILE, p, q) {
      OrderOnAll(p, q);
    } else {
      OrderOnNothing(p, q);
    }
  }

  lemma OrderOnAll(p: Json, q: Json)
    requires !Fits(PROFILE, p) || !Fits(PROFILE, q) || CommutesOn(PROFILE, p, q)
    ensures OrderIsFree(p, q)
  {
    forall profile | WellTyped(PROFILE, profile)
      ensures PatchedTwice(profile, p, q) == PatchedTwice(profile, q, p)
    {
      TwiceOn(PROFILE, profile, p, q);
      TwiceOn(PROFILE, profile, q, p);
      OrderOnOne(PROFILE, profile, p, q);
    }
  }

  lemma OrderOnNothing(p: Json, q: Json)
    requires Fits(PROFILE, p) && Fits(PROFILE, q) && !CommutesOn(PROFILE, p, q)
    ensures WellTyped(PROFILE, Nil) && PatchedTwice(Nil, p, q) != PatchedTwice(Nil, q, p)
  {
    TwiceOn(PROFILE, Nil, p, q);
    TwiceOn(PROFILE, Nil, q, p);
    if Then(PROFILE, Nil, p, q) == Then(PROFILE, Nil, q, p) {
      CommutingOnNothing(PROFILE, p, q);
    }
  }

  /** Patches that commute on all documents commute on all profiles. */
  lemma CommutingDocuments(p: Json, q: Json)
    requires Commutes(p, q)
    ensures OrderIsFree(p, q)
  {
    if Fits(PROFILE, p) && Fits(PROFILE, q) {
      CommutingMembers(PROFILE, p, q);
    }
    OrderOnAll(p, q);
  }

  lemma {:induction false} CommutingMembers(shape: Shape, p: Json, q: Json)
    requires Commutes(p, q) && Fits(shape, p) && Fits(shape, q)
    ensures CommutesOn(shape, p, q)
    decreases shape
  {
    if shape.StructOf? && p.Obj? && q.Obj? {
      var fs := shape.fields;
      UpdateByParts(fs, Nil, p);
      UpdateByParts(fs, Nil, q);
      forall k | k in fs && k in p.fields && k in q.fields
        ensures CommutesOn(fs[k], p.fields[k], q.fields[k])
      {
        assert PartAfter(fs, Nil, p, k) != None && PartAfter(fs, Nil, q, k) != None;
        CommutingMembers(fs[k], p.fields[k], q.fields[k]);
      }
    }
  }
}

/** JSON Merge Patch (section 2 of RFC 7396), which PATCH applies to the stored profile
    (UpsertProfile in internal/place/repository.go), and when patches compose and commute. */
module MergePatch {

  datatype Json =
    | Null
    | Bool(b: bool)
    | Num(n: real)
    | Str(s: string)
    | Arr(items: seq<Json>)
    | Obj(fields: map<string, Json>)

  function Fields(j: Json): map<string, Json> {
    if j.Obj? then j.fields else map[]
  }

  /** A member, Null when there is none. */
  function Member(j: Json, k: string): Json {
    if k in Fields(j) then Fields(j)[k] else Null
  }

  function Merge(target: Json, patch: Json): Json
    decreases patch
  {
    if !patch.Obj? then patch
    else
      Obj(map k | k in Fields(target).Keys + patch.fields.Keys && !(k in patch.fields && patch.fields[k] == Null) ::
            if k in patch.fields then Merge(Member(target, k), patch.fields[k]) else Fields(target)[k])
  }

  /** The merge, member by member. */
  lemma MergedMember(target: Json, patch: Json, k: string)
    requires patch.Obj?
    ensures Merge(target, patch).Obj?
    ensures k in Merge(target, patch).fields <==>
              (k in patch.fields && patch.fields[k] != Null) || (k !in patch.fields && k in Fields(target))
    ensures k in patch.fields && patch.fields[k] != Null ==>
              Merge(target, patch).fields[k] == Merge(Member(target, k), patch.fields[k])
    ensures k !in patch.fields && k in Fields(target) ==> Merge(target, patch).fields[k] == Fields(target)[k]
  {
  }

  lemma EqualObjects(a: Json, b: Json)
    requires a.Obj? && b.Obj?
    requires forall k :: k in a.fields <==> k in b.fields
    requires forall k :: k in a.fields && k in b.fields ==> a.fields[k] == b.fields[k]
    ensures a == b
  {
    assert a.fields == b.fields;
  }

  // ---------------------------------------------------------------- composition

  ghost predicate IsComposition(p: Json, q: Json, r: Json) {
    forall t :: Merge(Merge(t, p), q) == Merge(t, r)
  }

  /** Wherever the second patch puts an object, the first has an object or nothing. */
  predicate Composable(p: Json, q: Json)
    decreases q
  {
    !q.Obj? || (p.Obj? && forall k :: k in q.fields && k in p.fields ==> Composable(p.fields[k], q.fields[k]))
  }

  function Compose(p: Json, q: Json): Json
    decreases q
  {
    if !q.Obj? || !p.Obj? then q
    else
      Obj(map k | k in p.fields.Keys + q.fields.Keys ::
            if k !in q.fields then p.fields[k]
            else if k !in p.fields then q.fields[k]
            else Compose(p.fields[k], q.fields[k]))
  }

  lemma {:induction false} ComposeIsComposition(t: Json, p: Json, q: Json)
    requires Composable(p, q)
    ensures Merge(Merge(t, p), q) == Merge(t, Compose(p, q))
    decreases q
  {
    if q.Obj? {
      var a, b, r := Merge(Merge(t, p), q), Merge(t, Compose(p, q)), Compose(p, q);
      forall k
        ensures k in a.fields <==> k in b.fields
        ensures k in a.fields && k in b.fields ==> a.fields[k] == b.fields[k]
      {
        MergedMember(t, p, k);
        MergedMember(Merge(t, p), q, k);
        MergedMember(t, r, k);
        if k in q.fields && k in p.fields {
          assert r.fields[k] == Compose(p.fields[k], q.fields[k]);
          ComposeIsComposition(Member(t, k), p.fields[k], q.fields[k]);
          assert q.fields[k] != Null ==> r.fields[k] != Null;
        } else if k in q.fields {
          assert r.fields[k] == q.fields[k] && Member(Merge(t, p), k) == Member(t, k);
        } else if k in p.fields {
          assert r.fields[k] == p.fields[k];
        }
      }
      EqualObjects(a, b);
    }
  }

  lemma {:induction false} FreshKey(keys: set<string>) returns (k: string)
    ensures k !in keys
    ensures forall x :: x in keys ==> |x| < |k|
  {
    if keys == {} {
      k := "";
    } else {
      var x :| x in keys;
      var rest := FreshKey(keys - {x});
      k := rest + x + "+";
      assert forall y :: y in keys ==> y == x || y in keys - {x};
    }
  }

  /** A target on which a candidate for the composition goes wrong. */
  lemma {:induction false} Incomposable(p: Json, q: Json, r: Json) returns (t: Json)
    requires !Composable(p, q)
    ensures Merge(Merge(t, p), q) != Merge(t, r)
    decreases q
  {
    if !r.Obj? {
      t := Null;
    } else if !p.Obj? {
      var k := FreshKey(r.fields.Keys + Merge(p, q).fields.Keys);
      t := Obj(map[k := Bool(true)]);
      MergedMember(t, r, k);
    } else {
      var k :| k in q.fields && k in p.fields && !Composable(p.fields[k], q.fields[k]);
      var inner := Bool(true);
      if k in r.fields {
        inner := Incomposable(p.fields[k], q.fields[k], r.fields[k]);
      }
      t := Obj(map[k := inner]);
      assert Member(t, k) == inner;
      MergedMember(t, p, k);
      MergedMember(Merge(t, p), q, k);
      MergedMember(t, r, k);
      assert Member(Merge(t, p), k) == Merge(inner, p.fields[k]);
    }
  }

  /** Two patches can be sent as one exactly when the second never puts an object where the first
      puts something else (a value, an array or a deletion). */
  lemma PatchesComposeIff(p: Json, q: Json)
    ensures (exists r :: IsComposition(p, q, r)) <==> Composable(p, q)
    ensures Composable(p, q) ==> IsComposition(p, q, Compose(p, q))
  {
    if Composable(p, q) {
      forall t
        ensures Merge(Merge(t, p), q) == Merge(t, Compose(p, q))
      {
        ComposeIsComposition(t, p, q);
      }
      assert IsComposition(p, q, Compose(p, q));
    } else {
      forall r
        ensures !IsComposition(p, q, r)
      {
        var t := Incomposable(p, q, r);
      }
    }
  }

  /** Sending the same patch again changes nothing. */
  lemma RepeatingIsHarmless(t: Json, p: Json)
    ensures Merge(Merge(t, p), p) == Merge(t, p)
  {
    ComposableWithItself(p);
    ComposeIsComposition(t, p, p);
  }

  lemma {:induction false} ComposableWithItself(p: Json)
    ensures Composable(p, p) && Compose(p, p) == p
  {
    if p.Obj? {
      forall k | k in p.fields
        ensures Composable(p.fields[k], p.fields[k]) && Compose(p.fields[k], p.fields[k]) == p.fields[k]
      {
        ComposableWithItself(p.fields[k]);
      }
      EqualObjects(Compose(p, p), p);
    }
  }

  // ---------------------------------------------------------------- commuting

  ghost predicate OrderFree(p: Json, q: Json) {
    forall t :: Merge(Merge(t, p), q) == Merge(Merge(t, q), p)
  }

  /** On every member both set, they agree, or both are objects that commute. */
  predicate Commutes(p: Json, q: Json)
    decreases q
  {
    if p.Obj? && q.Obj? then forall k :: k in q.fields && k in p.fields ==> Commutes(p.fields[k], q.fields[k])
    else p == q
  }

  lemma {:induction false} CommutingPatches(t: Json, p: Json, q: Json)
    requires Commutes(p, q)
    ensures Merge(Merge(t, p), q) == Merge(Merge(t, q), p)
    decreases q
  {
    if p.Obj? && q.Obj? {
      var a, b := Merge(Merge(t, p), q), Merge(Merge(t, q), p);
      forall k
        ensures k in a.fields <==> k in b.fields
        ensures k in a.fields && k in b.fields ==> a.fields[k] == b.fields[k]
      {
        MergedMember(t, p, k);
        MergedMember(Merge(t, p), q, k);
        MergedMember(t, q, k);
        MergedMember(Merge(t, q), p, k);
        if k in q.fields && k in p.fields {
          CommutingPatches(Member(t, k), p.fields[k], q.fields[k]);
        }
      }
      EqualObjects(a, b);
    }
  }

  lemma {:induction false} OrderMatters(p: Json, q: Json) returns (t: Json)
    requires !Commutes(p, q)
    ensures Merge(Merge(t, p), q) != Merge(Merge(t, q), p)
    decreases q
  {
    if p.Obj? && q.Obj? {
      var k :| k in q.fields && k in p.fields && !Commutes(p.fields[k], q.fields[k]);
      var inner := OrderMatters(p.fields[k], q.fields[k]);
      t := Obj(map[k := inner]);
      assert Member(t, k) == inner;
      MergedMember(t, p, k);
      MergedMember(Merge(t, p), q, k);
      MergedMember(t, q, k);
      MergedMember(Merge(t, q), p, k);
    } else {
      t := Null;
    }
  }

  /** Patches may be applied in either order exactly when they commute; with no member in common they do. */
  lemma OrderIsIrrelevantIff(p: Json, q: Json)
    ensures OrderFree(p, q) <==> Commutes(p, q)
    ensures p.Obj? && q.Obj? && p.fields.Keys !! q.fields.Keys ==> OrderFree(p, q)
  {
    if Commutes(p, q) {
      forall t
        ensures Merge(Merge(t, p), q) == Merge(Merge(t, q), p)
      {
        CommutingPatches(t, p, q);
      }
    } else {
      var t := OrderMatters(p, q);
    }
    if p.Obj? && q.Obj? && p.fields.Keys !! q.fields.Keys {
      assert Commutes(p, q);
    }
  }
}

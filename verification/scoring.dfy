/** The similarity score of a record and a place (internal/identity/score.go), over exact reals. */
module Scoring {
  import opened Models
  import opened Normalization

  const RADIUS_M := 50.0
  const CONFIDENT_THRESHOLD := 0.80
  const LOW_CONFIDENCE_THRESHOLD := 0.55
  const WEIGHT_DISTANCE := 0.5
  const WEIGHT_NAME := 0.4
  const WEIGHT_ADDRESS := 0.1

  /** The geometry the matcher relies on: `haversine` scores, `geography` is the metric of
      PostGIS's ST_DWithin and ST_Distance. The two need not agree exactly. */
  datatype World = World(text: Text, haversine: (Point, Point) -> real, geography: (Point, Point) -> real) {
    ghost predicate Valid() {
      && text.Valid()
      && forall p, q :: haversine(p, q) >= 0.0
    }
  }

  function DistanceScore(metres: real): real {
    if metres >= RADIUS_M then 0.0 else 1.0 - metres / RADIUS_M
  }

  function Tokens(t: Text, name: string): set<string> {
    set w | w in Normalize(t, name)
  }

  /** Jaccard similarity, 0 when either side is empty. */
  function Jaccard(r: set<string>, p: set<string>): real {
    if r == {} || p == {} || r + p == {} then 0.0
    else |r * p| as real / |r + p| as real
  }

  lemma JaccardMeaning(r: set<string>, p: set<string>)
    ensures Unit(Jaccard(r, p))
    ensures Jaccard(r, p) > 0.0 <==> r * p != {}
    ensures Jaccard(r, p) == 1.0 <==> r == p && r != {}
  {
    if r != {} && p != {} {
      JaccardBounds(r, p);
    }
  }

  lemma JaccardBounds(r: set<string>, p: set<string>)
    requires r != {} && p != {}
    ensures |r + p| > 0
    ensures |r * p| <= |r + p|
    ensures |r * p| == |r + p| <==> r == p
    ensures |r * p| == 0 <==> r * p == {}
    ensures 0.0 <= |r * p| as real / |r + p| as real <= 1.0
    ensures |r * p| as real / |r + p| as real == 1.0 <==> r == p
    ensures |r * p| as real / |r + p| as real > 0.0 <==> r * p != {}
  {
    var i, u := r * p, r + p;
    assert u == i + (u - i) && i !! (u - i);
    assert |u| == |i| + |u - i|;
    if |i| == |u| {
      assert u - i == {};
      assert r == p;
    }
    if r == p {
      assert i == u;
    }
    assert u >= r;
    QuotientBounds(|i|, |u|);
  }

  lemma QuotientBounds(i: nat, u: nat)
    requires 0 < u && i <= u
    ensures 0.0 <= i as real / u as real <= 1.0
    ensures i as real / u as real == 1.0 <==> i == u
    ensures i as real / u as real > 0.0 <==> i > 0
  {
    var x, n := i as real / u as real, u as real;
    assert x * n == i as real;
    assert x < 0.0 ==> x * n < 0.0;
    assert x > 1.0 ==> x * n > n;
  }

  function NameScore(t: Text, rName: string, pName: string): real {
    Jaccard(Tokens(t, rName), Tokens(t, pName))
  }

  lemma NameScoreIsSymmetric(t: Text, a: string, b: string)
    ensures NameScore(t, a, b) == NameScore(t, b, a)
  {
    var r, p := Tokens(t, a), Tokens(t, b);
    assert r * p == p * r && r + p == p + r;
  }

  /** The score and whether an address was present on both sides. */
  function AddressScore(t: Text, rStreet: string, rHouse: string, pStreet: string, pHouse: string): (real, bool) {
    if rStreet == "" || pStreet == "" then (0.0, false)
    else if Normalize(t, rStreet) != Normalize(t, pStreet) then (0.0, true)
    else if rHouse != "" && pHouse != "" && t.sameFold(rHouse, pHouse) then (1.0, true)
    else (0.5, true)
  }

  function CombinedScore(distance: real, name: real, address: real, addrPresent: bool): real {
    if addrPresent then WEIGHT_DISTANCE * distance + WEIGHT_NAME * name + WEIGHT_ADDRESS * address
    else
      var denom := WEIGHT_DISTANCE + WEIGHT_NAME;
      var wDist := WEIGHT_DISTANCE + WEIGHT_ADDRESS * WEIGHT_DISTANCE / denom;
      var wName := WEIGHT_NAME + WEIGHT_ADDRESS * WEIGHT_NAME / denom;
      wDist * distance + wName * name
  }

  function Score(w: World, r: Record, p: Spot): real {
    var (addr, present) := AddressScore(w.text, r.street, r.houseNumber, p.Tag("addr:street"), p.Tag("addr:housenumber"));
    CombinedScore(DistanceScore(w.haversine(r.at, p.at)), NameScore(w.text, r.name, p.name), addr, present)
  }

  // ---------------------------------------------------------------- the loops of the source

  method TokenSet(toks: seq<string>) returns (s: set<string>)
    ensures s == set w | w in toks
  {
    s := {};
    for i := 0 to |toks|
      invariant s == set w | w in toks[..i]
    {
      s := s + {toks[i]};
    }
    assert toks[..|toks|] == toks;
  }

  method ComputeNameScore(t: Text, rName: string, pName: string) returns (x: real)
    ensures x == NameScore(t, rName, pName)
  {
    var rToks := NormalizeText(t, rName);
    var pToks := NormalizeText(t, pName);
    var r := TokenSet(rToks);
    var p := TokenSet(pToks);
    if |r| == 0 || |p| == 0 {
      return 0.0;
    }
    var intersect := CountShared(r, p);
    var union := |r| + |p| - intersect;
    JaccardBounds(r, p);
    x := intersect as real / union as real;
  }

  method CountShared(r: set<string>, p: set<string>) returns (intersect: nat)
    ensures intersect == |r * p|
    ensures |r| + |p| - intersect == |r + p|
  {
    intersect := 0;
    var todo := r;
    while todo != {}
      invariant todo <= r
      invariant intersect == |(r - todo) * p|
    {
      var tok :| tok in todo;
      SharedStep(r, p, todo, tok);
      if tok in p {
        intersect := intersect + 1;
      }
      todo := todo - {tok};
    }
    assert (r - {}) * p == r * p;
    UnionSize(r, p);
  }

  lemma SharedStep(r: set<string>, p: set<string>, todo: set<string>, tok: string)
    requires todo <= r && tok in todo
    ensures |(r - (todo - {tok})) * p| == |(r - todo) * p| + (if tok in p then 1 else 0)
  {
    var seen := (r - todo) * p;
    assert (r - (todo - {tok})) * p == if tok in p then seen + {tok} else seen;
  }

  lemma UnionSize(r: set<string>, p: set<string>)
    ensures |r + p| == |r| + |p| - |r * p|
  {
    assert r + p == r + (p - r) && r !! (p - r);
    assert p == (p - r) + (r * p) && (p - r) !! (r * p);
  }

  method StreetsMatch(t: Text, a: string, b: string) returns (same: bool)
    ensures same <==> Normalize(t, a) == Normalize(t, b)
  {
    var at := NormalizeText(t, a);
    var bt := NormalizeText(t, b);
    if |at| != |bt| {
      return false;
    }
    for i := 0 to |at|
      invariant at[..i] == bt[..i]
    {
      if at[i] != bt[i] {
        return false;
      }
    }
    return true;
  }

  method ScoreCandidate(w: World, r: Record, p: Spot) returns (x: real)
    ensures x == Score(w, r, p)
  {
    var name := ComputeNameScore(w.text, r.name, p.name);
    var pStreet, pHouse := p.Tag("addr:street"), p.Tag("addr:housenumber");
    var addr, present := 0.0, false;
    if r.street != "" && pStreet != "" {
      present := true;
      var match_ := StreetsMatch(w.text, r.street, pStreet);
      if match_ {
        addr := if r.houseNumber != "" && pHouse != "" && w.text.sameFold(r.houseNumber, pHouse) then 1.0 else 0.5;
      }
    }
    x := CombinedScore(DistanceScore(w.haversine(r.at, p.at)), name, addr, present);
  }

  // ---------------------------------------------------------------- what a score can mean

  predicate Unit(x: real) { 0.0 <= x <= 1.0 }

  lemma ScoreIsAFraction(w: World, r: Record, p: Spot)
    requires w.Valid()
    ensures Unit(Score(w, r, p))
  {
    var d := w.haversine(r.at, p.at);
    var (a, present) := AddressScore(w.text, r.street, r.houseNumber, p.Tag("addr:street"), p.Tag("addr:housenumber"));
    JaccardMeaning(Tokens(w.text, r.name), Tokens(w.text, p.name));
    CombinedBounds(DistanceScore(d), NameScore(w.text, r.name, p.name), a, present);
  }

  lemma CombinedBounds(d: real, n: real, a: real, present: bool)
    requires Unit(d) && Unit(n) && Unit(a)
    ensures Unit(CombinedScore(d, n, a, present))
    ensures CombinedScore(d, n, a, present) >= CONFIDENT_THRESHOLD ==> d >= 0.6 && n > 0.0
    ensures CombinedScore(d, n, a, present) >= LOW_CONFIDENCE_THRESHOLD ==> d >= 0.1
  {
  }

  /** How far apart two places can be and still reach each band: 20 m and 45 m, and both
      distances are reached by some name and address. */
  lemma BandRadius(metres: real)
    requires metres >= 0.0
    ensures (exists n, a, present :: Unit(n) && Unit(a)
               && CombinedScore(DistanceScore(metres), n, a, present) >= CONFIDENT_THRESHOLD) <==> metres <= 20.0
    ensures (exists n, a, present :: Unit(n) && Unit(a)
               && CombinedScore(DistanceScore(metres), n, a, present) >= LOW_CONFIDENCE_THRESHOLD) <==> metres <= 45.0
  {
    var d := DistanceScore(metres);
    if metres <= 20.0 {
      assert CombinedScore(d, 1.0, 1.0, true) >= CONFIDENT_THRESHOLD;
    }
    if metres <= 45.0 {
      assert CombinedScore(d, 1.0, 1.0, true) >= LOW_CONFIDENCE_THRESHOLD;
    }
  }

  /** Confident pairs lie within 20 m and share a name token; low-confidence ones lie within 45 m. */
  lemma BandMeaning(w: World, r: Record, p: Spot)
    requires w.Valid()
    ensures Score(w, r, p) >= CONFIDENT_THRESHOLD ==>
              && w.haversine(r.at, p.at) <= 20.0
              && Tokens(w.text, r.name) * Tokens(w.text, p.name) != {}
    ensures Score(w, r, p) >= LOW_CONFIDENCE_THRESHOLD ==> w.haversine(r.at, p.at) <= 45.0
  {
    var d := w.haversine(r.at, p.at);
    var (a, present) := AddressScore(w.text, r.street, r.houseNumber, p.Tag("addr:street"), p.Tag("addr:housenumber"));
    JaccardMeaning(Tokens(w.text, r.name), Tokens(w.text, p.name));
    CombinedBounds(DistanceScore(d), NameScore(w.text, r.name, p.name), a, present);
  }

  // ---------------------------------------------------------------- what moves a score, and by how much

  /** 1 at the same point, then falling by the same amount for each metre to 0 at 50 m, and 0 beyond. */
  lemma DistanceFallsLinearly(x: real, y: real)
    requires 0.0 <= x <= y
    ensures DistanceScore(0.0) == 1.0 && (x >= 50.0 ==> DistanceScore(x) == 0.0)
    ensures y <= 50.0 ==> 50.0 * (DistanceScore(x) - DistanceScore(y)) == y - x
  {
  }

  /** With an address on both sides distance, name and address move the score in the ratio 5 : 4 : 1.
      Without, the address does not count and its weight goes to the other two in proportion. */
  lemma WhatMovesAScore(d: real, n: real, a: real)
    ensures CombinedScore(1.0, 1.0, 1.0, true) == 1.0 && CombinedScore(0.0, 0.0, 0.0, true) == 0.0
    ensures CombinedScore(d + 1.0, n, a, true) - CombinedScore(d, n, a, true) == 0.5
    ensures CombinedScore(d, n + 1.0, a, true) - CombinedScore(d, n, a, true) == 0.4
    ensures CombinedScore(d, n, a + 1.0, true) - CombinedScore(d, n, a, true) == 0.1
    ensures 9.0 * CombinedScore(d, n, a, false) == 10.0 * CombinedScore(d, n, 0.0, true)
  {
  }

  /** Sharing the street lifts the address score halfway, sharing the house number too lifts it all the
      way; a missing street on either side means no address, and the sides may be exchanged. */
  lemma AddressMeaning(t: Text, street: string, house: string, street': string, house': string)
    requires t.sameFold(house, house') == t.sameFold(house', house)
    ensures AddressScore(t, street, house, street', house') == AddressScore(t, street', house', street, house)
    ensures var (a, present) := AddressScore(t, street, house, street', house');
            && (present <==> street != "" && street' != "")
            && (a > 0.0 <==> present && Normalize(t, street) == Normalize(t, street'))
            && (a > 0.5 <==> a > 0.0 && house != "" && house' != "" && t.sameFold(house, house'))
            && a in {0.0, 0.5, 1.0}
  {
  }
}

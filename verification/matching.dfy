/** Candidate lookup and the match decision (internal/identity/matcher.go, compat.go and
    FindCandidates of internal/place/repository.go). */
module Matching {
  import opened Models
  import opened Normalization
  import opened Scoring

  type Spots = map<PlaceId, Spot>

  const LIMIT := 32
  const FOOD: set<string> := {"cafe", "restaurant", "bar"}

  function Compatible(c: string): set<string> {
    if c in FOOD then FOOD else {c}
  }

  predicate Eligible(m: Spots, r: Record, id: PlaceId) {
    id in m && m[id].status == Active && m[id].category in Compatible(r.category)
  }

  function Within(w: World, m: Spots, r: Record, metres: real): set<PlaceId> {
    set id | id in m && Eligible(m, r, id) && Away(w, m, r.at, id) <= metres
  }

  /** The query's distance from the record to a place. */
  function Away(w: World, m: Spots, at: Point, id: PlaceId): real
    requires id in m
  {
    w.geography(at, m[id].at)
  }

  // ---------------------------------------------------------------- the candidate query

  /** Anything ORDER BY distance LIMIT 32 may return: ties come in any order. */
  ghost predicate IsAnswer(w: World, m: Spots, r: Record, cs: seq<PlaceId>) {
    var hits := Within(w, m, r, RADIUS_M);
    && (forall c :: c in cs ==> c in hits)
    && |cs| == (if |hits| <= LIMIT then |hits| else LIMIT)
    && NearestOf(w, m, r.at, hits, cs)
  }

  /** Distinct, in order of distance, and no member of `ids` left out is nearer than one kept. */
  ghost predicate NearestOf(w: World, m: Spots, at: Point, ids: set<PlaceId>, cs: seq<PlaceId>)
    requires ids <= m.Keys && forall c :: c in cs ==> c in ids
  {
    && (forall i, j :: 0 <= i < j < |cs| ==> cs[i] != cs[j] && Ordered(w, m, at, cs[i], cs[j]))
    && (forall c, id :: c in cs && id in ids && id !in cs ==> Ordered(w, m, at, c, id))
  }

  predicate Ordered(w: World, m: Spots, at: Point, a: PlaceId, b: PlaceId) {
    a in m && b in m && Away(w, m, at, a) <= Away(w, m, at, b)
  }

  /** Nearer, ties by id: the tie order of the answer computed below. */
  predicate Nearer(w: World, m: Spots, at: Point, a: PlaceId, b: PlaceId)
    requires a in m && b in m
  {
    Away(w, m, at, a) < Away(w, m, at, b) || (Away(w, m, at, a) == Away(w, m, at, b) && a <= b)
  }

  ghost predicate IsNearest(w: World, m: Spots, at: Point, ids: set<PlaceId>, x: PlaceId)
    requires ids <= m.Keys
  {
    x in ids && forall y :: y in ids ==> Nearer(w, m, at, x, y)
  }

  lemma {:induction false} NearestExists(w: World, m: Spots, at: Point, ids: set<PlaceId>)
    requires ids != {} && ids <= m.Keys
    ensures exists x :: IsNearest(w, m, at, ids, x)
    decreases |ids|
  {
    var x :| x in ids;
    var rest := ids - {x};
    assert forall y :: y in ids ==> y == x || y in rest;
    if rest == {} {
      assert IsNearest(w, m, at, ids, x);
    } else {
      NearestExists(w, m, at, rest);
      var z :| IsNearest(w, m, at, rest, z);
      var best := if Nearer(w, m, at, x, z) then x else z;
      forall y | y in ids
        ensures Nearer(w, m, at, best, y)
      {
        assert y == x || y in rest;
      }
      assert IsNearest(w, m, at, ids, best);
    }
  }

  function NearestFirst(w: World, m: Spots, at: Point, ids: set<PlaceId>, n: nat): (cs: seq<PlaceId>)
    requires ids <= m.Keys
    ensures |cs| == if |ids| <= n then |ids| else n
    ensures forall c :: c in cs ==> c in ids
  {
    if n == 0 || ids == {} then []
    else
      NearestExists(w, m, at, ids);
      var x :| x in ids && forall y :: y in ids ==> Nearer(w, m, at, x, y);
      [x] + NearestFirst(w, m, at, ids - {x}, n - 1)
  }

  lemma FirstIsNearest(w: World, m: Spots, at: Point, ids: set<PlaceId>, n: nat)
    requires ids <= m.Keys && n > 0 && ids != {}
    ensures var cs := NearestFirst(w, m, at, ids, n);
            && IsNearest(w, m, at, ids, cs[0])
            && cs[1..] == NearestFirst(w, m, at, ids - {cs[0]}, n - 1)
  {
    NearestExists(w, m, at, ids);
  }

  lemma {:induction false} NearestFirstIsNearest(w: World, m: Spots, at: Point, ids: set<PlaceId>, n: nat)
    requires ids <= m.Keys
    ensures NearestOf(w, m, at, ids, NearestFirst(w, m, at, ids, n))
    decreases n
  {
    if n > 0 && ids != {} {
      var cs := NearestFirst(w, m, at, ids, n);
      FirstIsNearest(w, m, at, ids, n);
      NearestFirstIsNearest(w, m, at, ids - {cs[0]}, n - 1);
      PrependNearest(w, m, at, ids, cs[0], cs[1..]);
      assert cs == [cs[0]] + cs[1..];
    }
  }

  lemma PrependNearest(w: World, m: Spots, at: Point, ids: set<PlaceId>, x: PlaceId, tail: seq<PlaceId>)
    requires ids <= m.Keys && IsNearest(w, m, at, ids, x)
    requires forall c :: c in tail ==> c in ids - {x}
    requires NearestOf(w, m, at, ids - {x}, tail)
    ensures NearestOf(w, m, at, ids, [x] + tail)
  {
    var cs := [x] + tail;
    forall y | y in ids
      ensures Ordered(w, m, at, x, y)
    {
      assert Nearer(w, m, at, x, y);
    }
    forall i, j | 0 <= i < j < |cs|
      ensures cs[i] != cs[j] && Ordered(w, m, at, cs[i], cs[j])
    {
      assert cs[j] == tail[j - 1] && tail[j - 1] in tail;
      if i > 0 {
        assert cs[i] == tail[i - 1];
      }
    }
  }

  function FindCandidates(w: World, m: Spots, r: Record): (cs: seq<PlaceId>)
    ensures IsAnswer(w, m, r, cs)
  {
    NearestFirstIsNearest(w, m, r.at, Within(w, m, r, RADIUS_M), LIMIT);
    NearestFirst(w, m, r.at, Within(w, m, r, RADIUS_M), LIMIT)
  }

  // ---------------------------------------------------------------- the decision

  /** The first index of the largest element. */
  function FirstMax(xs: seq<real>): (i: nat)
    requires xs != []
    ensures i < |xs|
    ensures forall j :: 0 <= j < |xs| ==> xs[j] <= xs[i]
    ensures forall j :: 0 <= j < i ==> xs[j] < xs[i]
  {
    var n := |xs| - 1;
    if n == 0 then 0
    else var i := FirstMax(xs[..n]); if xs[n] > xs[i] then n else i
  }

  function ScoreOf(w: World, m: Spots, r: Record, cs: seq<PlaceId>, i: nat): real
    requires i < |cs| && cs[i] in m
  {
    Score(w, r, m[cs[i]])
  }

  function Scores(w: World, m: Spots, r: Record, cs: seq<PlaceId>): (xs: seq<real>)
    requires forall c :: c in cs ==> c in m
    ensures |xs| == |cs|
  {
    if cs == [] then []
    else
      var n := |cs| - 1;
      assert cs[n] in cs;
      Scores(w, m, r, cs[..n]) + [ScoreOf(w, m, r, cs, n)]
  }

  lemma {:induction false} ScoresAt(w: World, m: Spots, r: Record, cs: seq<PlaceId>, i: nat)
    requires forall c :: c in cs ==> c in m
    requires i < |cs|
    ensures cs[i] in cs && Scores(w, m, r, cs)[i] == Score(w, r, m[cs[i]])
  {
    if i < |cs| - 1 {
      ScoresAt(w, m, r, cs[..|cs| - 1], i);
    }
  }

  /** The best score is an upper bound, and the index found is a candidate. */
  lemma BestScore(w: World, m: Spots, r: Record, cs: seq<PlaceId>)
    requires cs != [] && forall c :: c in cs ==> c in m
    ensures var xs := Scores(w, m, r, cs);
            var i := FirstMax(xs);
            && cs[i] in cs
            && xs[i] == Score(w, r, m[cs[i]])
            && forall c :: c in cs ==> Score(w, r, m[c]) <= xs[i]
  {
    var xs := Scores(w, m, r, cs);
    var i := FirstMax(xs);
    ScoresAt(w, m, r, cs, i);
    forall c | c in cs
      ensures Score(w, r, m[c]) <= xs[i]
    {
      var j :| 0 <= j < |cs| && cs[j] == c;
      ScoresAt(w, m, r, cs, j);
      assert xs[j] <= xs[i];
    }
  }

  function BandOf(score: real): Band {
    if score >= CONFIDENT_THRESHOLD then Confident else LowConfidence
  }

  function Decide(w: World, m: Spots, r: Record, cs: seq<PlaceId>): (d: Decision)
    requires forall c :: c in cs ==> c in m
    ensures d.Matched? ==> d.place in cs
  {
    if cs == [] then NoMatch
    else
      var xs := Scores(w, m, r, cs);
      var i := FirstMax(xs);
      assert cs[i] in cs;
      if xs[i] >= LOW_CONFIDENCE_THRESHOLD then Matched(BandOf(xs[i]), cs[i], xs[i]) else NoMatch
  }

  /** Confident from 0.80 on, low-confidence from 0.55 on; the confidence is the place's score. */
  ghost predicate IsBanded(w: World, m: Spots, r: Record, d: Decision) {
    d.Matched? ==>
      && d.place in m && d.confidence == Score(w, r, m[d.place])
      && (d.band == Confident <==> d.confidence >= 0.80)
      && (d.band == LowConfidence <==> 0.55 <= d.confidence < 0.80)
  }

  lemma DecisionsAreBanded(w: World, m: Spots, r: Record, cs: seq<PlaceId>)
    requires forall c :: c in cs ==> c in m
    ensures IsBanded(w, m, r, Decide(w, m, r, cs))
  {
    if cs != [] {
      BestScore(w, m, r, cs);
    }
  }

  /** What a match tells: a confident one lies within 20 m and shares a word of the name, a
      low-confidence one lies within 45 m, and either is an open place of a compatible category. */
  lemma MatchesMean(w: World, m: Spots, r: Record, cs: seq<PlaceId>)
    requires w.Valid() && forall c :: c in cs ==> Eligible(m, r, c)
    ensures (forall c :: c in cs ==> c in m)
    ensures var d := Decide(w, m, r, cs); d.Matched? ==>
              && IsBanded(w, m, r, d) && IsOpen(m, r, d.place)
              && (d.band == Confident ==>
                    && w.haversine(r.at, m[d.place].at) <= 20.0
                    && Tokens(w.text, r.name) * Tokens(w.text, m[d.place].name) != {})
              && w.haversine(r.at, m[d.place].at) <= 45.0
  {
    DecisionsAreBanded(w, m, r, cs);
    var d := Decide(w, m, r, cs);
    if d.Matched? {
      BandMeaning(w, r, m[d.place]);
      EligibleMeans(m, r, d.place);
    }
  }

  /** The place is open, and of the record's category, or both are cafes, restaurants or bars. */
  predicate IsOpen(m: Spots, r: Record, id: PlaceId) {
    && id in m && m[id].status != Closed && m[id].status != OsmRemoved
    && (m[id].category == r.category || (IsFood(m[id].category) && IsFood(r.category)))
  }

  predicate IsFood(c: string) {
    c == "cafe" || c == "restaurant" || c == "bar"
  }

  lemma EligibleMeans(m: Spots, r: Record, id: PlaceId)
    ensures Eligible(m, r, id) <==> IsOpen(m, r, id)
  {
  }

  method DecideAmong(w: World, m: Spots, r: Record, candidates: seq<PlaceId>) returns (d: Decision)
    requires w.Valid()
    requires forall c :: c in candidates ==> c in m
    ensures d == Decide(w, m, r, candidates)
    ensures IsBanded(w, m, r, d)
  {
    DecisionsAreBanded(w, m, r, candidates);
    if |candidates| == 0 {
      return NoMatch;
    }
    var bestIdx, bestScore := BestCandidate(w, m, r, candidates);
    if bestScore >= CONFIDENT_THRESHOLD {
      return Matched(Confident, candidates[bestIdx], bestScore);
    } else if bestScore >= LOW_CONFIDENCE_THRESHOLD {
      return Matched(LowConfidence, candidates[bestIdx], bestScore);
    } else {
      return NoMatch;
    }
  }

  /** The first candidate with the best score. */
  method BestCandidate(w: World, m: Spots, r: Record, candidates: seq<PlaceId>) returns (bestIdx: int, bestScore: real)
    requires w.Valid() && candidates != []
    requires forall c :: c in candidates ==> c in m
    ensures bestIdx == FirstMax(Scores(w, m, r, candidates))
    ensures bestScore == Scores(w, m, r, candidates)[bestIdx]
  {
    bestIdx, bestScore := ScanScores(w, m, r, candidates);
    BestOfAll(Scores(w, m, r, candidates), bestIdx, bestScore);
  }

  /** The scoring loop. */
  method ScanScores(w: World, m: Spots, r: Record, candidates: seq<PlaceId>) returns (bestIdx: int, bestScore: real)
    requires w.Valid()
    requires forall c :: c in candidates ==> c in m
    ensures IsBest(Scores(w, m, r, candidates), |candidates|, bestIdx, bestScore)
  {
    ghost var xs := Scores(w, m, r, candidates);
    bestIdx, bestScore := -1, -1.0;
    for i := 0 to |candidates|
      invariant IsBest(xs, i, bestIdx, bestScore)
    {
      var score := ScoreAt(w, m, r, candidates, i);
      FirstMaxStep(xs, i, bestIdx, bestScore);
      if score > bestScore {
        bestScore := score;
        bestIdx := i;
      }
    }
  }

  lemma BestOfAll(xs: seq<real>, bestIdx: int, bestScore: real)
    requires xs != [] && IsBest(xs, |xs|, bestIdx, bestScore)
    ensures bestIdx == FirstMax(xs) && bestScore == xs[bestIdx]
  {
    assert xs[..|xs|] == xs;
  }

  /** The loop's variables after `n` candidates. */
  predicate IsBest(xs: seq<real>, n: nat, bestIdx: int, bestScore: real) {
    && n <= |xs|
    && if n == 0 then bestIdx == -1 && bestScore == -1.0 else bestIdx == FirstMax(xs[..n]) && bestScore == xs[bestIdx]
  }

  method ScoreAt(w: World, m: Spots, r: Record, candidates: seq<PlaceId>, i: nat) returns (score: real)
    requires w.Valid() && i < |candidates|
    requires forall c :: c in candidates ==> c in m
    ensures score == Scores(w, m, r, candidates)[i] && score >= 0.0
  {
    ScoresAt(w, m, r, candidates, i);
    ScoreIsAFraction(w, r, m[candidates[i]]);
    score := ScoreCandidate(w, r, m[candidates[i]]);
  }

  lemma FirstMaxStep(xs: seq<real>, n: nat, bestIdx: int, bestScore: real)
    requires n < |xs| && xs[n] >= 0.0 && IsBest(xs, n, bestIdx, bestScore)
    ensures if xs[n] > bestScore then IsBest(xs, n + 1, n, xs[n]) else IsBest(xs, n + 1, bestIdx, bestScore)
  {
    assert xs[..n + 1][..n] == xs[..n];
  }

  // ---------------------------------------------------------------- what the query may drop

  /** No eligible place anywhere in the table reaches the low-confidence threshold. */
  ghost predicate Silent(w: World, m: Spots, r: Record) {
    forall id :: Eligible(m, r, id) ==> Score(w, r, m[id]) < LOW_CONFIDENCE_THRESHOLD
  }

  /** What a decision over the whole table means: NoMatch when no place is strong enough, else a place
      with the largest score of all. */
  ghost predicate FullDecision(w: World, m: Spots, r: Record, d: Decision) {
    if Silent(w, m, r) then d == NoMatch
    else
      && d.Matched?
      && Eligible(m, r, d.place)
      && d.confidence == Score(w, r, m[d.place])
      && (d.band == Confident <==> d.confidence >= 0.80)
      && forall id :: Eligible(m, r, id) ==> Score(w, r, m[id]) <= d.confidence
  }

  /** `rest` lists the eligible places that `cs` leaves out, in any order. */
  ghost predicate IsRest(m: Spots, r: Record, cs: seq<PlaceId>, rest: seq<PlaceId>) {
    && (forall id :: id in rest ==> Eligible(m, r, id) && id !in cs)
    && (forall id :: Eligible(m, r, id) && id !in cs ==> id in rest)
  }

  /** Deciding among `cs` is deciding among all eligible places, those of `cs` first and in its order:
      the same place, band and confidence. */
  ghost predicate DecidesLikeAScan(w: World, m: Spots, r: Record, cs: seq<PlaceId>)
    requires forall c :: c in cs ==> c in m
  {
    forall rest :: IsRest(m, r, cs, rest) ==> Decide(w, m, r, cs + rest) == Decide(w, m, r, cs)
  }

  ghost predicate AllWeak(w: World, m: Spots, r: Record, cs: seq<PlaceId>) {
    forall c :: c in cs ==> c in m && Score(w, r, m[c]) < LOW_CONFIDENCE_THRESHOLD
  }

  /** What `cs` leaves out is below the threshold. */
  ghost predicate LeavesOnlyWeak(w: World, m: Spots, r: Record, cs: seq<PlaceId>) {
    forall id :: Eligible(m, r, id) && id !in cs ==> Score(w, r, m[id]) < LOW_CONFIDENCE_THRESHOLD
  }

  lemma RestIsWeak(w: World, m: Spots, r: Record, cs: seq<PlaceId>, rest: seq<PlaceId>)
    requires LeavesOnlyWeak(w, m, r, cs) && IsRest(m, r, cs, rest)
    ensures AllWeak(w, m, r, rest)
  {
  }

  /** Candidates below the threshold at the end of the list change nothing. */
  lemma WeakTailChangesNothing(w: World, m: Spots, r: Record, cs: seq<PlaceId>, rest: seq<PlaceId>)
    requires forall c :: c in cs ==> c in m
    requires AllWeak(w, m, r, rest)
    ensures Decide(w, m, r, cs + rest) == Decide(w, m, r, cs)
    decreases |rest|
  {
    if rest == [] {
      assert cs + rest == cs;
    } else {
      var n := |rest| - 1;
      assert cs + rest == (cs + rest[..n]) + [rest[n]] && rest[n] in rest;
      assert forall c :: c in rest[..n] ==> c in rest;
      WeakTailChangesNothing(w, m, r, cs, rest[..n]);
      WeakLastChangesNothing(w, m, r, cs + rest[..n], rest[n]);
    }
  }

  lemma WeakLastChangesNothing(w: World, m: Spots, r: Record, cs: seq<PlaceId>, c: PlaceId)
    requires forall d :: d in cs ==> d in m
    requires c in m && Score(w, r, m[c]) < LOW_CONFIDENCE_THRESHOLD
    ensures Decide(w, m, r, cs + [c]) == Decide(w, m, r, cs)
  {
    var xs, ys := Scores(w, m, r, cs), Scores(w, m, r, cs + [c]);
    assert (cs + [c])[..|cs|] == cs;
    assert ys == xs + [Score(w, r, m[c])];
    if cs == [] {
      assert FirstMax(ys) == 0 && (cs + [c])[0] == c;
    } else {
      WeakLast(xs, ys, Score(w, r, m[c]));
      assert cs[FirstMax(xs)] == (cs + [c])[FirstMax(xs)];
    }
  }

  lemma WeakLast(xs: seq<real>, ys: seq<real>, x: real)
    requires xs != [] && ys == xs + [x]
    ensures x <= xs[FirstMax(xs)] ==> FirstMax(ys) == FirstMax(xs) && ys[FirstMax(ys)] == xs[FirstMax(xs)]
    ensures x > xs[FirstMax(xs)] ==> FirstMax(ys) == |xs| && ys[|xs|] == x
  {
    assert ys[..|xs|] == xs;
  }

  /** `reach` bounds the query distance of every pair within 45 m. The 5 m between 45 m and the
      query radius is the room left for the two metrics to disagree. */
  ghost predicate Reaches(w: World, reach: real) {
    reach <= RADIUS_M && forall p, q :: w.haversine(p, q) <= 45.0 ==> w.geography(p, q) <= reach
  }

  /** A place the query dropped never reaches a threshold, if at most 32 eligible places lie within `reach`. */
  lemma DroppedPlacesAreWeak(w: World, m: Spots, r: Record, cs: seq<PlaceId>, reach: real, id: PlaceId)
    requires w.Valid() && Reaches(w, reach) && IsAnswer(w, m, r, cs)
    requires |Within(w, m, r, reach)| <= LIMIT
    requires Eligible(m, r, id) && id !in cs
    ensures Score(w, r, m[id]) < LOW_CONFIDENCE_THRESHOLD
  {
    BandMeaning(w, r, m[id]);
    if w.geography(r.at, m[id].at) <= reach {
      NearPlacesAreAnswered(w, m, r, cs, reach, id);
    }
  }

  /** With at most 32 eligible places within `reach`, LIMIT cuts none of them. */
  lemma NearPlacesAreAnswered(w: World, m: Spots, r: Record, cs: seq<PlaceId>, reach: real, id: PlaceId)
    requires reach <= RADIUS_M && IsAnswer(w, m, r, cs)
    requires |Within(w, m, r, reach)| <= LIMIT
    requires id in Within(w, m, r, reach)
    ensures id in cs
  {
    var hits, near, got := Within(w, m, r, RADIUS_M), Within(w, m, r, reach), Elements(cs);
    assert id in hits;
    AsSet(cs);
    assert got <= hits;
    if id !in got {
      if |hits| <= LIMIT {
        SubsetOfSameSize(got, hits);
      } else {
        assert got + {id} <= near;
        SubsetSize(got + {id}, near);
      }
    }
  }

  function Elements<T>(s: seq<T>): set<T> {
    set x | x in s
  }

  lemma {:induction false} AsSet<T>(s: seq<T>)
    requires forall i, j :: 0 <= i < j < |s| ==> s[i] != s[j]
    ensures |Elements(s)| == |s|
  {
    if s != [] {
      var n := |s| - 1;
      AsSet(s[..n]);
      assert Elements(s) == Elements(s[..n]) + {s[n]};
    }
  }

  lemma SubsetOfSameSize<T>(a: set<T>, b: set<T>)
    requires a <= b && |a| == |b|
    ensures a == b
  {
    assert b == a + (b - a) && |b - a| == 0;
  }

  /** The radius and the limit lose nothing: deciding among any answer of the query is deciding
      among all eligible places of the table in the same order. */
  lemma QueryLosesNothing(w: World, m: Spots, r: Record, cs: seq<PlaceId>, reach: real)
    requires w.Valid() && Reaches(w, reach) && IsAnswer(w, m, r, cs)
    requires |Within(w, m, r, reach)| <= LIMIT
    ensures DecidesLikeAScan(w, m, r, cs)
    ensures FullDecision(w, m, r, Decide(w, m, r, cs))
  {
    forall id | Eligible(m, r, id) && id !in cs
      ensures Score(w, r, m[id]) < LOW_CONFIDENCE_THRESHOLD
    {
      DroppedPlacesAreWeak(w, m, r, cs, reach, id);
    }
    OnlyWeakDropped(w, m, r, cs);
  }

  lemma OnlyWeakDropped(w: World, m: Spots, r: Record, cs: seq<PlaceId>)
    requires forall c :: c in cs ==> c in m && Eligible(m, r, c)
    requires LeavesOnlyWeak(w, m, r, cs)
    ensures DecidesLikeAScan(w, m, r, cs)
    ensures FullDecision(w, m, r, Decide(w, m, r, cs))
  {
    forall rest | IsRest(m, r, cs, rest)
      ensures Decide(w, m, r, cs + rest) == Decide(w, m, r, cs)
    {
      RestIsWeak(w, m, r, cs, rest);
      WeakTailChangesNothing(w, m, r, cs, rest);
    }
    DecisionIsFull(w, m, r, cs);
  }

  lemma DecisionIsFull(w: World, m: Spots, r: Record, cs: seq<PlaceId>)
    requires forall c :: c in cs ==> c in m && Eligible(m, r, c)
    requires LeavesOnlyWeak(w, m, r, cs)
    ensures FullDecision(w, m, r, Decide(w, m, r, cs))
  {
    if cs != [] {
      BestScore(w, m, r, cs);
    }
  }

  /** When a decision is NoMatch: no returned candidate reached the threshold. */
  lemma NoMatchMeans(w: World, m: Spots, r: Record, cs: seq<PlaceId>)
    requires forall c :: c in cs ==> c in m
    ensures Decide(w, m, r, cs) == NoMatch <==>
              forall c :: c in cs ==> Score(w, r, m[c]) < LOW_CONFIDENCE_THRESHOLD
  {
    if cs != [] {
      BestScore(w, m, r, cs);
    }
  }

  // ---------------------------------------------------------------- exactly when the limit is harmless

  /** The same places at the same points with the same category and status; names and tags are free. */
  ghost predicate SameLayout(m: Spots, n: Spots) {
    m.Keys == n.Keys && forall id :: id in m ==>
      m[id].at == n[id].at && m[id].category == n[id].category && m[id].status == n[id].status
  }

  /** Whatever the places and the record are called, and whichever answer the query returns,
      the decision is the one a scan of all eligible places takes. */
  ghost predicate HarmlessForAllNames(w: World, m: Spots, probe: Record) {
    forall n: Spots, r: Record, cs: seq<PlaceId> ::
      SameLayout(m, n) && r.at == probe.at && r.category == probe.category && IsAnswer(w, n, r, cs) ==>
        (forall c :: c in cs ==> c in n) && DecidesLikeAScan(w, n, r, cs)
  }

  /** The text operations tell the names "x" and "y" apart. */
  ghost predicate Distinguishes(t: Text) {
    && t.fold("x") == "x" && t.fold("y") == "y" && t.fold("") == ""
    && t.isWord('x') && t.isWord('y') && t.sameFold("x", "x")
  }

  lemma ShortNames(t: Text)
    requires Distinguishes(t)
    ensures Normalize(t, "x") == ["x"] && Normalize(t, "y") == ["y"] && Normalize(t, "") == []
  {
    assert Spaced(t, "x") == "x" && Spaced(t, "y") == "y" && Spaced(t, "") == "";
    OneLetter('x');
    OneLetter('y');
    assert DropSuffixes([]) == [];
  }

  lemma OneLetter(c: char)
    requires c != ' '
    ensures DropSuffixes(Fields([c])) == [[c]]
  {
    assert [c][1..] == [] && WordLength([]) == 0 && WordLength([c]) == 1;
    assert [c][..1] == [c] && Fields([]) == [];
    assert Fields([c]) == [[c]];
    ShortIsNoSuffix([c]);
    assert [[c]][1..] == [];
  }

  lemma ShortIsNoSuffix(w: string)
    requires |w| == 1
    ensures w !in SUFFIXES
  {
  }

  function Renamed(m: Spots, star: PlaceId): (n: Spots)
    ensures n.Keys == m.Keys
  {
    map id | id in m ::
      if id == star then m[id].(name := "x", tags := map["addr:street" := "x", "addr:housenumber" := "x"])
      else m[id].(name := "", tags := map["addr:street" := "y"])
  }

  lemma StarScores(w: World, r: Record, p: Spot)
    requires w.Valid() && Distinguishes(w.text)
    requires r.name == "x" && r.street == "x" && r.houseNumber == "x"
    ensures
      (p.name == "x" && p.tags == map["addr:street" := "x", "addr:housenumber" := "x"] && w.haversine(r.at, p.at) <= 45.0)
      ==> Score(w, r, p) >= LOW_CONFIDENCE_THRESHOLD
    ensures p.name == "" && p.tags == map["addr:street" := "y"] ==> Score(w, r, p) < LOW_CONFIDENCE_THRESHOLD
  {
    ShortNames(w.text);
    var rt, pt := Tokens(w.text, r.name), Tokens(w.text, p.name);
    JaccardMeaning(rt, pt);
    assert "x" in rt;
    if p.name == "" && p.tags == map["addr:street" := "y"] {
      assert pt == {};
      assert AddressScore(w.text, "x", "x", "y", "") == (0.0, true) by {
        assert ["x"][0] == "x" && ["y"][0] == "y" && "x"[0] == 'x' && "y"[0] == 'y';
      }
    }
  }

  /** Every eligible place within 45 m lies in the query radius, and at most 32 eligible places are as
      near as it by the query's metric. */
  ghost predicate NothingNearIsCut(w: World, m: Spots, probe: Record) {
    forall id :: Eligible(m, probe, id) && w.haversine(probe.at, m[id].at) <= 45.0 ==> CannotBeCut(w, m, probe, id)
  }

  predicate CannotBeCut(w: World, m: Spots, probe: Record, id: PlaceId)
    requires id in m
  {
    Away(w, m, probe.at, id) <= RADIUS_M && |Within(w, m, probe, Away(w, m, probe.at, id))| <= LIMIT
  }

  /** Exactly when radius and limit are harmless for a layout, whatever the two metrics: scoring
      measures 45 m with one, the query orders and cuts with the other. */
  lemma LimitIsHarmlessIff(w: World, m: Spots, probe: Record)
    requires w.Valid() && Distinguishes(w.text)
    ensures HarmlessForAllNames(w, m, probe) <==> NothingNearIsCut(w, m, probe)
  {
    if NothingNearIsCut(w, m, probe) {
      forall n: Spots, r: Record, cs: seq<PlaceId> |
        SameLayout(m, n) && r.at == probe.at && r.category == probe.category && IsAnswer(w, n, r, cs)
        ensures DecidesLikeAScan(w, n, r, cs)
      {
        forall id | Eligible(n, r, id) && id !in cs
          ensures Score(w, r, n[id]) < LOW_CONFIDENCE_THRESHOLD
        {
          CutPlacesAreWeak(w, m, probe, n, r, cs, id);
        }
        OnlyWeakDropped(w, n, r, cs);
      }
    } else {
      var star :| Eligible(m, probe, star) && w.haversine(probe.at, m[star].at) <= 45.0 && !CannotBeCut(w, m, probe, star);
      HarmfulNames(w, m, probe, star);
    }
  }

  lemma CutPlacesAreWeak(w: World, m: Spots, probe: Record, n: Spots, r: Record, cs: seq<PlaceId>, id: PlaceId)
    requires w.Valid() && NothingNearIsCut(w, m, probe)
    requires SameLayout(m, n) && r.at == probe.at && r.category == probe.category && IsAnswer(w, n, r, cs)
    requires Eligible(n, r, id) && id !in cs
    ensures Score(w, r, n[id]) < LOW_CONFIDENCE_THRESHOLD
  {
    BandMeaning(w, r, n[id]);
    if w.haversine(r.at, n[id].at) <= 45.0 {
      var reach := Away(w, m, probe.at, id);
      assert Eligible(m, probe, id) && CannotBeCut(w, m, probe, id);
      assert Within(w, n, r, reach) == Within(w, m, probe, reach);
      NearPlacesAreAnswered(w, n, r, cs, reach, id);
    }
  }

  /** When the two metrics are one, the condition is that at most 32 eligible places lie within 45 m. */
  lemma LimitIsHarmlessWithin45(w: World, m: Spots, probe: Record)
    requires w.Valid() && Distinguishes(w.text)
    requires forall p, q :: w.geography(p, q) == w.haversine(p, q)
    ensures HarmlessForAllNames(w, m, probe) <==> |Within(w, m, probe, 45.0)| <= LIMIT
  {
    LimitIsHarmlessIff(w, m, probe);
    var near := Within(w, m, probe, 45.0);
    if |near| <= LIMIT {
      forall id | Eligible(m, probe, id) && w.haversine(probe.at, m[id].at) <= 45.0
        ensures CannotBeCut(w, m, probe, id)
      {
        SubsetSize(Within(w, m, probe, Away(w, m, probe.at, id)), near);
      }
    } else {
      CrowdedPlace(w, m, probe);
    }
  }

  lemma CrowdedPlace(w: World, m: Spots, probe: Record)
    requires |Within(w, m, probe, 45.0)| > LIMIT
    ensures exists id :: id in Within(w, m, probe, 45.0) && !CannotBeCut(w, m, probe, id)
  {
    var near, cs := Within(w, m, probe, 45.0), FindCandidates(w, m, probe);
    AsSet(cs);
    var got := Elements(cs);
    SubsetSize(near, Within(w, m, probe, RADIUS_M));
    assert |cs| == LIMIT;
    Outnumbered(near, got);
    var star :| star in near && star !in got;
    forall c | c in got
      ensures c in Within(w, m, probe, Away(w, m, probe.at, star))
    {
      assert Ordered(w, m, probe.at, c, star);
    }
    SubsetSize(got + {star}, Within(w, m, probe, Away(w, m, probe.at, star)));
    assert !CannotBeCut(w, m, probe, star);
  }

  lemma Outnumbered<T>(a: set<T>, b: set<T>)
    requires |a| > |b|
    ensures exists x :: x in a && x !in b
  {
    if a <= b {
      SubsetSize(a, b);
    }
  }

  lemma HarmfulNames(w: World, m: Spots, probe: Record, star: PlaceId)
    requires w.Valid() && Distinguishes(w.text)
    requires Eligible(m, probe, star) && w.haversine(probe.at, m[star].at) <= 45.0 && !CannotBeCut(w, m, probe, star)
    ensures !HarmlessForAllNames(w, m, probe)
  {
    var cs := AnswerWithout(w, m, probe, star);
    var n, r := Renamed(m, star), probe.(name := "x", street := "x", houseNumber := "x");
    SameAnswers(w, m, n, probe, r, cs);
    StarIsMissed(w, m, probe, n, r, cs, star);
  }

  /** Some answer of the query cuts `star`: it lies outside the radius, or 32 others are as near. */
  lemma AnswerWithout(w: World, m: Spots, probe: Record, star: PlaceId) returns (cs: seq<PlaceId>)
    requires Eligible(m, probe, star) && !CannotBeCut(w, m, probe, star)
    ensures IsAnswer(w, m, probe, cs) && star !in cs
  {
    var hits := Within(w, m, probe, RADIUS_M);
    if star !in hits {
      cs := FindCandidates(w, m, probe);
    } else {
      var others, asNear := hits - {star}, Within(w, m, probe, Away(w, m, probe.at, star)) - {star};
      assert |asNear| >= LIMIT;
      SubsetSize(asNear, others);
      NearestFirstIsNearest(w, m, probe.at, others, LIMIT);
      cs := NearestFirst(w, m, probe.at, others, LIMIT);
      forall c | c in cs
        ensures Ordered(w, m, probe.at, c, star)
      {
        FarOnesComeLast(w, m, probe.at, others, asNear, cs, c);
      }
    }
  }

  /** No kept place is farther than all of `asNear`, if at most as many are kept. */
  lemma FarOnesComeLast(w: World, m: Spots, at: Point, others: set<PlaceId>, asNear: set<PlaceId>, cs: seq<PlaceId>, c: PlaceId)
    requires others <= m.Keys && asNear <= others && (forall d :: d in cs ==> d in others)
    requires NearestOf(w, m, at, others, cs) && c in cs && |cs| <= |asNear|
    ensures exists x :: x in asNear && Ordered(w, m, at, c, x)
  {
    if c in asNear {
      assert Ordered(w, m, at, c, c);
    } else {
      AsSet(cs);
      var got := Elements(cs);
      Outnumbered(asNear, got - {c});
      var x :| x in asNear && x !in got - {c};
      assert Ordered(w, m, at, c, x);
    }
  }

  lemma StarIsMissed(w: World, m: Spots, probe: Record, n: Spots, r: Record, cs: seq<PlaceId>, star: PlaceId)
    requires w.Valid() && Distinguishes(w.text)
    requires n == Renamed(m, star) && r == probe.(name := "x", street := "x", houseNumber := "x")
    requires Eligible(m, probe, star) && w.haversine(probe.at, m[star].at) <= 45.0
    requires star !in cs && forall c :: c in cs ==> c in n
    ensures !DecidesLikeAScan(w, n, r, cs)
  {
    StarScores(w, r, n[star]);
    forall c | c in cs
      ensures Score(w, r, n[c]) < LOW_CONFIDENCE_THRESHOLD
    {
      OthersAreWeak(w, m, n, r, star, c);
    }
    assert Eligible(n, r, star);
    StrongPlaceIsMissed(w, n, r, cs, star);
  }

  lemma StrongPlaceIsMissed(w: World, n: Spots, r: Record, cs: seq<PlaceId>, star: PlaceId)
    requires forall c :: c in cs ==> c in n && Score(w, r, n[c]) < LOW_CONFIDENCE_THRESHOLD
    requires Eligible(n, r, star) && Score(w, r, n[star]) >= LOW_CONFIDENCE_THRESHOLD
    ensures !DecidesLikeAScan(w, n, r, cs)
  {
    var rest := Listing(set id | id in n && Eligible(n, r, id) && id !in cs);
    assert IsRest(n, r, cs, rest) && star in cs + rest;
    NoMatchMeans(w, n, r, cs);
    NoMatchMeans(w, n, r, cs + rest);
    assert Decide(w, n, r, cs + rest) != Decide(w, n, r, cs);
  }

  lemma {:induction false} Listing<T>(s: set<T>) returns (xs: seq<T>)
    ensures forall x :: x in xs <==> x in s
  {
    if s == {} {
      xs := [];
    } else {
      var x :| x in s;
      xs := Listing(s - {x});
      xs := xs + [x];
    }
  }

  lemma OthersAreWeak(w: World, m: Spots, n: Spots, r: Record, star: PlaceId, c: PlaceId)
    requires w.Valid() && Distinguishes(w.text) && n == Renamed(m, star)
    requires r.name == "x" && r.street == "x" && r.houseNumber == "x"
    requires c in m && c != star
    ensures Score(w, r, n[c]) < LOW_CONFIDENCE_THRESHOLD
  {
    StarScores(w, r, n[c]);
  }

  /** The query reads positions, categories and status only. */
  lemma SameAnswers(w: World, m: Spots, n: Spots, p: Record, r: Record, cs: seq<PlaceId>)
    requires SameLayout(m, n) && r.at == p.at && r.category == p.category
    requires IsAnswer(w, m, p, cs)
    ensures IsAnswer(w, n, r, cs)
  {
    assert Within(w, n, r, RADIUS_M) == Within(w, m, p, RADIUS_M);
    assert forall a, b :: Ordered(w, m, p.at, a, b) ==> Ordered(w, n, r.at, a, b);
  }
}

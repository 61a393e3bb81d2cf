/** A table on which LIMIT 32 costs the match (internal/place/repository.go, FindCandidates): 33 cafes
    along a street, of which only the farthest, 33 m away, has the record's name. */
module CrowdedStreet {
  import opened Models
  import opened Normalization
  import opened Scoring
  import opened Matching

  function Metres(p: Point, q: Point): real {
    if p.lat >= q.lat then p.lat - q.lat else q.lat - p.lat
  }

  const STREET := World(Text(s => s, c => c != ' ', (a, b) => a == b), (p, q) => Metres(p, q), (p, q) => Metres(p, q))
  const ASKED := Record("wheelmap", "7", "x", Point(0.0, 0.0), "cafe", "", "", None)
  const STAR: PlaceId := 32

  /** Cafe `i` stands i + 1 metres away. */
  function Cafe(i: PlaceId): Spot {
    Spot(Point(i as real + 1.0, 0.0), if i == STAR then "x" else "y", "cafe", map[], Active)
  }

  function Below(n: nat): (s: set<PlaceId>)
    ensures |s| == n && forall i: nat :: i in s <==> i < n
  {
    if n == 0 then {} else Below(n - 1) + {n - 1}
  }

  ghost predicate IsTheStreet(m: Spots) {
    (forall i: nat :: i in m <==> i <= STAR) && forall i: nat :: i in m ==> m[i] == Cafe(i)
  }

  lemma CafeScores(i: PlaceId)
    requires i <= STAR
    ensures Score(STREET, ASKED, Cafe(i)) >= LOW_CONFIDENCE_THRESHOLD <==> i == STAR
  {
    ShortNames(STREET.text);
    assert Tokens(STREET.text, "x") == {"x"} && Tokens(STREET.text, "y") == {"y"};
    assert "x"[0] != "y"[0];
    JaccardMeaning({"x"}, if i == STAR then {"x"} else {"y"});
  }

  /** Whatever the query returns, the decision is NoMatch; one candidate more, and it is the star. */
  lemma LimitCostsTheMatch(m: Spots, cs: seq<PlaceId>)
    requires IsTheStreet(m) && IsAnswer(STREET, m, ASKED, cs)
    ensures STAR !in cs && Decide(STREET, m, ASKED, cs) == NoMatch
    ensures Eligible(m, ASKED, STAR) && Decide(STREET, m, ASKED, cs + [STAR]).Matched?
    ensures Decide(STREET, m, ASKED, cs + [STAR]).place == STAR
  {
    StarIsCut(m, cs);
    forall c | c in cs
      ensures Score(STREET, ASKED, m[c]) < LOW_CONFIDENCE_THRESHOLD
    {
      CafeScores(c);
    }
    NoMatchMeans(STREET, m, ASKED, cs);
    CafeScores(STAR);
    assert STAR in cs + [STAR];
    NoMatchMeans(STREET, m, ASKED, cs + [STAR]);
    BestScore(STREET, m, ASKED, cs + [STAR]);
  }

  lemma StarIsCut(m: Spots, cs: seq<PlaceId>)
    requires IsTheStreet(m) && IsAnswer(STREET, m, ASKED, cs)
    ensures STAR !in cs && forall c :: c in cs ==> c < STAR
  {
    AllAreHits(m, STAR + 1);
    AsSet(cs);
    Outnumbered(Within(STREET, m, ASKED, RADIUS_M), Elements(cs));
    var x :| x in Within(STREET, m, ASKED, RADIUS_M) && x !in Elements(cs);
    StarIsFarthest(m, x);
  }

  lemma AllAreHits(m: Spots, n: nat)
    requires IsTheStreet(m) && n == STAR + 1
    ensures |Within(STREET, m, ASKED, RADIUS_M)| == n
  {
    forall i: nat | i < n
      ensures i in Within(STREET, m, ASKED, RADIUS_M)
    {
      assert m[i] == Cafe(i);
    }
    assert Within(STREET, m, ASKED, RADIUS_M) == Below(n);
  }

  lemma StarIsFarthest(m: Spots, x: PlaceId)
    requires IsTheStreet(m) && x in m
    ensures x != STAR ==> !Ordered(STREET, m, ASKED.at, STAR, x)
  {
    assert m[x] == Cafe(x) && m[STAR] == Cafe(STAR);
  }
}

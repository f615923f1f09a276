/** The dashboard's recommendations: `Opportunity.find({ category: { $in: preferences } }).limit(5)`. */
module Dashboard {
  import opened Seqs
  import opened OpportunityModel
  import opened VolunteerModel

  const Limit: nat := 5

  /** `$in` on an array path: some stored label equals some preference. */
  predicate Shares(o: Opportunity, preferences: seq<PrefEntry>) {
    exists p :: p in preferences && p.Chosen? && p.choice in o.category
  }

  /** Every stored opportunity the query matches, in store order. */
  function Matching(opportunities: seq<Opportunity>, preferences: seq<PrefEntry>): (m: seq<Opportunity>)
    ensures |m| <= |opportunities|
    ensures forall o :: o in m <==> o in opportunities && Shares(o, preferences)
  {
    if opportunities == [] then []
    else if Shares(opportunities[0], preferences) then [opportunities[0]] + Matching(opportunities[1..], preferences)
    else Matching(opportunities[1..], preferences)
  }

  /** The matches keep store order. */
  lemma {:induction false} MatchingInOrder(opportunities: seq<Opportunity>, preferences: seq<PrefEntry>)
    ensures IsSubsequence(Matching(opportunities, preferences), opportunities)
  {
    if opportunities != [] {
      MatchingInOrder(opportunities[1..], preferences);
      var rest := Matching(opportunities[1..], preferences);
      if Shares(opportunities[0], preferences) {
        assert ([opportunities[0]] + rest)[1..] == rest;
      }
    }
  }

  /** The first five matches. */
  function Recommend(opportunities: seq<Opportunity>, preferences: seq<PrefEntry>): (r: seq<Opportunity>)
    ensures |r| <= Limit
    ensures forall o :: o in r ==> o in opportunities && Shares(o, preferences)
  {
    var m := Matching(opportunities, preferences);
    if |m| <= Limit then m else m[..Limit]
  }

  /** Recommendations are the first matches in store order, as many as there are
      up to five; none at all when no preference is a label. */
  lemma RecommendIsFirstMatches(opportunities: seq<Opportunity>, preferences: seq<PrefEntry>)
    ensures var m := Matching(opportunities, preferences);
            var r := Recommend(opportunities, preferences);
            && |r| == (if |m| <= Limit then |m| else Limit)
            && r == m[..|r|]
            && IsSubsequence(r, opportunities)
            && (|m| <= Limit ==> forall o :: o in opportunities && Shares(o, preferences) ==> o in r)
    ensures (forall p :: p in preferences ==> !p.Chosen?) ==> Recommend(opportunities, preferences) == []
  {
    var m := Matching(opportunities, preferences);
    MatchingInOrder(opportunities, preferences);
    PrefixOfSubsequence(m, opportunities, if |m| <= Limit then |m| else Limit);
    assert m[..|m|] == m;
    if forall p :: p in preferences ==> !p.Chosen? {
      if m != [] {
        assert m[0] in m;
      }
    }
  }
}

/** The category allow-list check applied to opportunity writes. */
module Categories {
  import opened Seqs

  /** The seven labels the volunteer forms offer. */
  const Labels: seq<string> :=
    ["Environment", "Education", "Animal Welfare", "Community Support",
     "Healthcare", "Technology", "Arts & Culture"]

  /** `labels.filter(cat => !allowed.includes(cat))`: the labels that are not allowed. */
  function InvalidCategories(labels: seq<string>, allowed: seq<string>): (invalid: seq<string>)
    ensures |invalid| <= |labels|
    ensures forall x :: x in invalid ==> x in labels && x !in allowed
  {
    if labels == [] then []
    else if labels[0] in allowed then InvalidCategories(labels[1..], allowed)
    else [labels[0]] + InvalidCategories(labels[1..], allowed)
  }

  /** Every rejected label is reported as often as it was given, and nothing else is. */
  lemma {:induction false} InvalidCategoriesCounts(labels: seq<string>, allowed: seq<string>)
    ensures forall x :: multiset(InvalidCategories(labels, allowed))[x] ==
                        if x in allowed then 0 else multiset(labels)[x]
  {
    if labels != [] {
      InvalidCategoriesCounts(labels[1..], allowed);
      assert labels == [labels[0]] + labels[1..];
      assert multiset(labels) == multiset([labels[0]]) + multiset(labels[1..]);
      if labels[0] !in allowed {
        var rest := InvalidCategories(labels[1..], allowed);
        assert multiset([labels[0]] + rest) == multiset([labels[0]]) + multiset(rest);
      }
    }
  }

  /** A label is reported exactly when it was given and is not allowed. */
  lemma InvalidCategoriesExact(labels: seq<string>, allowed: seq<string>)
    ensures forall x :: x in InvalidCategories(labels, allowed) <==> x in labels && x !in allowed
  {
    InvalidCategoriesCounts(labels, allowed);
    forall x | x in labels && x !in allowed
      ensures x in InvalidCategories(labels, allowed)
    {
      assert multiset(labels)[x] > 0;
    }
  }

  /** The rejected labels come out in input order. */
  lemma {:induction false} InvalidCategoriesInOrder(labels: seq<string>, allowed: seq<string>)
    ensures IsSubsequence(InvalidCategories(labels, allowed), labels)
  {
    if labels != [] {
      InvalidCategoriesInOrder(labels[1..], allowed);
      var rest := InvalidCategories(labels[1..], allowed);
      if labels[0] !in allowed {
        assert ([labels[0]] + rest)[1..] == rest;
      }
    }
  }

  /** The check passes exactly when every label is allowed; in particular an empty list passes. */
  lemma InvalidCategoriesEmptyIff(labels: seq<string>, allowed: seq<string>)
    ensures InvalidCategories(labels, allowed) == [] <==> forall x :: x in labels ==> x in allowed
    ensures InvalidCategories([], allowed) == []
  {
    InvalidCategoriesExact(labels, allowed);
    if InvalidCategories(labels, allowed) != [] {
      assert InvalidCategories(labels, allowed)[0] in InvalidCategories(labels, allowed);
    }
  }

  /** One allowed label and one unknown label: only the unknown one is reported. */
  lemma OneUnknownLabelReported()
    ensures InvalidCategories(["Education", "NotARealCategory"], Labels) == ["NotARealCategory"]
  {
    assert "Education" in Labels;
    assert "NotARealCategory" !in Labels;
  }
}

/** Properties of `CalculateScore` that relate several fields of its result
    to the inputs: which labels and badges appear, what the comfort score
    is, and the two worked scenarios. */
module ScoringProperties {
  import opened Wrappers
  import opened Text
  import opened Scoring

  const StrictOrder := ["Zone", "Budget", "Pi\U{E8}ces", "Type"]
  const ComfortOrder := ["Dernier \U{E9}tage", "Balcon/Terrasse", "Meubl\U{E9}", "Parking"]

  /** `xs` is `ys` with some elements dropped, order kept. */
  ghost predicate SubsequenceOf<T>(xs: seq<T>, ys: seq<T>)
    decreases |ys|
  {
    || |xs| == 0
    || (&& |ys| > 0
        && if xs[0] == ys[0] then SubsequenceOf(xs[1..], ys[1..]) else SubsequenceOf(xs, ys[1..]))
  }

  /** On a pass, a strict label is present exactly when that dimension was
      specified AND the listing had the data to check it; an unspecified
      dimension or missing data earns the points without the label. The
      labels come in the fixed order zone, budget, rooms, type. */
  lemma StrictMatchLabels(ad: Ad, c: Criteria)
    requires StrictPasses(ad, c)
    ensures var m := CalculateScore(ad, c).criteresStrictsMatches;
            var s := c.stricts;
            && ("Zone" in m <==> |s.zones| > 0)
            && ("Budget" in m <==> Truthy(s.budgetMax, 0) && Truthy(ad.loyerTotal, 0))
            && ("Pi\U{E8}ces" in m
                <==> (Truthy(s.nombrePiecesMin, 0.0) || Truthy(s.nombrePiecesMax, 0.0)) && ad.nombrePieces.Some?)
            && ("Type" in m <==> |s.typeLogement| > 0 && Truthy(ad.typeLogement, ""))
            && SubsequenceOf(m, StrictOrder)
  {
    VerdictsAgree(ad, c);
    var s := c.stricts;
    var k0 := ZoneVerdict(ad, s.zones) == Matched;
    var k1 := BudgetVerdict(ad, s.budgetMax) == Matched;
    var k2 := RoomsVerdict(ad, s.nombrePiecesMin, s.nombrePiecesMax) == Matched;
    var k3 := TypeVerdict(ad, s.typeLogement) == Matched;
    var z := if k0 then [StrictOrder[0]] else [];
    var b := if k1 then [StrictOrder[1]] else [];
    var p := if k2 then [StrictOrder[2]] else [];
    var t := if k3 then [StrictOrder[3]] else [];
    assert CalculateScore(ad, c).criteresStrictsMatches == z + b + p + t;
    FilterOfFour(StrictOrder, k0, k1, k2, k3, z, b, p, t);
  }

  /** Keeping some of four distinct elements, in order: an element is kept
      iff its flag is set, and the result is a subsequence. */
  lemma FilterOfFour<T>(ys: seq<T>, k0: bool, k1: bool, k2: bool, k3: bool,
                        a: seq<T>, b: seq<T>, c: seq<T>, d: seq<T>)
    requires |ys| == 4
    requires forall i, j :: 0 <= i < j < 4 ==> ys[i] != ys[j]
    requires a == (if k0 then [ys[0]] else [])
    requires b == (if k1 then [ys[1]] else [])
    requires c == (if k2 then [ys[2]] else [])
    requires d == (if k3 then [ys[3]] else [])
    ensures ys[0] in a + b + c + d <==> k0
    ensures ys[1] in a + b + c + d <==> k1
    ensures ys[2] in a + b + c + d <==> k2
    ensures ys[3] in a + b + c + d <==> k3
    ensures SubsequenceOf(a + b + c + d, ys)
  {
    var r := a + b + c + d;
    assert forall x :: x in r <==> x in a || x in b || x in c || x in d;
    FilterIsSubsequence4(ys, k0, k1, k2, k3, a, b, c, d);
  }

  /** Keeping any of four elements of a four-element sequence, in order,
      yields a subsequence of it. */
  lemma {:induction false} FilterIsSubsequence4<T>(ys: seq<T>, k0: bool, k1: bool, k2: bool, k3: bool,
                                                   a: seq<T>, b: seq<T>, c: seq<T>, d: seq<T>)
    requires |ys| == 4
    requires a == (if k0 then [ys[0]] else [])
    requires b == (if k1 then [ys[1]] else [])
    requires c == (if k2 then [ys[2]] else [])
    requires d == (if k3 then [ys[3]] else [])
    ensures SubsequenceOf(a + b + c + d, ys)
  {
    var tail := b + c + d;
    KeepOrDrop(ys[1..], k1, k2, k3, b, c, d);
    if k0 {
      assert (a + tail)[0] == ys[0];
      assert (a + tail)[1..] == tail;
    } else {
      assert a + tail == tail;
      SkipHead(tail, ys);
    }
    assert a + b + c + d == a + tail;
  }

  lemma {:induction false} KeepOrDrop<T>(ys: seq<T>, k1: bool, k2: bool, k3: bool, b: seq<T>, c: seq<T>, d: seq<T>)
    requires |ys| == 3
    requires b == (if k1 then [ys[0]] else [])
    requires c == (if k2 then [ys[1]] else [])
    requires d == (if k3 then [ys[2]] else [])
    ensures SubsequenceOf(b + c + d, ys)
  {
    var cd := c + d;
    assert SubsequenceOf(d, ys[2..]) by {
      if k3 {
        assert d[1..] == [];
      }
    }
    assert SubsequenceOf(cd, ys[1..]) by {
      if k2 {
        assert cd[0] == ys[1..][0] && cd[1..] == d && ys[1..][1..] == ys[2..];
      } else {
        assert cd == d;
        SkipHead(d, ys[1..]);
      }
    }
    if k1 {
      assert (b + cd)[0] == ys[0] && (b + cd)[1..] == cd;
    } else {
      assert b + cd == cd;
      SkipHead(cd, ys);
    }
    assert b + c + d == b + cd;
  }

  /** A subsequence of the tail is a subsequence of the whole. */
  lemma {:induction false} SkipHead<T>(xs: seq<T>, ys: seq<T>)
    requires |ys| > 0 && SubsequenceOf(xs, ys[1..])
    ensures SubsequenceOf(xs, ys)
    decreases |ys|
  {
    if |xs| > 0 && xs[0] == ys[0] {
      if |xs[1..]| > 0 {
        // xs is found in ys[1..]; drop its first element as well
        TailOfSubsequence(xs, ys[1..]);
        SkipHead(xs[1..], ys[1..]);
      }
    }
  }

  /** Dropping the first element of a subsequence keeps it a subsequence. */
  lemma {:induction false} TailOfSubsequence<T>(xs: seq<T>, ys: seq<T>)
    requires |xs| > 0 && SubsequenceOf(xs, ys)
    ensures |ys| > 0 && SubsequenceOf(xs[1..], ys[1..])
    decreases |ys|
  {
    if xs[0] != ys[0] {
      TailOfSubsequence(xs, ys[1..]);
      SkipHead(xs[1..], ys[1..]);
    }
  }

  /** On a pass, each comfort bonus is earned only when it is both wanted
      and offered; the four bonuses never reach the cap, so the comfort
      score is their plain sum. Labels come in the fixed comfort order. */
  lemma ComfortBonuses(ad: Ad, c: Criteria)
    requires StrictPasses(ad, c)
    ensures var r := CalculateScore(ad, c);
            var k := c.confort;
            && r.scoreCriteresConfort
               == (if k.dernierEtage && ad.dernierEtage then 5 else 0)
                  + (if k.balcon && (ad.balcon || ad.terrasse) then 4 else 0)
                  + (if k.meuble && ad.meuble then 4 else 0)
                  + (if k.parking && ad.parkingInclus then 4 else 0)
            && r.scoreCriteresConfort <= 17
  {
  }

  /** On a pass, a comfort label is present exactly when that comfort is
      both wanted and offered, and the labels come in the fixed order
      top floor, balcony/terrace, furnished, parking. */
  lemma ComfortMatchLabels(ad: Ad, c: Criteria)
    requires StrictPasses(ad, c)
    ensures var m := CalculateScore(ad, c).criteresConfortMatches;
            var k := c.confort;
            && ("Dernier \U{E9}tage" in m <==> k.dernierEtage && ad.dernierEtage)
            && ("Balcon/Terrasse" in m <==> k.balcon && (ad.balcon || ad.terrasse))
            && ("Meubl\U{E9}" in m <==> k.meuble && ad.meuble)
            && ("Parking" in m <==> k.parking && ad.parkingInclus)
            && SubsequenceOf(m, ComfortOrder)
  {
    var k := c.confort;
    var k0 := k.dernierEtage && ad.dernierEtage;
    var k1 := k.balcon && (ad.balcon || ad.terrasse);
    var k2 := k.meuble && ad.meuble;
    var k3 := k.parking && ad.parkingInclus;
    var a := if k0 then [ComfortOrder[0]] else [];
    var b := if k1 then [ComfortOrder[1]] else [];
    var m := if k2 then [ComfortOrder[2]] else [];
    var p := if k3 then [ComfortOrder[3]] else [];
    assert CalculateScore(ad, c).criteresConfortMatches == a + b + m + p;
    FilterOfFour(ComfortOrder, k0, k1, k2, k3, a, b, m, p);
  }

  /** The comfort wishes `calme`, `ascenseur` and `autres` never influence
      the result. */
  lemma UnscoredComfortIgnored(ad: Ad, c: Criteria, calme: bool, ascenseur: bool, autres: seq<string>)
    ensures CalculateScore(ad, c)
            == CalculateScore(ad, c.(confort := c.confort.(calme := calme, ascenseur := ascenseur, autres := autres)))
  {
  }

  /** Badges on a pass: the exceptional-price badge exactly when both the
      budget and the rent are set and `rent <= 0.85 * budget`; the urgent
      badge exactly when the listing is urgent. On a veto there is no badge,
      even when the price would have earned one. */
  lemma Badges(ad: Ad, c: Criteria)
    ensures var r := CalculateScore(ad, c);
            var budget := c.stricts.budgetMax;
            && (PriceBadge in r.badges
                <==> && StrictPasses(ad, c)
                     && Truthy(budget, 0) && Truthy(ad.loyerTotal, 0)
                     && ad.loyerTotal.value <= budget.value
                     && CheapEnough(ad.loyerTotal.value, budget.value))
            && (UrgentBadge in r.badges <==> StrictPasses(ad, c) && ad.urgence)
            && (!StrictPasses(ad, c) ==> r.badges == [])
  {
    assert PriceBadge != UrgentBadge && PriceBadge != PerfectBadge;
    VerdictsAgree(ad, c);
  }

  /** The perfect-match badge needs a total above 120, but a total is at most
      100 + 17 = 117: no listing ever receives it. */
  lemma PerfectMatchUnreachable(ad: Ad, c: Criteria)
    ensures PerfectBadge !in CalculateScore(ad, c).badges
  {
    assert PerfectBadge != UrgentBadge && PerfectBadge != PriceBadge;
    if StrictPasses(ad, c) {
      ComfortBonuses(ad, c);
    }
  }

  // ---------------------------------------------------------------------
  // The worked example of the scoring test.
  // ---------------------------------------------------------------------

  const TestAd := Ad(
    id := 1,
    adresseComplete := Some("Rue de Carouge 12"),
    ville := Some("Gen\U{E8}ve"),
    codePostal := Some("1205"),
    quartier := Some("Plainpalais"),
    nombrePieces := Some(3.0),
    typeLogement := Some("Appartement"),
    dernierEtage := true,
    balcon := true,
    terrasse := false,
    meuble := false,
    loyerTotal := Some(2200),
    parkingInclus := false,
    urgence := false)

  const TestCriteria := Criteria(
    StrictCriteria(
      budgetMax := Some(2500),
      zones := ["Carouge", "Plainpalais"],
      nombrePiecesMin := Some(3.0),
      nombrePiecesMax := None,
      typeLogement := ["Appartement"]),
    ComfortCriteria(
      dernierEtage := true, calme := false, balcon := true, meuble := false,
      parking := false, ascenseur := true, autres := []))

  /** The test listing passes every strict criterion with 100 points, earns
      top-floor and balcony bonuses (9), and totals 109. */
  lemma TestListingScores109()
    ensures var r := CalculateScore(TestAd, TestCriteria);
            r.scoreCriteresStricts == 100 && r.scoreCriteresConfort == 9 && r.scoreTotal == 109
  {
    TestZoneMatched();
    TestTypeMatched();
  }

  /** "carouge" occurs at position 31 of the test listing's zone text. */
  lemma TestZoneMatched()
    ensures ZoneVerdict(TestAd, TestCriteria.stricts.zones) == Matched
  {
    var loc := Lower(AdLocation(TestAd));
    assert OccursAt(Lower("Carouge"), loc, 31) by {
      assert loc[31..38] == "carouge";
    }
    assert Includes(loc, Lower("Carouge"));
  }

  lemma TestTypeMatched()
    ensures TypeVerdict(TestAd, TestCriteria.stricts.typeLogement) == Matched
  {
    var kind := Lower("Appartement");
    assert OccursAt(Lower("Appartement"), kind, 0);
    assert Includes(kind, Lower("Appartement"));
  }

  /** The same listing at a rent of 2600 exceeds the 2500 budget: vetoed. */
  lemma OverBudgetListingVetoed()
    ensures CalculateScore(TestAd.(loyerTotal := Some(2600)), TestCriteria) == Rejected
  {
  }

  /** JavaScript truthiness: a budget of 0 is the same as no budget. */
  lemma ZeroBudgetIsUnset(ad: Ad, c: Criteria)
    ensures CalculateScore(ad, c.(stricts := c.stricts.(budgetMax := Some(0))))
            == CalculateScore(ad, c.(stricts := c.stricts.(budgetMax := None)))
  {
    assert BudgetVerdict(ad, Some(0)) == BudgetVerdict(ad, None) == Assumed;
  }

  /** A rent of 0 is the same as an unknown rent. */
  lemma ZeroRentIsUnknown(ad: Ad, c: Criteria)
    ensures CalculateScore(ad.(loyerTotal := Some(0)), c) == CalculateScore(ad.(loyerTotal := None), c)
  {
    var a0, a1 := ad.(loyerTotal := Some(0)), ad.(loyerTotal := None);
    var s := c.stricts;
    assert BudgetVerdict(a0, s.budgetMax) == BudgetVerdict(a1, s.budgetMax) == Assumed;
    assert AdLocation(a0) == AdLocation(a1);
    assert ZoneVerdict(a0, s.zones) == ZoneVerdict(a1, s.zones);
    assert RoomsVerdict(a0, s.nombrePiecesMin, s.nombrePiecesMax) == RoomsVerdict(a1, s.nombrePiecesMin, s.nombrePiecesMax);
    assert TypeVerdict(a0, s.typeLogement) == TypeVerdict(a1, s.typeLogement);
    assert ComfortPoints(a0, c.confort) == ComfortPoints(a1, c.confort);
    assert ComfortLabels(a0, c.confort) == ComfortLabels(a1, c.confort);
  }

  /** Room bounds of 0 are the same as no bounds. */
  lemma ZeroRoomBoundsAreUnset(ad: Ad, c: Criteria)
    ensures CalculateScore(ad, c.(stricts := c.stricts.(nombrePiecesMin := Some(0.0))))
            == CalculateScore(ad, c.(stricts := c.stricts.(nombrePiecesMin := None)))
    ensures CalculateScore(ad, c.(stricts := c.stricts.(nombrePiecesMax := Some(0.0))))
            == CalculateScore(ad, c.(stricts := c.stricts.(nombrePiecesMax := None)))
  {
    var s := c.stricts;
    assert RoomsVerdict(ad, Some(0.0), s.nombrePiecesMax) == RoomsVerdict(ad, None, s.nombrePiecesMax);
    assert RoomsVerdict(ad, s.nombrePiecesMin, Some(0.0)) == RoomsVerdict(ad, s.nombrePiecesMin, None);
  }

  /** A dwelling-type mismatch is a veto: the test listing, an
      "Appartement", is rejected by a user who only accepts a "Studio". */
  lemma TypeMismatchVetoes()
    ensures CalculateScore(TestAd, TestCriteria.(stricts := TestCriteria.stricts.(typeLogement := ["Studio"]))) == Rejected
  {
    StudioNotAnAppartement();
    assert TypeVerdict(TestAd, ["Studio"]) == Failed;
  }

  /** "studio" occurs nowhere in "appartement": it has no letter `s`. */
  lemma StudioNotAnAppartement()
    ensures !Includes(Lower("Appartement"), Lower("Studio"))
  {
    var kind := Lower("Appartement");
    assert kind == "appartement";
    assert Lower("Studio")[0] == 's';
    forall i
      ensures !OccursAt(Lower("Studio"), kind, i)
    {
      if 0 <= i && i + 6 <= |kind| {
        assert kind[i] != 's';
        assert kind[i..i + 6][0] == kind[i];
      }
    }
  }
}

/** The listing-versus-criteria scorer (`ScoringService.calculateScore`).

    Strict phase: zone 30, budget 30, rooms 25, type 15 points. A dimension
    that the user left unspecified, or for which the listing has no data,
    earns its points as benefit of doubt. One failing dimension vetoes the
    whole score. Comfort phase: bonuses 5/4/4/4, capped at 30. */
module Scoring {
  import opened Wrappers
  import opened Text

  /** A rental listing (a row of `fb_annonces_location`). Only the columns the
      scorer reads are kept. Nullable columns are `Option`s. */
  datatype Ad = Ad(
    id: int,
    adresseComplete: Option<string>,
    ville: Option<string>,
    codePostal: Option<string>,
    quartier: Option<string>,
    nombrePieces: Option<real>,
    typeLogement: Option<string>,
    dernierEtage: bool,
    balcon: bool,
    terrasse: bool,
    meuble: bool,
    loyerTotal: Option<int>,
    parkingInclus: bool,
    urgence: bool)

  /** The strict block of a user's criteria. An absent list and an empty list
      behave the same in the scorer, so both are the empty sequence here. */
  datatype StrictCriteria = StrictCriteria(
    budgetMax: Option<int>,
    zones: seq<string>,
    nombrePiecesMin: Option<real>,
    nombrePiecesMax: Option<real>,
    typeLogement: seq<string>)

  /** The comfort block. `calme`, `ascenseur` and `autres` are stored but
      never scored. */
  datatype ComfortCriteria = ComfortCriteria(
    dernierEtage: bool,
    calme: bool,
    balcon: bool,
    meuble: bool,
    parking: bool,
    ascenseur: bool,
    autres: seq<string>)

  datatype Criteria = Criteria(stricts: StrictCriteria, confort: ComfortCriteria)

  datatype ScoreResult = ScoreResult(
    scoreTotal: int,
    scoreCriteresStricts: int,
    scoreCriteresConfort: int,
    criteresStrictsMatches: seq<string>,
    criteresConfortMatches: seq<string>,
    badges: seq<string>)

  const ZoneWeight := 30
  const BudgetWeight := 30
  const RoomsWeight := 25
  const TypeWeight := 15
  const ComfortCap := 30

  const PriceBadge := "\U{1F48E} Prix exceptionnel"
  const UrgentBadge := "\U{1F6A8} URGENT"
  const PerfectBadge := "\U{2B50}\U{2B50}\U{2B50} Match parfait"

  /** The result of a vetoed listing: nothing scored, nothing matched, no badge. */
  const Rejected := ScoreResult(0, 0, 0, [], [], [])

  // ---------------------------------------------------------------------
  // Reference semantics of the four strict dimensions, stated over the
  // inputs with case-insensitive occurrence (`Mentions`) rather than the
  // scanning `Includes`.
  // ---------------------------------------------------------------------

  /** `needle`, lower-cased, occurs somewhere in `hay`, lower-cased. */
  ghost predicate Mentions(hay: string, needle: string) {
    exists i :: OccursAt(Lower(needle), Lower(hay), i)
  }

  /** How a nullable column is rendered inside a template literal. */
  function Render(field: Option<string>): string {
    field.GetOr("null")
  }

  /** The text the zones are searched in: city, district, postal code and
      full address, separated by single spaces. */
  function AdLocation(ad: Ad): string {
    Render(ad.ville) + " " + Render(ad.quartier) + " " + Render(ad.codePostal) + " " + Render(ad.adresseComplete)
  }

  ghost predicate ZonePasses(ad: Ad, zones: seq<string>) {
    |zones| == 0 || exists i :: 0 <= i < |zones| && Mentions(AdLocation(ad), zones[i])
  }

  ghost predicate BudgetPasses(ad: Ad, budgetMax: Option<int>) {
    !Truthy(budgetMax, 0) || !Truthy(ad.loyerTotal, 0) || ad.loyerTotal.value <= budgetMax.value
  }

  ghost predicate RoomsPasses(ad: Ad, lo: Option<real>, hi: Option<real>) {
    || (!Truthy(lo, 0.0) && !Truthy(hi, 0.0))
    || ad.nombrePieces.None?
    || ((!Truthy(lo, 0.0) || lo.value <= ad.nombrePieces.value)
        && (!Truthy(hi, 0.0) || ad.nombrePieces.value <= hi.value))
  }

  ghost predicate TypePasses(ad: Ad, types: seq<string>) {
    || |types| == 0
    || !Truthy(ad.typeLogement, "")
    || exists i :: 0 <= i < |types| && Mentions(ad.typeLogement.value, types[i])
  }

  /** Every strict dimension passes (matched, unspecified or unknown). */
  ghost predicate StrictPasses(ad: Ad, c: Criteria) {
    && ZonePasses(ad, c.stricts.zones)
    && BudgetPasses(ad, c.stricts.budgetMax)
    && RoomsPasses(ad, c.stricts.nombrePiecesMin, c.stricts.nombrePiecesMax)
    && TypePasses(ad, c.stricts.typeLogement)
  }

  /** The exceptional-price condition `rent <= 0.85 * budget`, cleared of the
      fraction: `100 * rent <= 85 * budget`. */
  predicate CheapEnough(rent: int, budget: int) {
    100 * rent <= 85 * budget
  }

  // ---------------------------------------------------------------------
  // The scorer as written.
  // ---------------------------------------------------------------------

  /** Outcome of one strict dimension: matched (points and a match label),
      assumed (points only: unspecified or data missing) or failed (veto). */
  datatype Verdict = Matched | Assumed | Failed

  /** Whether some needle, lower-cased, occurs in `hay`, which the caller has
      already lower-cased. */
  function SomeIncluded(hay: string, needles: seq<string>): (r: bool)
    ensures r <==> exists i :: 0 <= i < |needles| && Includes(hay, Lower(needles[i]))
  {
    if |needles| == 0 then false
    else Includes(hay, Lower(needles[0])) || SomeIncluded(hay, needles[1..])
  }

  function ZoneVerdict(ad: Ad, zones: seq<string>): Verdict {
    if |zones| > 0 then
      if SomeIncluded(Lower(AdLocation(ad)), zones) then Matched else Failed
    else Assumed
  }

  function BudgetVerdict(ad: Ad, budgetMax: Option<int>): Verdict {
    if Truthy(budgetMax, 0) then
      if Truthy(ad.loyerTotal, 0) && ad.loyerTotal.value <= budgetMax.value then Matched
      else if !Truthy(ad.loyerTotal, 0) then Assumed
      else Failed
    else Assumed
  }

  function RoomsVerdict(ad: Ad, lo: Option<real>, hi: Option<real>): Verdict {
    if Truthy(lo, 0.0) || Truthy(hi, 0.0) then
      if ad.nombrePieces.Some? then
        var n := ad.nombrePieces.value;
        var tooFew := Truthy(lo, 0.0) && n < lo.value;
        var tooMany := Truthy(hi, 0.0) && n > hi.value;
        if !tooFew && !tooMany then Matched else Failed
      else Assumed
    else Assumed
  }

  function TypeVerdict(ad: Ad, types: seq<string>): Verdict {
    if |types| > 0 then
      if Truthy(ad.typeLogement, "") then
        if SomeIncluded(Lower(ad.typeLogement.value), types) then Matched else Failed
      else Assumed
    else Assumed
  }

  function Points(v: Verdict, weight: int): int {
    if v == Failed then 0 else weight
  }

  function Label(v: Verdict, name: string): seq<string> {
    if v == Matched then [name] else []
  }

  function Bonus(wanted: bool, present: bool, points: int): int {
    if wanted && present then points else 0
  }

  function ComfortLabels(ad: Ad, c: ComfortCriteria): seq<string> {
    (if c.dernierEtage && ad.dernierEtage then ["Dernier \U{E9}tage"] else [])
    + (if c.balcon && (ad.balcon || ad.terrasse) then ["Balcon/Terrasse"] else [])
    + (if c.meuble && ad.meuble then ["Meubl\U{E9}"] else [])
    + (if c.parking && ad.parkingInclus then ["Parking"] else [])
  }

  function ComfortPoints(ad: Ad, c: ComfortCriteria): int {
    Bonus(c.dernierEtage, ad.dernierEtage, 5)
    + Bonus(c.balcon, ad.balcon || ad.terrasse, 4)
    + Bonus(c.meuble, ad.meuble, 4)
    + Bonus(c.parking, ad.parkingInclus, 4)
  }

  function Min(a: int, b: int): int {
    if a <= b then a else b
  }

  /** `calculateScore(ad, criteria)`. */
  function CalculateScore(ad: Ad, criteria: Criteria): (r: ScoreResult)
    ensures !StrictPasses(ad, criteria) ==> r == Rejected
    ensures StrictPasses(ad, criteria) ==>
              && r.scoreCriteresStricts == 100
              && 0 <= r.scoreCriteresConfort <= ComfortCap
              && r.scoreTotal == r.scoreCriteresStricts + r.scoreCriteresConfort
    ensures r.scoreTotal > 0 <==> StrictPasses(ad, criteria)
    ensures r.scoreTotal == 0 || 100 <= r.scoreTotal <= 117
  {
    var s := criteria.stricts;
    var zone := ZoneVerdict(ad, s.zones);
    var budget := BudgetVerdict(ad, s.budgetMax);
    var rooms := RoomsVerdict(ad, s.nombrePiecesMin, s.nombrePiecesMax);
    var kind := TypeVerdict(ad, s.typeLogement);
    VerdictsAgree(ad, criteria);
    if Failed in [zone, budget, rooms, kind] then
      Rejected
    else
      var scoreStricts := Points(zone, ZoneWeight) + Points(budget, BudgetWeight)
                          + Points(rooms, RoomsWeight) + Points(kind, TypeWeight);
      var strictMatches := Label(zone, "Zone") + Label(budget, "Budget")
                           + Label(rooms, "Pi\U{E8}ces") + Label(kind, "Type");
      var priceBadge :=
        if budget == Matched && CheapEnough(ad.loyerTotal.value, s.budgetMax.value) then [PriceBadge] else [];
      var scoreConfort := Min(ComfortPoints(ad, criteria.confort), ComfortCap);
      var total := scoreStricts + scoreConfort;
      var badges := priceBadge
                    + (if ad.urgence then [UrgentBadge] else [])
                    + (if total > 120 then [PerfectBadge] else []);
      ScoreResult(total, scoreStricts, scoreConfort, strictMatches, ComfortLabels(ad, criteria.confort), badges)
  }

  // ---------------------------------------------------------------------
  // Each verdict fails exactly when its reference predicate does not hold.
  // ---------------------------------------------------------------------

  lemma SomeIncludedMentions(hay: string, needles: seq<string>)
    ensures SomeIncluded(Lower(hay), needles) <==> exists i :: 0 <= i < |needles| && Mentions(hay, needles[i])
  {
  }

  lemma VerdictsAgree(ad: Ad, c: Criteria)
    ensures ZoneVerdict(ad, c.stricts.zones) != Failed <==> ZonePasses(ad, c.stricts.zones)
    ensures BudgetVerdict(ad, c.stricts.budgetMax) != Failed <==> BudgetPasses(ad, c.stricts.budgetMax)
    ensures RoomsVerdict(ad, c.stricts.nombrePiecesMin, c.stricts.nombrePiecesMax) != Failed
            <==> RoomsPasses(ad, c.stricts.nombrePiecesMin, c.stricts.nombrePiecesMax)
    ensures TypeVerdict(ad, c.stricts.typeLogement) != Failed <==> TypePasses(ad, c.stricts.typeLogement)
  {
    SomeIncludedMentions(AdLocation(ad), c.stricts.zones);
    if Truthy(ad.typeLogement, "") {
      SomeIncludedMentions(ad.typeLogement.value, c.stricts.typeLogement);
    }
  }
}

/** The canonical-location table (`LocationRepository`): the closed set of
    canonical place names and the alias sections that map informal names
    onto them, already parsed from `known_locations.json`. */
module Locations {

  /** `lieux_canoniques`: the three lists whose union is the canonical set. */
  datatype Canonicals = Canonicals(
    communes: seq<string>,
    quartiersIntraMuros: seq<string>,
    lieuxDitsHistoriques: seq<string>)

  /** One `key: [values]` entry of an alias section, in the object's key order. */
  datatype Entry = Entry(key: string, values: seq<string>)

  /** The five alias sections of `mapping`. */
  datatype Mapping = Mapping(
    variantesOrthographiques: seq<Entry>,
    termesVaguesGeographiques: seq<Entry>,
    nomsInfrastructuresMajeures: seq<Entry>,
    lieuxDitsHistoriques: seq<Entry>,
    secteursAdministratifsDetailles: seq<Entry>)

  datatype LocationData = LocationData(lieuxCanoniques: Canonicals, mapping: Mapping)

  /** One alias edge: `source` maps to `target`, found in section `context`. */
  datatype MappingTarget = MappingTarget(source: string, target: string, context: string)

  /** The repository object: the loaded data and the canonical set built from
      it once, at construction. */
  datatype LocationRepository = LocationRepository(data: LocationData, canonicalLocations: set<string>)

  /** The section names, in the order the sections are flattened. */
  const SectionNames := [
    "variantes_orthographiques",
    "termes_vagues_geographiques",
    "noms_infrastructures_majeures",
    "lieux_dits_historiques",
    "secteurs_administratifs_detailles"]

  /** Canonical membership, the reference: a name listed in any of the three
      canonical lists. */
  predicate IsCanonical(data: LocationData, loc: string) {
    var c := data.lieuxCanoniques;
    loc in c.communes || loc in c.quartiersIntraMuros || loc in c.lieuxDitsHistoriques
  }

  /** The representation invariant the constructor establishes. */
  ghost predicate Valid(repo: LocationRepository) {
    forall loc :: loc in repo.canonicalLocations <==> IsCanonical(repo.data, loc)
  }

  /** `loadCanonicalLocations`: adds every element of the three lists, one
      list after the other, to an initially empty set. */
  method LoadCanonicalLocations(data: LocationData) returns (locations: set<string>)
    ensures forall loc :: loc in locations <==> IsCanonical(data, loc)
  {
    var c := data.lieuxCanoniques;
    locations := {};
    locations := AddAll(locations, c.communes);
    locations := AddAll(locations, c.quartiersIntraMuros);
    locations := AddAll(locations, c.lieuxDitsHistoriques);
  }

  /** Adds each element of `list`, in order, to the set `start`. */
  method AddAll(start: set<string>, list: seq<string>) returns (locations: set<string>)
    ensures forall loc :: loc in locations <==> loc in start || loc in list
  {
    locations := start;
    var i := 0;
    while i < |list|
      invariant 0 <= i <= |list|
      invariant forall loc :: loc in locations <==> loc in start || loc in list[..i]
    {
      locations := locations + {list[i]};
      i := i + 1;
    }
    assert list[..i] == list;
  }

  /** The constructor, without the file read: takes the parsed data. */
  method NewLocationRepository(data: LocationData) returns (repo: LocationRepository)
    ensures repo.data == data && Valid(repo)
  {
    var locations := LoadCanonicalLocations(data);
    repo := LocationRepository(data, locations);
  }

  /** `getCanonicalLocations`: exactly the union of the three canonical lists. */
  function GetCanonicalLocations(repo: LocationRepository): (r: set<string>)
    requires Valid(repo)
    ensures forall loc :: loc in r <==> IsCanonical(repo.data, loc)
  {
    repo.canonicalLocations
  }

  /** Total number of values over the entries of a section. */
  function ValueCount(entries: seq<Entry>): nat {
    if |entries| == 0 then 0 else |entries[0].values| + ValueCount(entries[1..])
  }

  function Context(sectionName: string): string {
    "mapping." + sectionName
  }

  /** The triples of one entry, in value order: exactly the triples that
      map the entry's key to one of its values under `context`. */
  function EntryTargets(context: string, e: Entry): (r: seq<MappingTarget>)
    ensures |r| == |e.values|
    ensures forall i :: 0 <= i < |r| ==> r[i] == MappingTarget(e.key, e.values[i], context)
    ensures forall t: MappingTarget :: t in r <==> t.source == e.key && t.context == context && t.target in e.values
  {
    var r := seq(|e.values|, i requires 0 <= i < |e.values| => MappingTarget(e.key, e.values[i], context));
    assert forall t: MappingTarget | t.source == e.key && t.context == context && t.target in e.values :: t in r by {
      forall t: MappingTarget | t.source == e.key && t.context == context && t.target in e.values
        ensures t in r
      {
        var i :| 0 <= i < |e.values| && e.values[i] == t.target;
        assert r[i] == t;
      }
    }
    r
  }

  /** Some entry of the section maps `source` to `target`. */
  ghost predicate Lists(entries: seq<Entry>, source: string, target: string) {
    exists j :: 0 <= j < |entries| && entries[j].key == source && target in entries[j].values
  }

  lemma ListsCons(entries: seq<Entry>, source: string, target: string)
    requires |entries| > 0
    ensures Lists(entries, source, target)
            <==> (entries[0].key == source && target in entries[0].values) || Lists(entries[1..], source, target)
  {
    if j :| 0 <= j < |entries| && entries[j].key == source && target in entries[j].values {
      if j > 0 {
        assert entries[1..][j - 1] == entries[j];
      }
    }
    if j :| 0 <= j < |entries[1..]| && entries[1..][j].key == source && target in entries[1..][j].values {
      assert entries[j + 1] == entries[1..][j];
    }
  }

  /** `processMappingSection`: one triple per (key, value) of the section,
      entry by entry, all tagged with the section's context. */
  function ProcessSection(sectionName: string, entries: seq<Entry>): (r: seq<MappingTarget>)
    ensures |r| == ValueCount(entries)
    ensures forall t :: t in r ==> t.context == Context(sectionName)
    ensures forall t: MappingTarget :: t in r <==> t.context == Context(sectionName) && Lists(entries, t.source, t.target)
  {
    if |entries| == 0 then []
    else
      var head := EntryTargets(Context(sectionName), entries[0]);
      var rest := ProcessSection(sectionName, entries[1..]);
      assert forall t: MappingTarget :: Lists(entries, t.source, t.target)
               <==> (entries[0].key == t.source && t.target in entries[0].values) || Lists(entries[1..], t.source, t.target) by {
        forall t: MappingTarget
          ensures Lists(entries, t.source, t.target)
                  <==> (entries[0].key == t.source && t.target in entries[0].values) || Lists(entries[1..], t.source, t.target)
        {
          ListsCons(entries, t.source, t.target);
        }
      }
      head + rest
  }

  /** Position of a context in the fixed section order; -1 for none. */
  function SectionIndex(context: string): int {
    if context == Context(SectionNames[0]) then 0
    else if context == Context(SectionNames[1]) then 1
    else if context == Context(SectionNames[2]) then 2
    else if context == Context(SectionNames[3]) then 3
    else if context == Context(SectionNames[4]) then 4
    else -1
  }

  /** The entries of the section at position `k` of the fixed order. */
  function SectionEntries(m: Mapping, k: int): seq<Entry>
    requires 0 <= k < |SectionNames|
  {
    match k
    case 0 => m.variantesOrthographiques
    case 1 => m.termesVaguesGeographiques
    case 2 => m.nomsInfrastructuresMajeures
    case 3 => m.lieuxDitsHistoriques
    case _ => m.secteursAdministratifsDetailles
  }

  /** `getMappingTargets`: every alias edge of the five sections. There is one
      triple per (section, key, value), a triple is present iff its section
      maps its source to its target, and the triples are grouped section by
      section in the fixed order variantes, termes vagues, infrastructures,
      lieux-dits, secteurs. */
  function GetMappingTargets(data: LocationData): (r: seq<MappingTarget>)
    ensures var m := data.mapping;
            |r| == ValueCount(m.variantesOrthographiques) + ValueCount(m.termesVaguesGeographiques)
                   + ValueCount(m.nomsInfrastructuresMajeures) + ValueCount(m.lieuxDitsHistoriques)
                   + ValueCount(m.secteursAdministratifsDetailles)
    ensures forall t: MappingTarget :: t in r <==>
              && 0 <= SectionIndex(t.context)
              && Lists(SectionEntries(data.mapping, SectionIndex(t.context)), t.source, t.target)
    ensures forall i :: 0 <= i < |r| ==> 0 <= SectionIndex(r[i].context)
    ensures forall i, j :: 0 <= i <= j < |r| ==> SectionIndex(r[i].context) <= SectionIndex(r[j].context)
  {
    FlattenLength(data.mapping);
    FlattenMembers(data.mapping);
    FlattenOrdered(data.mapping);
    Flatten(data.mapping)
  }

  /** The five sections processed in the fixed order and concatenated. */
  function Flatten(m: Mapping): seq<MappingTarget> {
    ProcessSection(SectionNames[0], m.variantesOrthographiques)
    + ProcessSection(SectionNames[1], m.termesVaguesGeographiques)
    + ProcessSection(SectionNames[2], m.nomsInfrastructuresMajeures)
    + ProcessSection(SectionNames[3], m.lieuxDitsHistoriques)
    + ProcessSection(SectionNames[4], m.secteursAdministratifsDetailles)
  }

  lemma FlattenLength(m: Mapping)
    ensures |Flatten(m)| == ValueCount(m.variantesOrthographiques) + ValueCount(m.termesVaguesGeographiques)
                            + ValueCount(m.nomsInfrastructuresMajeures) + ValueCount(m.lieuxDitsHistoriques)
                            + ValueCount(m.secteursAdministratifsDetailles)
  {
  }

  lemma FlattenMembers(m: Mapping)
    ensures forall t: MappingTarget :: t in Flatten(m) <==>
              && 0 <= SectionIndex(t.context)
              && Lists(SectionEntries(m, SectionIndex(t.context)), t.source, t.target)
  {
    ContextsDistinct();
  }

  lemma FlattenOrdered(m: Mapping)
    ensures forall i :: 0 <= i < |Flatten(m)| ==> 0 <= SectionIndex(Flatten(m)[i].context)
    ensures forall i, j :: 0 <= i <= j < |Flatten(m)| ==> SectionIndex(Flatten(m)[i].context) <= SectionIndex(Flatten(m)[j].context)
  {
    var s0 := ProcessSection(SectionNames[0], m.variantesOrthographiques);
    var s1 := ProcessSection(SectionNames[1], m.termesVaguesGeographiques);
    var s2 := ProcessSection(SectionNames[2], m.nomsInfrastructuresMajeures);
    var s3 := ProcessSection(SectionNames[3], m.lieuxDitsHistoriques);
    var s4 := ProcessSection(SectionNames[4], m.secteursAdministratifsDetailles);
    SectionsTagged(s0, 0);
    SectionsTagged(s1, 1);
    SectionsTagged(s2, 2);
    SectionsTagged(s3, 3);
    SectionsTagged(s4, 4);
    ConcatOrdered(s0, s1, 0);
    ConcatOrdered(s0 + s1, s2, 1);
    ConcatOrdered(s0 + s1 + s2, s3, 2);
    ConcatOrdered(s0 + s1 + s2 + s3, s4, 3);
  }

  /** A context names at most one section. */
  lemma ContextsDistinct()
    ensures forall k :: 0 <= k < |SectionNames| ==> SectionIndex(Context(SectionNames[k])) == k
  {
  }

  /** Every triple of a section carries that section's index. */
  lemma SectionsTagged(s: seq<MappingTarget>, k: int)
    requires 0 <= k < |SectionNames|
    requires forall t :: t in s ==> t.context == Context(SectionNames[k])
    ensures forall i :: 0 <= i < |s| ==> SectionIndex(s[i].context) == k
  {
    forall i | 0 <= i < |s|
      ensures SectionIndex(s[i].context) == k
    {
      assert s[i] in s;
    }
  }

  /** Appending a block of index `k + 1` to triples of index at most `k`,
      ordered, keeps the whole ordered. */
  lemma ConcatOrdered(a: seq<MappingTarget>, b: seq<MappingTarget>, k: nat)
    requires forall i :: 0 <= i < |a| ==> 0 <= SectionIndex(a[i].context) <= k
    requires forall i, j :: 0 <= i <= j < |a| ==> SectionIndex(a[i].context) <= SectionIndex(a[j].context)
    requires forall i :: 0 <= i < |b| ==> SectionIndex(b[i].context) == k + 1
    ensures forall i :: 0 <= i < |a + b| ==> 0 <= SectionIndex((a + b)[i].context) <= k + 1
    ensures forall i, j :: 0 <= i <= j < |a + b| ==> SectionIndex((a + b)[i].context) <= SectionIndex((a + b)[j].context)
  {
    forall i | 0 <= i < |a + b|
      ensures 0 <= SectionIndex((a + b)[i].context) <= k + 1
    {
      if i < |a| {
        assert (a + b)[i] == a[i];
      } else {
        assert (a + b)[i] == b[i - |a|];
      }
    }
    forall i, j | 0 <= i <= j < |a + b|
      ensures SectionIndex((a + b)[i].context) <= SectionIndex((a + b)[j].context)
    {
      if j < |a| {
        assert (a + b)[i] == a[i] && (a + b)[j] == a[j];
      } else if i < |a| {
        assert (a + b)[i] == a[i] && (a + b)[j] == b[j - |a|];
      } else {
        assert (a + b)[i] == b[i - |a|] && (a + b)[j] == b[j - |a|];
      }
    }
  }

  /** The diagnostic for an alias whose target is not canonical. */
  function InvalidTargetMessage(t: MappingTarget): string {
    "Invalid target location \"" + t.target + "\" referenced in \"" + t.context + "\" for key \"" + t.source + "\""
  }

  /** Positions of the triples whose target is not canonical. */
  ghost function InvalidPositions(targets: seq<MappingTarget>, canonical: set<string>): set<int> {
    set i | 0 <= i < |targets| && targets[i].target !in canonical
  }

  /** `validateInternalConsistency`: one diagnostic per alias whose target is
      not canonical, in triple order. The list is empty iff every alias
      target is canonical. */
  method ValidateInternalConsistency(repo: LocationRepository) returns (errors: seq<string>)
    ensures var targets := GetMappingTargets(repo.data);
            && |errors| == |InvalidPositions(targets, repo.canonicalLocations)|
            && (forall e :: e in errors ==>
                  exists i :: 0 <= i < |targets| && targets[i].target !in repo.canonicalLocations
                              && e == InvalidTargetMessage(targets[i]))
            && (forall i :: 0 <= i < |targets| && targets[i].target !in repo.canonicalLocations ==>
                  InvalidTargetMessage(targets[i]) in errors)
            && (errors == [] <==> AliasTargetsCanonical(repo.data, repo.canonicalLocations))
            && errors == InvalidMessages(targets, repo.canonicalLocations)
  {
    var targets := GetMappingTargets(repo.data);
    errors := CheckTargets(targets, repo.canonicalLocations);
    TargetsCanonicalIffAliases(repo.data, repo.canonicalLocations);
  }

  /** Invariant 1 of the location data: every value listed in any alias
      section is a canonical location. */
  ghost predicate AliasTargetsCanonical(data: LocationData, canonical: set<string>) {
    forall k, e, v :: 0 <= k < |SectionNames| && e in SectionEntries(data.mapping, k) && v in e.values ==> v in canonical
  }

  /** Checking the flattened triples is the same as checking every alias
      section directly. */
  lemma TargetsCanonicalIffAliases(data: LocationData, canonical: set<string>)
    ensures (forall t :: t in GetMappingTargets(data) ==> t.target in canonical)
            <==> AliasTargetsCanonical(data, canonical)
  {
    var targets := GetMappingTargets(data);
    ContextsDistinct();
    if forall t :: t in targets ==> t.target in canonical {
      forall k, e, v | 0 <= k < |SectionNames| && e in SectionEntries(data.mapping, k) && v in e.values
        ensures v in canonical
      {
        var entries := SectionEntries(data.mapping, k);
        var j :| 0 <= j < |entries| && entries[j] == e;
        assert Lists(entries, e.key, v);
        assert MappingTarget(e.key, v, Context(SectionNames[k])) in targets;
      }
    }
    if AliasTargetsCanonical(data, canonical) {
      forall t | t in targets
        ensures t.target in canonical
      {
        var entries := SectionEntries(data.mapping, SectionIndex(t.context));
        var j :| 0 <= j < |entries| && entries[j].key == t.source && t.target in entries[j].values;
        assert entries[j] in entries;
      }
    }
  }

  /** The diagnostics of the invalid triples, in triple order: the reference
      filter for the checking loop. */
  function InvalidMessages(targets: seq<MappingTarget>, canonical: set<string>): seq<string> {
    if |targets| == 0 then []
    else
      var last := targets[|targets| - 1];
      InvalidMessages(targets[..|targets| - 1], canonical)
      + (if last.target !in canonical then [InvalidTargetMessage(last)] else [])
  }

  /** The loop of `validateInternalConsistency` over a list of triples. */
  method CheckTargets(targets: seq<MappingTarget>, canonical: set<string>) returns (errors: seq<string>)
    ensures errors == InvalidMessages(targets, canonical)
    ensures |errors| == |InvalidPositions(targets, canonical)|
    ensures forall e :: e in errors ==>
              exists i :: 0 <= i < |targets| && targets[i].target !in canonical && e == InvalidTargetMessage(targets[i])
    ensures forall i :: 0 <= i < |targets| && targets[i].target !in canonical ==> InvalidTargetMessage(targets[i]) in errors
    ensures errors == [] <==> forall t :: t in targets ==> t.target in canonical
  {
    ghost var positions: seq<int> := [];
    errors := [];
    var k := 0;
    while k < |targets|
      invariant 0 <= k <= |targets|
      invariant |positions| == |errors|
      invariant forall m :: 0 <= m < |positions| ==>
                  0 <= positions[m] < k && targets[positions[m]].target !in canonical
                  && errors[m] == InvalidTargetMessage(targets[positions[m]])
      invariant forall m, n :: 0 <= m < n < |positions| ==> positions[m] < positions[n]
      invariant forall i :: 0 <= i < k && targets[i].target !in canonical ==> i in positions
      invariant errors == InvalidMessages(targets[..k], canonical)
    {
      assert targets[..k + 1][..k] == targets[..k];
      if targets[k].target !in canonical {
        errors := errors + [InvalidTargetMessage(targets[k])];
        positions := positions + [k];
      }
      k := k + 1;
    }
    assert targets[..k] == targets;
    PositionsCount(targets, canonical, positions);
    ErrorsNamePositions(targets, canonical, positions, errors);
  }

  /** The recorded positions are exactly the invalid ones, so there are as
      many of them as invalid positions. */
  lemma PositionsCount(targets: seq<MappingTarget>, canonical: set<string>, positions: seq<int>)
    requires forall m :: 0 <= m < |positions| ==>
               0 <= positions[m] < |targets| && targets[positions[m]].target !in canonical
    requires forall m, n :: 0 <= m < n < |positions| ==> positions[m] < positions[n]
    requires forall i :: 0 <= i < |targets| && targets[i].target !in canonical ==> i in positions
    ensures |positions| == |InvalidPositions(targets, canonical)|
  {
    forall x
      ensures x in InvalidPositions(targets, canonical) <==> x in positions
    {
      if x in positions {
        var m :| 0 <= m < |positions| && positions[m] == x;
      }
    }
    IncreasingCount(positions, InvalidPositions(targets, canonical));
  }

  /** Diagnostics aligned with the invalid positions name exactly the
      invalid triples. */
  lemma ErrorsNamePositions(targets: seq<MappingTarget>, canonical: set<string>, positions: seq<int>, errors: seq<string>)
    requires |positions| == |errors|
    requires forall m :: 0 <= m < |positions| ==>
               0 <= positions[m] < |targets| && targets[positions[m]].target !in canonical
               && errors[m] == InvalidTargetMessage(targets[positions[m]])
    requires forall i :: 0 <= i < |targets| && targets[i].target !in canonical ==> i in positions
    ensures forall e :: e in errors ==>
              exists i :: 0 <= i < |targets| && targets[i].target !in canonical && e == InvalidTargetMessage(targets[i])
    ensures forall i :: 0 <= i < |targets| && targets[i].target !in canonical ==> InvalidTargetMessage(targets[i]) in errors
    ensures errors == [] <==> forall t :: t in targets ==> t.target in canonical
  {
    forall i | 0 <= i < |targets| && targets[i].target !in canonical
      ensures InvalidTargetMessage(targets[i]) in errors
    {
      var m :| 0 <= m < |positions| && positions[m] == i;
      assert errors[m] == InvalidTargetMessage(targets[i]);
    }
    forall e | e in errors
      ensures exists i :: 0 <= i < |targets| && targets[i].target !in canonical && e == InvalidTargetMessage(targets[i])
    {
      var m :| 0 <= m < |errors| && errors[m] == e;
      assert 0 <= positions[m] < |targets|;
    }
    if errors == [] {
      forall t | t in targets
        ensures t.target in canonical
      {
        var i :| 0 <= i < |targets| && targets[i] == t;
        assert i !in positions;
      }
    } else {
      assert targets[positions[0]] in targets && targets[positions[0]].target !in canonical;
    }
  }

  /** A strictly increasing sequence whose elements are exactly the members
      of `s` has as many elements as `s`. */
  lemma {:induction false} IncreasingCount(xs: seq<int>, s: set<int>)
    requires forall m, n :: 0 <= m < n < |xs| ==> xs[m] < xs[n]
    requires forall x :: x in s <==> x in xs
    ensures |s| == |xs|
    decreases |xs|
  {
    if |xs| > 0 {
      var last := xs[|xs| - 1];
      var init := xs[..|xs| - 1];
      assert xs == init + [last];
      forall x | x in init
        ensures x < last
      {
        var m :| 0 <= m < |init| && init[m] == x;
        assert xs[m] == x;
      }
      forall x
        ensures x in s - {last} <==> x in init
      {
        assert x in xs <==> x in init || x == last;
      }
      IncreasingCount(init, s - {last});
      assert last in s;
      assert s == (s - {last}) + {last};
    }
  }
}

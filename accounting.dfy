/**
 * Every finding of `validate_formats` accounted for: each one is the report
 * of a rejected DATE or PLAC of a checked event, or of a flagged NAME, of a
 * record of the tree, and there are exactly as many findings as there are
 * such problems. With the converse in `ValidatorCompleteness` this is
 * "one finding per detected problem, and nothing else".
 */
module ValidatorAccounting {
  import opened Wrappers
  import opened PyStrings
  import opened Findings
  import opened Dates
  import opened Places
  import opened Records
  import opened FormatValidator
  import opened ValidatorProperties
  import opened ValidatorCompleteness

  // ----- the number of problems in a tree, independent of the findings -----

  /** The rejected fields of one event: its DATE, its PLAC, both or neither. */
  function FieldCount(ev: Event, cfg: Config, parses: Strptime): nat {
    (if DateRejected(ev, cfg, parses) then 1 else 0) + (if PlaceRejected(ev, cfg) then 1 else 0)
  }

  /** The rejected fields of a sequence of occurrences. */
  function OccurrencesCount(evs: seq<Event>, cfg: Config, parses: Strptime): nat
    decreases |evs|
  {
    if evs == [] then 0
    else OccurrencesCount(evs[..|evs| - 1], cfg, parses) + FieldCount(evs[|evs| - 1], cfg, parses)
  }

  /** The rejected fields of the occurrences of the given tags. */
  function TagsCount(events: map<string, seq<Event>>, tags: seq<string>, cfg: Config, parses: Strptime): nat
    decreases |tags|
  {
    if tags == [] then 0
    else TagsCount(events, tags[..|tags| - 1], cfg, parses) + OccurrencesCount(Children(events, tags[|tags| - 1]), cfg, parses)
  }

  /** The problems of one individual: a flagged name, and the rejected fields of its checked events. */
  function IndiCount(indi: Indi, cfg: Config, parses: Strptime): nat {
    (if NameFlagged(indi, cfg) then 1 else 0) + TagsCount(indi.events, Individual.EventTags(), cfg, parses)
  }

  /** The problems of one family: the rejected fields of its checked events. */
  function FamCount(fam: Fam, cfg: Config, parses: Strptime): nat {
    TagsCount(fam.events, Family.EventTags(), cfg, parses)
  }

  function IndisCount(indis: seq<Indi>, cfg: Config, parses: Strptime): nat
    decreases |indis|
  {
    if indis == [] then 0 else IndisCount(indis[..|indis| - 1], cfg, parses) + IndiCount(indis[|indis| - 1], cfg, parses)
  }

  function FamsCount(fams: seq<Fam>, cfg: Config, parses: Strptime): nat
    decreases |fams|
  {
    if fams == [] then 0 else FamsCount(fams[..|fams| - 1], cfg, parses) + FamCount(fams[|fams| - 1], cfg, parses)
  }

  /** All the problems of a tree. */
  function ProblemCount(tree: Tree, cfg: Config, parses: Strptime): nat {
    IndisCount(tree.indis, cfg, parses) + FamsCount(tree.fams, cfg, parses)
  }

  // ----- one finding per problem -----

  /** An event check reports one finding per rejected field, and fails only if some field is rejected. */
  lemma EventCounted(kind: RecordKind, id: string, ev: Event, cfg: Config, parses: Strptime)
    ensures var o := EventFindings(kind, id, ev, cfg, parses);
      && (o.Success? ==> |o.value| == FieldCount(ev, cfg, parses))
      && (o.Failure? ==> PlaceRejected(ev, cfg) && cfg.placeStructures == [])
  {
    DateFindingsAtMostOne(kind, id, ev, cfg, parses);
    DateFindingPresent(kind, id, ev, cfg, parses);
    PlaceFindingsAtMostOne(kind, id, ev, cfg);
    PlaceFindingPresent(kind, id, ev, cfg);
  }

  lemma {:induction false} OccurrencesCounted(kind: RecordKind, id: string, evs: seq<Event>, cfg: Config, parses: Strptime)
    ensures var o := EventsFindings(kind, id, evs, cfg, parses);
      && (o.Success? ==> |o.value| == OccurrencesCount(evs, cfg, parses))
      && (o.Failure? ==> OccurrencesCount(evs, cfg, parses) > 0)
    decreases |evs|
  {
    if evs != [] {
      OccurrencesCounted(kind, id, evs[..|evs| - 1], cfg, parses);
      EventCounted(kind, id, evs[|evs| - 1], cfg, parses);
    }
  }

  lemma {:induction false} TagsCounted(kind: RecordKind, id: string, events: map<string, seq<Event>>, tags: seq<string>,
                                       cfg: Config, parses: Strptime)
    ensures var o := TagsFindings(kind, id, events, tags, cfg, parses);
      && (o.Success? ==> |o.value| == TagsCount(events, tags, cfg, parses))
      && (o.Failure? ==> TagsCount(events, tags, cfg, parses) > 0)
    decreases |tags|
  {
    if tags != [] {
      TagsCounted(kind, id, events, tags[..|tags| - 1], cfg, parses);
      OccurrencesCounted(kind, id, Children(events, tags[|tags| - 1]), cfg, parses);
    }
  }

  lemma IndiCounted(indi: Indi, cfg: Config, parses: Strptime)
    ensures var o := IndiFindings(indi, cfg, parses);
      && (o.Success? ==> |o.value| == IndiCount(indi, cfg, parses))
      && (o.Failure? ==> IndiCount(indi, cfg, parses) > 0)
  {
    var id := RecordId(Individual, indi.xref);
    NameFindingPresent(indi, id, cfg);
    TagsCounted(Individual, id, indi.events, Individual.EventTags(), cfg, parses);
  }

  lemma {:induction false} IndisCounted(indis: seq<Indi>, cfg: Config, parses: Strptime)
    ensures var o := IndisFindings(indis, cfg, parses);
      && (o.Success? ==> |o.value| == IndisCount(indis, cfg, parses))
      && (o.Failure? ==> IndisCount(indis, cfg, parses) > 0)
    decreases |indis|
  {
    if indis != [] {
      IndisCounted(indis[..|indis| - 1], cfg, parses);
      IndiCounted(indis[|indis| - 1], cfg, parses);
    }
  }

  lemma {:induction false} FamsCounted(fams: seq<Fam>, cfg: Config, parses: Strptime)
    ensures var o := FamsFindings(fams, cfg, parses);
      && (o.Success? ==> |o.value| == FamsCount(fams, cfg, parses))
      && (o.Failure? ==> FamsCount(fams, cfg, parses) > 0)
    decreases |fams|
  {
    if fams != [] {
      FamsCounted(fams[..|fams| - 1], cfg, parses);
      var last := fams[|fams| - 1];
      TagsCounted(Family, RecordId(Family, last.xref), last.events, Family.EventTags(), cfg, parses);
    }
  }

  /**
   * A successful run has exactly one finding per problem of the tree; a run
   * that fails has at least one problem (a rejected PLAC).
   */
  lemma RunCounted(tree: Tree, cfg: Config, parses: Strptime)
    ensures var o := FormatFindings(tree, cfg, parses);
      && (o.Success? ==> |o.value| == ProblemCount(tree, cfg, parses))
      && (o.Failure? ==> ProblemCount(tree, cfg, parses) > 0)
  {
    IndisCounted(tree.indis, cfg, parses);
    FamsCounted(tree.fams, cfg, parses);
  }

  /** A tree without a rejected field or a flagged name yields no findings and no error. */
  lemma CleanTreeNoFindings(tree: Tree, cfg: Config, parses: Strptime)
    requires ProblemCount(tree, cfg, parses) == 0
    ensures FormatFindings(tree, cfg, parses) == Success([])
  {
    RunCounted(tree, cfg, parses);
  }

  // ----- where each finding comes from -----

  /** `f` is the finding of a rejected DATE or PLAC of the event `ev` of the `kind` record `id`. */
  predicate FieldOrigin(f: Finding, kind: RecordKind, id: string, ev: Event, cfg: Config, parses: Strptime) {
    && EventFindingOf(f, kind, id)
    && ((DateRejected(ev, cfg, parses) && f.tagPath == BasePath(kind, id) + "/" + ev.tag + "/DATE"
         && f.problematicValue == Strip(ev.date.value))
        || (PlaceRejected(ev, cfg) && f.tagPath == BasePath(kind, id) + "/" + ev.tag + "/PLAC"
         && f.problematicValue == Strip(ev.place.value)))
  }

  /** `f` is the finding of a rejected field of an occurrence of a checked tag of the record. */
  predicate RecordEventOrigin(f: Finding, kind: RecordKind, id: string, events: map<string, seq<Event>>,
                              cfg: Config, parses: Strptime) {
    exists t, k :: t in kind.EventTags() && 0 <= k < |Children(events, t)|
      && FieldOrigin(f, kind, id, Children(events, t)[k], cfg, parses)
  }

  /** `f` is the finding of the individual's flagged name, or of a rejected field of one of its checked events. */
  predicate IndiOrigin(f: Finding, indi: Indi, cfg: Config, parses: Strptime) {
    var id := RecordId(Individual, indi.xref);
    || (NameFlagged(indi, cfg) && NameFindingOf(f, id) && f.problematicValue == indi.name.value.raw)
    || RecordEventOrigin(f, Individual, id, indi.events, cfg, parses)
  }

  /** `f` is the finding of a rejected field of one of the family's checked events. */
  predicate FamOrigin(f: Finding, fam: Fam, cfg: Config, parses: Strptime) {
    RecordEventOrigin(f, Family, RecordId(Family, fam.xref), fam.events, cfg, parses)
  }

  /** Each finding of an event check reports one of that event's rejected fields. */
  lemma EventOrigin(kind: RecordKind, id: string, ev: Event, cfg: Config, parses: Strptime, f: Finding)
    requires EventFindings(kind, id, ev, cfg, parses).Success? && f in EventFindings(kind, id, ev, cfg, parses).value
    ensures FieldOrigin(f, kind, id, ev, cfg, parses)
  {
    var date := DateFindings(kind, id, ev, cfg, parses);
    var place := PlaceFindings(kind, id, ev, cfg);
    ThenSplit(Success(date), place);
    if f in date {
      DateFindingsAtMostOne(kind, id, ev, cfg, parses);
      DateFindingPresent(kind, id, ev, cfg, parses);
      DateFindingLocated(kind, id, ev, cfg, parses);
    } else {
      PlaceFindingsAtMostOne(kind, id, ev, cfg);
      PlaceFindingPresent(kind, id, ev, cfg);
      PlaceFindingLocated(kind, id, ev, cfg);
    }
  }

  lemma {:induction false} OccurrencesOrigin(kind: RecordKind, id: string, evs: seq<Event>, cfg: Config, parses: Strptime,
                                             f: Finding)
    requires EventsFindings(kind, id, evs, cfg, parses).Success? && f in EventsFindings(kind, id, evs, cfg, parses).value
    ensures exists k :: 0 <= k < |evs| && FieldOrigin(f, kind, id, evs[k], cfg, parses)
    decreases |evs|
  {
    var init := evs[..|evs| - 1];
    ThenSplit(EventsFindings(kind, id, init, cfg, parses), EventFindings(kind, id, evs[|evs| - 1], cfg, parses));
    if f in EventsFindings(kind, id, init, cfg, parses).value {
      OccurrencesOrigin(kind, id, init, cfg, parses, f);
      var k :| 0 <= k < |init| && FieldOrigin(f, kind, id, init[k], cfg, parses);
      assert init[k] == evs[k];
    } else {
      EventOrigin(kind, id, evs[|evs| - 1], cfg, parses, f);
    }
  }

  lemma {:induction false} TagsOrigin(kind: RecordKind, id: string, events: map<string, seq<Event>>, tags: seq<string>,
                                      cfg: Config, parses: Strptime, f: Finding)
    requires TagsFindings(kind, id, events, tags, cfg, parses).Success?
    requires f in TagsFindings(kind, id, events, tags, cfg, parses).value
    ensures exists j, k :: (0 <= j < |tags| && 0 <= k < |Children(events, tags[j])|
      && FieldOrigin(f, kind, id, Children(events, tags[j])[k], cfg, parses))
    decreases |tags|
  {
    var init := tags[..|tags| - 1];
    var last := |tags| - 1;
    ThenSplit(TagsFindings(kind, id, events, init, cfg, parses),
              EventsFindings(kind, id, Children(events, tags[last]), cfg, parses));
    if f in TagsFindings(kind, id, events, init, cfg, parses).value {
      TagsOrigin(kind, id, events, init, cfg, parses, f);
      var j, k :| 0 <= j < |init| && 0 <= k < |Children(events, init[j])|
        && FieldOrigin(f, kind, id, Children(events, init[j])[k], cfg, parses);
      assert init[j] == tags[j];
    } else {
      OccurrencesOrigin(kind, id, Children(events, tags[last]), cfg, parses, f);
    }
  }

  /** Each finding of a record's event checks reports a rejected field of a checked event of the record. */
  lemma RecordOrigin(kind: RecordKind, id: string, events: map<string, seq<Event>>, cfg: Config, parses: Strptime,
                     f: Finding)
    requires TagsFindings(kind, id, events, kind.EventTags(), cfg, parses).Success?
    requires f in TagsFindings(kind, id, events, kind.EventTags(), cfg, parses).value
    ensures RecordEventOrigin(f, kind, id, events, cfg, parses)
  {
    var tags := kind.EventTags();
    TagsOrigin(kind, id, events, tags, cfg, parses, f);
    var j, k :| 0 <= j < |tags| && 0 <= k < |Children(events, tags[j])|
      && FieldOrigin(f, kind, id, Children(events, tags[j])[k], cfg, parses);
    assert tags[j] in tags;
  }

  /** Each finding of an individual reports its flagged name or a rejected field of one of its checked events. */
  lemma IndiOriginOf(indi: Indi, cfg: Config, parses: Strptime, f: Finding)
    requires IndiFindings(indi, cfg, parses).Success? && f in IndiFindings(indi, cfg, parses).value
    ensures IndiOrigin(f, indi, cfg, parses)
  {
    var id := RecordId(Individual, indi.xref);
    var tags := TagsFindings(Individual, id, indi.events, Individual.EventTags(), cfg, parses);
    ThenSplit(Success(NameFindings(indi, id, cfg)), tags);
    if f in NameFindings(indi, id, cfg) {
      NameFindingPresent(indi, id, cfg);
    } else {
      RecordOrigin(Individual, id, indi.events, cfg, parses, f);
    }
  }

  lemma {:induction false} IndisOrigin(indis: seq<Indi>, cfg: Config, parses: Strptime, f: Finding)
    requires IndisFindings(indis, cfg, parses).Success? && f in IndisFindings(indis, cfg, parses).value
    ensures exists i :: 0 <= i < |indis| && IndiOrigin(f, indis[i], cfg, parses)
    decreases |indis|
  {
    var init := indis[..|indis| - 1];
    ThenSplit(IndisFindings(init, cfg, parses), IndiFindings(indis[|indis| - 1], cfg, parses));
    if f in IndisFindings(init, cfg, parses).value {
      IndisOrigin(init, cfg, parses, f);
      var i :| 0 <= i < |init| && IndiOrigin(f, init[i], cfg, parses);
      assert init[i] == indis[i];
    } else {
      IndiOriginOf(indis[|indis| - 1], cfg, parses, f);
    }
  }

  lemma {:induction false} FamsOrigin(fams: seq<Fam>, cfg: Config, parses: Strptime, f: Finding)
    requires FamsFindings(fams, cfg, parses).Success? && f in FamsFindings(fams, cfg, parses).value
    ensures exists i :: 0 <= i < |fams| && FamOrigin(f, fams[i], cfg, parses)
    decreases |fams|
  {
    var init := fams[..|fams| - 1];
    ThenSplit(FamsFindings(init, cfg, parses), FamFindings(fams[|fams| - 1], cfg, parses));
    if f in FamsFindings(init, cfg, parses).value {
      FamsOrigin(init, cfg, parses, f);
      var i :| 0 <= i < |init| && FamOrigin(f, init[i], cfg, parses);
      assert init[i] == fams[i];
    } else {
      var last := fams[|fams| - 1];
      RecordOrigin(Family, RecordId(Family, last.xref), last.events, cfg, parses, f);
    }
  }

  /**
   * Each finding of a successful run reports a flagged name or a rejected
   * DATE or PLAC of a checked event of some individual, or a rejected field
   * of a checked event of some family, at that field's path with its value.
   */
  lemma RunFindingOrigin(tree: Tree, cfg: Config, parses: Strptime, f: Finding)
    requires FormatFindings(tree, cfg, parses).Success? && f in FormatFindings(tree, cfg, parses).value
    ensures || (exists i :: 0 <= i < |tree.indis| && IndiOrigin(f, tree.indis[i], cfg, parses))
            || (exists i :: 0 <= i < |tree.fams| && FamOrigin(f, tree.fams[i], cfg, parses))
  {
    ThenSplit(IndisFindings(tree.indis, cfg, parses), FamsFindings(tree.fams, cfg, parses));
    if f in IndisFindings(tree.indis, cfg, parses).value {
      IndisOrigin(tree.indis, cfg, parses, f);
    } else {
      FamsOrigin(tree.fams, cfg, parses, f);
    }
  }

  // ----- where an error comes from -----

  /** Some occurrence of a checked tag of the record has a rejected PLAC. */
  predicate RecordPlaceRejected(kind: RecordKind, events: map<string, seq<Event>>, cfg: Config) {
    exists t, k :: t in kind.EventTags() && 0 <= k < |Children(events, t)| && PlaceRejected(Children(events, t)[k], cfg)
  }

  lemma {:induction false} OccurrencesFailure(kind: RecordKind, id: string, evs: seq<Event>, cfg: Config, parses: Strptime)
    requires EventsFindings(kind, id, evs, cfg, parses).Failure?
    ensures cfg.placeStructures == [] && exists k :: 0 <= k < |evs| && PlaceRejected(evs[k], cfg)
    decreases |evs|
  {
    var init := evs[..|evs| - 1];
    if EventsFindings(kind, id, init, cfg, parses).Failure? {
      OccurrencesFailure(kind, id, init, cfg, parses);
      var k :| 0 <= k < |init| && PlaceRejected(init[k], cfg);
      assert init[k] == evs[k];
    } else {
      EventCounted(kind, id, evs[|evs| - 1], cfg, parses);
    }
  }

  lemma {:induction false} TagsFailure(kind: RecordKind, id: string, events: map<string, seq<Event>>, tags: seq<string>,
                                       cfg: Config, parses: Strptime)
    requires TagsFindings(kind, id, events, tags, cfg, parses).Failure?
    ensures cfg.placeStructures == []
    ensures exists j, k :: (0 <= j < |tags| && 0 <= k < |Children(events, tags[j])|
      && PlaceRejected(Children(events, tags[j])[k], cfg))
    decreases |tags|
  {
    var init := tags[..|tags| - 1];
    if TagsFindings(kind, id, events, init, cfg, parses).Failure? {
      TagsFailure(kind, id, events, init, cfg, parses);
      var j, k :| 0 <= j < |init| && 0 <= k < |Children(events, init[j])| && PlaceRejected(Children(events, init[j])[k], cfg);
      assert init[j] == tags[j];
    } else {
      OccurrencesFailure(kind, id, Children(events, tags[|tags| - 1]), cfg, parses);
    }
  }

  /** A record's event checks fail only without templates, on a rejected PLAC of a checked event. */
  lemma RecordFailure(kind: RecordKind, id: string, events: map<string, seq<Event>>, cfg: Config, parses: Strptime)
    requires TagsFindings(kind, id, events, kind.EventTags(), cfg, parses).Failure?
    ensures cfg.placeStructures == [] && RecordPlaceRejected(kind, events, cfg)
  {
    var tags := kind.EventTags();
    TagsFailure(kind, id, events, tags, cfg, parses);
    var j, k :| 0 <= j < |tags| && 0 <= k < |Children(events, tags[j])| && PlaceRejected(Children(events, tags[j])[k], cfg);
    assert tags[j] in tags;
  }

  lemma {:induction false} IndisFailure(indis: seq<Indi>, cfg: Config, parses: Strptime)
    requires IndisFindings(indis, cfg, parses).Failure?
    ensures cfg.placeStructures == []
    ensures exists i :: 0 <= i < |indis| && RecordPlaceRejected(Individual, indis[i].events, cfg)
    decreases |indis|
  {
    var init := indis[..|indis| - 1];
    if IndisFindings(init, cfg, parses).Failure? {
      IndisFailure(init, cfg, parses);
      var i :| 0 <= i < |init| && RecordPlaceRejected(Individual, init[i].events, cfg);
      assert init[i] == indis[i];
    } else {
      var last := indis[|indis| - 1];
      RecordFailure(Individual, RecordId(Individual, last.xref), last.events, cfg, parses);
    }
  }

  lemma {:induction false} FamsFailure(fams: seq<Fam>, cfg: Config, parses: Strptime)
    requires FamsFindings(fams, cfg, parses).Failure?
    ensures cfg.placeStructures == []
    ensures exists i :: 0 <= i < |fams| && RecordPlaceRejected(Family, fams[i].events, cfg)
    decreases |fams|
  {
    var init := fams[..|fams| - 1];
    if FamsFindings(init, cfg, parses).Failure? {
      FamsFailure(init, cfg, parses);
      var i :| 0 <= i < |init| && RecordPlaceRejected(Family, init[i].events, cfg);
      assert init[i] == fams[i];
    } else {
      var last := fams[|fams| - 1];
      RecordFailure(Family, RecordId(Family, last.xref), last.events, cfg, parses);
    }
  }

  /**
   * A run ends in `IndexError` only when there are no templates and some
   * checked event of some individual or family has a rejected PLAC (the
   * converse of `IndividualPlaceCrashes` and `FamilyPlaceCrashes`).
   */
  lemma RunFailure(tree: Tree, cfg: Config, parses: Strptime)
    requires FormatFindings(tree, cfg, parses).Failure?
    ensures cfg.placeStructures == []
    ensures || (exists i :: 0 <= i < |tree.indis| && RecordPlaceRejected(Individual, tree.indis[i].events, cfg))
            || (exists i :: 0 <= i < |tree.fams| && RecordPlaceRejected(Family, tree.fams[i].events, cfg))
  {
    if IndisFindings(tree.indis, cfg, parses).Failure? {
      IndisFailure(tree.indis, cfg, parses);
    } else {
      FamsFailure(tree.fams, cfg, parses);
    }
  }

  /** A tree in which no checked event of any record has a rejected PLAC never ends in `IndexError`. */
  lemma NoRejectedPlaceNoError(tree: Tree, cfg: Config, parses: Strptime)
    requires forall i :: 0 <= i < |tree.indis| ==> !RecordPlaceRejected(Individual, tree.indis[i].events, cfg)
    requires forall i :: 0 <= i < |tree.fams| ==> !RecordPlaceRejected(Family, tree.fams[i].events, cfg)
    ensures FormatFindings(tree, cfg, parses).Success?
  {
    if FormatFindings(tree, cfg, parses).Failure? {
      RunFailure(tree, cfg, parses);
    }
  }

  // ----- the defaults -----

  /**
   * With the default configuration (no formats, no templates) every
   * non-blank DATE and every non-blank PLAC is rejected.
   */
  lemma DefaultsRejectEveryValue(ev: Event, parses: Strptime)
    ensures DateRejected(ev, DefaultConfig, parses) <==> ev.date.Some? && Strip(ev.date.value) != []
    ensures PlaceRejected(ev, DefaultConfig) <==> ev.place.Some? && Strip(ev.place.value) != []
  {
    if ev.date.Some? && Strip(ev.date.value) != [] {
      NoFormatsRejectAll(Strip(ev.date.value), parses);
    }
    if ev.place.Some? && Strip(ev.place.value) != [] {
      NoTemplatesRejectAll(Strip(ev.place.value));
    }
  }
}

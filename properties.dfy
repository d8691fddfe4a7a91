/**
 * What a run of `validate_formats` promises about its findings: where they
 * point, that each reports a value the matching check rejects, that all
 * individuals come before all families, when the run ends in `IndexError`,
 * and that it depends on nothing but the tree and the configuration.
 */
module ValidatorProperties {
  import opened Wrappers
  import opened PyStrings
  import opened Findings
  import opened Dates
  import opened Places
  import opened Records
  import opened FormatValidator

  /** A finding about an event of the `kind` record whose id is `id`, at `KIND:id/TAG/DATE` or `KIND:id/TAG/PLAC`. */
  predicate EventFindingOf(f: Finding, kind: RecordKind, id: string) {
    && f.issueType == "Format Error"
    && f.recordType == kind.EventRecordType()
    && f.xrefId == id
    && StartsWith(f.tagPath, BasePath(kind, id) + "/")
    && (EndsWith(f.tagPath, "/DATE") || EndsWith(f.tagPath, "/PLAC"))
  }

  /** The name finding of the individual whose id is `id`, at `INDI:id/NAME`. */
  predicate NameFindingOf(f: Finding, id: string) {
    f.issueType == "Format Error" && f.recordType == "Individual" && f.xrefId == id
    && f.tagPath == BasePath(Individual, id) + "/NAME"
  }

  /**
   * The value reported is non-empty, already stripped, and rejected by the
   * validator belonging to the field the path ends in.
   */
  predicate Rejected(f: Finding, cfg: Config, parses: Strptime) {
    var v := f.problematicValue;
    v != [] && Strip(v) == v &&
    (EndsWith(f.tagPath, "/DATE") ==> !ValidDate(v, cfg.dateFormats, parses)) &&
    (EndsWith(f.tagPath, "/PLAC") ==> !ValidPlace(v, cfg.placeStructures))
  }

  /** What holds of the outcome of the event checks of one record. */
  predicate EventsOk(o: Outcome, kind: RecordKind, id: string, cfg: Config, parses: Strptime) {
    && (o.Failure? ==> cfg.placeStructures == [])
    && (o.Success? ==> forall f :: f in o.value ==>
          EventFindingOf(f, kind, id) && Rejected(f, cfg, parses))
  }

  lemma ThenKeepsEventsOk(a: Outcome, b: Outcome, kind: RecordKind, id: string, cfg: Config, parses: Strptime)
    requires EventsOk(a, kind, id, cfg, parses) && EventsOk(b, kind, id, cfg, parses)
    ensures EventsOk(Then(a, b), kind, id, cfg, parses)
  {
  }

  /** At most one finding, located and rejected, makes a good outcome. */
  lemma EventsOkAtMostOne(fs: seq<Finding>, kind: RecordKind, id: string, cfg: Config, parses: Strptime)
    requires |fs| <= 1 && (fs != [] ==> EventFindingOf(fs[0], kind, id) && Rejected(fs[0], cfg, parses))
    ensures EventsOk(Success(fs), kind, id, cfg, parses)
  {
    if fs != [] {
      assert fs == [fs[0]];
    }
  }

  /** The path of an event field finding starts with the record's base path and ends with the field. */
  lemma EventPathShape(kind: RecordKind, id: string, tag: string, field: string)
    requires field == "/DATE" || field == "/PLAC"
    ensures var path := BasePath(kind, id) + "/" + tag + field;
      StartsWith(path, BasePath(kind, id) + "/") && EndsWith(path, field)
      && !EndsWith(path, if field == "/DATE" then "/PLAC" else "/DATE")
  {
    var base := BasePath(kind, id) + "/";
    var path := base + tag + field;
    assert path[..|base|] == base;
    assert path[|path| - 5..] == field;
  }

  /** The DATE check of an event yields at most one finding, and none for an absent or blank value. */
  lemma DateFindingsAtMostOne(kind: RecordKind, id: string, ev: Event, cfg: Config, parses: Strptime)
    ensures var fs := DateFindings(kind, id, ev, cfg, parses);
      |fs| <= 1 && (fs != [] ==> ev.date.Some? && Strip(ev.date.value) != [])
  {
  }

  /** A DATE finding sits at `KIND:id/TAG/DATE`. */
  lemma DateFindingLocated(kind: RecordKind, id: string, ev: Event, cfg: Config, parses: Strptime)
    requires DateFindings(kind, id, ev, cfg, parses) != []
    ensures var f := DateFindings(kind, id, ev, cfg, parses)[0];
      && EventFindingOf(f, kind, id) && EndsWith(f.tagPath, "/DATE") && !EndsWith(f.tagPath, "/PLAC")
      && f.tagPath == BasePath(kind, id) + "/" + ev.tag + "/DATE"
      && ev.date.Some? && f.problematicValue == Strip(ev.date.value)
  {
    EventPathShape(kind, id, ev.tag, "/DATE");
  }

  /** A DATE finding reports the stripped value, which the date check rejects. */
  lemma DateFindingRejected(kind: RecordKind, id: string, ev: Event, cfg: Config, parses: Strptime)
    requires DateFindings(kind, id, ev, cfg, parses) != []
    ensures var f := DateFindings(kind, id, ev, cfg, parses)[0];
      && f.problematicValue != [] && Strip(f.problematicValue) == f.problematicValue
      && !ValidDate(f.problematicValue, cfg.dateFormats, parses)
  {
    StripIdempotent(ev.date.value);
  }

  /** The DATE finding of an event, if any, is at its path and reports a stripped value the date check rejects. */
  lemma DateFindingsOk(kind: RecordKind, id: string, ev: Event, cfg: Config, parses: Strptime)
    ensures EventsOk(Success(DateFindings(kind, id, ev, cfg, parses)), kind, id, cfg, parses)
  {
    var fs := DateFindings(kind, id, ev, cfg, parses);
    DateFindingsAtMostOne(kind, id, ev, cfg, parses);
    if fs != [] {
      DateFindingLocated(kind, id, ev, cfg, parses);
      DateFindingRejected(kind, id, ev, cfg, parses);
    }
    EventsOkAtMostOne(fs, kind, id, cfg, parses);
  }

  /** The PLAC check of an event yields at most one finding, none for an absent or blank value, and fails only without templates. */
  lemma PlaceFindingsAtMostOne(kind: RecordKind, id: string, ev: Event, cfg: Config)
    ensures var o := PlaceFindings(kind, id, ev, cfg);
      && (o.Failure? ==> cfg.placeStructures == [])
      && (o.Success? ==> |o.value| <= 1 && (o.value != [] ==> ev.place.Some? && Strip(ev.place.value) != []))
  {
  }

  /** A PLAC finding sits at `KIND:id/TAG/PLAC`. */
  lemma PlaceFindingLocated(kind: RecordKind, id: string, ev: Event, cfg: Config)
    requires PlaceFindings(kind, id, ev, cfg).Success? && PlaceFindings(kind, id, ev, cfg).value != []
    ensures var f := PlaceFindings(kind, id, ev, cfg).value[0];
      && EventFindingOf(f, kind, id) && EndsWith(f.tagPath, "/PLAC") && !EndsWith(f.tagPath, "/DATE")
      && f.tagPath == BasePath(kind, id) + "/" + ev.tag + "/PLAC"
      && ev.place.Some? && f.problematicValue == Strip(ev.place.value)
  {
    EventPathShape(kind, id, ev.tag, "/PLAC");
  }

  /** A PLAC finding reports the stripped value, which the place check rejects. */
  lemma PlaceFindingRejected(kind: RecordKind, id: string, ev: Event, cfg: Config)
    requires PlaceFindings(kind, id, ev, cfg).Success? && PlaceFindings(kind, id, ev, cfg).value != []
    ensures var f := PlaceFindings(kind, id, ev, cfg).value[0];
      && f.problematicValue != [] && Strip(f.problematicValue) == f.problematicValue
      && !ValidPlace(f.problematicValue, cfg.placeStructures)
  {
    StripIdempotent(ev.place.value);
  }

  /** The PLAC finding of an event, if any, is at its path and reports a stripped value the place check rejects. */
  lemma PlaceFindingsOk(kind: RecordKind, id: string, ev: Event, cfg: Config, parses: Strptime)
    ensures EventsOk(PlaceFindings(kind, id, ev, cfg), kind, id, cfg, parses)
  {
    var o := PlaceFindings(kind, id, ev, cfg);
    PlaceFindingsAtMostOne(kind, id, ev, cfg);
    if o.Success? {
      if o.value != [] {
        PlaceFindingLocated(kind, id, ev, cfg);
        PlaceFindingRejected(kind, id, ev, cfg);
      }
      EventsOkAtMostOne(o.value, kind, id, cfg, parses);
    }
  }

  /**
   * The findings of one event: each at its path, each reporting a stripped
   * value that its validator rejects; an `IndexError` only without templates.
   */
  lemma EventFindingsOk(kind: RecordKind, id: string, ev: Event, cfg: Config, parses: Strptime)
    ensures EventsOk(EventFindings(kind, id, ev, cfg, parses), kind, id, cfg, parses)
  {
    DateFindingsOk(kind, id, ev, cfg, parses);
    PlaceFindingsOk(kind, id, ev, cfg, parses);
    ThenKeepsEventsOk(Success(DateFindings(kind, id, ev, cfg, parses)), PlaceFindings(kind, id, ev, cfg),
      kind, id, cfg, parses);
  }

  lemma {:induction false} EventsFindingsOk(kind: RecordKind, id: string, evs: seq<Event>, cfg: Config, parses: Strptime)
    ensures EventsOk(EventsFindings(kind, id, evs, cfg, parses), kind, id, cfg, parses)
    decreases |evs|
  {
    if evs != [] {
      EventsFindingsOk(kind, id, evs[..|evs| - 1], cfg, parses);
      EventFindingsOk(kind, id, evs[|evs| - 1], cfg, parses);
      ThenKeepsEventsOk(EventsFindings(kind, id, evs[..|evs| - 1], cfg, parses),
        EventFindings(kind, id, evs[|evs| - 1], cfg, parses), kind, id, cfg, parses);
    }
  }

  lemma {:induction false} TagsFindingsOk(kind: RecordKind, id: string, events: map<string, seq<Event>>,
                                          tags: seq<string>, cfg: Config, parses: Strptime)
    ensures EventsOk(TagsFindings(kind, id, events, tags, cfg, parses), kind, id, cfg, parses)
    decreases |tags|
  {
    if tags != [] {
      TagsFindingsOk(kind, id, events, tags[..|tags| - 1], cfg, parses);
      EventsFindingsOk(kind, id, Children(events, tags[|tags| - 1]), cfg, parses);
      ThenKeepsEventsOk(TagsFindings(kind, id, events, tags[..|tags| - 1], cfg, parses),
        EventsFindings(kind, id, Children(events, tags[|tags| - 1]), cfg, parses), kind, id, cfg, parses);
    }
  }

  /** The name check of an individual yields at most one finding, at `INDI:id/NAME`. */
  lemma NameFindingsShape(indi: Indi, id: string, cfg: Config)
    ensures var fs := NameFindings(indi, id, cfg);
      |fs| <= 1 && forall f :: f in fs ==> NameFindingOf(f, id)
  {
  }

  /**
   * One individual: at most one name finding, and it comes first; every
   * other finding is about one of its events; every finding carries its id
   * (or the placeholder).
   */
  lemma IndiFindingsShape(indi: Indi, cfg: Config, parses: Strptime)
    ensures var id := RecordId(Individual, indi.xref);
      var o := IndiFindings(indi, cfg, parses);
      && (o.Failure? ==> cfg.placeStructures == [])
      && (o.Success? ==>
            && (forall k :: 0 < k < |o.value| ==> EventFindingOf(o.value[k], Individual, id))
            && (forall f :: f in o.value ==>
                  (NameFindingOf(f, id) || (EventFindingOf(f, Individual, id) && Rejected(f, cfg, parses)))))
  {
    var id := RecordId(Individual, indi.xref);
    var names := NameFindings(indi, id, cfg);
    var events := TagsFindings(Individual, id, indi.events, Individual.EventTags(), cfg, parses);
    NameFindingsShape(indi, id, cfg);
    TagsFindingsOk(Individual, id, indi.events, Individual.EventTags(), cfg, parses);
    assert IndiFindings(indi, cfg, parses) == Then(Success(names), events);
    if events.Success? {
      var all := names + events.value;
      forall k | 0 < k < |all| ensures EventFindingOf(all[k], Individual, id) {
        assert all[k] == events.value[k - |names|];
      }
      forall f | f in all
        ensures NameFindingOf(f, id) || (EventFindingOf(f, Individual, id) && Rejected(f, cfg, parses))
      {
        assert f in names || f in events.value;
      }
    }
  }

  /** Every finding of an individual carries its id, or "UNKNOWN_INDI" when it has none. */
  lemma IndiIdInFindings(indi: Indi, cfg: Config, parses: Strptime)
    ensures var o := IndiFindings(indi, cfg, parses);
      o.Success? ==> forall f :: f in o.value ==>
        f.xrefId == (if Truthy(indi.xref) then indi.xref.value else "UNKNOWN_INDI")
  {
    IndiFindingsShape(indi, cfg, parses);
  }

  /** Every finding of a family carries its id, or "UNKNOWN_FAM" when it has none. */
  lemma FamIdInFindings(fam: Fam, cfg: Config, parses: Strptime)
    ensures var o := FamFindings(fam, cfg, parses);
      o.Success? ==> forall f :: f in o.value ==>
        f.xrefId == (if Truthy(fam.xref) then fam.xref.value else "UNKNOWN_FAM")
  {
    TagsFindingsOk(Family, RecordId(Family, fam.xref), fam.events, Family.EventTags(), cfg, parses);
  }

  /** A finding of some run: about a record of this kind, and either a name finding or a rejected event value. */
  predicate FromKind(f: Finding, kind: RecordKind, cfg: Config, parses: Strptime) {
    (kind.Individual? && NameFindingOf(f, f.xrefId))
    || (EventFindingOf(f, kind, f.xrefId) && Rejected(f, cfg, parses))
  }

  predicate AllFromKind(o: Outcome, kind: RecordKind, cfg: Config, parses: Strptime) {
    && (o.Failure? ==> cfg.placeStructures == [])
    && (o.Success? ==> forall f :: f in o.value ==> FromKind(f, kind, cfg, parses))
  }

  lemma {:induction false} IndisFindingsFromKind(indis: seq<Indi>, cfg: Config, parses: Strptime)
    ensures AllFromKind(IndisFindings(indis, cfg, parses), Individual, cfg, parses)
    decreases |indis|
  {
    if indis != [] {
      IndisFindingsFromKind(indis[..|indis| - 1], cfg, parses);
      IndiFindingsShape(indis[|indis| - 1], cfg, parses);
    }
  }

  lemma {:induction false} FamsFindingsFromKind(fams: seq<Fam>, cfg: Config, parses: Strptime)
    ensures AllFromKind(FamsFindings(fams, cfg, parses), Family, cfg, parses)
    decreases |fams|
  {
    if fams != [] {
      FamsFindingsFromKind(fams[..|fams| - 1], cfg, parses);
      var fam := fams[|fams| - 1];
      TagsFindingsOk(Family, RecordId(Family, fam.xref), fam.events, Family.EventTags(), cfg, parses);
    }
  }

  /** No finding is about both an individual and a family: their record types differ. */
  lemma KindsExclusive(f: Finding, cfg: Config, parses: Strptime)
    ensures !(FromKind(f, Individual, cfg, parses) && FromKind(f, Family, cfg, parses))
  {
    assert "Individual" != "Event (Family)";
    assert "Event (Individual)" != "Event (Family)";
  }

  /** Findings of the individuals followed by findings of the families: no family finding comes first. */
  lemma ConcatOrdered(a: seq<Finding>, b: seq<Finding>, cfg: Config, parses: Strptime)
    requires forall f :: f in a ==> FromKind(f, Individual, cfg, parses)
    requires forall f :: f in b ==> FromKind(f, Family, cfg, parses)
    ensures forall f :: f in a + b ==> FromKind(f, Individual, cfg, parses) || FromKind(f, Family, cfg, parses)
    ensures forall i, j :: 0 <= i < j < |a + b| && FromKind((a + b)[j], Individual, cfg, parses)
              ==> FromKind((a + b)[i], Individual, cfg, parses)
  {
    var all := a + b;
    forall i, j | 0 <= i < j < |all| && FromKind(all[j], Individual, cfg, parses)
      ensures FromKind(all[i], Individual, cfg, parses)
    {
      if j >= |a| {
        assert all[j] == b[j - |a|];
        KindsExclusive(all[j], cfg, parses);
      } else {
        assert all[i] == a[i];
      }
    }
  }

  /**
   * The whole run: an `IndexError` only without place templates; otherwise
   * every finding points into a record of its kind and is either a name
   * finding or reports a value its validator rejects, and no family finding
   * comes before an individual finding.
   */
  lemma RunSoundAndOrdered(tree: Tree, cfg: Config, parses: Strptime)
    ensures var o := FormatFindings(tree, cfg, parses);
      && (o.Failure? ==> cfg.placeStructures == [])
      && (o.Success? ==>
            && (forall f :: f in o.value ==> FromKind(f, Individual, cfg, parses) || FromKind(f, Family, cfg, parses))
            && (forall i, j :: 0 <= i < j < |o.value| && FromKind(o.value[j], Individual, cfg, parses)
                  ==> FromKind(o.value[i], Individual, cfg, parses)))
  {
    var indis := IndisFindings(tree.indis, cfg, parses);
    var fams := FamsFindings(tree.fams, cfg, parses);
    IndisFindingsFromKind(tree.indis, cfg, parses);
    FamsFindingsFromKind(tree.fams, cfg, parses);
    if indis.Success? && fams.Success? {
      ConcatOrdered(indis.value, fams.value, cfg, parses);
    }
  }

  // ----- when the run ends in IndexError -----

  /** An error at one occurrence ends the loop over the occurrences in error. */
  lemma EventsCrashAt(kind: RecordKind, id: string, evs: seq<Event>, k: nat, cfg: Config, parses: Strptime)
    requires k < |evs| && EventFindings(kind, id, evs[k], cfg, parses).Failure?
    ensures EventsFindings(kind, id, evs, cfg, parses).Failure?
  {
    var pre := evs[..k + 1];
    assert pre[..|pre| - 1] == evs[..k] && pre[|pre| - 1] == evs[k];
    assert EventsFindings(kind, id, pre, cfg, parses)
      == Then(EventsFindings(kind, id, evs[..k], cfg, parses), EventFindings(kind, id, evs[k], cfg, parses));
    EventsFailurePersists(kind, id, evs, k + 1, cfg, parses);
  }

  /** An error under one tag ends the loop over the tags in error. */
  lemma TagsCrashAt(kind: RecordKind, id: string, events: map<string, seq<Event>>, tags: seq<string>, j: nat,
                    cfg: Config, parses: Strptime)
    requires j < |tags| && EventsFindings(kind, id, Children(events, tags[j]), cfg, parses).Failure?
    ensures TagsFindings(kind, id, events, tags, cfg, parses).Failure?
  {
    var before := TagsFindings(kind, id, events, tags[..j], cfg, parses);
    if before.Failure? {
      TagsFailurePersists(kind, id, events, tags, j, cfg, parses);
    } else {
      TagsStep(kind, id, events, tags, j, before.value, cfg, parses);
      TagsFailurePersists(kind, id, events, tags, j + 1, cfg, parses);
    }
  }

  /** An error in one individual ends the loop over the individuals in error. */
  lemma IndisCrashAt(indis: seq<Indi>, i: nat, cfg: Config, parses: Strptime)
    requires i < |indis| && IndiFindings(indis[i], cfg, parses).Failure?
    ensures IndisFindings(indis, cfg, parses).Failure?
  {
    var pre := indis[..i + 1];
    assert pre[..|pre| - 1] == indis[..i] && pre[|pre| - 1] == indis[i];
    assert IndisFindings(pre, cfg, parses) == Then(IndisFindings(indis[..i], cfg, parses), IndiFindings(indis[i], cfg, parses));
    IndisFailurePersists(indis, i + 1, cfg, parses);
  }

  /** An error in one family ends the loop over the families in error. */
  lemma FamsCrashAt(fams: seq<Fam>, i: nat, cfg: Config, parses: Strptime)
    requires i < |fams| && FamFindings(fams[i], cfg, parses).Failure?
    ensures FamsFindings(fams, cfg, parses).Failure?
  {
    var pre := fams[..i + 1];
    assert pre[..|pre| - 1] == fams[..i] && pre[|pre| - 1] == fams[i];
    assert FamsFindings(pre, cfg, parses) == Then(FamsFindings(fams[..i], cfg, parses), FamFindings(fams[i], cfg, parses));
    FamsFailurePersists(fams, i + 1, cfg, parses);
  }

  /** A checked event of a record whose place is non-blank makes its event checks fail without templates. */
  lemma RecordEventsCrash(kind: RecordKind, id: string, events: map<string, seq<Event>>, t: string, k: nat,
                          cfg: Config, parses: Strptime)
    requires cfg.placeStructures == []
    requires t in kind.EventTags() && k < |Children(events, t)|
    requires Truthy(Children(events, t)[k].place) && Strip(Children(events, t)[k].place.value) != []
    ensures TagsFindings(kind, id, events, kind.EventTags(), cfg, parses).Failure?
  {
    var evs := Children(events, t);
    NoTemplatesRejectAll(Strip(evs[k].place.value));
    assert PlaceFindings(kind, id, evs[k], cfg).Failure?;
    EventsCrashAt(kind, id, evs, k, cfg, parses);
    var tags := kind.EventTags();
    var j :| 0 <= j < |tags| && tags[j] == t;
    TagsCrashAt(kind, id, events, tags, j, cfg, parses);
  }

  /**
   * Without place templates, one individual event with a non-blank place
   * is enough for the run to end in `IndexError`.
   */
  lemma IndividualPlaceCrashes(tree: Tree, cfg: Config, parses: Strptime, i: nat, t: string, k: nat)
    requires cfg.placeStructures == []
    requires i < |tree.indis| && t in Individual.EventTags() && k < |Children(tree.indis[i].events, t)|
    requires Truthy(Children(tree.indis[i].events, t)[k].place)
    requires Strip(Children(tree.indis[i].events, t)[k].place.value) != []
    ensures FormatFindings(tree, cfg, parses).Failure?
  {
    var indi := tree.indis[i];
    RecordEventsCrash(Individual, RecordId(Individual, indi.xref), indi.events, t, k, cfg, parses);
    IndisCrashAt(tree.indis, i, cfg, parses);
  }

  /**
   * Without place templates, one family event with a non-blank place is
   * enough for the run to end in `IndexError`.
   */
  lemma FamilyPlaceCrashes(tree: Tree, cfg: Config, parses: Strptime, i: nat, t: string, k: nat)
    requires cfg.placeStructures == []
    requires i < |tree.fams| && t in Family.EventTags() && k < |Children(tree.fams[i].events, t)|
    requires Truthy(Children(tree.fams[i].events, t)[k].place)
    requires Strip(Children(tree.fams[i].events, t)[k].place.value) != []
    ensures FormatFindings(tree, cfg, parses).Failure?
  {
    var fam := tree.fams[i];
    RecordEventsCrash(Family, RecordId(Family, fam.xref), fam.events, t, k, cfg, parses);
    FamsCrashAt(tree.fams, i, cfg, parses);
  }

  // ----- one event -----

  /** Within one event, at most two findings, and a DATE finding comes before a PLAC finding. */
  lemma EventFieldOrder(kind: RecordKind, id: string, ev: Event, cfg: Config, parses: Strptime)
    requires EventFindings(kind, id, ev, cfg, parses).Success?
    ensures var fs := EventFindings(kind, id, ev, cfg, parses).value;
      |fs| <= 2 && (|fs| == 2 ==> EndsWith(fs[0].tagPath, "/DATE") && EndsWith(fs[1].tagPath, "/PLAC"))
  {
    var date := DateFindings(kind, id, ev, cfg, parses);
    var place := PlaceFindings(kind, id, ev, cfg).value;
    DateFindingsAtMostOne(kind, id, ev, cfg, parses);
    PlaceFindingsAtMostOne(kind, id, ev, cfg);
    if date != [] {
      DateFindingLocated(kind, id, ev, cfg, parses);
    }
    if place != [] {
      PlaceFindingLocated(kind, id, ev, cfg);
    }
    FieldsInOrder(date, place);
  }

  /** A DATE finding followed by a PLAC finding, each at most one, stay in that order. */
  lemma FieldsInOrder(date: seq<Finding>, place: seq<Finding>)
    requires |date| <= 1 && (date != [] ==> EndsWith(date[0].tagPath, "/DATE"))
    requires |place| <= 1 && (place != [] ==> EndsWith(place[0].tagPath, "/PLAC"))
    ensures var fs := date + place;
      |fs| <= 2 && (|fs| == 2 ==> EndsWith(fs[0].tagPath, "/DATE") && EndsWith(fs[1].tagPath, "/PLAC"))
  {
    if |date + place| == 2 {
      assert (date + place)[0] == date[0] && (date + place)[1] == place[0];
    }
  }

  /** An event whose DATE and PLAC values are absent or blank yields no finding. */
  lemma BlankEventNoFindings(kind: RecordKind, id: string, ev: Event, cfg: Config, parses: Strptime)
    requires ev.date.None? || Strip(ev.date.value) == []
    requires ev.place.None? || Strip(ev.place.value) == []
    ensures EventFindings(kind, id, ev, cfg, parses) == Success([])
  {
    DateFindingsAtMostOne(kind, id, ev, cfg, parses);
    PlaceFindingsAtMostOne(kind, id, ev, cfg);
    var none: seq<Finding> := [];
    assert none + none == none;
  }

  // ----- event tags and their order -----

  /** A finding about the DATE or PLAC field of an event with tag `tag` of the `kind` record `id`. */
  predicate FieldAt(f: Finding, kind: RecordKind, id: string, tag: string) {
    f.tagPath == BasePath(kind, id) + "/" + tag + "/DATE" || f.tagPath == BasePath(kind, id) + "/" + tag + "/PLAC"
  }

  /** A path names one tag only. */
  lemma FieldAtUnique(f: Finding, kind: RecordKind, id: string, t1: string, t2: string)
    requires FieldAt(f, kind, id, t1) && FieldAt(f, kind, id, t2)
    ensures t1 == t2
  {
    var b := BasePath(kind, id) + "/";
    var p := f.tagPath;
    assert |t1| == |t2|;
    assert p[|b|..|b| + |t1|] == t1;
    assert p[|b|..|b| + |t2|] == t2;
  }

  /** Every finding of the outcome is at tag `tag`. */
  predicate AllAt(o: Outcome, kind: RecordKind, id: string, tag: string) {
    o.Success? ==> forall f :: f in o.value ==> FieldAt(f, kind, id, tag)
  }

  lemma ThenKeepsAllAt(a: Outcome, b: Outcome, kind: RecordKind, id: string, tag: string)
    requires AllAt(a, kind, id, tag) && AllAt(b, kind, id, tag)
    ensures AllAt(Then(a, b), kind, id, tag)
  {
  }

  /** A DATE finding and a PLAC finding, each at most one and each at `tag`, are all at `tag`. */
  lemma PairAt(date: seq<Finding>, place: Outcome, kind: RecordKind, id: string, tag: string)
    requires |date| <= 1 && (date != [] ==> FieldAt(date[0], kind, id, tag))
    requires place.Success? ==> |place.value| <= 1 && (place.value != [] ==> FieldAt(place.value[0], kind, id, tag))
    ensures AllAt(Then(Success(date), place), kind, id, tag)
  {
    if place.Success? {
      forall f | f in date + place.value ensures FieldAt(f, kind, id, tag) {
        assert f in date || f in place.value;
      }
    }
  }

  /** The findings of one event are at that event's own tag, with the reported values as the event holds them. */
  lemma EventFindingsAt(kind: RecordKind, id: string, ev: Event, cfg: Config, parses: Strptime)
    ensures AllAt(EventFindings(kind, id, ev, cfg, parses), kind, id, ev.tag)
  {
    var date := DateFindings(kind, id, ev, cfg, parses);
    var place := PlaceFindings(kind, id, ev, cfg);
    DateFindingsAtMostOne(kind, id, ev, cfg, parses);
    PlaceFindingsAtMostOne(kind, id, ev, cfg);
    if date != [] {
      DateFindingLocated(kind, id, ev, cfg, parses);
    }
    if place.Success? && place.value != [] {
      PlaceFindingLocated(kind, id, ev, cfg);
    }
    PairAt(date, place, kind, id, ev.tag);
  }

  /** The occurrences listed under one tag, all carrying that tag, give findings at that tag only. */
  lemma {:induction false} EventsFindingsAt(kind: RecordKind, id: string, evs: seq<Event>, tag: string,
                                            cfg: Config, parses: Strptime)
    requires forall k :: 0 <= k < |evs| ==> evs[k].tag == tag
    ensures AllAt(EventsFindings(kind, id, evs, cfg, parses), kind, id, tag)
    decreases |evs|
  {
    if evs != [] {
      var init := evs[..|evs| - 1];
      assert forall k :: 0 <= k < |init| ==> init[k].tag == tag by {
        forall k | 0 <= k < |init| ensures init[k].tag == tag {
          assert init[k] == evs[k];
        }
      }
      EventsFindingsAt(kind, id, init, tag, cfg, parses);
      EventFindingsAt(kind, id, evs[|evs| - 1], cfg, parses);
      ThenKeepsAllAt(EventsFindings(kind, id, init, cfg, parses), EventFindings(kind, id, evs[|evs| - 1], cfg, parses),
        kind, id, tag);
    }
  }

  /** No tag occurs twice. */
  predicate Distinct(tags: seq<string>) {
    forall a, b :: 0 <= a < b < |tags| ==> tags[a] != tags[b]
  }

  /**
   * Every finding is at one of `tags`, and no finding at a later tag comes
   * before a finding at an earlier tag.
   */
  predicate InTagOrder(o: Outcome, kind: RecordKind, id: string, tags: seq<string>) {
    o.Success? ==>
      && (forall f :: f in o.value ==> exists c :: 0 <= c < |tags| && FieldAt(f, kind, id, tags[c]))
      && (forall i, j, a, b :: 0 <= i < j < |o.value| && 0 <= a < b < |tags| ==>
            !(FieldAt(o.value[i], kind, id, tags[b]) && FieldAt(o.value[j], kind, id, tags[a])))
  }

  /** Findings in the order of all tags but the last, followed by findings at the last tag, are in the order of all tags. */
  lemma ThenKeepsTagOrder(a: Outcome, b: Outcome, kind: RecordKind, id: string, tags: seq<string>)
    requires tags != [] && Distinct(tags)
    requires InTagOrder(a, kind, id, tags[..|tags| - 1]) && AllAt(b, kind, id, tags[|tags| - 1])
    ensures InTagOrder(Then(a, b), kind, id, tags)
  {
    if a.Success? && b.Success? {
      var n := |tags| - 1;
      var init := tags[..n];
      var xs, ys := a.value, b.value;
      var all := xs + ys;
      forall f | f in all ensures exists c :: 0 <= c < |tags| && FieldAt(f, kind, id, tags[c]) {
        if f in xs {
          var c :| 0 <= c < |init| && FieldAt(f, kind, id, init[c]);
          assert init[c] == tags[c];
        } else {
          assert f in ys;
          assert FieldAt(f, kind, id, tags[n]);
        }
      }
      forall i, j, p, q | 0 <= i < j < |all| && 0 <= p < q < |tags|
        ensures !(FieldAt(all[i], kind, id, tags[q]) && FieldAt(all[j], kind, id, tags[p]))
      {
        if j < |xs| {
          assert all[i] == xs[i] && all[j] == xs[j] && xs[i] in xs;
          var c :| 0 <= c < |init| && FieldAt(xs[i], kind, id, init[c]);
          if FieldAt(all[i], kind, id, tags[q]) {
            FieldAtUnique(xs[i], kind, id, init[c], tags[q]);
            assert c == q && init[p] == tags[p] && init[q] == tags[q];
          }
        } else {
          assert all[j] == ys[j - |xs|];
          if FieldAt(all[j], kind, id, tags[p]) {
            FieldAtUnique(all[j], kind, id, tags[p], tags[n]);
          }
        }
      }
    }
  }

  /** Under a well-tagged record, the findings over distinct tags are at those tags and in their order. */
  lemma {:induction false} TagsFindingsInOrder(kind: RecordKind, id: string, events: map<string, seq<Event>>,
                                               tags: seq<string>, cfg: Config, parses: Strptime)
    requires WellTagged(events) && Distinct(tags)
    ensures InTagOrder(TagsFindings(kind, id, events, tags, cfg, parses), kind, id, tags)
    decreases |tags|
  {
    if tags != [] {
      var init := tags[..|tags| - 1];
      var t := tags[|tags| - 1];
      assert Distinct(init) by {
        forall a, b | 0 <= a < b < |init| ensures init[a] != init[b] {
          assert init[a] == tags[a] && init[b] == tags[b];
        }
      }
      TagsFindingsInOrder(kind, id, events, init, cfg, parses);
      EventsFindingsAt(kind, id, Children(events, t), t, cfg, parses);
      ThenKeepsTagOrder(TagsFindings(kind, id, events, init, cfg, parses),
        EventsFindings(kind, id, Children(events, t), cfg, parses), kind, id, tags);
    }
  }

  /** The checked tags of each kind are distinct. */
  lemma EventTagsDistinct(kind: RecordKind)
    ensures Distinct(kind.EventTags())
  {
    var tags := kind.EventTags();
    forall a, b | 0 <= a < b < |tags| ensures tags[a] != tags[b] {
      assert tags[a][0] != tags[b][0] || tags[a][1] != tags[b][1];
    }
  }

  /**
   * The event findings of a well-tagged record: each is at one of the
   * checked tags, and they follow the fixed tag order (BIRT, DEAT, CHR,
   * ADOP, BURI, EVEN for individuals; MARR, DIV, ANUL, ENGA, EVEN for
   * families).
   */
  lemma RecordEventsInTagOrder(kind: RecordKind, id: string, events: map<string, seq<Event>>,
                               cfg: Config, parses: Strptime)
    requires WellTagged(events)
    ensures InTagOrder(TagsFindings(kind, id, events, kind.EventTags(), cfg, parses), kind, id, kind.EventTags())
  {
    EventTagsDistinct(kind);
    TagsFindingsInOrder(kind, id, events, kind.EventTags(), cfg, parses);
  }

  // ----- determinism -----

  /** Two runs over the same tree and configuration give the same outcome. */
  method ValidateTwice(tree: Tree, cfg: Config, parses: Strptime) returns (first: Outcome, second: Outcome)
    ensures first == second
  {
    first := ValidateFormats(tree, cfg, parses);
    second := ValidateFormats(tree, cfg, parses);
  }
}

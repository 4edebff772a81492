/** Merging INI files (OverrideConfigParser, ansible/action_plugins/merge_configs.py), as functions on the headers and
    assignments that are read from the files.  The parser object of module IniParser computes them. */
module IniMerge {
  import opened Common
  import opened OrderedDict

  const ORPHAN_SECTION := "TEMPORARY_ORPHAN_VARIABLE_SECTION"

  /** The lines of one assignment. */
  type Value = seq<string>
  type Section = Dict<string, seq<Value>>
  type Config = Dict<string, Section>

  /** What the base class reports while it reads a file. */
  datatype Event = Header(name: string) | Assign(key: string, value: Value)

  function Normalized(value: Value): Value {
    if value == [""] then [] else value
  }

  /** The sections of the file being read, and the one to which assignments now go. */
  datatype RawReading = Reading(sections: Config, current: Option<string>)
  {
    ghost predicate Valid() {
      current.Some? ==> current.value in sections.vals
    }
  }

  type Reading = r: RawReading | r.Valid() witness Reading(RawDict([], map[]), None)

  function SectionOf<V>(c: Dict<string, Dict<string, V>>, s: string): Dict<string, V> {
    if s in c.vals then c.vals[s] else Empty()
  }

  function NewSection(r: Reading, name: string): (r': Reading)
    ensures r'.current == Some(name)
  {
    Reading(Put(r.sections, name, SectionOf(r.sections, name)), Some(name))
  }

  function Append(s: Section, key: string, value: Value): Section {
    Put(s, key, (if key in s.vals then s.vals[key] else []) + [value])
  }

  function Assignment(r: Reading, key: string, value: Value): Reading {
    var r' := if r.current.None? then NewSection(r, ORPHAN_SECTION) else r;
    var name := r'.current.value;
    Reading(Put(r'.sections, name, Append(r'.sections.vals[name], key, Normalized(value))), Some(name))
  }

  function Step(r: Reading, e: Event): Reading {
    match e
    case Header(name) => NewSection(r, name)
    case Assign(key, value) => Assignment(r, key, value)
  }

  /** What reading one file collects. */
  function Collect(events: seq<Event>): Reading {
    if events == [] then Reading(Empty(), None)
    else Step(Collect(events[..|events| - 1]), events[|events| - 1])
  }

  // ----- What a file defines, without reading it step by step -----

  /** The section in which an assignment after these events stands. */
  function CurrentSection(events: seq<Event>): string {
    if events == [] then ORPHAN_SECTION
    else if events[|events| - 1].Header? then events[|events| - 1].name
    else CurrentSection(events[..|events| - 1])
  }

  /** The sections in which the events stand. */
  function SectionsOf(events: seq<Event>): seq<string> {
    if events == [] then [] else SectionsOf(events[..|events| - 1]) + [CurrentSection(events)]
  }

  /** The keys assigned in section s. */
  function KeysOf(events: seq<Event>, s: string): seq<string> {
    if events == [] then []
    else
      var e := events[|events| - 1];
      KeysOf(events[..|events| - 1], s) + if e.Assign? && CurrentSection(events) == s then [e.key] else []
  }

  /** The values assigned to a key of section s, in order. */
  function AssignmentsOf(events: seq<Event>, s: string, k: string): seq<Value> {
    if events == [] then []
    else
      var e := events[|events| - 1];
      AssignmentsOf(events[..|events| - 1], s, k) +
      if e.Assign? && e.key == k && CurrentSection(events) == s then [Normalized(e.value)] else []
  }

  ghost predicate SectionMeans(d: Section, events: seq<Event>, s: string) {
    d.keys == FirstSeen(KeysOf(events, s)) && forall k :: KeyMeans(d, events, s, k)
  }

  ghost predicate KeyMeans(d: Section, events: seq<Event>, s: string, k: string) {
    && (if k in d.vals then d.vals[k] else []) == AssignmentsOf(events, s, k)
    && (k in d.vals <==> AssignmentsOf(events, s, k) != [])
  }

  /** Reading collects, for each section and key in the order of their first occurrence, all its assignments. */
  lemma {:induction false} CollectMeans(events: seq<Event>)
    ensures Collect(events).sections.keys == FirstSeen(SectionsOf(events))
    ensures forall s :: SectionMeans(SectionOf(Collect(events).sections, s), events, s)
    ensures Collect(events).current == if events == [] then None else Some(CurrentSection(events))
  {
    if events == [] {
      forall s
        ensures SectionMeans(SectionOf(Collect(events).sections, s), events, s)
      {
        NothingAssigned(s);
      }
    } else {
      var init, e := events[..|events| - 1], events[|events| - 1];
      var r := Collect(init);
      assert events == init + [e];
      CollectMeans(init);
      StepMeans(r, e);
      FirstSeenStep(SectionsOf(init), CurrentSection(events));
      InFirstSeen(SectionsOf(init), CurrentSection(events));
      assert CurrentSection(events) == Target(r, e);
      forall s
        ensures SectionMeans(SectionOf(Collect(events).sections, s), events, s)
      {
        SectionStep(r, init, e, s);
      }
    }
  }

  lemma NothingAssigned(s: string)
    ensures SectionMeans(Empty(), [], s)
  {
  }

  function Target(r: Reading, e: Event): string {
    if e.Header? then e.name else if r.current.None? then ORPHAN_SECTION else r.current.value
  }

  /** One event touches one section. */
  lemma StepMeans(r: Reading, e: Event)
    ensures var r' := Step(r, e);
            && r'.current == Some(Target(r, e))
            && r'.sections.keys == (if Target(r, e) in r.sections.keys then r.sections.keys else r.sections.keys + [Target(r, e)])
            && forall s :: SectionOf(r'.sections, s) ==
                 if e.Assign? && s == Target(r, e) then Append(SectionOf(r.sections, s), e.key, Normalized(e.value))
                 else SectionOf(r.sections, s)
  {
    assert Target(r, e) in r.sections.vals <==> Target(r, e) in Elements(r.sections.keys);
  }

  lemma SectionStep(r: Reading, init: seq<Event>, e: Event, s: string)
    requires SectionMeans(SectionOf(r.sections, s), init, s) && CurrentSection(init + [e]) == Target(r, e)
    ensures SectionMeans(SectionOf(Step(r, e).sections, s), init + [e], s)
  {
    StepMeans(r, e);
    if e.Assign? && Target(r, e) == s {
      AppendMeans(SectionOf(r.sections, s), init, e, s);
    } else {
      OtherSectionMeans(SectionOf(r.sections, s), init, e, s);
    }
  }

  lemma AppendMeans(d: Section, init: seq<Event>, e: Event, s: string)
    requires SectionMeans(d, init, s) && e.Assign? && CurrentSection(init + [e]) == s
    ensures SectionMeans(Append(d, e.key, Normalized(e.value)), init + [e], s)
  {
    assert (init + [e])[..|init + [e]| - 1] == init;
    PutKeys(d, e.key, (if e.key in d.vals then d.vals[e.key] else []) + [Normalized(e.value)]);
    FirstSeenStep(KeysOf(init, s), e.key);
    InFirstSeen(KeysOf(init, s), e.key);
    forall k
      ensures KeyMeans(Append(d, e.key, Normalized(e.value)), init + [e], s, k)
    {
      AppendedKeyMeans(d, init, e, s, k);
    }
  }

  lemma AppendedKeyMeans(d: Section, init: seq<Event>, e: Event, s: string, k: string)
    requires e.Assign? && KeyMeans(d, init, s, e.key) && KeyMeans(d, init, s, k) && CurrentSection(init + [e]) == s
    ensures KeyMeans(Append(d, e.key, Normalized(e.value)), init + [e], s, k)
  {
    NextAssignment(init, e, s, k);
    hide AssignmentsOf, CurrentSection;
    PutKeys(d, e.key, (if e.key in d.vals then d.vals[e.key] else []) + [Normalized(e.value)]);
    assert AssignmentsOf(init, s, k) + [] == AssignmentsOf(init, s, k);
  }

  lemma NextAssignment(init: seq<Event>, e: Event, s: string, k: string)
    ensures AssignmentsOf(init + [e], s, k) == AssignmentsOf(init, s, k) +
            if e.Assign? && e.key == k && CurrentSection(init + [e]) == s then [Normalized(e.value)] else []
  {
    assert (init + [e])[..|init + [e]| - 1] == init;
  }

  lemma OtherSectionMeans(d: Section, init: seq<Event>, e: Event, s: string)
    requires SectionMeans(d, init, s) && !(e.Assign? && CurrentSection(init + [e]) == s)
    ensures SectionMeans(d, init + [e], s)
  {
    var events := init + [e];
    assert events[..|events| - 1] == init;
    assert KeysOf(events, s) == KeysOf(init, s);
    forall k
      ensures KeyMeans(d, events, s, k)
    {
      assert KeyMeans(d, init, s, k);
      assert AssignmentsOf(events, s, k) == AssignmentsOf(init, s, k);
    }
  }

  // ----- Merging several files -----

  /** Lays configuration b over a: in each section, b's keys replace a's. */
  function OverlayConfig<V>(a: Dict<string, Dict<string, V>>, b: Dict<string, Dict<string, V>>): Dict<string,
                            Dict<string, V>> {
    OverlaidKeys(a, b);
    RawDict(a.keys + Without(b.keys, a.vals.Keys),
            map s | s in a.vals.Keys + b.vals.Keys :: Overlay(SectionOf(a, s), SectionOf(b, s)))
  }

  lemma SectionOfOverlay<V>(a: Dict<string, Dict<string, V>>, b: Dict<string, Dict<string, V>>, s: string)
    ensures SectionOf(OverlayConfig(a, b), s) == Overlay(SectionOf(a, s), SectionOf(b, s))
  {
    OverlayIsIdempotent(SectionOf(a, s));
  }

  /** Configurations with the same keys in the same order and the same sections are the same. */
  lemma SameConfig<V>(a: Dict<string, Dict<string, V>>, b: Dict<string, Dict<string, V>>)
    requires a.keys == b.keys && forall s :: SectionOf(a, s) == SectionOf(b, s)
    ensures a == b
  {
    assert a.vals.Keys == Elements(a.keys) == b.vals.Keys;
    forall s | s in a.vals
      ensures a.vals[s] == b.vals[s]
    {
      assert SectionOf(a, s) == SectionOf(b, s);
    }
    assert a.vals == b.vals;
  }

  /** Adding a section to b adds it, laid over a's, to the overlay. */
  lemma OverlayConfigStep<V>(a: Dict<string, Dict<string, V>>, b: Dict<string, Dict<string, V>>, name: string,
                             d: Dict<string, V>)
    requires name !in b.vals
    ensures OverlayConfig(a, Put(b, name, d)) == Put(OverlayConfig(a, b), name, Overlay(SectionOf(a, name), d))
  {
    var left, right := OverlayConfig(a, Put(b, name, d)), Put(OverlayConfig(a, b), name, Overlay(SectionOf(a, name), d));
    forall s
      ensures SectionOf(left, s) == SectionOf(right, s)
    {
      OverlayConfigSection(a, b, name, d, s);
    }
    OverlayConfigOrder(a, b, name, d);
    SameConfig(left, right);
  }

  lemma OverlayConfigSection<V>(a: Dict<string, Dict<string, V>>, b: Dict<string, Dict<string, V>>, name: string,
                                d: Dict<string, V>, s: string)
    requires name !in b.vals
    ensures SectionOf(OverlayConfig(a, Put(b, name, d)), s) ==
            SectionOf(Put(OverlayConfig(a, b), name, Overlay(SectionOf(a, name), d)), s)
  {
    SectionOfOverlay(a, Put(b, name, d), s);
    SectionOfOverlay(a, b, s);
  }

  lemma OverlayConfigOrder<V>(a: Dict<string, Dict<string, V>>, b: Dict<string, Dict<string, V>>, name: string,
                              d: Dict<string, V>)
    requires name !in b.vals
    ensures OverlayConfig(a, Put(b, name, d)).keys ==
            Put(OverlayConfig(a, b), name, Overlay(SectionOf(a, name), d)).keys
  {
    var ab := OverlayConfig(a, b);
    PutKeys(b, name, d);
    PutKeys(ab, name, Overlay(SectionOf(a, name), d));
    OrderStep(a.keys, b.keys, a.vals.Keys, name);
  }

  lemma OverlayConfigIsAssociative(a: Config, b: Config, c: Config)
    ensures OverlayConfig(OverlayConfig(a, b), c) == OverlayConfig(a, OverlayConfig(b, c))
  {
    var left, right := OverlayConfig(OverlayConfig(a, b), c), OverlayConfig(a, OverlayConfig(b, c));
    forall s
      ensures SectionOf(left, s) == SectionOf(right, s)
    {
      SectionsAssociate(a, b, c, s);
    }
    OrderAssociates(a, b, c);
    SameConfig(left, right);
  }

  lemma SectionsAssociate(a: Config, b: Config, c: Config, s: string)
    ensures SectionOf(OverlayConfig(OverlayConfig(a, b), c), s) == SectionOf(OverlayConfig(a, OverlayConfig(b, c)), s)
  {
    SectionOfOverlay(OverlayConfig(a, b), c, s);
    SectionOfOverlay(a, b, s);
    SectionOfOverlay(a, OverlayConfig(b, c), s);
    SectionOfOverlay(b, c, s);
    OverlayIsAssociative(SectionOf(a, s), SectionOf(b, s), SectionOf(c, s));
  }

  lemma OrderAssociates(a: Config, b: Config, c: Config)
    ensures OverlayConfig(OverlayConfig(a, b), c).keys == OverlayConfig(a, OverlayConfig(b, c)).keys
  {
    var ab := OverlayConfig(a, b);
    assert ab.vals.Keys == a.vals.Keys + b.vals.Keys;
    OrderIsAssociative(a.keys, b.keys, c.keys, a.vals.Keys, b.vals.Keys);
  }

  /** Laying a configuration over itself changes nothing. */
  lemma OverlayConfigIsIdempotent(a: Config)
    ensures OverlayConfig(a, a) == a
  {
    forall k | k in a.keys
      ensures k in a.vals.Keys
    {
      assert k in Elements(a.keys);
    }
    WithoutAll(a.keys, a.vals.Keys);
    forall s
      ensures SectionOf(OverlayConfig(a, a), s) == SectionOf(a, s)
    {
      SectionOfOverlay(a, a, s);
      OverlayIsIdempotent(SectionOf(a, s));
    }
    SameConfig(OverlayConfig(a, a), a);
  }

  /** Laying nothing over a configuration changes nothing. */
  lemma OverlayOfNothing<V>(a: Dict<string, Dict<string, V>>, none: Dict<string, Dict<string, V>>)
    requires none == Empty()
    ensures OverlayConfig(a, none) == a
  {
    assert a.keys + [] == a.keys;
    forall s
      ensures SectionOf(OverlayConfig(a, none), s) == SectionOf(a, s)
    {
      SectionOfOverlay(a, none, s);
      OverlayIsIdempotent(SectionOf(a, s));
    }
    SameConfig(OverlayConfig(a, none), a);
  }

  /** Laying a configuration over nothing gives that configuration. */
  lemma OverlayOnNothing(a: Config, none: Config)
    requires none == Empty()
    ensures OverlayConfig(none, a) == a
  {
    WithoutNothing(a.keys);
    assert none.vals.Keys == {} && none.keys + a.keys == a.keys;
    forall s
      ensures SectionOf(OverlayConfig(none, a), s) == SectionOf(a, s)
    {
      SectionOfOverlay(none, a, s);
      OverlayIsIdempotent(SectionOf(a, s));
    }
    SameConfig(OverlayConfig(none, a), a);
  }

  /** What a parser holds after parsing the sources in order. */
  function MergeSources(sources: seq<seq<Event>>): Config {
    if sources == [] then Empty()
    else OverlayConfig(MergeSources(sources[..|sources| - 1]), Collect(sources[|sources| - 1]).sections)
  }

  function AllSections(sources: seq<seq<Event>>): seq<string> {
    if sources == [] then []
    else AllSections(sources[..|sources| - 1]) + SectionsOf(sources[|sources| - 1])
  }

  function AllKeys(sources: seq<seq<Event>>, s: string): seq<string> {
    if sources == [] then []
    else AllKeys(sources[..|sources| - 1], s) + KeysOf(sources[|sources| - 1], s)
  }

  /** The assignments to a key of section s in the last source that has any. */
  function LastAssignments(sources: seq<seq<Event>>, s: string, k: string): seq<Value> {
    if sources == [] then []
    else
      var last := AssignmentsOf(sources[|sources| - 1], s, k);
      if last != [] then last else LastAssignments(sources[..|sources| - 1], s, k)
  }

  ghost predicate MergedSectionMeans(d: Section, sources: seq<seq<Event>>, s: string) {
    d.keys == FirstSeen(AllKeys(sources, s)) && forall k :: MergedKeyMeans(d, sources, s, k)
  }

  ghost predicate MergedKeyMeans(d: Section, sources: seq<seq<Event>>, s: string, k: string) {
    && (if k in d.vals then d.vals[k] else []) == LastAssignments(sources, s, k)
    && (k in d.vals <==> LastAssignments(sources, s, k) != [])
  }

  /** The merge holds, for each section and key in the order of their first occurrence over all sources, all the
      assignments of the last source that has any, in order. */
  lemma {:induction false} LastSourceWins(sources: seq<seq<Event>>)
    ensures MergeSources(sources).keys == FirstSeen(AllSections(sources))
    ensures forall s :: MergedSectionMeans(SectionOf(MergeSources(sources), s), sources, s)
  {
    if sources == [] {
      forall s
        ensures MergedSectionMeans(SectionOf(MergeSources(sources), s), sources, s)
      {
        NothingMerged(s);
      }
    } else {
      var init, last := sources[..|sources| - 1], sources[|sources| - 1];
      LastSourceWins(init);
      CollectMeans(last);
      FirstSeenConcat(AllSections(init), SectionsOf(last));
      FirstSeenElements(AllSections(init));
      forall s
        ensures MergedSectionMeans(SectionOf(MergeSources(sources), s), sources, s)
      {
        SectionOfOverlay(MergeSources(init), Collect(last).sections, s);
        OverlaidSectionMeans(SectionOf(MergeSources(init), s), SectionOf(Collect(last).sections, s), sources, s);
      }
    }
  }

  lemma NothingMerged(s: string)
    ensures MergedSectionMeans(Empty(), [], s)
  {
  }

  lemma OverlaidSectionMeans(a: Section, b: Section, sources: seq<seq<Event>>, s: string)
    requires sources != [] && MergedSectionMeans(a, sources[..|sources| - 1], s)
    requires SectionMeans(b, sources[|sources| - 1], s)
    ensures MergedSectionMeans(Overlay(a, b), sources, s)
  {
    var init, last := sources[..|sources| - 1], sources[|sources| - 1];
    FirstSeenConcat(AllKeys(init, s), KeysOf(last, s));
    FirstSeenElements(AllKeys(init, s));
    forall k
      ensures MergedKeyMeans(Overlay(a, b), sources, s, k)
    {
      assert MergedKeyMeans(a, init, s, k);
      assert KeyMeans(b, last, s, k);
    }
  }
}

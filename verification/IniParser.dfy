/** The parser object that merges INI files (OverrideConfigParser, ansible/action_plugins/merge_configs.py).  Each key's
    values are a Python list, an object that the dictionaries refer to. */
module IniParser {
  import opened Common
  import opened OrderedDict
  import opened IniMerge
  import opened IniText

  /** A Python list of the values assigned to a key. */
  class ValueList {
    var values: seq<Value>

    constructor (values: seq<Value>)
      ensures this.values == values
    {
      this.values := values;
    }
  }

  type ListSection = Dict<string, ValueList>
  type ListConfig = Dict<string, ListSection>

  ghost function SectionLists(d: ListSection): set<ValueList> {
    set k | k in d.vals :: d.vals[k]
  }

  ghost function AllLists(c: ListConfig): set<ValueList> {
    set s, k | s in c.vals && k in c.vals[s].vals :: c.vals[s].vals[k]
  }

  ghost function ViewSection(d: ListSection): Section
    reads SectionLists(d)
  {
    var values := map k | k in d.vals :: d.vals[k].values;
    assert values.Keys == d.vals.Keys;
    RawDict(d.keys, values)
  }

  /** The configuration that the dictionaries and lists stand for. */
  ghost function View(c: ListConfig): Config
    reads AllLists(c)
  {
    var sections := map s | s in c.vals :: ViewSection(c.vals[s]);
    assert sections.Keys == c.vals.Keys;
    RawDict(c.keys, sections)
  }

  /** No list is stored under two keys. */
  ghost predicate Unshared(c: ListConfig) {
    forall s, k, s', k' :: s in c.vals && k in c.vals[s].vals && s' in c.vals && k' in c.vals[s'].vals ==>
      c.vals[s].vals[k] == c.vals[s'].vals[k'] ==> s == s' && k == k'
  }

  /** The lists of c are new or were already those of before. */
  twostate predicate OnlyFresh(new c: ListConfig, before: ListConfig) {
    forall l :: l in AllLists(c) ==> l in AllLists(before) || fresh(l)
  }

  lemma SectionListsIn(c: ListConfig, s: string)
    ensures SectionLists(SectionOf(c, s)) <= AllLists(c)
  {
  }

  lemma ViewOfSection(c: ListConfig, s: string)
    ensures SectionLists(SectionOf(c, s)) <= AllLists(c)
    ensures SectionOf(View(c), s) == ViewSection(SectionOf(c, s))
  {
    SectionListsIn(c, s);
    var none: ListSection := Empty();
    assert ViewSection(none).vals == map[];
  }

  /** Looking at an overlay is overlaying what is seen. */
  lemma ViewOfOverlay(a: ListConfig, b: ListConfig)
    ensures AllLists(OverlayConfig(a, b)) <= AllLists(a) + AllLists(b)
    ensures View(OverlayConfig(a, b)) == OverlayConfig(View(a), View(b))
  {
    forall s
      ensures SectionOf(View(OverlayConfig(a, b)), s) == SectionOf(OverlayConfig(View(a), View(b)), s)
    {
      ViewOfSection(OverlayConfig(a, b), s);
      ViewOfSection(a, s);
      ViewOfSection(b, s);
      SectionOfOverlay(a, b, s);
      SectionOfOverlay(View(a), View(b), s);
      ViewOfSectionOverlay(SectionOf(a, s), SectionOf(b, s));
    }
    SameConfig(View(OverlayConfig(a, b)), OverlayConfig(View(a), View(b)));
  }

  lemma ViewOfSectionOverlay(a: ListSection, b: ListSection)
    ensures ViewSection(Overlay(a, b)) == Overlay(ViewSection(a), ViewSection(b))
  {
    assert ViewSection(Overlay(a, b)).vals == ViewSection(a).vals + ViewSection(b).vals;
    assert ViewSection(a).vals.Keys == a.vals.Keys;
  }

  lemma ListsOfPut(c: ListConfig, name: string, d: ListSection)
    ensures AllLists(Put(c, name, d)) <= AllLists(c) + SectionLists(d)
  {
  }

  lemma ViewOfPut(c: ListConfig, name: string, d: ListSection)
    ensures AllLists(Put(c, name, d)) <= AllLists(c) + SectionLists(d)
    ensures View(Put(c, name, d)) == Put(View(c), name, ViewSection(d))
  {
    hide ViewSection, View, AllLists;
    var c' := Put(c, name, d);
    SectionsOfView(c);
    SectionsOfView(c');
    PutKeys(c, name, d);
    assert View(c').vals == View(c).vals[name := ViewSection(d)];
    ListsOfPut(c, name, d);
  }

  lemma ViewOfSectionPut(d: ListSection, key: string, l: ValueList)
    ensures SectionLists(Put(d, key, l)) <= SectionLists(d) + {l}
    ensures ViewSection(Put(d, key, l)) == Put(ViewSection(d), key, l.values)
  {
    var d' := Put(d, key, l);
    assert ViewSection(d').vals == ViewSection(d).vals[key := l.values];
  }

  lemma ListIsIn(c: ListConfig, name: string, key: string)
    ensures name in c.vals && key in c.vals[name].vals ==> c.vals[name].vals[key] in AllLists(c)
  {
  }

  lemma SectionsOfView(c: ListConfig)
    ensures View(c).keys == c.keys && View(c).vals.Keys == c.vals.Keys
    ensures forall s :: s in c.vals ==> View(c).vals[s] == ViewSection(c.vals[s])
  {
  }

  lemma SectionViewed(d: ListSection)
    ensures ViewSection(d).keys == d.keys && ViewSection(d).vals.Keys == d.vals.Keys
    ensures forall k :: k in d.vals ==> ViewSection(d).vals[k] == d.vals[k].values
  {
  }

  /** The list of a key is not one of another section. */
  lemma OthersHaveOthers(c: ListConfig, name: string, key: string)
    requires Unshared(c) && name in c.vals && key in c.vals[name].vals
    ensures forall s :: s in c.vals && s != name ==> c.vals[name].vals[key] !in SectionLists(c.vals[s])
    ensures forall k :: k in c.vals[name].vals && k != key ==> c.vals[name].vals[k] != c.vals[name].vals[key]
  {
  }

  /** The configuration with one more value for a key of a section. */
  function WithValue(c: Config, name: string, key: string, value: Value): Config
    requires name in c.vals
  {
    Put(c, name, Append(c.vals[name], key, value))
  }

  /** The file object that a configuration is printed to. */
  class File {
    var text: string

    constructor ()
      ensures text == ""
    {
      text := "";
    }

    method Write(s: string)
      modifies this
      ensures text == old(text) + s
    {
      text := text + s;
    }
  }

  lemma {:induction false} UnlinesBoth(a: seq<string>, b: seq<string>)
    ensures Unlines(a + b) == Unlines(a) + Unlines(b)
    decreases a
  {
    if a == [] {
      assert a + b == b;
    } else {
      assert (a + b)[1..] == a[1..] + b;
      UnlinesBoth(a[1..], b);
    }
  }

  /** A list with one value; what there was before stays as it is. */
  method NewList(c: ListConfig, value: Value) returns (l: ValueList)
    ensures fresh(l) && l !in AllLists(c) && l.values == [value]
    ensures View(c) == old(View(c))
    ensures forall l' :: l' in AllLists(c) ==> l'.values == old(l'.values)
  {
    l := new ValueList([value]);
    assert forall l' :: l' in AllLists(c) ==> l'.values == old(l'.values);
  }

  /** Appends to the list of a key in place. */
  method ExtendIn(d: ListSection, key: string, value: Value)
    requires key in d.vals && forall k :: k in d.vals && k != key ==> d.vals[k] != d.vals[key]
    modifies d.vals[key]
    ensures ViewSection(d) == Append(old(ViewSection(d)), key, value)
  {
    var l := d.vals[key];
    l.values := l.values + [value];
    ExtendedSection(d, key, old(ViewSection(d)), value);
  }

  class OverrideConfigParser {
    var sections: ListConfig
    var curSections: ListConfig
    var curSection: Option<string>
    const whitespace: string

    constructor (whitespace: bool)
      ensures Valid() && View(sections) == Empty() && curSections == Empty()
      ensures this.whitespace == if whitespace then " " else ""
    {
      sections, curSections, curSection := Empty(), Empty(), None;
      this.whitespace := if whitespace then " " else "";
      new;
      assert View(sections).vals == map[];
    }

    ghost predicate Valid()
      reads this
    {
      && (curSection.Some? ==> curSection.value in curSections.vals)
      && Unshared(curSections)
      && IsPadding(whitespace)
    }

    /** What has been read so far of the current source. */
    ghost function Progress(): Reading
      requires Valid()
      reads this, AllLists(curSections)
    {
      Reading(View(curSections), curSection)
    }

    method NewSection(section: string)
      requires Valid()
      modifies `curSections, `curSection
      ensures Valid() && curSection == Some(section) && AllLists(curSections) == old(AllLists(curSections))
      ensures Progress() == IniMerge.NewSection(old(Progress()), section)
    {
      hide View, AllLists, Unshared;
      var d := SectionOf(curSections, section);
      ViewOfNew(curSections, section);
      if d.keys == [] {
        curSections := Put(curSections, section, Empty());
      }
      curSection := Some(section);
    }

    method Assignment(key: string, value: Value)
      requires Valid()
      modifies `curSections, `curSection, AllLists(curSections)
      ensures Valid()
      ensures OnlyFresh(curSections, old(curSections))
      ensures Progress() == IniMerge.Assignment(old(Progress()), key, value)
    {
      hide View, AllLists, Unshared, Append;
      if curSection.None? {
        NewSection(ORPHAN_SECTION);
      }
      var value' := if |value| == 1 && value[0] == "" then [] else value;
      assert value' == Normalized(value);
      AddValue(curSection.value, key, value');
    }

    /** A first value gets a list of its own; further values are appended to it in place. */
    method AddValue(name: string, key: string, value: Value)
      requires Valid() && curSection == Some(name)
      modifies `curSections, AllLists(curSections)
      ensures Valid() && OnlyFresh(curSections, old(curSections))
      ensures View(curSections) == WithValue(old(View(curSections)), name, key, value)
    {
      hide View, AllLists, Unshared, Append;
      ListIsIn(curSections, name, key);
      var d := curSections.vals[name];
      if key !in d.vals || d.vals[key].values == [] {
        AddList(name, key, value);
      } else {
        ExtendList(name, key, value);
      }
    }

    method AddList(name: string, key: string, value: Value)
      requires Unshared(curSections) && name in curSections.vals
      requires key in curSections.vals[name].vals ==> curSections.vals[name].vals[key].values == []
      modifies `curSections
      ensures Unshared(curSections) && name in curSections.vals && OnlyFresh(curSections, old(curSections))
      ensures View(curSections) == WithValue(old(View(curSections)), name, key, value)
    {
      hide View, Unshared, Append;
      var l := NewList(curSections, value);
      StoreList(name, key, l, value);
    }

    method StoreList(name: string, key: string, l: ValueList, ghost value: Value)
      requires Unshared(curSections) && name in curSections.vals
      requires key in curSections.vals[name].vals ==> curSections.vals[name].vals[key].values == []
      requires l !in AllLists(curSections) && l.values == [value]
      modifies `curSections
      ensures Unshared(curSections) && name in curSections.vals && AllLists(curSections) <= old(AllLists(curSections)) + {l}
      ensures View(curSections) == WithValue(old(View(curSections)), name, key, value)
    {
      hide View, ViewSection, Unshared, Append;
      ViewOfAdded(curSections, name, key, l, value);
      UnsharedPut(curSections, name, key, l);
      curSections := Put(curSections, name, Put(curSections.vals[name], key, l));
    }

    method ExtendList(name: string, key: string, value: Value)
      requires Unshared(curSections) && name in curSections.vals && key in curSections.vals[name].vals
      modifies curSections.vals[name].vals[key]
      ensures View(curSections) == WithValue(old(View(curSections)), name, key, value)
    {
      hide View, Append, Unshared, ViewSection;
      ghost var before := View(curSections);
      SectionsOfView(curSections);
      OthersHaveOthers(curSections, name, key);
      ExtendIn(curSections.vals[name], key, value);
      forall s | s in curSections.vals && s != name
        ensures ViewSection(curSections.vals[s]) == before.vals[s]
      {
        assert forall l :: l in SectionLists(curSections.vals[s]) ==> l.values == old(l.values);
      }
      ViewButForOne(curSections, before, name);
    }

    /** Reads a source and lays what it defines over what the sources before it defined.  No list that existed before
        is changed: a later source replaces the lists of earlier ones. */
    method Parse(events: seq<Event>)
      requires Valid()
      modifies this
      ensures Valid()
      ensures View(sections) == OverlayConfig(old(View(sections)), Collect(events).sections)
    {
      hide View, ViewSection, OverlayConfig, Collect, Unshared;
      ghost var before := sections;
      ReadEvents(events);
      MergeRead();
      ViewOfOverlay(before, curSections);
    }

    method MergeRead()
      modifies `sections
      ensures sections == OverlayConfig(old(sections), curSections)
    {
      ghost var before := sections;
      var read := curSections;
      MergeEnds(before, read);
      for i := 0 to |read.keys|
        invariant sections == OverlayConfig(before, Prefix(read, i))
      {
        NextSection(before, read, i);
        MergeSection(read.keys[i], read.vals[read.keys[i]]);
      }
    }

    method ReadEvents(events: seq<Event>)
      requires Valid()
      modifies `curSections, `curSection
      ensures Valid() && fresh(AllLists(curSections)) && Progress() == Collect(events)
    {
      curSections, curSection := Empty(), None;
      NothingRead(curSections);
      hide Collect, Step, View, Unshared;
      for i := 0 to |events|
        invariant Valid() && fresh(AllLists(curSections)) && Progress() == Collect(events[..i])
      {
        NextEvent(events, i);
        ReadEvent(events[i]);
      }
      assert events[..|events|] == events;
    }

    method ReadEvent(e: Event)
      requires Valid()
      modifies `curSections, `curSection, AllLists(curSections)
      ensures Valid() && OnlyFresh(curSections, old(curSections))
      ensures Progress() == Step(old(Progress()), e)
    {
      match e {
        case Header(name) => NewSection(name);
        case Assign(key, value) => Assignment(key, value);
      }
    }

    method MergeSection(section: string, values: ListSection)
      modifies `sections
      ensures sections == Put(old(sections), section, Overlay(SectionOf(old(sections), section), values))
    {
      ghost var before := sections;
      ghost var d := SectionOf(sections, section);
      if section !in sections.vals {
        sections := Put(sections, section, Empty());
      } else {
        PutSame(sections, section);
      }
      PrefixEnds(values);
      OverlayIsIdempotent(d);
      for j := 0 to |values.keys|
        invariant sections == Put(before, section, Overlay(d, Prefix(values, j)))
      {
        var key := values.keys[j];
        PrefixStep(values, j);
        OverlayStep(d, Prefix(values, j), key, values.vals[key]);
        PutTwice(before, section, Overlay(d, Prefix(values, j)), Overlay(d, Prefix(values, j + 1)));
        sections := Put(sections, section, Put(sections.vals[section], key, values.vals[key]));
      }
    }

    /** Prints the configuration. */
    method Write(fp: File)
      requires Valid()
      modifies fp
      ensures fp.text == old(fp.text) + IniText.Write(old(View(sections)), whitespace)
    {
      KeysHaveValues(sections);
      ghost var c := View(sections);
      ghost var start := fp.text;
      for i := 0 to |sections.keys|
        invariant fp.text + ConfigText(c, i, whitespace) == start + ConfigText(c, 0, whitespace)
        invariant View(sections) == c
      {
        ghost var before := fp.text;
        SectionPrinted(c, i, whitespace);
        WriteNamed(fp, sections.keys[i], c);
        Append2(before, SectionText(c.keys[i], c.vals[c.keys[i]], whitespace), ConfigText(c, i + 1, whitespace));
      }
      assert c.keys[0..] == c.keys;
    }

    method WriteNamed(fp: File, name: string, ghost c: Config)
      requires c == View(sections) && name in sections.vals
      modifies fp
      ensures fp.text == old(fp.text) + SectionText(name, c.vals[name], whitespace) && c == View(sections)
    {
      ViewOfSection(sections, name);
      WriteHeadedSection(fp, name, sections.vals[name], c.vals[name]);
      assert forall l :: l in AllLists(sections) ==> l.values == old(l.values);
    }

    method WriteHeadedSection(fp: File, name: string, section: ListSection, ghost d: Section)
      requires d == ViewSection(section)
      modifies fp
      ensures fp.text == old(fp.text) + SectionText(name, d, whitespace)
    {
      ghost var before := fp.text;
      if name != ORPHAN_SECTION {
        fp.Write("[" + name + "]" + "\n");
        OneLine("[" + name + "]", []);
      }
      assert fp.text == before + Unlines(HeaderLines(name));
      WriteSection(fp, section, d);
      fp.Write("\n");
      Append3(before, Unlines(HeaderLines(name)), Unlines(SectionLines(d.keys, d.vals, whitespace)), "\n");
    }

    method WriteSection(fp: File, section: ListSection, ghost d: Section)
      requires d == ViewSection(section)
      modifies fp
      ensures forall k :: k in d.keys ==> k in d.vals
      ensures fp.text == old(fp.text) + Unlines(SectionLines(d.keys, d.vals, whitespace))
    {
      hide SectionLines, KeyLines, Unlines, ViewSection;
      KeysHaveValues(section);
      ghost var start := fp.text;
      SectionViewed(section);
      for i := 0 to |section.keys|
        invariant fp.text + Unlines(SectionLines(d.keys[i..], d.vals, whitespace)) ==
                  start + Unlines(SectionLines(d.keys, d.vals, whitespace))
        invariant forall l :: l in SectionLists(section) ==> l.values == old(l.values)
      {
        var key := section.keys[i];
        ghost var before := fp.text;
        KeyPrinted(d.keys, d.vals, i, whitespace);
        WriteKeyValue(fp, key, section.vals[key].values);
        Append2(before, Unlines(KeyLines(key, d.vals[key], whitespace)),
                Unlines(SectionLines(d.keys[i + 1..], d.vals, whitespace)));
      }
      NoSection(d.vals, whitespace);
    }

    method WriteKeyValue(fp: File, key: string, values: seq<Value>)
      modifies fp
      ensures fp.text == old(fp.text) + Unlines(KeyLines(key, values, whitespace))
    {
      ghost var start := fp.text;
      for i := 0 to |values|
        invariant fp.text + Unlines(KeyLines(key, values[i..], whitespace)) ==
                  start + Unlines(KeyLines(key, values, whitespace))
      {
        ghost var before := fp.text;
        ValuePrinted(key, values, i, whitespace);
        WriteValue(fp, key, values[i]);
        Append2(before, Unlines(ValueLines(key, values[i], whitespace)),
                Unlines(KeyLines(key, values[i + 1..], whitespace)));
      }
    }

    method WriteValue(fp: File, key: string, v: Value)
      modifies fp
      ensures fp.text == old(fp.text) + Unlines(ValueLines(key, v, whitespace))
    {
      hide Unlines, Continuations;
      ghost var start := fp.text;
      if v == [] {
        fp.Write(key + whitespace + "=" + "\n");
        OneLine(key + whitespace + "=", []);
        NoContinuation(|key| + |whitespace| * 2 + 1);
      }
      for index := 0 to |v|
        invariant index == 0 && v != [] ==> fp.text == start
        invariant index > 0 || v == [] ==>
          fp.text + Unlines(Continuations(v[index..], |key| + |whitespace| * 2 + 1)) ==
          start + Unlines(ValueLines(key, v, whitespace))
      {
        var indentSize := |key| + |whitespace| * 2 + 1;
        if index == 0 {
          FirstPrinted(start, key, v, whitespace);
          fp.Write(key + whitespace + "=" + whitespace + v[index] + "\n");
        } else {
          NextPrinted(fp.text, v, index, indentSize);
          fp.Write(Spaces(indentSize) + v[index] + "\n");
        }
      }
      assert v[|v|..] == [];
      NoContinuation(|key| + |whitespace| * 2 + 1);
    }
  }

  lemma FirstPrinted(before: string, key: string, v: Value, ws: string)
    requires v != []
    ensures before + (key + ws + "=" + ws + v[0] + "\n") + Unlines(Continuations(v[1..], |key| + |ws| * 2 + 1)) ==
            before + Unlines(ValueLines(key, v, ws))
  {
    var line, rest := key + ws + "=" + ws + v[0], Continuations(v[1..], |key| + |ws| * 2 + 1);
    OneLine(line, rest);
    Append2(before, line + "\n", Unlines(rest));
  }

  lemma NextPrinted(before: string, v: Value, index: nat, indent: nat)
    requires index < |v|
    ensures before + (Spaces(indent) + v[index] + "\n") + Unlines(Continuations(v[index + 1..], indent)) ==
            before + Unlines(Continuations(v[index..], indent))
  {
    var line, rest := Spaces(indent) + v[index], Continuations(v[index + 1..], indent);
    assert v[index..][1..] == v[index + 1..];
    OneLine(line, rest);
    Append2(before, line + "\n", Unlines(rest));
  }

  lemma NothingRead(c: ListConfig)
    requires c == Empty()
    ensures Unshared(c) && AllLists(c) == {}
    ensures Reading(View(c), None) == Collect([])
  {
    assert View(c).vals == map[];
  }

  lemma NextEvent(events: seq<Event>, i: nat)
    requires i < |events|
    ensures Collect(events[..i + 1]) == Step(Collect(events[..i]), events[i])
  {
    assert events[..i + 1][..i] == events[..i];
  }

  lemma NoSection(vals: map<string, seq<Value>>, ws: string)
    ensures Unlines(SectionLines([], vals, ws)) == ""
  {
  }

  lemma NoContinuation(indent: nat)
    ensures Unlines(Continuations([], indent)) == ""
  {
  }

  lemma Append2(a: string, b: string, c: string)
    ensures (a + b) + c == a + (b + c)
  {
  }

  lemma Append3(a: string, b: string, c: string, d: string)
    ensures ((a + b) + c) + d == a + ((b + c) + d)
  {
  }

  lemma OneLine(line: string, rest: seq<string>)
    ensures Unlines([line] + rest) == (line + "\n") + Unlines(rest)
    ensures Unlines([line]) == line + "\n"
  {
    assert ([line] + rest)[1..] == rest;
    assert [line][1..] == [];
    assert (line + "\n") + "" == line + "\n";
  }

  lemma ValuePrinted(key: string, values: seq<Value>, i: nat, ws: string)
    requires i < |values|
    ensures Unlines(KeyLines(key, values[i..], ws)) ==
            Unlines(ValueLines(key, values[i], ws)) + Unlines(KeyLines(key, values[i + 1..], ws))
  {
    assert values[i..][1..] == values[i + 1..];
    UnlinesBoth(ValueLines(key, values[i], ws), KeyLines(key, values[i + 1..], ws));
  }

  lemma KeyPrinted(keys: seq<string>, vals: map<string, seq<Value>>, i: nat, ws: string)
    requires i < |keys| && forall k :: k in keys ==> k in vals
    ensures Unlines(SectionLines(keys[i..], vals, ws)) ==
            Unlines(KeyLines(keys[i], vals[keys[i]], ws)) + Unlines(SectionLines(keys[i + 1..], vals, ws))
  {
    assert keys[i..][1..] == keys[i + 1..];
    UnlinesBoth(KeyLines(keys[i], vals[keys[i]], ws), SectionLines(keys[i + 1..], vals, ws));
  }

  /** What is printed from section i on. */
  function ConfigText(c: Config, i: nat, ws: string): string
    requires i <= |c.keys|
  {
    KeysHaveValues(c);
    Unlines(ConfigLines(c.keys[i..], c.vals, ws))
  }

  function SectionText(name: string, d: Section, ws: string): string {
    KeysHaveValues(d);
    (Unlines(HeaderLines(name)) + Unlines(SectionLines(d.keys, d.vals, ws))) + "\n"
  }

  lemma SectionPrinted(c: Config, i: nat, ws: string)
    requires i < |c.keys|
    ensures c.keys[i] in c.vals
    ensures ConfigText(c, i, ws) == SectionText(c.keys[i], c.vals[c.keys[i]], ws) + ConfigText(c, i + 1, ws)
  {
    KeysHaveValues(c);
    var name := c.keys[i];
    var d := c.vals[name];
    KeysHaveValues(d);
    var body, rest := SectionLines(d.keys, d.vals, ws), ConfigLines(c.keys[i + 1..], c.vals, ws);
    assert c.keys[i..][1..] == c.keys[i + 1..];
    SectionTextIs(HeaderLines(name), body);
    UnlinesBoth(HeaderLines(name) + body + [""], rest);
  }

  lemma SectionTextIs(header: seq<string>, body: seq<string>)
    ensures Unlines(header + body + [""]) == (Unlines(header) + Unlines(body)) + "\n"
  {
    UnlinesBoth(header, body);
    UnlinesBoth(header + body, [""]);
    OneLine("", []);
  }

  lemma MergeEnds(before: ListConfig, c: ListConfig)
    ensures OverlayConfig(before, Prefix(c, 0)) == before
    ensures OverlayConfig(before, Prefix(c, |c.keys|)) == OverlayConfig(before, c)
  {
    PrefixEnds(c);
    OverlayOfNothing(before, Prefix(c, 0));
  }

  lemma NextSection(before: ListConfig, c: ListConfig, i: nat)
    requires i < |c.keys|
    ensures c.keys[i] in c.vals
    ensures var name, done := c.keys[i], OverlayConfig(before, Prefix(c, i));
            Put(done, name, Overlay(SectionOf(done, name), c.vals[name])) == OverlayConfig(before, Prefix(c, i + 1))
  {
    var name := c.keys[i];
    PrefixStep(c, i);
    OverlayConfigStep(before, Prefix(c, i), name, c.vals[name]);
    SectionOfOverlay(before, Prefix(c, i), name);
    OverlayIsIdempotent(SectionOf(before, name));
  }

  /** The configuration after the lists of one section have changed. */
  lemma ViewButForOne(c: ListConfig, before: Config, name: string)
    requires name in c.vals && before.keys == c.keys
    requires forall s :: s in c.vals && s != name ==> s in before.vals && ViewSection(c.vals[s]) == before.vals[s]
    ensures View(c) == Put(before, name, ViewSection(c.vals[name]))
  {
    hide ViewSection;
    KeysHaveValues(c);
    KeysHaveValues(before);
    assert View(c).vals == before.vals[name := ViewSection(c.vals[name])];
  }

  /** The section after one of its lists has been extended. */
  lemma ExtendedSection(d: ListSection, key: string, before: Section, value: Value)
    requires key in d.vals && key in before.vals && d.keys == before.keys
    requires ViewSection(d).vals == before.vals[key := before.vals[key] + [value]]
    ensures ViewSection(d) == Append(before, key, value)
  {
  }

  lemma ViewOfAdded(c: ListConfig, name: string, key: string, l: ValueList, value: Value)
    requires name in c.vals && l.values == [value]
    requires key in c.vals[name].vals ==> c.vals[name].vals[key].values == []
    ensures var c' := Put(c, name, Put(c.vals[name], key, l));
            && AllLists(c') <= AllLists(c) + {l}
            && View(c') == Put(View(c), name, Append(View(c).vals[name], key, value))
  {
    hide Append;
    var d := c.vals[name];
    ViewOfPut(c, name, Put(d, key, l));
    ViewOfSectionPut(d, key, l);
    AppendFirst(ViewSection(d), key, value);
  }

  lemma UnsharedPut(c: ListConfig, name: string, key: string, l: ValueList)
    requires name in c.vals && Unshared(c) && l !in AllLists(c)
    ensures Unshared(Put(c, name, Put(c.vals[name], key, l)))
  {
    var c' := Put(c, name, Put(c.vals[name], key, l));
    forall s, k | s in c'.vals && k in c'.vals[s].vals
      ensures c'.vals[s].vals[k] == l <==> s == name && k == key
      ensures c'.vals[s].vals[k] != l ==> s in c.vals && k in c.vals[s].vals && c'.vals[s].vals[k] == c.vals[s].vals[k]
    {
      if s != name || k != key {
        assert c.vals[s].vals[k] in AllLists(c);
      }
    }
  }

  /** Opening a section: an empty one is begun anew, any other is kept. */
  lemma ViewOfNew(c: ListConfig, name: string)
    ensures SectionOf(c, name).keys == [] ==>
      && AllLists(Put(c, name, Empty())) == AllLists(c) && (Unshared(c) ==> Unshared(Put(c, name, Empty())))
      && View(Put(c, name, Empty())) == Put(View(c), name, SectionOf(View(c), name))
    ensures SectionOf(c, name).keys != [] ==>
      name in c.vals && View(c) == Put(View(c), name, SectionOf(View(c), name))
  {
    ViewOfSection(c, name);
    if SectionOf(c, name).keys == [] {
      var none: ListSection := Empty();
      assert Elements(SectionOf(c, name).keys) == {};
      assert SectionOf(c, name) == none;
      ViewOfPut(c, name, none);
      EmptySectionLists(c, name, none);
    } else {
      PutSame(View(c), name);
    }
  }

  lemma EmptySectionLists(c: ListConfig, name: string, none: ListSection)
    requires SectionOf(c, name) == none == Empty()
    ensures AllLists(Put(c, name, none)) == AllLists(c)
    ensures Unshared(c) ==> Unshared(Put(c, name, none))
  {
    var c' := Put(c, name, none);
    forall l | l in AllLists(c)
      ensures l in AllLists(c')
    {
      var s, k :| s in c.vals && k in c.vals[s].vals && c.vals[s].vals[k] == l;
      assert s != name;
      assert c'.vals[s].vals[k] == l;
    }
  }

  // ----- The action -----

  /** The sources that exist: those that cannot be opened are skipped. */
  function Readable(sources: seq<Option<seq<Event>>>): seq<seq<Event>> {
    if sources == [] then []
    else
      var init, last := sources[..|sources| - 1], sources[|sources| - 1];
      if last.Some? then Readable(init) + [last.value] else Readable(init)
  }

  lemma MergeOneMore(sources: seq<Option<seq<Event>>>, i: nat)
    requires i < |sources|
    ensures MergeSources(Readable(sources[..i + 1])) ==
            if sources[i].None? then MergeSources(Readable(sources[..i]))
            else OverlayConfig(MergeSources(Readable(sources[..i])), Collect(sources[i].value).sections)
  {
    assert sources[..i + 1][..i] == sources[..i];
    if sources[i].Some? {
      var readable := Readable(sources[..i]);
      assert (readable + [sources[i].value])[..|readable|] == readable;
    }
  }

  /** Merges the sources into one file, whose text is the print of their merge. */
  method MergeConfigs(sources: seq<Option<seq<Event>>>, whitespace: bool) returns (fullSource: string)
    ensures fullSource == IniText.Write(MergeSources(Readable(sources)), if whitespace then " " else "")
  {
    var config := new OverrideConfigParser(whitespace);
    for i := 0 to |sources|
      invariant config.Valid() && fresh(config) && config.whitespace == if whitespace then " " else ""
      invariant View(config.sections) == MergeSources(Readable(sources[..i]))
    {
      MergeOneMore(sources, i);
      if sources[i].Some? {
        config.Parse(sources[i].value);
      }
    }
    assert sources[..|sources|] == sources;
    fullSource := Dump(config, MergeSources(Readable(sources)));
  }

  method Dump(config: OverrideConfigParser, ghost c: Config) returns (text: string)
    requires config.Valid() && View(config.sections) == c
    ensures text == IniText.Write(c, config.whitespace)
  {
    var fakefile := new File();
    assert View(config.sections) == c by {
      assert forall l :: l in AllLists(config.sections) ==> l.values == old(l.values);
    }
    config.Write(fakefile);
    text := fakefile.text;
    assert "" + text == text;
  }
}

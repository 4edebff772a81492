/** Printing a merged configuration (OverrideConfigParser.write, ansible/action_plugins/merge_configs.py) and reading
    it back.  The reader stands for the parser's base class, which is not part of the repository, on the lines that
    are printed. */
module IniText {
  import opened Common
  import opened OrderedDict
  import opened IniMerge

  // ----- Printing -----

  function Spaces(n: nat): string {
    seq(n, _ => ' ')
  }

  /** The lines of a value after its first, aligned with it. */
  function Continuations(values: seq<string>, indent: nat): seq<string> {
    if values == [] then [] else [Spaces(indent) + values[0]] + Continuations(values[1..], indent)
  }

  function ValueLines(key: string, v: Value, ws: string): seq<string> {
    if v == [] then [key + ws + "="]
    else [key + ws + "=" + ws + v[0]] + Continuations(v[1..], |key| + |ws| * 2 + 1)
  }

  function KeyLines(key: string, values: seq<Value>, ws: string): seq<string> {
    if values == [] then [] else ValueLines(key, values[0], ws) + KeyLines(key, values[1..], ws)
  }

  function SectionLines(keys: seq<string>, vals: map<string, seq<Value>>, ws: string): seq<string>
    requires forall k :: k in keys ==> k in vals
  {
    if keys == [] then [] else KeyLines(keys[0], vals[keys[0]], ws) + SectionLines(keys[1..], vals, ws)
  }

  function HeaderLines(name: string): seq<string> {
    if name != ORPHAN_SECTION then ["[" + name + "]"] else []
  }

  function ConfigLines(names: seq<string>, sections: map<string, Section>, ws: string): seq<string>
    requires forall s :: s in names ==> s in sections
  {
    if names == [] then []
    else
      KeysHaveValues(sections[names[0]]);
      HeaderLines(names[0]) + SectionLines(sections[names[0]].keys, sections[names[0]].vals, ws) + [""]
        + ConfigLines(names[1..], sections, ws)
  }

  function Unlines(lines: seq<string>): string {
    if lines == [] then "" else lines[0] + "\n" + Unlines(lines[1..])
  }

  /** The printed configuration; ws is a blank or empty, as the whitespace option says. */
  function Write(c: Config, ws: string): string {
    KeysHaveValues(c);
    Unlines(ConfigLines(c.keys, c.vals, ws))
  }

  // ----- Reading -----

  function Lines(text: string): seq<string> {
    if text == "" then []
    else if text[0] == '\n' then [""] + Lines(text[1..])
    else
      var rest := Lines(text[1..]);
      if rest == [] then [[text[0]]] else [[text[0]] + rest[0]] + rest[1..]
  }

  predicate IsBlank(c: char) {
    c == ' ' || c == '\t' || c == '\n' || c == '\r'
  }

  function TrimLeft(s: string): string {
    if s != "" && IsBlank(s[0]) then TrimLeft(s[1..]) else s
  }

  function TrimRight(s: string): string {
    if s != "" && IsBlank(s[|s| - 1]) then TrimRight(s[..|s| - 1]) else s
  }

  function Trim(s: string): string {
    TrimLeft(TrimRight(s))
  }

  /** What stands before and after the first equals sign. */
  function SplitAssignment(s: string): (string, string) {
    if s == "" then ("", "")
    else if s[0] == '=' then ("", s[1..])
    else
      var (before, after) := SplitAssignment(s[1..]);
      ([s[0]] + before, after)
  }

  datatype Line = BlankLine | SectionLine(name: string) | KeyLine(key: string, value: string) | MoreLine(value: string)

  function Classify(line: string): Line {
    var s := TrimRight(line);
    if s == "" then BlankLine
    else if IsBlank(s[0]) then MoreLine(TrimLeft(s))
    else if s[0] == '[' then SectionLine(if |s| >= 2 then s[1..|s| - 1] else "")
    else
      var (key, value) := SplitAssignment(s);
      KeyLine(Trim(key), Trim(value))
  }

  /** The assignment begun but not yet reported, because further lines may continue it. */
  datatype Pending = Nothing | Begun(key: string, value: Value)

  function Flush(p: Pending): seq<Event> {
    if p.Begun? then [Assign(p.key, p.value)] else []
  }

  function ReadLines(lines: seq<string>, p: Pending): seq<Event> {
    if lines == [] then Flush(p)
    else
      match Classify(lines[0])
      case BlankLine => Flush(p) + ReadLines(lines[1..], Nothing)
      case SectionLine(name) => Flush(p) + [Header(name)] + ReadLines(lines[1..], Nothing)
      case KeyLine(key, value) => Flush(p) + ReadLines(lines[1..], Begun(key, [value]))
      case MoreLine(value) =>
        ReadLines(lines[1..], if p.Begun? then Begun(p.key, p.value + [value]) else Nothing)
  }

  function Read(text: string): seq<Event> {
    ReadLines(Lines(text), Nothing)
  }

  // ----- Which configurations can be printed -----

  predicate IsTrimmed(s: string) {
    '\n' !in s && (s != "" ==> !IsBlank(s[0]) && !IsBlank(s[|s| - 1]))
  }

  /** A key with no separator in it and none of the marks that begin a section or a comment. */
  predicate PrintableKey(key: string) {
    IsTrimmed(key) && key != "" && key[0] !in "[#;" && '=' !in key && ':' !in key
  }

  /** The value of an assignment as the parser keeps it, free of quotation marks at its start. */
  predicate PrintableValue(v: Value) {
    && (forall i :: 0 <= i < |v| ==> IsTrimmed(v[i]) && (0 < i ==> v[i] != ""))
    && (v != [] && v[0] != "" ==> v[0][0] !in "\"'")
    && v != [""]
  }

  ghost predicate PrintableSection(d: Section) {
    forall k :: k in d.vals ==>
      PrintableKey(k) && d.vals[k] != [] && forall i :: 0 <= i < |d.vals[k]| ==> PrintableValue(d.vals[k][i])
  }

  /** The parser refuses a section without a name. */
  predicate PrintableName(name: string) {
    name != "" && '\n' !in name
  }

  ghost predicate Printable(c: Config) {
    forall s :: s in c.vals ==> PrintableName(s) && PrintableSection(c.vals[s])
  }

  // ----- What printing means as events -----

  function ValueEvent(key: string, v: Value): Event {
    Assign(key, if v == [] then [""] else v)
  }

  function KeyEvents(key: string, values: seq<Value>): seq<Event> {
    if values == [] then [] else [ValueEvent(key, values[0])] + KeyEvents(key, values[1..])
  }

  function SectionEvents(keys: seq<string>, vals: map<string, seq<Value>>): seq<Event>
    requires forall k :: k in keys ==> k in vals
  {
    if keys == [] then [] else KeyEvents(keys[0], vals[keys[0]]) + SectionEvents(keys[1..], vals)
  }

  function HeaderEvents(name: string): seq<Event> {
    if name != ORPHAN_SECTION then [Header(name)] else []
  }

  function ConfigEvents(names: seq<string>, sections: map<string, Section>): seq<Event>
    requires forall s :: s in names ==> s in sections
  {
    if names == [] then []
    else
      KeysHaveValues(sections[names[0]]);
      HeaderEvents(names[0]) + SectionEvents(sections[names[0]].keys, sections[names[0]].vals)
        + ConfigEvents(names[1..], sections)
  }

  // ----- Characters -----

  lemma {:induction false} LinesOfUnlines(lines: seq<string>)
    requires forall i :: 0 <= i < |lines| ==> '\n' !in lines[i]
    ensures Lines(Unlines(lines)) == lines
  {
    if lines != [] {
      LinesOfUnlines(lines[1..]);
      FirstLine(lines[0], Unlines(lines[1..]));
      assert lines[0] + "\n" + Unlines(lines[1..]) == lines[0] + ("\n" + Unlines(lines[1..]));
    }
  }

  lemma {:induction false} FirstLine(line: string, rest: string)
    requires '\n' !in line
    ensures Lines(line + ("\n" + rest)) == [line] + Lines(rest)
  {
    var text := line + ("\n" + rest);
    if line == "" {
      assert text[1..] == rest;
    } else {
      assert text[1..] == line[1..] + ("\n" + rest);
      assert text[0] == line[0];
      FirstLine(line[1..], rest);
      assert [line[0]] + line[1..] == line;
    }
  }

  lemma {:induction false} TrimRightBlanks(s: string, blanks: string)
    requires forall i :: 0 <= i < |blanks| ==> IsBlank(blanks[i])
    ensures TrimRight(s + blanks) == TrimRight(s)
  {
    if blanks == "" {
      assert s + blanks == s;
    } else {
      assert (s + blanks)[..|s + blanks| - 1] == s + blanks[..|blanks| - 1];
      TrimRightBlanks(s, blanks[..|blanks| - 1]);
    }
  }

  lemma {:induction false} TrimLeftBlanks(s: string, blanks: string)
    requires forall i :: 0 <= i < |blanks| ==> IsBlank(blanks[i])
    ensures TrimLeft(blanks + s) == TrimLeft(s)
  {
    if blanks == "" {
      assert blanks + s == s;
    } else {
      assert (blanks + s)[1..] == blanks[1..] + s;
      TrimLeftBlanks(s, blanks[1..]);
    }
  }

  lemma {:induction false} SplitAtEquals(before: string, after: string)
    requires '=' !in before
    ensures SplitAssignment(before + "=" + after) == (before, after)
  {
    var s := before + "=" + after;
    if before == "" {
      assert s[1..] == after;
    } else {
      assert s[1..] == before[1..] + "=" + after;
      SplitAtEquals(before[1..], after);
      assert [before[0]] + before[1..] == before;
    }
  }

  predicate IsPadding(ws: string) {
    ws == "" || ws == " "
  }

  lemma TrimmedStays(s: string)
    requires IsTrimmed(s)
    ensures TrimRight(s) == s && TrimLeft(s) == s && Trim(s) == s
  {
  }

  /** The line without the blanks at its end. */
  lemma TrimmedKeyLine(key: string, ws: string, value: string, tail: string)
    requires IsPadding(ws) && IsTrimmed(value)
    requires tail == ws + value || (tail == "" && value == "")
    ensures TrimRight(key + ws + "=" + tail) == key + ws + "=" + if value == "" then "" else tail
  {
    var start := key + ws + "=";
    if value == "" {
      TrimRightBlanks(start, tail);
      assert start[|start| - 1] == '=' && start + "" == start;
    } else {
      assert (start + tail)[|start + tail| - 1] == value[|value| - 1];
    }
  }

  lemma TrimmedValue(ws: string, value: string, kept: string)
    requires IsPadding(ws) && IsTrimmed(value)
    requires kept == if value == "" then "" else ws + value
    ensures Trim(kept) == value
  {
    TrimmedStays(value);
    if value != "" {
      assert kept[|kept| - 1] == value[|value| - 1];
      TrimLeftBlanks(value, ws);
    }
  }

  lemma ReadKeyLine(key: string, ws: string, value: string, tail: string)
    requires PrintableKey(key) && IsPadding(ws) && IsTrimmed(value)
    requires tail == ws + value || (tail == "" && value == "")
    ensures Classify(key + ws + "=" + tail) == KeyLine(key, value)
  {
    hide TrimLeft, TrimRight, SplitAssignment;
    var kept := if value == "" then "" else tail;
    var s := key + ws + "=" + kept;
    TrimmedKeyLine(key, ws, value, tail);
    assert s[0] == key[0];
    SplitAtEquals(key + ws, kept);
    TrimmedStays(key);
    TrimRightBlanks(key, ws);
    TrimmedValue(ws, value, kept);
  }

  lemma ReadContinuation(value: string, indent: nat)
    requires IsTrimmed(value) && value != "" && 1 <= indent
    ensures Classify(Spaces(indent) + value) == MoreLine(value)
  {
    var line := Spaces(indent) + value;
    assert line[|line| - 1] == value[|value| - 1];
    assert TrimRight(line) == line && line[0] == ' ';
    TrimLeftBlanks(value, Spaces(indent));
    TrimmedStays(value);
  }

  lemma ReadHeader(name: string)
    ensures Classify("[" + name + "]") == SectionLine(name)
  {
    var line := "[" + name + "]";
    assert line[|line| - 1] == ']' && line[0] == '[';
    assert line[1..|line| - 1] == name;
  }

  // ----- Lines -----

  /** The lines do not begin by continuing a value. */
  predicate StartsAfresh(lines: seq<string>) {
    lines == [] || !Classify(lines[0]).MoreLine?
  }

  lemma FlushFirst(lines: seq<string>, p: Pending)
    requires StartsAfresh(lines)
    ensures ReadLines(lines, p) == Flush(p) + ReadLines(lines, Nothing)
  {
    if lines != [] {
      var line := Classify(lines[0]);
      assert Flush(Nothing) == [];
    }
  }

  lemma {:induction false} ReadContinuations(key: string, begun: Value, more: seq<string>, indent: nat,
                                             rest: seq<string>)
    requires 1 <= indent && forall i :: 0 <= i < |more| ==> IsTrimmed(more[i]) && more[i] != ""
    ensures ReadLines(Continuations(more, indent) + rest, Begun(key, begun)) == ReadLines(rest, Begun(key, begun + more))
    decreases more
  {
    hide Classify, Spaces;
    if more == [] {
      assert Continuations(more, indent) + rest == rest && begun + more == begun;
    } else {
      var lines := Continuations(more, indent) + rest;
      ReadContinuation(more[0], indent);
      assert lines[0] == Spaces(indent) + more[0];
      assert lines[1..] == Continuations(more[1..], indent) + rest;
      ReadContinuations(key, begun + [more[0]], more[1..], indent, rest);
      assert begun + [more[0]] + more[1..] == begun + more;
    }
  }

  /** Before anything that starts afresh, the lines are read as the events. */
  ghost predicate Reads(lines: seq<string>, events: seq<Event>) {
    forall rest: seq<string> :: StartsAfresh(rest) ==> ReadsBefore(lines, events, rest)
  }

  ghost predicate ReadsBefore(lines: seq<string>, events: seq<Event>, rest: seq<string>) {
    StartsAfresh(lines + rest) && ReadLines(lines + rest, Nothing) == events + ReadLines(rest, Nothing)
  }

  lemma ReadsNothing()
    ensures Reads([], [])
  {
    forall rest: seq<string> | StartsAfresh(rest)
      ensures ReadsBefore([], [], rest)
    {
      assert [] + rest == rest;
    }
  }

  lemma ReadsBoth(a: seq<string>, b: seq<string>, e: seq<Event>, f: seq<Event>)
    requires Reads(a, e) && Reads(b, f)
    ensures Reads(a + b, e + f)
  {
    forall rest: seq<string> | StartsAfresh(rest)
      ensures ReadsBefore(a + b, e + f, rest)
    {
      assert ReadsBefore(b, f, rest);
      assert ReadsBefore(a, e, b + rest);
      ReadsInTurn(a, b, e, f, rest);
    }
  }

  lemma ReadsInTurn(a: seq<string>, b: seq<string>, e: seq<Event>, f: seq<Event>, rest: seq<string>)
    requires ReadsBefore(b, f, rest) && ReadsBefore(a, e, b + rest)
    ensures ReadsBefore(a + b, e + f, rest)
  {
    assert (a + b) + rest == a + (b + rest);
    assert e + (f + ReadLines(rest, Nothing)) == (e + f) + ReadLines(rest, Nothing);
  }

  lemma ReadValue(key: string, v: Value, ws: string)
    requires PrintableKey(key) && PrintableValue(v) && IsPadding(ws)
    ensures Reads(ValueLines(key, v, ws), [ValueEvent(key, v)])
  {
    forall rest: seq<string> | StartsAfresh(rest)
      ensures ReadsBefore(ValueLines(key, v, ws), [ValueEvent(key, v)], rest)
    {
      ReadValueBefore(key, v, ws, rest);
    }
  }

  lemma ReadValueBefore(key: string, v: Value, ws: string, rest: seq<string>)
    requires PrintableKey(key) && PrintableValue(v) && IsPadding(ws) && StartsAfresh(rest)
    ensures ReadsBefore(ValueLines(key, v, ws), [ValueEvent(key, v)], rest)
  {
    hide Classify, ReadLines, Continuations;
    var begun := if v == [] then "" else v[0];
    var more := if v == [] then [] else v[1..];
    var indent := |key| + |ws| * 2 + 1;
    var tail := if v == [] then "" else ws + v[0];
    assert [begun] + more == if v == [] then [""] else v;
    FirstValueLine(key, v, ws, tail, more, indent);
    ReadKeyLine(key, ws, begun, tail);
    ReadFirstLine(key + ws + "=" + tail, key, begun, Continuations(more, indent), rest);
    ReadContinuations(key, [begun], more, indent, rest);
    FlushFirst(rest, Begun(key, [begun] + more));
  }

  lemma FirstValueLine(key: string, v: Value, ws: string, tail: string, more: seq<string>, indent: nat)
    requires tail == (if v == [] then "" else ws + v[0]) && more == (if v == [] then [] else v[1..])
    requires indent == |key| + |ws| * 2 + 1
    ensures ValueLines(key, v, ws) == [key + ws + "=" + tail] + Continuations(more, indent)
  {
    assert key + ws + "=" + tail == if v == [] then key + ws + "=" else key + ws + "=" + ws + v[0];
  }

  lemma ReadFirstLine(line: string, key: string, value: string, more: seq<string>, rest: seq<string>)
    requires Classify(line) == KeyLine(key, value)
    ensures ReadLines([line] + more + rest, Nothing) == ReadLines(more + rest, Begun(key, [value]))
    ensures StartsAfresh([line] + more + rest)
  {
    var lines := [line] + more + rest;
    assert lines[0] == line && lines[1..] == more + rest;
    assert Flush(Nothing) == [];
  }

  lemma {:induction false} ReadKey(key: string, values: seq<Value>, ws: string)
    requires PrintableKey(key) && IsPadding(ws)
    requires forall i :: 0 <= i < |values| ==> PrintableValue(values[i])
    ensures Reads(KeyLines(key, values, ws), KeyEvents(key, values))
    decreases values
  {
    if values == [] {
      ReadsNothing();
    } else {
      ReadKey(key, values[1..], ws);
      ReadValue(key, values[0], ws);
      ReadsBoth(ValueLines(key, values[0], ws), KeyLines(key, values[1..], ws),
                [ValueEvent(key, values[0])], KeyEvents(key, values[1..]));
    }
  }

  lemma {:induction false} ReadSection(keys: seq<string>, d: Section, ws: string)
    requires PrintableSection(d) && (forall k :: k in keys ==> k in d.vals) && IsPadding(ws)
    ensures Reads(SectionLines(keys, d.vals, ws), SectionEvents(keys, d.vals))
    decreases keys
  {
    if keys == [] {
      ReadsNothing();
    } else {
      var key, values := keys[0], d.vals[keys[0]];
      ReadSection(keys[1..], d, ws);
      ReadKey(key, values, ws);
      ReadsBoth(KeyLines(key, values, ws), SectionLines(keys[1..], d.vals, ws),
                KeyEvents(key, values), SectionEvents(keys[1..], d.vals));
    }
  }

  lemma ReadOneLine(line: string, events: seq<Event>)
    requires || (Classify(line).BlankLine? && events == [])
             || (Classify(line).SectionLine? && events == [Header(Classify(line).name)])
    ensures Reads([line], events)
  {
    forall rest: seq<string> | StartsAfresh(rest)
      ensures ReadsBefore([line], events, rest)
    {
      assert ([line] + rest)[1..] == rest;
      assert Flush(Nothing) == [];
    }
  }

  lemma {:induction false} ReadConfig(names: seq<string>, c: Config, ws: string)
    requires Printable(c) && (forall s :: s in names ==> s in c.vals) && IsPadding(ws)
    ensures Reads(ConfigLines(names, c.vals, ws), ConfigEvents(names, c.vals))
    decreases names
  {
    if names == [] {
      ReadsNothing();
    } else {
      var name, d := names[0], c.vals[names[0]];
      KeysHaveValues(d);
      var header, body, rest := HeaderLines(name), SectionLines(d.keys, d.vals, ws), ConfigLines(names[1..], c.vals, ws);
      var headerEvents, bodyEvents, restEvents :=
        HeaderEvents(name), SectionEvents(d.keys, d.vals), ConfigEvents(names[1..], c.vals);
      ReadHeaderLines(name);
      ReadSection(d.keys, d, ws);
      ReadOneLine("", []);
      ReadConfig(names[1..], c, ws);
      ReadsBoth(header, body, headerEvents, bodyEvents);
      ReadsBoth(header + body, [""], headerEvents + bodyEvents, []);
      ReadsBoth(header + body + [""], rest, headerEvents + bodyEvents + [], restEvents);
      assert headerEvents + bodyEvents + [] == headerEvents + bodyEvents;
    }
  }

  lemma ReadHeaderLines(name: string)
    ensures Reads(HeaderLines(name), HeaderEvents(name))
  {
    if name == ORPHAN_SECTION {
      ReadsNothing();
    } else {
      ReadHeader(name);
      ReadOneLine("[" + name + "]", [Header(name)]);
    }
  }

  // ----- Text -----

  ghost predicate OneLiners(lines: seq<string>) {
    forall i :: 0 <= i < |lines| ==> '\n' !in lines[i]
  }

  lemma {:induction false} ContinuationsAreLines(values: seq<string>, indent: nat)
    requires OneLiners(values)
    ensures OneLiners(Continuations(values, indent))
    decreases values
  {
    if values != [] {
      ContinuationsAreLines(values[1..], indent);
    }
  }

  lemma ValueLinesAreLines(key: string, v: Value, ws: string)
    requires '\n' !in key && IsPadding(ws) && PrintableValue(v)
    ensures OneLiners(ValueLines(key, v, ws))
  {
    if v != [] {
      ContinuationsAreLines(v[1..], |key| + |ws| * 2 + 1);
    }
  }

  lemma {:induction false} KeyLinesAreLines(key: string, values: seq<Value>, ws: string)
    requires '\n' !in key && IsPadding(ws) && forall i :: 0 <= i < |values| ==> PrintableValue(values[i])
    ensures OneLiners(KeyLines(key, values, ws))
    decreases values
  {
    if values != [] {
      ValueLinesAreLines(key, values[0], ws);
      KeyLinesAreLines(key, values[1..], ws);
    }
  }

  lemma {:induction false} SectionLinesAreLines(keys: seq<string>, d: Section, ws: string)
    requires PrintableSection(d) && (forall k :: k in keys ==> k in d.vals) && IsPadding(ws)
    ensures OneLiners(SectionLines(keys, d.vals, ws))
    decreases keys
  {
    if keys != [] {
      KeyLinesAreLines(keys[0], d.vals[keys[0]], ws);
      SectionLinesAreLines(keys[1..], d, ws);
    }
  }

  lemma {:induction false} ConfigLinesAreLines(names: seq<string>, c: Config, ws: string)
    requires Printable(c) && (forall s :: s in names ==> s in c.vals) && IsPadding(ws)
    ensures OneLiners(ConfigLines(names, c.vals, ws))
    decreases names
  {
    if names != [] {
      var d := c.vals[names[0]];
      KeysHaveValues(d);
      SectionLinesAreLines(d.keys, d, ws);
      ConfigLinesAreLines(names[1..], c, ws);
    }
  }

  /** Reading a printed configuration reports its headers and assignments. */
  lemma ReadWrite(c: Config, ws: string)
    requires Printable(c) && IsPadding(ws)
    ensures forall s :: s in c.keys ==> s in c.vals
    ensures Read(Write(c, ws)) == ConfigEvents(c.keys, c.vals)
  {
    KeysHaveValues(c);
    var lines := ConfigLines(c.keys, c.vals, ws);
    ConfigLinesAreLines(c.keys, c, ws);
    LinesOfUnlines(lines);
    ReadConfig(c.keys, c, ws);
    assert ReadsBefore(lines, ConfigEvents(c.keys, c.vals), []);
    assert lines + [] == lines;
  }

  // ----- Collecting what was printed -----

  function Run(r: Reading, events: seq<Event>): Reading
    decreases events
  {
    if events == [] then r else Run(Step(r, events[0]), events[1..])
  }

  lemma {:induction false} RunBoth(r: Reading, a: seq<Event>, b: seq<Event>)
    ensures Run(r, a + b) == Run(Run(r, a), b)
    decreases a
  {
    if a == [] {
      assert a + b == b;
    } else {
      assert (a + b)[1..] == a[1..] + b;
      RunBoth(Step(r, a[0]), a[1..], b);
    }
  }

  lemma CollectNext(start: Reading, init: seq<Event>, last: Event)
    requires Collect(init) == Run(start, init)
    ensures Collect(init + [last]) == Run(start, init + [last])
  {
    RunBoth(start, init, [last]);
    assert (init + [last])[..|init|] == init && [last][1..] == [];
  }

  lemma RunNothing(r: Reading)
    ensures Run(r, []) == r
  {
  }

  lemma {:induction false} CollectFrom(start: Reading, events: seq<Event>)
    requires start == Collect([])
    ensures Collect(events) == Run(start, events)
  {
    hide Collect, Run;
    if events == [] {
      RunNothing(start);
    } else {
      var init, last := events[..|events| - 1], events[|events| - 1];
      CollectFrom(start, init);
      CollectNext(start, init, last);
      assert events == init + [last];
    }
  }

  lemma CollectIsRun(events: seq<Event>)
    ensures Collect(events) == Run(Reading(Empty(), None), events)
  {
    CollectFrom(Reading(Empty(), None), events);
  }

  /** Reading section name, which so far holds s, on top of the sections in base. */
  function Within(base: Config, name: string, s: Section): Reading {
    Reading(Put(base, name, s), Some(name))
  }

  lemma AssignWithin(base: Config, name: string, s: Section, key: string, v: Value)
    requires PrintableValue(v)
    ensures Step(Within(base, name, s), ValueEvent(key, v)) == Within(base, name, Append(s, key, v))
  {
    assert Normalized(if v == [] then [""] else v) == v;
    PutTwice(base, name, s, Append(s, key, v));
  }

  lemma PutTwice<V>(d: Dict<string, V>, k: string, v: V, w: V)
    ensures Put(Put(d, k, v), k, w) == Put(d, k, w)
  {
    assert d.vals[k := v][k := w] == d.vals[k := w];
  }

  lemma AppendFirst(d: Section, key: string, value: Value)
    requires key in d.vals ==> d.vals[key] == []
    ensures Append(d, key, value) == Put(d, key, [value])
  {
    assert [] + [value] == [value];
  }

  lemma AppendToPut(s: Section, key: string, values: seq<Value>, v: Value)
    ensures Append(Put(s, key, values), key, v) == Put(s, key, values + [v])
  {
    PutTwice(s, key, values, values + [v]);
  }

  lemma NextValue(base: Config, name: string, s: Section, key: string, begun: seq<Value>, v: Value)
    requires PrintableValue(v)
    ensures Step(Within(base, name, Put(s, key, begun)), ValueEvent(key, v)) ==
            Within(base, name, Put(s, key, begun + [v]))
  {
    AssignWithin(base, name, Put(s, key, begun), key, v);
    AppendToPut(s, key, begun, v);
  }

  lemma {:induction false} RunMoreValues(base: Config, name: string, s: Section, key: string, begun: seq<Value>,
                                         more: seq<Value>)
    requires forall i :: 0 <= i < |more| ==> PrintableValue(more[i])
    ensures Run(Within(base, name, Put(s, key, begun)), KeyEvents(key, more)) ==
            Within(base, name, Put(s, key, begun + more))
    decreases more
  {
    if more == [] {
      assert begun + more == begun;
    } else {
      var v := more[0];
      NextValue(base, name, s, key, begun, v);
      RunMoreValues(base, name, s, key, begun + [v], more[1..]);
      RunOne(Within(base, name, Put(s, key, begun)), ValueEvent(key, v), KeyEvents(key, more[1..]));
      MoveFirst(begun, more);
    }
  }

  lemma MoveFirst<T>(a: seq<T>, b: seq<T>)
    requires b != []
    ensures a + [b[0]] + b[1..] == a + b
  {
  }

  lemma RunOne(r: Reading, e: Event, rest: seq<Event>)
    ensures Run(r, [e] + rest) == Run(Step(r, e), rest)
  {
    assert ([e] + rest)[1..] == rest;
  }

  lemma RunKey(base: Config, name: string, s: Section, key: string, values: seq<Value>)
    requires key !in s.vals && values != [] && forall i :: 0 <= i < |values| ==> PrintableValue(values[i])
    ensures Run(Within(base, name, s), KeyEvents(key, values)) == Within(base, name, Put(s, key, values))
  {
    hide Run, Step, Within, Append;
    var v := values[0];
    AssignWithin(base, name, s, key, v);
    AppendFirst(s, key, v);
    RunMoreValues(base, name, s, key, [v], values[1..]);
    RunOne(Within(base, name, s), ValueEvent(key, v), KeyEvents(key, values[1..]));
    assert [v] + values[1..] == values;
  }

  lemma {:induction false} RunSection(base: Config, name: string, s: Section, keys: seq<string>, d: Section)
    requires PrintableSection(d) && Distinct(keys) && forall k :: k in keys ==> k in d.vals && k !in s.vals
    ensures Run(Within(base, name, s), SectionEvents(keys, d.vals)) == Within(base, name, PutAll(s, keys, d.vals))
    decreases keys
  {
    if keys != [] {
      var key, rest := keys[0], keys[1..];
      RunKey(base, name, s, key, d.vals[key]);
      RunBoth(Within(base, name, s), KeyEvents(key, d.vals[key]), SectionEvents(rest, d.vals));
      StillAbsent(s, keys, d.vals[key]);
      RunSection(base, name, Put(s, key, d.vals[key]), rest, d);
    }
  }

  lemma StillAbsent<V>(s: Dict<string, V>, keys: seq<string>, v: V)
    requires keys != [] && Distinct(keys) && forall k :: k in keys ==> k !in s.vals
    ensures forall k :: k in keys[1..] ==> k in keys && k !in Put(s, keys[0], v).vals
    ensures Distinct(keys[1..])
  {
  }

  lemma AllOfSection(d: Section, none: Section)
    requires none == Empty()
    ensures forall k :: k in d.keys ==> k in d.vals
    ensures PutAll(none, d.keys, d.vals) == d
  {
    PutAllIsOverlay(none, d);
    EmptyIsLeftIdentity(d, none);
  }

  lemma RunWholeSection(base: Config, name: string, d: Section)
    requires PrintableSection(d)
    ensures forall k :: k in d.keys ==> k in d.vals
    ensures Run(Within(base, name, Empty()), SectionEvents(d.keys, d.vals)) == Within(base, name, d)
  {
    AllOfSection(d, Empty());
    RunSection(base, name, Empty(), d.keys, d);
  }

  lemma RunHeadedSection(r: Reading, name: string, d: Section)
    requires PrintableSection(d) && name != ORPHAN_SECTION && name !in r.sections.vals
    ensures forall k :: k in d.keys ==> k in d.vals
    ensures Run(r, HeaderEvents(name) + SectionEvents(d.keys, d.vals)) == Within(r.sections, name, d)
  {
    RunWholeSection(r.sections, name, d);
    RunOne(r, Header(name), SectionEvents(d.keys, d.vals));
  }

  lemma {:induction false} RunHeadedSections(r: Reading, names: seq<string>, c: Config)
    requires Printable(c) && Distinct(names) && ORPHAN_SECTION !in names
    requires forall s :: s in names ==> s in c.vals && s !in r.sections.vals
    ensures Run(r, ConfigEvents(names, c.vals)).sections == PutAll(r.sections, names, c.vals)
    decreases names
  {
    if names != [] {
      var name, d := names[0], c.vals[names[0]];
      RunHeadedSection(r, name, d);
      RunBoth(r, HeaderEvents(name) + SectionEvents(d.keys, d.vals), ConfigEvents(names[1..], c.vals));
      StillAbsent(r.sections, names, d);
      RunHeadedSections(Within(r.sections, name, d), names[1..], c);
    }
  }

  /** Assignments that stand in no section open the orphan section. */
  lemma RunOrphans(d: Section, none: Config)
    requires PrintableSection(d) && d.keys != [] && none == Empty()
    ensures forall k :: k in d.keys ==> k in d.vals
    ensures Run(Reading(none, None), SectionEvents(d.keys, d.vals)) == Within(none, ORPHAN_SECTION, d)
  {
    hide Run, Step, SectionEvents, PrintableSection, PrintableKey, PrintableValue, Within;
    RunWholeSection(none, ORPHAN_SECTION, d);
    var e, rest := FirstAssignment(d);
    RunOne(Reading(none, None), e, rest);
    RunOne(Within(none, ORPHAN_SECTION, Empty()), e, rest);
    FirstOrphan(e, none);
  }

  lemma FirstOrphan(e: Event, none: Config)
    requires e.Assign? && none == Empty()
    ensures Step(Reading(none, None), e) == Step(Within(none, ORPHAN_SECTION, Empty()), e)
  {
    assert NewSection(Reading(none, None), ORPHAN_SECTION) == Within(none, ORPHAN_SECTION, Empty());
  }

  lemma FirstAssignment(d: Section) returns (e: Event, rest: seq<Event>)
    requires PrintableSection(d) && d.keys != []
    ensures forall k :: k in d.keys ==> k in d.vals
    ensures e.Assign? && SectionEvents(d.keys, d.vals) == [e] + rest
  {
    KeysHaveValues(d);
    var key := d.keys[0];
    var values := d.vals[key];
    var others := SectionEvents(d.keys[1..], d.vals);
    e, rest := ValueEvent(key, values[0]), KeyEvents(key, values[1..]) + others;
    assert [e] + KeyEvents(key, values[1..]) + others == [e] + rest;
  }

  /** The orphan section, which is printed without a header, comes first and is not empty. */
  predicate OrphanPrintable(c: Config) {
    ORPHAN_SECTION in c.vals ==>
      c.keys != [] && c.keys[0] == ORPHAN_SECTION && c.vals[ORPHAN_SECTION].keys != []
  }

  lemma OrphanPrintableIsEnough(c: Config)
    requires Printable(c) && OrphanPrintable(c)
    ensures forall s :: s in c.keys ==> s in c.vals
    ensures Run(Reading(Empty(), None), ConfigEvents(c.keys, c.vals)).sections == c
  {
    KeysHaveValues(c);
    var none: Config := Empty();
    PutAllIsOverlay(none, c);
    EmptyIsLeftIdentity(c, none);
    if ORPHAN_SECTION !in c.vals {
      RunHeadedSections(Reading(none, None), c.keys, c);
    } else {
      OrphansThenSections(c, none);
    }
  }

  lemma OrphansThenSections(c: Config, none: Config)
    requires Printable(c) && none == Empty() && (forall s :: s in c.keys ==> s in c.vals)
    requires c.keys != [] && c.keys[0] == ORPHAN_SECTION && c.vals[ORPHAN_SECTION].keys != []
    ensures Run(Reading(none, None), ConfigEvents(c.keys, c.vals)).sections == PutAll(none, c.keys, c.vals)
  {
    assert PrintableSection(c.vals[ORPHAN_SECTION]);
    hide SectionEvents, ConfigEvents, Run, PrintableSection, Printable;
    var d, rest := c.vals[ORPHAN_SECTION], c.keys[1..];
    RunOrphans(d, none);
    OrphanEvents(c);
    RunBoth(Reading(none, None), SectionEvents(d.keys, d.vals), ConfigEvents(rest, c.vals));
    StillAbsent(none, c.keys, d);
    RunHeadedSections(Within(none, ORPHAN_SECTION, d), rest, c);
  }

  lemma OrphanEvents(c: Config)
    requires (forall s :: s in c.keys ==> s in c.vals) && c.keys != [] && c.keys[0] == ORPHAN_SECTION
    ensures var d := c.vals[ORPHAN_SECTION];
            (forall k :: k in d.keys ==> k in d.vals) &&
            ConfigEvents(c.keys, c.vals) == SectionEvents(d.keys, d.vals) + ConfigEvents(c.keys[1..], c.vals)
  {
    var d := c.vals[ORPHAN_SECTION];
    KeysHaveValues(d);
    assert HeaderEvents(ORPHAN_SECTION) + SectionEvents(d.keys, d.vals) == SectionEvents(d.keys, d.vals);
  }

  /** Events that begin with a header and have no header for the orphan section never open it. */
  lemma {:induction false} RunWithoutOrphans(r: Reading, events: seq<Event>)
    requires ORPHAN_SECTION !in r.sections.vals && r.current != Some(ORPHAN_SECTION)
    requires r.current.None? && events != [] ==> events[0].Header?
    requires forall i :: 0 <= i < |events| && events[i].Header? ==> events[i].name != ORPHAN_SECTION
    ensures ORPHAN_SECTION !in Run(r, events).sections.vals
    decreases events
  {
    if events != [] {
      RunWithoutOrphans(Step(r, events[0]), events[1..]);
    }
  }

  lemma {:induction false} AssignmentsOnly(keys: seq<string>, vals: map<string, seq<Value>>)
    requires forall k :: k in keys ==> k in vals
    ensures forall e :: e in SectionEvents(keys, vals) ==> e.Assign?
    decreases keys
  {
    if keys != [] {
      ValuesOnly(keys[0], vals[keys[0]]);
      AssignmentsOnly(keys[1..], vals);
    }
  }

  lemma {:induction false} ValuesOnly(key: string, values: seq<Value>)
    ensures forall e :: e in KeyEvents(key, values) ==> e.Assign?
    decreases values
  {
    if values != [] {
      ValuesOnly(key, values[1..]);
    }
  }

  lemma {:induction false} HeadersPrinted(names: seq<string>, c: Config)
    requires forall s :: s in names ==> s in c.vals
    ensures forall e :: e in ConfigEvents(names, c.vals) && e.Header? ==> e.name != ORPHAN_SECTION
    decreases names
  {
    if names != [] {
      KeysHaveValues(c.vals[names[0]]);
      AssignmentsOnly(c.vals[names[0]].keys, c.vals[names[0]].vals);
      HeadersPrinted(names[1..], c);
    }
  }

  lemma OrphanPrintableIsNeeded(c: Config)
    requires !OrphanPrintable(c)
    ensures forall s :: s in c.keys ==> s in c.vals
    ensures ORPHAN_SECTION !in Run(Reading(Empty(), None), ConfigEvents(c.keys, c.vals)).sections.vals
  {
    KeysHaveValues(c);
    var names := c.keys;
    var events := ConfigEvents(names, c.vals);
    HeadersPrinted(names, c);
    KeysHaveValues(c.vals[names[0]]);
    if names[0] == ORPHAN_SECTION {
      assert events == ConfigEvents(names[1..], c.vals);
      if |names| > 1 {
        assert names[1] != ORPHAN_SECTION && names[1..][0] == names[1];
        KeysHaveValues(c.vals[names[1]]);
        assert events[0] == Header(names[1]);
      }
    } else {
      assert events[0] == Header(names[0]);
    }
    RunWithoutOrphans(Reading(Empty(), None), events);
  }

  /** Round trip: parsing what was printed gives back the configuration, sections, keys and values in order, exactly
      when the orphan section, if there is one, comes first and is not empty. */
  lemma RoundTrip(c: Config, ws: string)
    requires Printable(c) && IsPadding(ws)
    ensures Collect(Read(Write(c, ws))).sections == c <==> OrphanPrintable(c)
  {
    ReadWrite(c, ws);
    CollectIsRun(ConfigEvents(c.keys, c.vals));
    if OrphanPrintable(c) {
      OrphanPrintableIsEnough(c);
    } else {
      OrphanPrintableIsNeeded(c);
    }
  }

  // ----- Which merges survive the round trip -----

  /** Names, keys and values that can be printed, and no header that spells out the orphan section's name. */
  predicate PrintableEvent(e: Event) {
    match e
    case Header(name) => PrintableName(name) && name != ORPHAN_SECTION
    case Assign(key, value) => PrintableKey(key) && value != [] && PrintableValue(Normalized(value))
  }

  predicate PrintableSource(events: seq<Event>) {
    forall i :: 0 <= i < |events| ==> PrintableEvent(events[i])
  }

  ghost predicate PrintableSources(sources: seq<seq<Event>>) {
    forall i :: 0 <= i < |sources| ==> PrintableSource(sources[i])
  }

  lemma {:induction false} CollectIsPrintable(events: seq<Event>)
    requires PrintableSource(events)
    ensures Printable(Collect(events).sections)
  {
    if events != [] {
      var init, e := events[..|events| - 1], events[|events| - 1];
      CollectIsPrintable(init);
      assert PrintableEvent(e);
      StepIsPrintable(Collect(init), e);
    }
  }

  lemma StepIsPrintable(r: Reading, e: Event)
    requires Printable(r.sections) && PrintableEvent(e)
    ensures Printable(Step(r, e).sections)
  {
    var r' := Step(r, e);
    TargetIsPrintable(r, e);
    hide Step, Append, PrintableSection, PrintableName, PrintableEvent, Target;
    StepMeans(r, e);
    KeysHaveValues(r.sections);
    KeysHaveValues(r'.sections);
    forall s | s in r'.sections.vals
      ensures PrintableName(s) && PrintableSection(r'.sections.vals[s])
    {
      assert s in r'.sections.keys;
      SteppedSectionIsPrintable(r, e, s);
    }
  }

  lemma TargetIsPrintable(r: Reading, e: Event)
    requires Printable(r.sections) && PrintableEvent(e)
    ensures PrintableName(Target(r, e))
  {
  }

  lemma SteppedSectionIsPrintable(r: Reading, e: Event, s: string)
    requires Printable(r.sections) && PrintableEvent(e)
    ensures PrintableSection(SectionOf(Step(r, e).sections, s))
  {
    hide Step, Append, PrintableSection, Normalized, PrintableKey, PrintableValue, PrintableName;
    StepMeans(r, e);
    SectionIsPrintable(r.sections, s);
    if e.Assign? {
      AppendIsPrintable(SectionOf(r.sections, s), e.key, Normalized(e.value));
    }
  }

  lemma SectionIsPrintable(c: Config, s: string)
    requires Printable(c)
    ensures PrintableSection(SectionOf(c, s))
  {
  }

  lemma AppendIsPrintable(d: Section, key: string, v: Value)
    requires PrintableSection(d) && PrintableKey(key) && PrintableValue(v)
    ensures PrintableSection(Append(d, key, v))
  {
  }

  lemma {:induction false} MergeIsPrintable(sources: seq<seq<Event>>)
    requires PrintableSources(sources)
    ensures Printable(MergeSources(sources))
  {
    if sources != [] {
      var init, last := sources[..|sources| - 1], sources[|sources| - 1];
      MergeIsPrintable(init);
      CollectIsPrintable(last);
      OverlayIsPrintable(MergeSources(init), Collect(last).sections);
    }
  }

  lemma OverlayIsPrintable(a: Config, b: Config)
    requires Printable(a) && Printable(b)
    ensures Printable(OverlayConfig(a, b))
  {
    hide OverlayConfig, PrintableSection;
    var c := OverlayConfig(a, b);
    SectionsOfOverlay(a, b);
    forall s | s in c.vals
      ensures PrintableName(s) && PrintableSection(c.vals[s])
    {
      SectionOfOverlay(a, b, s);
      SectionIsPrintable(a, s);
      SectionIsPrintable(b, s);
      OverlaidSectionIsPrintable(SectionOf(a, s), SectionOf(b, s));
    }
  }

  lemma SectionsOfOverlay(a: Config, b: Config)
    ensures OverlayConfig(a, b).vals.Keys == a.vals.Keys + b.vals.Keys
  {
  }

  lemma OverlaidSectionIsPrintable(d: Section, e: Section)
    requires PrintableSection(d) && PrintableSection(e)
    ensures PrintableSection(Overlay(d, e))
  {
    hide PrintableKey, PrintableValue;
  }

  predicate BeginsWithOrphan(source: seq<Event>) {
    source != [] && source[0].Assign?
  }

  /** No source assigns a key before its first header; or the first source that is not empty does. */
  ghost predicate OrphansFirst(sources: seq<seq<Event>>) {
    || (forall i :: 0 <= i < |sources| ==> !BeginsWithOrphan(sources[i]))
    || (exists i :: 0 <= i < |sources| && BeginsWithOrphan(sources[i]) && forall j :: 0 <= j < i ==> sources[j] == [])
  }

  lemma {:induction false} SectionsOfSource(source: seq<Event>)
    requires PrintableSource(source)
    ensures |SectionsOf(source)| == |source|
    ensures source != [] ==> (SectionsOf(source)[0] == ORPHAN_SECTION <==> BeginsWithOrphan(source))
    ensures ORPHAN_SECTION in SectionsOf(source) <==> BeginsWithOrphan(source)
    ensures CurrentSection(source) == ORPHAN_SECTION ==> source == [] || BeginsWithOrphan(source)
    ensures BeginsWithOrphan(source) ==> KeysOf(source, ORPHAN_SECTION) != []
  {
    if |source| == 1 {
      assert source[..0] == [];
      assert PrintableEvent(source[0]);
    } else if source != [] {
      var init, e := source[..|source| - 1], source[|source| - 1];
      assert PrintableEvent(e);
      SectionsOfSource(init);
    }
  }

  lemma {:induction false} OrphansOfSources(sources: seq<seq<Event>>)
    requires PrintableSources(sources)
    ensures ORPHAN_SECTION in AllSections(sources) <==> exists i :: 0 <= i < |sources| && BeginsWithOrphan(sources[i])
    ensures ORPHAN_SECTION in AllSections(sources) ==> AllKeys(sources, ORPHAN_SECTION) != []
  {
    hide PrintableSource, BeginsWithOrphan;
    if sources != [] {
      var init, last := sources[..|sources| - 1], sources[|sources| - 1];
      OrphansOfSources(init);
      SectionsOfSource(last);
      assert forall i :: 0 <= i < |init| ==> init[i] == sources[i];
    }
  }

  /** The first section of all comes from the first source that is not empty. */
  lemma {:induction false} FirstSectionOfSources(sources: seq<seq<Event>>, i: nat)
    requires PrintableSources(sources) && i < |sources| && sources[i] != []
    requires forall j :: 0 <= j < i ==> sources[j] == []
    ensures AllSections(sources) != []
    ensures AllSections(sources)[0] == ORPHAN_SECTION <==> BeginsWithOrphan(sources[i])
  {
    var init, last := sources[..|sources| - 1], sources[|sources| - 1];
    SectionsOfSource(sources[i]);
    if i == |init| {
      NoSections(init);
    } else {
      FirstSectionOfSources(init, i);
    }
  }

  lemma {:induction false} NoSections(sources: seq<seq<Event>>)
    requires forall j :: 0 <= j < |sources| ==> sources[j] == []
    ensures AllSections(sources) == []
  {
    if sources != [] {
      NoSections(sources[..|sources| - 1]);
    }
  }

  lemma FirstNonEmpty(sources: seq<seq<Event>>, i: nat) returns (k: nat)
    requires i < |sources| && sources[i] != []
    ensures k <= i && sources[k] != [] && forall j :: 0 <= j < k ==> sources[j] == []
  {
    k := 0;
    while sources[k] == []
      invariant k <= i && forall j :: 0 <= j < k ==> sources[j] == []
      decreases i - k
    {
      k := k + 1;
    }
  }

  lemma FirstIsOrphan(sources: seq<seq<Event>>)
    requires PrintableSources(sources)
    requires ORPHAN_SECTION in AllSections(sources)
    ensures AllSections(sources)[0] == ORPHAN_SECTION <==> OrphansFirst(sources)
  {
    OrphansOfSources(sources);
    var i :| 0 <= i < |sources| && BeginsWithOrphan(sources[i]);
    var k := FirstNonEmpty(sources, i);
    FirstSectionOfSources(sources, k);
    if OrphansFirst(sources) {
      var k' :| 0 <= k' < |sources| && BeginsWithOrphan(sources[k']) && forall j :: 0 <= j < k' ==> sources[j] == [];
      assert k' == k;
    }
  }

  lemma {:induction false} FirstOfFirstSeen(s: seq<string>)
    requires s != []
    ensures FirstSeen(s) != [] && FirstSeen(s)[0] == s[0]
  {
    if |s| > 1 {
      FirstOfFirstSeen(s[..|s| - 1]);
    }
  }

  lemma MergedOrphans(sources: seq<seq<Event>>)
    requires PrintableSources(sources)
    ensures OrphanPrintable(MergeSources(sources)) <==> OrphansFirst(sources)
  {
    var c := MergeSources(sources);
    LastSourceWins(sources);
    OrphansOfSources(sources);
    KeysHaveValues(c);
    InFirstSeen(AllSections(sources), ORPHAN_SECTION);
    if ORPHAN_SECTION in c.vals {
      FirstIsOrphan(sources);
      FirstOfFirstSeen(AllSections(sources));
      FirstOfFirstSeen(AllKeys(sources, ORPHAN_SECTION));
      assert MergedSectionMeans(SectionOf(c, ORPHAN_SECTION), sources, ORPHAN_SECTION);
    }
  }

  /** What several sources merge into can be printed and read back exactly when no later source introduces orphan
      keys: its own merge is then what reading the output gives. */
  lemma MergeRoundTrip(sources: seq<seq<Event>>, ws: string)
    requires PrintableSources(sources)
    requires IsPadding(ws)
    ensures Collect(Read(Write(MergeSources(sources), ws))).sections == MergeSources(sources) <==> OrphansFirst(sources)
  {
    MergeIsPrintable(sources);
    MergedOrphans(sources);
    RoundTrip(MergeSources(sources), ws);
  }

  /** A single source always survives. */
  lemma SingleSourceRoundTrip(source: seq<Event>, ws: string)
    requires PrintableSource(source) && IsPadding(ws)
    ensures Collect(Read(Write(MergeSources([source]), ws))).sections == MergeSources([source]) == Collect(source).sections
  {
    assert OrphansFirst([source]) by {
      if BeginsWithOrphan(source) {
        assert BeginsWithOrphan([source][0]);
      }
    }
    MergeRoundTrip([source], ws);
    assert MergeSources([source][..0]) == Empty();
    OverlayOnNothing(Collect(source).sections, Empty());
  }

  /** A second source with orphan keys: read back, they belong to the first source's last section. */
  lemma LaterOrphansAreLost(ws: string)
    requires IsPadding(ws)
    ensures var sources := [[Header("a"), Assign("k", ["v"])], [Assign("x", ["y"])]];
            Collect(Read(Write(MergeSources(sources), ws))).sections != MergeSources(sources)
  {
    var sources := [[Header("a"), Assign("k", ["v"])], [Assign("x", ["y"])]];
    assert sources[0] != [] && !BeginsWithOrphan(sources[0]) && BeginsWithOrphan(sources[1]);
    MergeRoundTrip(sources, ws);
  }

  // ----- What the text looks like -----

  /** A section with one assignment: nothing follows the equals sign if the value is empty, and the second line of a
      value stands under the first. */
  lemma OneKeyPrinted(name: string, key: string, v: Value, ws: string)
    requires name != ORPHAN_SECTION && 1 <= |v| <= 2
    ensures var head, entry := "[" + name + "]", key + ws + "=";
            Write(Collect([Header(name), Assign(key, v)]).sections, ws)
            == Unlines([head] + (if v == [""] then [entry]
                                 else if |v| == 1 then [entry + ws + v[0]]
                                 else [entry + ws + v[0], seq(|entry + ws|, i => ' ') + v[1]]) + [""])
  {
    hide ConfigLines, Collect, ValueLines, Unlines;
    OneKeyCollected(name, key, v);
    OneKeyLines(name, key, Normalized(v), ws);
    OneValueLines(key, Normalized(v), ws);
  }

  lemma OneKeyCollected(name: string, key: string, v: Value)
    ensures Collect([Header(name), Assign(key, v)]).sections == Put(Empty(), name, Put(Empty(), key, [Normalized(v)]))
  {
    var h, e := Header(name), Assign(key, v);
    assert [h, e][..1] == [h] && [h][..0] == [];
    var none: Section := Empty();
    assert Collect([h]) == Reading(Put(Empty(), name, none), Some(name));
    assert [] + [Normalized(v)] == [Normalized(v)];
  }

  lemma OneKeyLines(name: string, key: string, v: Value, ws: string)
    requires name != ORPHAN_SECTION
    ensures var c: Config := Put(Empty(), name, Put(Empty(), key, [v]));
            name in c.vals
            && c.keys == [name]
            && ConfigLines([name], c.vals, ws) == ["[" + name + "]"] + ValueLines(key, v, ws) + [""]
  {
    hide ValueLines, KeyLines;
    var d: Section := Put(Empty(), key, [v]);
    var c: Config := Put(Empty(), name, d);
    OneEntryLines(key, v, d.vals, ws);
    assert HeaderLines(name) == ["[" + name + "]"];
    OneSectionLines(name, d, c.vals, ws);
  }

  lemma OneEntryLines(key: string, v: Value, vals: map<string, seq<Value>>, ws: string)
    requires key in vals && vals[key] == [v]
    ensures SectionLines([key], vals, ws) == ValueLines(key, v, ws)
  {
    hide ValueLines;
    assert [key][1..] == [] && [v][1..] == [];
    assert KeyLines(key, [v][1..], ws) == [];
    assert SectionLines([key][1..], vals, ws) == [];
  }

  lemma OneSectionLines(name: string, d: Section, sections: map<string, Section>, ws: string)
    requires name in sections && sections[name] == d && |d.keys| == 1 && d.keys[0] in d.vals
    ensures ConfigLines([name], sections, ws) == HeaderLines(name) + SectionLines([d.keys[0]], d.vals, ws) + [""]
  {
    hide HeaderLines, SectionLines;
    assert d.keys == [d.keys[0]];
    assert [name][1..] == [];
    assert ConfigLines([], sections, ws) == [];
  }

  lemma OneValueLines(key: string, v: Value, ws: string)
    ensures v == [] ==> ValueLines(key, v, ws) == [key + ws + "="]
    ensures |v| == 1 ==> ValueLines(key, v, ws) == [key + ws + "=" + ws + v[0]]
    ensures |v| == 2 ==> ValueLines(key, v, ws) == [key + ws + "=" + ws + v[0], seq(|key + ws + "=" + ws|, i => ' ') + v[1]]
  {
    if |v| == 1 {
      assert v[1..] == [];
    } else if |v| == 2 {
      var indent := |key| + |ws| * 2 + 1;
      assert v[1..] == [v[1]] && [v[1]][1..] == [];
      assert Continuations([v[1]], indent) == [Spaces(indent) + v[1]] + Continuations([], indent);
      assert Spaces(indent) == seq(|key + ws + "=" + ws|, i => ' ');
    }
  }
}

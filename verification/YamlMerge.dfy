/** Merging YAML documents (Utils.update_nested_conf, ansible/action_plugins/merge_yaml.py), as a function on trees.
    The in-place merge of module YamlObjects is proved to compute it. */
module YamlMerge {
  import opened Common

  /** A loaded document.  Scalars are everything that is neither a list nor a dictionary. */
  datatype Yaml = Scalar(text: string) | List(items: seq<Yaml>) | Dict(entries: map<string, Yaml>)

  function Lookup(d: map<string, Yaml>, k: string): Option<Yaml> {
    if k in d then Some(d[k]) else None
  }

  /** Merges value v over what a key holds so far; None when the merge fails. */
  function MergeValue(cur: Option<Yaml>, v: Yaml, extend: bool): Option<Yaml>
    decreases v, 1
  {
    match v
    case Dict(update) =>
      (match cur
       case None => MergeDict(map[], v, extend)
       case Some(Dict(entries)) => MergeDict(entries, v, extend)
       case Some(other) => if update == map[] then cur else None)
    case _ =>
      if extend && cur.Some? && cur.value.List? then
        if v.List? then Some(List(cur.value.items + v.items)) else None
      else Some(v)
  }

  /** Merges dictionary u over the entries of conf. */
  function MergeDict(conf: map<string, Yaml>, u: Yaml, extend: bool): (r: Option<Yaml>)
    requires u.Dict?
    ensures r.Some? ==> r.value.Dict?
    decreases u, 0
  {
    if forall k | k in u.entries :: MergeValue(Lookup(conf, k), u.entries[k], extend).Some? then
      Some(Dict(map k | k in conf.Keys + u.entries.Keys ::
        if k in u.entries then MergeValue(Lookup(conf, k), u.entries[k], extend).value else conf[k]))
    else None
  }

  /** Merges dictionary b over dictionary a. */
  function Merge(a: Yaml, b: Yaml, extend: bool): (r: Option<Yaml>)
    requires a.Dict? && b.Dict?
    ensures r.Some? ==> r.value.Dict?
  {
    MergeDict(a.entries, b, extend)
  }

  /** What the sources of one task merge into: each one over the result so far, beginning with nothing. */
  function MergeAll(sources: seq<Yaml>, extend: bool): (r: Option<Yaml>)
    requires forall s :: s in sources ==> s.Dict?
    ensures r.Some? ==> r.value.Dict?
  {
    if sources == [] then Some(Dict(map[]))
    else
      var rest := MergeAll(sources[..|sources| - 1], extend);
      if rest.None? then None else Merge(rest.value, sources[|sources| - 1], extend)
  }

  lemma SameEntries(d: Yaml, e: Yaml)
    requires d.Dict? && e.Dict?
    requires d.entries.Keys == e.entries.Keys
    requires forall k :: k in d.entries ==> d.entries[k] == e.entries[k]
    ensures d == e
  {
    assert d.entries == e.entries;
  }

  // ----- The empty document is an identity -----

  lemma {:induction false} EmptyIsLeftIdentity(u: Yaml, extend: bool)
    requires u.Dict?
    ensures MergeDict(map[], u, extend) == Some(u)
    decreases u
  {
    forall k | k in u.entries
      ensures MergeValue(None, u.entries[k], extend) == Some(u.entries[k])
    {
      if u.entries[k].Dict? {
        EmptyIsLeftIdentity(u.entries[k], extend);
      }
    }
    SameEntries(MergeDict(map[], u, extend).value, u);
  }

  lemma EmptyIsRightIdentity(a: Yaml, extend: bool)
    requires a.Dict?
    ensures Merge(a, Dict(map[]), extend) == Some(a)
  {
    SameEntries(Merge(a, Dict(map[]), extend).value, a);
  }

  lemma EmptyOverAnything(cur: Option<Yaml>, extend: bool)
    ensures MergeValue(cur, Dict(map[]), extend) == if cur.None? then Some(Dict(map[])) else cur
  {
    if cur.None? {
      EmptyIsRightIdentity(Dict(map[]), extend);
    } else if cur.value.Dict? {
      EmptyIsRightIdentity(cur.value, extend);
    }
  }

  // ----- What a merge puts under a path -----

  /** What the document has under the keys of the path, one below the other. */
  function At(t: Yaml, path: seq<string>): Option<Yaml> {
    if path == [] then Some(t)
    else if t.Dict? && path[0] in t.entries then At(t.entries[path[0]], path[1..])
    else None
  }

  function AtOption(t: Option<Yaml>, path: seq<string>): Option<Yaml> {
    if t.Some? then At(t.value, path) else None
  }

  /** Along the path the document has dictionaries or nothing. */
  predicate LeavesAlone(u: Yaml, path: seq<string>) {
    u.Dict? && (path != [] && path[0] in u.entries ==> LeavesAlone(u.entries[path[0]], path[1..]))
  }

  /** What value v comes to, merged over what was there, if anything. */
  function Outcome(old_: Option<Yaml>, v: Yaml, extend: bool): Yaml {
    if extend && old_.Some? && old_.value.List? && v.List? then List(old_.value.items + v.items) else v
  }

  /** Where the update has a value that is no dictionary, the result has that value, or, extending, the list that was
      there with the update's after it. */
  lemma {:induction false} UpdateWins(cur: Option<Yaml>, v: Yaml, extend: bool, path: seq<string>)
    requires MergeValue(cur, v, extend).Some? && At(v, path).Some? && !At(v, path).value.Dict?
    ensures At(MergeValue(cur, v, extend).value, path) == Some(Outcome(AtOption(cur, path), At(v, path).value, extend))
    decreases path
  {
    if path != [] {
      if cur.Some? ==> cur.value.Dict? {
        var conf := if cur.Some? then cur.value.entries else map[];
        assert MergeValue(cur, v, extend) == MergeDict(conf, v, extend);
        UpdateWins(Lookup(conf, path[0]), v.entries[path[0]], extend, path[1..]);
      }
    }
  }

  /** Where it has nothing, nor anything but dictionaries on the way, a value that is no dictionary stays as it was. */
  lemma {:induction false} OthersStay(c: Yaml, v: Yaml, extend: bool, path: seq<string>)
    requires MergeValue(Some(c), v, extend).Some? && LeavesAlone(v, path)
    requires At(c, path).Some? && !At(c, path).value.Dict?
    ensures At(MergeValue(Some(c), v, extend).value, path) == At(c, path)
    decreases path
  {
    if path != [] {
      assert MergeValue(Some(c), v, extend) == MergeDict(c.entries, v, extend);
      if path[0] in v.entries {
        OthersStay(c.entries[path[0]], v.entries[path[0]], extend, path[1..]);
      }
    }
  }

  /** The merge of all sources has, under every path, what the last source has there, if it is no dictionary and, when
      lists are extended, does not come over a list. */
  lemma LastSourceWins(sources: seq<Yaml>, extend: bool, path: seq<string>)
    requires sources != [] && (forall s :: s in sources ==> s.Dict?) && MergeAll(sources, extend).Some?
    requires At(sources[|sources| - 1], path).Some? && !At(sources[|sources| - 1], path).value.Dict?
    ensures MergeAll(sources[..|sources| - 1], extend).Some?
    ensures var before := At(MergeAll(sources[..|sources| - 1], extend).value, path);
            && (!(extend && before.Some? && before.value.List?) ==>
                  At(MergeAll(sources, extend).value, path) == At(sources[|sources| - 1], path))
            && (extend && before.Some? && before.value.List? && At(sources[|sources| - 1], path).value.List? ==>
                  At(MergeAll(sources, extend).value, path) ==
                  Some(List(before.value.items + At(sources[|sources| - 1], path).value.items)))
  {
    var before := MergeAll(sources[..|sources| - 1], extend);
    UpdateWins(before, sources[|sources| - 1], extend, path);
  }

  // ----- When a merge fails -----

  /** Some value of v stands over one of c that it cannot be merged over: a non-empty dictionary over what is none, or,
      when lists are extended, what is no list over a list. */
  predicate ValuesClash(c: Yaml, v: Yaml, extend: bool)
    decreases v, 1
  {
    if v.Dict? then if c.Dict? then Clash(c.entries, v, extend) else v.entries != map[]
    else extend && c.List? && !v.List?
  }

  /** The values clash under some key that both have. */
  predicate Clash(conf: map<string, Yaml>, u: Yaml, extend: bool)
    requires u.Dict?
    decreases u, 0
  {
    exists k :: k in u.entries && k in conf && ValuesClash(conf[k], u.entries[k], extend)
  }

  lemma {:induction false} MergeValueFails(c: Yaml, v: Yaml, extend: bool)
    ensures MergeValue(Some(c), v, extend).None? <==> ValuesClash(c, v, extend)
    decreases v, 1
  {
    if v.Dict? && c.Dict? {
      MergeFails(c.entries, v, extend);
    }
  }

  /** A merge fails exactly when the two documents clash, which can be seen before the merge. */
  lemma {:induction false} MergeFails(conf: map<string, Yaml>, u: Yaml, extend: bool)
    requires u.Dict?
    ensures MergeDict(conf, u, extend).None? <==> Clash(conf, u, extend)
    decreases u, 0
  {
    forall k | k in u.entries
      ensures MergeValue(Lookup(conf, k), u.entries[k], extend).None? <==>
              k in conf && ValuesClash(conf[k], u.entries[k], extend)
    {
      if k in conf {
        MergeValueFails(conf[k], u.entries[k], extend);
      } else if u.entries[k].Dict? {
        EmptyIsLeftIdentity(u.entries[k], extend);
      }
    }
  }

  // ----- Without list extension, merging twice is merging once -----

  lemma {:induction false} MergeIsIdempotent(a: Yaml, b: Yaml)
    requires a.Dict? && b.Dict?
    ensures var ab := Merge(a, b, false); ab.Some? ==> Merge(ab.value, b, false) == ab
    decreases b, 0
  {
    var ab := Merge(a, b, false);
    if ab.Some? {
      forall k | k in b.entries
        ensures MergeValue(Lookup(ab.value.entries, k), b.entries[k], false) == Lookup(ab.value.entries, k)
      {
        MergeValueIsIdempotent(Lookup(a.entries, k), b.entries[k]);
      }
      SameEntries(Merge(ab.value, b, false).value, ab.value);
    }
  }

  lemma {:induction false} MergeValueIsIdempotent(cur: Option<Yaml>, v: Yaml)
    ensures var r := MergeValue(cur, v, false); r.Some? ==> MergeValue(r, v, false) == r
    decreases v, 1
  {
    if v.Dict? {
      if v.entries == map[] {
        EmptyOverAnything(cur, false);
        EmptyOverAnything(MergeValue(cur, v, false), false);
      } else {
        MergeIsIdempotent(if cur.Some? && cur.value.Dict? then cur.value else Dict(map[]), v);
      }
    }
  }

  // ----- Associativity -----

  /** The result of merging b over a and then c over that. */
  function Then(a: map<string, Yaml>, b: Yaml, c: Yaml, extend: bool): Option<Yaml>
    requires b.Dict? && c.Dict?
  {
    var ab := MergeDict(a, b, extend);
    if ab.Some? then MergeDict(ab.value.entries, c, extend) else None
  }

  /** The result of merging c over b and then that over a. */
  function Premerged(a: map<string, Yaml>, b: Yaml, c: Yaml, extend: bool): Option<Yaml>
    requires b.Dict? && c.Dict?
  {
    var bc := MergeDict(b.entries, c, extend);
    if bc.Some? then MergeDict(a, bc.value, extend) else None
  }

  function ValueThen(cur: Option<Yaml>, v: Yaml, w: Yaml, extend: bool): Option<Yaml> {
    var r := MergeValue(cur, v, extend);
    if r.Some? then MergeValue(r, w, extend) else None
  }

  function ValuePremerged(cur: Option<Yaml>, v: Yaml, w: Yaml, extend: bool): Option<Yaml> {
    var vw := MergeValue(Some(v), w, extend);
    if vw.Some? then MergeValue(cur, vw.value, extend) else None
  }

  /** Merging b and then c over a succeeds exactly when b merges over a and merging the premerged b and c over a
      succeeds, and then the two results are the same. */
  lemma {:induction false} MergeThen(a: map<string, Yaml>, b: Yaml, c: Yaml, extend: bool)
    requires b.Dict? && c.Dict?
    ensures Then(a, b, c, extend) ==
            if MergeDict(a, b, extend).Some? then Premerged(a, b, c, extend) else None
    decreases c, 0
  {
    forall k | k in b.entries && k in c.entries
      ensures KeyAssociates(a, b, c, extend, k)
    {
      ValuesAssociate(Lookup(a, k), b.entries[k], c.entries[k], extend);
    }
    forall k | k in c.entries
      ensures MergeValue(None, c.entries[k], extend) == Some(c.entries[k])
    {
      if c.entries[k].Dict? {
        EmptyIsLeftIdentity(c.entries[k], extend);
      }
    }
    KeysAssociate(a, b, c, extend);
  }

  ghost predicate KeyAssociates(a: map<string, Yaml>, b: Yaml, c: Yaml, extend: bool, k: string)
    requires b.Dict? && c.Dict? && k in b.entries && k in c.entries
  {
    ValueThen(Lookup(a, k), b.entries[k], c.entries[k], extend) ==
    if MergeValue(Lookup(a, k), b.entries[k], extend).Some?
    then ValuePremerged(Lookup(a, k), b.entries[k], c.entries[k], extend) else None
  }

  lemma KeysAssociate(a: map<string, Yaml>, b: Yaml, c: Yaml, extend: bool)
    requires b.Dict? && c.Dict?
    requires forall k :: k in b.entries && k in c.entries ==> KeyAssociates(a, b, c, extend, k)
    requires forall k :: k in c.entries ==> MergeValue(None, c.entries[k], extend) == Some(c.entries[k])
    ensures Then(a, b, c, extend) ==
            if MergeDict(a, b, extend).Some? then Premerged(a, b, c, extend) else None
  {
    var ab, bc := MergeDict(a, b, extend), MergeDict(b.entries, c, extend);
    if ab.Some? && bc.None? {
      var k :| k in c.entries && MergeValue(Lookup(b.entries, k), c.entries[k], extend).None?;
      assert KeyAssociates(a, b, c, extend, k);
      assert MergeValue(Lookup(ab.value.entries, k), c.entries[k], extend).None?;
    } else if ab.Some? {
      forall k | k in b.entries || k in c.entries
        ensures LastStepAgrees(a, ab.value, bc.value, c, extend, k)
      {
        KeyAgrees(a, b, c, extend, k);
      }
      LastStepsAgree(a, ab.value, bc.value, c, extend);
    }
  }

  /** Over key k, merging c over ab is merging bc over a. */
  ghost predicate LastStepAgrees(a: map<string, Yaml>, ab: Yaml, bc: Yaml, c: Yaml, extend: bool, k: string)
    requires ab.Dict? && bc.Dict? && c.Dict?
  {
    k in bc.entries && k in ab.entries + c.entries &&
    MergeValue(Lookup(a, k), bc.entries[k], extend) ==
    if k in c.entries then MergeValue(Lookup(ab.entries, k), c.entries[k], extend) else Some(ab.entries[k])
  }

  lemma KeyAgrees(a: map<string, Yaml>, b: Yaml, c: Yaml, extend: bool, k: string)
    requires b.Dict? && c.Dict? && (k in b.entries || k in c.entries)
    requires MergeDict(a, b, extend).Some? && MergeDict(b.entries, c, extend).Some?
    requires k in b.entries && k in c.entries ==> KeyAssociates(a, b, c, extend, k)
    requires k in c.entries ==> MergeValue(None, c.entries[k], extend) == Some(c.entries[k])
    ensures LastStepAgrees(a, MergeDict(a, b, extend).value, MergeDict(b.entries, c, extend).value, c, extend, k)
  {
  }

  lemma LastStepsAgree(a: map<string, Yaml>, ab: Yaml, bc: Yaml, c: Yaml, extend: bool)
    requires ab.Dict? && bc.Dict? && c.Dict?
    requires a.Keys <= ab.entries.Keys && c.entries.Keys <= bc.entries.Keys
    requires ab.entries.Keys + c.entries.Keys == a.Keys + bc.entries.Keys
    requires forall k :: k in a && k !in bc.entries ==> ab.entries[k] == a[k]
    requires forall k :: k in bc.entries ==> LastStepAgrees(a, ab, bc, c, extend, k)
    ensures MergeDict(ab.entries, c, extend) == MergeDict(a, bc, extend)
  {
    var left, right := MergeDict(ab.entries, c, extend), MergeDict(a, bc, extend);
    if right.None? {
      var k :| k in bc.entries && MergeValue(Lookup(a, k), bc.entries[k], extend).None?;
      assert LastStepAgrees(a, ab, bc, c, extend, k);
    } else {
      assert forall k :: k in c.entries ==> LastStepAgrees(a, ab, bc, c, extend, k);
      SameEntries(left.value, right.value);
    }
  }

  lemma {:induction false} ValuesAssociate(cur: Option<Yaml>, v: Yaml, w: Yaml, extend: bool)
    ensures ValueThen(cur, v, w, extend) ==
            if MergeValue(cur, v, extend).Some? then ValuePremerged(cur, v, w, extend) else None
    decreases w, 1
  {
    if v.Dict? && w.Dict? {
      hide MergeDict, MergeValue, ValueThen, ValuePremerged;
      MergeThen(EntriesOf(cur), v, w, extend);
      if cur.Some? && !cur.value.Dict? {
        OverNoDict(cur.value, v, w, extend);
      } else {
        OverDict(cur, v, w, extend);
      }
    } else {
      LeavesAssociate(cur, v, w, extend);
    }
  }

  function EntriesOf(cur: Option<Yaml>): map<string, Yaml> {
    if cur.Some? && cur.value.Dict? then cur.value.entries else map[]
  }

  lemma OverDict(cur: Option<Yaml>, v: Yaml, w: Yaml, extend: bool)
    requires v.Dict? && w.Dict? && (cur.Some? ==> cur.value.Dict?)
    requires Then(EntriesOf(cur), v, w, extend) ==
             if MergeDict(EntriesOf(cur), v, extend).Some? then Premerged(EntriesOf(cur), v, w, extend) else None
    ensures ValueThen(cur, v, w, extend) ==
            if MergeValue(cur, v, extend).Some? then ValuePremerged(cur, v, w, extend) else None
  {
    hide MergeDict;
  }

  lemma OverNoDict(c: Yaml, v: Yaml, w: Yaml, extend: bool)
    requires v.Dict? && w.Dict? && !c.Dict?
    ensures ValueThen(Some(c), v, w, extend) ==
            if MergeValue(Some(c), v, extend).Some? then ValuePremerged(Some(c), v, w, extend) else None
  {
    if v.entries == map[] {
      EmptyIsLeftIdentity(w, extend);
    }
  }

  lemma LeavesAssociate(cur: Option<Yaml>, v: Yaml, w: Yaml, extend: bool)
    requires !v.Dict? || !w.Dict?
    ensures ValueThen(cur, v, w, extend) ==
            if MergeValue(cur, v, extend).Some? then ValuePremerged(cur, v, w, extend) else None
  {
    if w.Dict? {
      EmptyOverAnything(MergeValue(cur, v, extend), extend);
      EmptyOverAnything(Some(v), extend);
      EmptyOverAnything(cur, extend);
    } else if extend && cur.Some? && cur.value.List? && v.List? && w.List? {
      assert cur.value.items + v.items + w.items == cur.value.items + (v.items + w.items);
    }
  }

  /** Merging b and then c over a fails when b clashes with a, and is otherwise merging the premerged b and c over a,
      failures included.  So premerging changes the outcome exactly when it hides a clash. */
  lemma MergeIsAssociative(a: map<string, Yaml>, b: Yaml, c: Yaml, extend: bool)
    requires b.Dict? && c.Dict?
    ensures Then(a, b, c, extend) == if Clash(a, b, extend) then None else Premerged(a, b, c, extend)
    ensures Then(a, b, c, extend) == Premerged(a, b, c, extend) <==>
            !Clash(a, b, extend) || Premerged(a, b, c, extend).None?
  {
    MergeThen(a, b, c, extend);
    MergeFails(a, b, extend);
  }

  /** The premerged sources may merge where one after the other they do not: a scalar hides the clash. */
  lemma PremergingHidesAClash(extend: bool)
    ensures var a, b, c := map["k" := Scalar("1")], Dict(map["k" := Dict(map["x" := Scalar("2")])]),
                           Dict(map["k" := Scalar("3")]);
            Clash(a, b, extend) && Then(a, b, c, extend).None? && Premerged(a, b, c, extend) == Some(c)
  {
    var a, c := map["k" := Scalar("1")], Dict(map["k" := Scalar("3")]);
    var inner := Dict(map["x" := Scalar("2")]);
    var b := Dict(map["k" := inner]);
    assert inner.entries["x"] == Scalar("2") && b.entries["k"] == inner;
    assert MergeValue(Lookup(a, "k"), b.entries["k"], extend).None?;
    assert MergeValue(Lookup(b.entries, "k"), c.entries["k"], extend) == Some(Scalar("3"));
    assert MergeDict(b.entries, c, extend) == Some(c) by {
      SameEntries(MergeDict(b.entries, c, extend).value, c);
    }
    assert MergeValue(Lookup(a, "k"), c.entries["k"], extend) == Some(Scalar("3"));
    SameEntries(MergeDict(a, c, extend).value, c);
    MergeFails(a, b, extend);
  }

  // ----- Many sources -----

  /** The sources of a task can be merged in two batches: when the second batch merges on its own, the whole merge
      is the second batch's result over the first's; and it fails unless both batches merge. */
  lemma {:induction false} BatchesMerge(first: seq<Yaml>, second: seq<Yaml>, extend: bool)
    requires forall s :: s in first + second ==> s.Dict?
    ensures forall s :: s in first ==> s.Dict?
    ensures forall s :: s in second ==> s.Dict?
    ensures var whole, one, two := MergeAll(first + second, extend), MergeAll(first, extend), MergeAll(second, extend);
            && (whole.Some? ==> one.Some? && two.Some?)
            && (whole.Some? ==> whole == Merge(one.value, two.value, extend))
  {
    assert forall s :: s in first ==> s in first + second;
    assert forall s :: s in second ==> s in first + second;
    if second == [] {
      assert first + second == first;
      var one := MergeAll(first, extend);
      if one.Some? {
        EmptyIsRightIdentity(one.value, extend);
      }
    } else {
      var init, c := second[..|second| - 1], second[|second| - 1];
      assert (first + second)[..|first + second| - 1] == first + init;
      assert forall s :: s in first + init ==> s in first + second;
      BatchesMerge(first, init, extend);
      var whole, one, b := MergeAll(first + second, extend), MergeAll(first, extend), MergeAll(init, extend);
      if whole.Some? {
        MergeThen(one.value.entries, b.value, c, extend);
      }
    }
  }
}

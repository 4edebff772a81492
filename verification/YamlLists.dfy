/** What becomes of lists that are stored more than once, when YAML documents are merged in place
    (Utils.update_nested_conf, ansible/action_plugins/merge_yaml.py).  A list is an object that is extended in place, so
    where a document stores it twice, both places grow.

    A sketch is a document in which lists are references.  The main results: one merge in place gives what merging the
    documents gives exactly when it is harmless (RightExactlyIfHarmless), and the merge of any number of sources does
    exactly when no place is harmed (RunIsRight). */
module YamlLists {
  import opened Common
  import opened YamlMerge

  /** A Python list.  Its elements are values: the merge never looks into them. */
  class ListObject {
    var items: seq<Yaml>

    constructor (items: seq<Yaml>)
      ensures this.items == items
    {
      this.items := items;
    }
  }

  datatype Sketch = ScalarOf(text: string) | ListOf(list: ListObject) | DictOf(kids: map<string, Sketch>)

  function Sub(kids: map<string, Sketch>, k: string): Option<Sketch> {
    if k in kids then Some(kids[k]) else None
  }

  ghost function ListsIn(s: Sketch): set<ListObject> {
    match s
    case ScalarOf(_) => {}
    case ListOf(list) => {list}
    case DictOf(kids) => set k, l | k in kids && l in ListsIn(kids[k]) :: l
  }

  /** What is in the lists. */
  type Contents = map<ListObject, seq<Yaml>>

  function In(f: Contents, l: ListObject): seq<Yaml> {
    if l in f then f[l] else []
  }

  /** The document that the sketch stands for. */
  function Tree(s: Sketch, f: Contents): Yaml {
    match s
    case ScalarOf(text) => Scalar(text)
    case ListOf(list) => List(In(f, list))
    case DictOf(kids) => Dict(map k | k in kids :: Tree(kids[k], f))
  }

  function TreeAt(s: Option<Sketch>, f: Contents): Option<Yaml> {
    if s.Some? then Some(Tree(s.value, f)) else None
  }

  // ----- The sketch of the result -----

  /** The sketch after value v has been merged over what a key holds: a list that is extended stays the same object. */
  function PlanValue(cur: Option<Sketch>, v: Sketch, extend: bool): Option<Sketch>
    decreases v, 1
  {
    match v
    case DictOf(update) =>
      (match cur
       case None => PlanDict(map[], v, extend)
       case Some(DictOf(kids)) => PlanDict(kids, v, extend)
       case Some(other) => if update == map[] then cur else None)
    case _ =>
      if extend && cur.Some? && cur.value.ListOf? then if v.ListOf? then cur else None else Some(v)
  }

  function PlanDict(conf: map<string, Sketch>, u: Sketch, extend: bool): (r: Option<Sketch>)
    requires u.DictOf?
    ensures r.Some? ==> r.value.DictOf?
    decreases u, 0
  {
    if forall k | k in u.kids :: PlanValue(Sub(conf, k), u.kids[k], extend).Some? then
      Some(DictOf(map k | k in conf.Keys + u.kids.Keys ::
        if k in u.kids then PlanValue(Sub(conf, k), u.kids[k], extend).value else conf[k]))
    else None
  }

  lemma SameKids(r: Sketch, s: Sketch)
    requires r.DictOf? && s.DictOf? && r.kids.Keys == s.kids.Keys
    requires forall k :: k in r.kids ==> r.kids[k] == s.kids[k]
    ensures r == s
  {
    assert r.kids == s.kids;
  }

  /** Over nothing, a dictionary is copied. */
  lemma {:induction false} PlanOverNothing(u: Sketch, extend: bool)
    requires u.DictOf?
    ensures PlanDict(map[], u, extend) == Some(u)
    decreases u
  {
    forall k | k in u.kids
      ensures PlanValue(None, u.kids[k], extend) == Some(u.kids[k])
    {
      if u.kids[k].DictOf? {
        PlanOverNothing(u.kids[k], extend);
      }
    }
    SameKids(PlanDict(map[], u, extend).value, u);
  }

  /** Every list of the result was in one of the two. */
  lemma {:induction false} PlanLists(cur: Option<Sketch>, v: Sketch, extend: bool)
    requires PlanValue(cur, v, extend).Some?
    ensures ListsIn(PlanValue(cur, v, extend).value) <= (if cur.Some? then ListsIn(cur.value) else {}) + ListsIn(v)
    decreases v
  {
    if v.DictOf? && (cur.Some? ==> cur.value.DictOf?) {
      var conf := if cur.Some? then cur.value.kids else map[];
      var r := PlanValue(cur, v, extend).value;
      forall k | k in r.kids
        ensures ListsIn(r.kids[k]) <= (if k in conf then ListsIn(conf[k]) else {}) + if k in v.kids then ListsIn(v.kids[k]) else {}
      {
        if k in v.kids {
          PlanLists(Sub(conf, k), v.kids[k], extend);
        }
      }
    }
  }

  // ----- Documents of the same kinds -----

  /** The document and the sketch have scalars, lists and dictionaries in the same places. */
  ghost predicate SameKinds(t: Yaml, s: Sketch) {
    match s
    case ScalarOf(text) => t == Scalar(text)
    case ListOf(_) => t.List?
    case DictOf(kids) => t.Dict? && t.entries.Keys == kids.Keys && forall k :: k in kids ==> SameKinds(t.entries[k], kids[k])
  }

  ghost predicate SameKindsAt(t: Option<Yaml>, s: Option<Sketch>) {
    t.Some? == s.Some? && (s.Some? ==> SameKinds(t.value, s.value))
  }

  lemma {:induction false} TreeHasKinds(s: Sketch, f: Contents)
    ensures SameKinds(Tree(s, f), s)
  {
    if s.DictOf? {
      forall k | k in s.kids
        ensures SameKinds(Tree(s.kids[k], f), s.kids[k])
      {
        TreeHasKinds(s.kids[k], f);
      }
    }
  }

  /** Whether a merge succeeds, and the kinds of its result, depend on the kinds alone. */
  lemma {:induction false} KindsMerge(t: Option<Yaml>, u: Yaml, cur: Option<Sketch>, v: Sketch, extend: bool)
    requires SameKindsAt(t, cur) && SameKinds(u, v)
    ensures SameKindsAt(MergeValue(t, u, extend), PlanValue(cur, v, extend))
    decreases v, 1
  {
    if v.DictOf? && (cur.Some? ==> cur.value.DictOf?) {
      KindsMergeDict(EntriesOf(t), u, if cur.Some? then cur.value.kids else map[], v, extend);
    }
  }

  lemma {:induction false} KindsMergeDict(t: map<string, Yaml>, u: Yaml, conf: map<string, Sketch>, v: Sketch, extend: bool)
    requires SameKinds(Dict(t), DictOf(conf)) && v.DictOf? && SameKinds(u, v)
    ensures SameKindsAt(MergeDict(t, u, extend), PlanDict(conf, v, extend))
    decreases v, 0
  {
    forall k | k in v.kids
      ensures SameKindsAt(MergeValue(Lookup(t, k), u.entries[k], extend), PlanValue(Sub(conf, k), v.kids[k], extend))
    {
      KindsMerge(Lookup(t, k), u.entries[k], Sub(conf, k), v.kids[k], extend);
    }
  }

  // ----- Places -----

  type Path = seq<string>

  /** The list at the place. */
  function Held(s: Sketch, path: Path): Option<ListObject> {
    if path == [] then if s.ListOf? then Some(s.list) else None
    else if s.DictOf? && path[0] in s.kids then Held(s.kids[path[0]], path[1..]) else None
  }

  /** The elements of the list at the place. */
  function Items(t: Yaml, path: Path): Option<seq<Yaml>> {
    if path == [] then if t.List? then Some(t.items) else None
    else if t.Dict? && path[0] in t.entries then Items(t.entries[path[0]], path[1..]) else None
  }

  function Below(v: Option<Sketch>, k: string): Option<Sketch> {
    if v.Some? && v.value.DictOf? then Sub(v.value.kids, k) else None
  }

  /** The list that is kept at the place when v, if anything, is merged over c, and the list of v that extends it there,
      if any. */
  function Kept(c: Sketch, v: Option<Sketch>, path: Path): Option<(ListObject, Option<ListObject>)> {
    if path == [] then
      if c.ListOf? then Some((c.list, if v.Some? && v.value.ListOf? then Some(v.value.list) else None)) else None
    else if c.DictOf? && path[0] in c.kids && (v.None? || v.value.DictOf?) then
      Kept(c.kids[path[0]], Below(v, path[0]), path[1..])
    else None
  }

  /** What extends the list kept at the place. */
  function More(c: Sketch, v: Option<Sketch>, path: Path, f: Contents): seq<Yaml>
    requires Kept(c, v, path).Some?
  {
    var source := Kept(c, v, path).value.1;
    if source.Some? then In(f, source.value) else []
  }

  /** Places p and q keep one list, and something is appended to it at p. */
  predicate Shares(c: Sketch, v: Sketch, f: Contents, p: Path, q: Path) {
    && Kept(c, Some(v), p).Some? && Kept(c, Some(v), q).Some?
    && Kept(c, Some(v), p).value.0 == Kept(c, Some(v), q).value.0
    && More(c, Some(v), p, f) != []
  }

  /** The list at place q grows by what is meant for another place. */
  ghost predicate Joined(c: Sketch, v: Sketch, f: Contents, q: Path) {
    exists p :: p != q && Shares(c, v, f, p, q)
  }

  /** No list that something is appended to is kept at a second place. */
  ghost predicate Harmless(c: Sketch, v: Sketch, f: Contents) {
    forall p, q :: Shares(c, v, f, p, q) ==> p == q
  }

  lemma KeptBelow(c: Sketch, v: Option<Sketch>, k: string, path: Path)
    requires c.DictOf? && k in c.kids && (v.None? || v.value.DictOf?)
    ensures Kept(c, v, [k] + path) == Kept(c.kids[k], Below(v, k), path)
  {
    assert ([k] + path)[1..] == path;
  }

  lemma {:induction false} KeptIsHeld(c: Sketch, v: Option<Sketch>, path: Path)
    ensures v.None? ==> Kept(c, v, path) == if Held(c, path).Some? then Some((Held(c, path).value, None)) else None
    ensures Kept(c, v, path).Some? ==> Held(c, path) == Some(Kept(c, v, path).value.0)
  {
    if path != [] && c.DictOf? && path[0] in c.kids {
      KeptIsHeld(c.kids[path[0]], Below(v, path[0]), path[1..]);
    }
  }

  lemma {:induction false} HeldIsIn(s: Sketch, path: Path)
    requires Held(s, path).Some?
    ensures Held(s, path).value in ListsIn(s)
  {
    if path != [] {
      HeldIsIn(s.kids[path[0]], path[1..]);
    }
  }

  lemma {:induction false} ItemsOfTree(s: Sketch, f: Contents, path: Path)
    ensures Items(Tree(s, f), path) == if Held(s, path).Some? then Some(In(f, Held(s, path).value)) else None
  {
    if path != [] && s.DictOf? && path[0] in s.kids {
      ItemsOfTree(s.kids[path[0]], f, path[1..]);
    }
  }

  /** The list at the place has the elements that the document has there. */
  predicate AgreeAt(s: Sketch, t: Yaml, f: Contents, path: Path) {
    Held(s, path).Some? ==> Items(t, path) == Some(In(f, Held(s, path).value))
  }

  /** The sketch stands for a document of the same kinds exactly when all lists agree with it. */
  lemma {:induction false} ListsTell(s: Sketch, t: Yaml, f: Contents)
    requires SameKinds(t, s)
    ensures Tree(s, f) == t <==> forall path :: AgreeAt(s, t, f, path)
  {
    if Tree(s, f) == t {
      forall path
        ensures AgreeAt(s, t, f, path)
      {
        ItemsOfTree(s, f, path);
      }
    }
    if forall path :: AgreeAt(s, t, f, path) {
      AgreeingTrees(s, t, f);
    }
  }

  lemma {:induction false} AgreeingTrees(s: Sketch, t: Yaml, f: Contents)
    requires SameKinds(t, s) && forall path :: AgreeAt(s, t, f, path)
    ensures Tree(s, f) == t
  {
    if s.DictOf? {
      forall k | k in s.kids
        ensures Tree(s.kids[k], f) == t.entries[k]
      {
        forall path
          ensures AgreeAt(s.kids[k], t.entries[k], f, path)
        {
          assert ([k] + path)[1..] == path;
          assert AgreeAt(s, t, f, [k] + path);
        }
        AgreeingTrees(s.kids[k], t.entries[k], f);
      }
      SameEntries(Tree(s, f), t);
    } else {
      assert AgreeAt(s, t, f, []);
    }
  }

  /** The lists of v have the same contents. */
  ghost predicate Unchanged(v: Sketch, f: Contents, g: Contents) {
    forall l :: l in ListsIn(v) ==> In(f, l) == In(g, l)
  }

  lemma UnchangedTree(v: Sketch, f: Contents, g: Contents)
    requires Unchanged(v, f, g)
    ensures Tree(v, f) == Tree(v, g)
  {
    TreeHasKinds(v, g);
    forall path
      ensures AgreeAt(v, Tree(v, g), f, path)
    {
      ItemsOfTree(v, g, path);
      if Held(v, path).Some? {
        HeldIsIn(v, path);
      }
    }
    AgreeingTrees(v, Tree(v, g), f);
  }

  // ----- What a merge puts at a place -----

  function Both(a: Option<seq<Yaml>>, b: Option<seq<Yaml>>): Option<seq<Yaml>> {
    if a.Some? && b.Some? then Some(a.value + b.value) else a
  }

  /** The documents are of the sketches' kinds, and the merge that is planned extends lists. */
  ghost predicate Merging(c: Option<Sketch>, v: Sketch, t: Option<Yaml>, u: Yaml) {
    SameKindsAt(t, c) && SameKinds(u, v) && PlanValue(c, v, true).Some? && MergeValue(t, u, true).Some?
  }

  /** A place of the result keeps the list that it had, and the merge of the documents appends there what v has; or it
      has v's list. */
  ghost predicate MergedAt(c: Option<Sketch>, v: Sketch, t: Option<Yaml>, u: Yaml, path: Path)
    requires Merging(c, v, t, u)
  {
    var r, m := PlanValue(c, v, true).value, MergeValue(t, u, true).value;
    if c.Some? && Kept(c.value, Some(v), path).Some? then
      && t.Some? && Held(r, path) == Some(Kept(c.value, Some(v), path).value.0) == Held(c.value, path)
      && Kept(c.value, Some(v), path).value.1 == Held(v, path) && Held(v, path).Some? == Items(u, path).Some?
      && Items(t.value, path).Some?
      && Items(m, path) == Both(Items(t.value, path), Items(u, path))
    else Held(r, path) == Held(v, path) && Items(m, path) == Items(u, path)
  }

  lemma {:induction false} PlaceAfter(c: Option<Sketch>, v: Sketch, t: Option<Yaml>, u: Yaml, path: Path)
    requires Merging(c, v, t, u)
    ensures MergedAt(c, v, t, u, path)
    decreases path
  {
    if c.None? {
      if v.DictOf? {
        PlanOverNothing(v, true);
        EmptyIsLeftIdentity(u, true);
      }
    } else if c.value.DictOf? && v.DictOf? && path != [] {
      PlaceBelow(c.value, v, t.value, u, path);
    } else {
      LeafAfter(c.value, v, t.value, u, path);
    }
  }

  lemma LeafAfter(c: Sketch, v: Sketch, t: Yaml, u: Yaml, path: Path)
    requires Merging(Some(c), v, Some(t), u) && !(c.DictOf? && v.DictOf? && path != [])
    ensures MergedAt(Some(c), v, Some(t), u, path)
  {
    KindsHold(t, c, path);
    KindsHold(u, v, path);
    if v.DictOf? && !c.DictOf? {
      assert u.entries == map[] && v.kids == map[];
    }
  }

  lemma PlaceBelow(c: Sketch, v: Sketch, t: Yaml, u: Yaml, path: Path)
    requires Merging(Some(c), v, Some(t), u) && c.DictOf? && v.DictOf? && path != []
    ensures MergedAt(Some(c), v, Some(t), u, path)
    decreases path, 0
  {
    var k, rest := path[0], path[1..];
    assert PlanDict(c.kids, v, true).Some? && MergeDict(t.entries, u, true).Some?;
    if k in v.kids {
      PlaceAfter(Sub(c.kids, k), v.kids[k], Lookup(t.entries, k), u.entries[k], rest);
    } else if k in c.kids {
      KeptIsHeld(c.kids[k], None, rest);
      KindsHold(t.entries[k], c.kids[k], rest);
    }
  }

  lemma {:induction false} KindsHold(t: Yaml, s: Sketch, path: Path)
    requires SameKinds(t, s)
    ensures Items(t, path).Some? <==> Held(s, path).Some?
  {
    if path != [] && s.DictOf? && path[0] in s.kids {
      KindsHold(t.entries[path[0]], s.kids[path[0]], path[1..]);
    }
  }

  lemma MergeSucceeds(cur: Option<Sketch>, v: Sketch, f: Contents, extend: bool)
    requires PlanValue(cur, v, extend).Some?
    ensures MergeValue(TreeAt(cur, f), Tree(v, f), extend).Some?
  {
    if cur.Some? {
      TreeHasKinds(cur.value, f);
    }
    TreeHasKinds(v, f);
    KindsMerge(TreeAt(cur, f), Tree(v, f), cur, v, extend);
  }

  lemma SameEntriesExactly(r: Sketch, m: Yaml, g: Contents)
    requires r.DictOf? && m.Dict? && r.kids.Keys == m.entries.Keys
    ensures Tree(r, g) == m <==> forall k :: k in r.kids ==> Tree(r.kids[k], g) == m.entries[k]
  {
    assert forall k :: k in r.kids ==> Tree(r, g).entries[k] == Tree(r.kids[k], g);
    if forall k :: k in r.kids ==> Tree(r.kids[k], g) == m.entries[k] {
      SameEntries(Tree(r, g), m);
    }
  }

  /** Without list extension no list changes, and the result is always right. */
  lemma {:induction false} AlwaysRight(cur: Option<Sketch>, v: Sketch, f: Contents)
    requires PlanValue(cur, v, false).Some?
    ensures MergeValue(TreeAt(cur, f), Tree(v, f), false) == Some(Tree(PlanValue(cur, v, false).value, f))
    decreases v
  {
    MergeSucceeds(cur, v, f, false);
    if v.DictOf? && (cur.Some? ==> cur.value.DictOf?) {
      var conf := if cur.Some? then cur.value.kids else map[];
      var r, m := PlanValue(cur, v, false).value, MergeValue(TreeAt(cur, f), Tree(v, f), false).value;
      forall k | k in r.kids
        ensures k in m.entries && Tree(r.kids[k], f) == m.entries[k]
      {
        if k in v.kids {
          AlwaysRight(Sub(conf, k), v.kids[k], f);
        }
      }
      SameEntriesExactly(r, m, f);
    }
  }

  // ----- The extensions that a merge makes -----

  /** One call of extend: at the place, items have been appended to the list. */
  datatype Extension = Extension(path: Path, list: ListObject, items: seq<Yaml>)

  /** All that has been appended to the list, in order. */
  function Appended(log: seq<Extension>, l: ListObject): seq<Yaml> {
    if log == [] then []
    else
      var init, last := log[..|log| - 1], log[|log| - 1];
      Appended(init, l) + if last.list == l then last.items else []
  }

  /** The place is one where a list of v extends a list that is kept. */
  predicate IsTarget(c: Option<Sketch>, v: Sketch, path: Path) {
    c.Some? && Kept(c.value, Some(v), path).Some? && Kept(c.value, Some(v), path).value.1.Some?
  }

  predicate Extends(c: Option<Sketch>, v: Sketch, f: Contents, e: Extension) {
    IsTarget(c, v, e.path) && e.list == Kept(c.value, Some(v), e.path).value.0 && e.items == More(c.value, Some(v), e.path, f)
  }

  ghost predicate Logged(log: seq<Extension>, path: Path) {
    exists i :: 0 <= i < |log| && log[i].path == path
  }

  /** The log has one extension for each of the places, and no other. */
  ghost predicate IsLog(log: seq<Extension>, c: Option<Sketch>, v: Sketch, f: Contents, extend: bool) {
    && (!extend ==> log == [])
    && (forall i :: 0 <= i < |log| ==> Extends(c, v, f, log[i]))
    && (forall i, j :: 0 <= i < j < |log| ==> log[i].path != log[j].path)
    && (extend ==> forall path :: IsTarget(c, v, path) ==> Logged(log, path))
  }

  lemma {:induction false} NothingAppended(log: seq<Extension>, l: ListObject)
    requires forall i :: 0 <= i < |log| && log[i].list == l ==> log[i].items == []
    ensures Appended(log, l) == []
  {
    if log != [] {
      NothingAppended(log[..|log| - 1], l);
    }
  }

  /** All that is appended to the list is what one extension appends. */
  lemma {:induction false} OneAppended(log: seq<Extension>, l: ListObject, i: nat)
    requires i < |log| && log[i].list == l
    requires forall j :: 0 <= j < |log| && j != i && log[j].list == l ==> log[j].items == []
    ensures Appended(log, l) == log[i].items
  {
    var init, last := log[..|log| - 1], log[|log| - 1];
    if i == |log| - 1 {
      NothingAppended(init, l);
      assert [] + last.items == last.items;
    } else {
      OneAppended(init, l, i);
      assert log[i].items + [] == log[i].items;
    }
  }

  lemma {:induction false} AppendedIsLong(log: seq<Extension>, l: ListObject, i: nat)
    requires i < |log| && log[i].list == l
    ensures |Appended(log, l)| >= |log[i].items|
  {
    if i < |log| - 1 {
      AppendedIsLong(log[..|log| - 1], l, i);
    }
  }

  lemma {:induction false} AppendedIsLonger(log: seq<Extension>, l: ListObject, i: nat, j: nat)
    requires i < j < |log| && log[i].list == l == log[j].list
    ensures |Appended(log, l)| >= |log[i].items| + |log[j].items|
  {
    if j == |log| - 1 {
      AppendedIsLong(log[..|log| - 1], l, i);
    } else {
      AppendedIsLonger(log[..|log| - 1], l, i, j);
    }
  }

  /** Contents g come from contents f by the extensions of the log. */
  ghost predicate Grown(c: Sketch, f: Contents, g: Contents, log: seq<Extension>) {
    forall l :: l in ListsIn(c) ==> In(g, l) == In(f, l) + Appended(log, l)
  }

  lemma {:induction false} KeptIsIn(c: Sketch, v: Option<Sketch>, path: Path)
    requires Kept(c, v, path).Some?
    ensures Kept(c, v, path).value.0 in ListsIn(c)
  {
    if path != [] {
      KeptIsIn(c.kids[path[0]], Below(v, path[0]), path[1..]);
    }
  }
  /** Merging v over c in place appends to a kept list at least what v has for its place, and just that exactly when
      nothing is meant for another place. */
  lemma AppendedAt(c: Sketch, v: Sketch, f: Contents, log: seq<Extension>, q: Path)
    requires IsLog(log, Some(c), v, f, true) && Kept(c, Some(v), q).Some?
    ensures |Appended(log, Kept(c, Some(v), q).value.0)| >= |More(c, Some(v), q, f)|
    ensures Appended(log, Kept(c, Some(v), q).value.0) == More(c, Some(v), q, f) <==> !Joined(c, v, f, q)
  {
    hide Shares, IsLog;
    if Joined(c, v, f, q) {
      var p :| p != q && Shares(c, v, f, p, q);
      JoinedAppends(c, v, f, log, p, q);
      assert |Appended(log, Kept(c, Some(v), q).value.0)| != |More(c, Some(v), q, f)|;
    } else {
      AloneAppends(c, v, f, log, q);
    }
  }

  lemma AloneAppends(c: Sketch, v: Sketch, f: Contents, log: seq<Extension>, q: Path)
    requires IsLog(log, Some(c), v, f, true) && Kept(c, Some(v), q).Some? && !Joined(c, v, f, q)
    ensures Appended(log, Kept(c, Some(v), q).value.0) == More(c, Some(v), q, f)
  {
    var l := Kept(c, Some(v), q).value.0;
    forall j | 0 <= j < |log| && log[j].list == l && log[j].path != q
      ensures log[j].items == []
    {
      assert Extends(Some(c), v, f, log[j]);
      assert Shares(c, v, f, log[j].path, q) <==> log[j].items != [];
    }
    if IsTarget(Some(c), v, q) {
      assert Logged(log, q);
      var i :| 0 <= i < |log| && log[i].path == q;
      assert Extends(Some(c), v, f, log[i]);
      OneAppended(log, l, i);
    } else {
      assert forall j :: 0 <= j < |log| ==> Extends(Some(c), v, f, log[j]);
      NothingAppended(log, l);
    }
  }

  lemma JoinedAppends(c: Sketch, v: Sketch, f: Contents, log: seq<Extension>, p: Path, q: Path)
    requires IsLog(log, Some(c), v, f, true) && Shares(c, v, f, p, q) && p != q
    ensures |Appended(log, Kept(c, Some(v), q).value.0)| > |More(c, Some(v), q, f)|
  {
    hide Kept, Appended;
    var l := Kept(c, Some(v), q).value.0;
    assert IsTarget(Some(c), v, p) && Logged(log, p);
    var i :| 0 <= i < |log| && log[i].path == p;
    assert Extends(Some(c), v, f, log[i]);
    AppendedIsLong(log, l, i);
    if IsTarget(Some(c), v, q) {
      assert Logged(log, q);
      var j :| 0 <= j < |log| && log[j].path == q;
      assert Extends(Some(c), v, f, log[j]);
      AppendedIsLonger(log, l, if i < j then i else j, if i < j then j else i);
    }
  }

  // ----- When the result is right -----

  /** By the extensions of the log, contents f became g while v, whose lists are others, was merged over c. */
  ghost predicate Step(c: Sketch, v: Sketch, f: Contents, g: Contents, log: seq<Extension>) {
    && c.DictOf? && v.DictOf? && PlanDict(c.kids, v, true).Some?
    && IsLog(log, Some(c), v, f, true) && Grown(c, f, g, log) && Unchanged(v, f, g)
  }

  /** The list at the place has as many elements as the document has there, or more. */
  predicate LongAt(s: Sketch, t: Yaml, f: Contents, path: Path) {
    Held(s, path).Some? ==> Items(t, path).Some? && |In(f, Held(s, path).value)| >= |Items(t, path).value|
  }

  /** While the objects are merged, a document is merged: t over c, with what v is for. */
  lemma PlaceStep(c: Sketch, v: Sketch, f: Contents, g: Contents, log: seq<Extension>, t: Yaml, q: Path)
    requires Step(c, v, f, g, log) && t.Dict? && SameKinds(t, c) && LongAt(c, t, f, q)
    ensures Merge(t, Tree(v, f), true).Some?
    ensures var r, m := PlanDict(c.kids, v, true).value, Merge(t, Tree(v, f), true).value;
            && LongAt(r, m, g, q)
            && (AgreeAt(r, m, g, q) <==> (Kept(c, Some(v), q).Some? ==> AgreeAt(c, t, f, q) && !Joined(c, v, f, q)))
  {
    hide PlanDict, MergeDict;
    var u := Tree(v, f);
    TreeHasKinds(v, f);
    KindsMerge(Some(t), u, Some(c), v, true);
    PlaceAfter(Some(c), v, Some(t), u, q);
    ItemsOfTree(v, f, q);
    if Kept(c, Some(v), q).Some? {
      var l := Kept(c, Some(v), q).value.0;
      KeptIsHeld(c, Some(v), q);
      HeldIsIn(c, q);
      AppendedAt(c, v, f, log, q);
      assert Items(t, q).value + [] == Items(t, q).value;
      BothAppended(In(f, l), Appended(log, l), Items(t, q).value, More(c, Some(v), q, f));
    } else if Held(v, q).Some? {
      HeldIsIn(v, q);
    }
  }

  lemma BothAppended<T>(a: seq<T>, b: seq<T>, c: seq<T>, d: seq<T>)
    requires |a| >= |c| && |b| >= |d|
    ensures a + b == c + d <==> a == c && b == d
  {
    if a + b == c + d {
      assert |a| == |c|;
      assert a == (a + b)[..|a|] && c == (c + d)[..|c|];
      assert b == (a + b)[|a|..] && d == (c + d)[|c|..];
    }
  }

  /** Merging v over c in place, by the extensions of the log, gives what merging the documents gives exactly when it is
      harmless. */
  lemma RightExactlyIfHarmless(c: Sketch, v: Sketch, f: Contents, g: Contents, log: seq<Extension>)
    requires Step(c, v, f, g, log)
    ensures Merge(Tree(c, f), Tree(v, f), true).Some?
    ensures Tree(PlanDict(c.kids, v, true).value, g) == Merge(Tree(c, f), Tree(v, f), true).value <==> Harmless(c, v, f)
  {
    hide PlanDict, MergeDict, IsLog;
    var t := Tree(c, f);
    TreeHasKinds(c, f);
    forall q
      ensures AgreeAt(c, t, f, q) && LongAt(c, t, f, q)
    {
      ItemsOfTree(c, f, q);
    }
    StepKinds(c, v, f, t);
    var r, m := PlanDict(c.kids, v, true).value, Merge(t, Tree(v, f), true).value;
    forall q
      ensures AgreeAt(r, m, g, q) <==> !Joined(c, v, f, q)
    {
      PlaceStep(c, v, f, g, log, t, q);
    }
    ListsTell(r, m, g);
    assert (forall q :: AgreeAt(r, m, g, q)) <==> forall q :: !Joined(c, v, f, q);
    HarmlessMeans(c, v, f);
  }

  lemma HarmlessMeans(c: Sketch, v: Sketch, f: Contents)
    ensures Harmless(c, v, f) <==> forall q :: !Joined(c, v, f, q)
  {
    hide Shares;
    if p, q :| Shares(c, v, f, p, q) && p != q {
      assert Joined(c, v, f, q);
    }
  }

  lemma StepKinds(c: Sketch, v: Sketch, f: Contents, t: Yaml)
    requires c.DictOf? && v.DictOf? && PlanDict(c.kids, v, true).Some? && t.Dict? && SameKinds(t, c)
    ensures Merge(t, Tree(v, f), true).Some?
    ensures SameKinds(Merge(t, Tree(v, f), true).value, PlanDict(c.kids, v, true).value)
  {
    TreeHasKinds(v, f);
    KindsMergeDict(t.entries, Tree(v, f), c.kids, v, true);
  }


  // ----- One key after the other -----

  /** The log has the extensions for all keys but those in rest. */
  ghost predicate IsLogBut(log: seq<Extension>, c: Sketch, v: Sketch, f: Contents, extend: bool, rest: set<string>) {
    && (!extend ==> log == [])
    && (forall i :: 0 <= i < |log| ==> Extends(Some(c), v, f, log[i]) && log[i].path != [] && log[i].path[0] !in rest)
    && (forall i, j :: 0 <= i < j < |log| ==> log[i].path != log[j].path)
    && (extend ==> forall path :: IsTarget(Some(c), v, path) && path != [] && path[0] !in rest ==> Logged(log, path))
  }

  /** The extensions of a value, seen from the dictionary that has it under k. */
  function Under(k: string, log: seq<Extension>): (r: seq<Extension>)
    ensures |r| == |log|
    ensures forall i :: 0 <= i < |log| ==> r[i] == Extension([k] + log[i].path, log[i].list, log[i].items)
  {
    seq(|log|, i requires 0 <= i < |log| => Extension([k] + log[i].path, log[i].list, log[i].items))
  }

  lemma {:induction false} AppendedUnder(log: seq<Extension>, k: string, sub: seq<Extension>, l: ListObject)
    ensures Appended(log + Under(k, sub), l) == Appended(log, l) + Appended(sub, l)
    decreases sub
  {
    if sub == [] {
      assert log + Under(k, sub) == log && Appended(log, l) + [] == Appended(log, l);
    } else {
      var init, last := sub[..|sub| - 1], sub[|sub| - 1];
      var all := log + Under(k, sub);
      assert all[..|all| - 1] == log + Under(k, init);
      AppendedUnder(log, k, init, l);
    }
  }

  lemma LogBegins(c: Sketch, v: Sketch, f: Contents, extend: bool)
    requires c.DictOf? && v.DictOf?
    ensures IsLogBut([], c, v, f, extend, v.kids.Keys)
  {
    forall path | IsTarget(Some(c), v, path) && path != []
      ensures path[0] in v.kids
    {
      TargetKey(c, v, path);
    }
  }

  lemma TargetKey(c: Sketch, v: Sketch, path: Path)
    requires c.DictOf? && v.DictOf? && IsTarget(Some(c), v, path)
    ensures path != [] && path[0] in v.kids && path[0] in c.kids
  {
    if path != [] && path[0] !in v.kids {
      NoTarget(c.kids[path[0]], path[1..]);
    }
  }

  lemma {:induction false} NoTarget(c: Sketch, path: Path)
    requires Kept(c, None, path).Some?
    ensures Kept(c, None, path).value.1.None?
  {
    if path != [] {
      NoTarget(c.kids[path[0]], path[1..]);
    }
  }

  lemma LogEnds(log: seq<Extension>, c: Sketch, v: Sketch, f: Contents, extend: bool)
    requires c.DictOf? && v.DictOf? && IsLogBut(log, c, v, f, extend, {})
    ensures IsLog(log, Some(c), v, f, extend)
  {
    forall path | IsTarget(Some(c), v, path)
      ensures path != []
    {
      TargetKey(c, v, path);
    }
  }

  /** What extends the value under k extends the dictionary there. */
  lemma ExtendsUnder(c: Sketch, v: Sketch, f: Contents, k: string, e: Extension)
    requires c.DictOf? && v.DictOf? && k in v.kids && Extends(Sub(c.kids, k), v.kids[k], f, e)
    ensures Extends(Some(c), v, f, Extension([k] + e.path, e.list, e.items))
  {
    KeptBelow(c, Some(v), k, e.path);
  }

  lemma LogNext(log: seq<Extension>, sub: seq<Extension>, c: Sketch, v: Sketch, f: Contents, extend: bool,
                rest: set<string>, k: string)
    requires c.DictOf? && v.DictOf? && k in rest && k in v.kids
    requires IsLogBut(log, c, v, f, extend, rest) && IsLog(sub, Sub(c.kids, k), v.kids[k], f, extend)
    ensures IsLogBut(log + Under(k, sub), c, v, f, extend, rest - {k})
  {
    var all := log + Under(k, sub);
    forall i | 0 <= i < |all|
      ensures Extends(Some(c), v, f, all[i]) && all[i].path != [] && all[i].path[0] !in rest - {k}
      ensures i >= |log| ==> all[i].path[0] == k && all[i].path[1..] == sub[i - |log|].path
    {
      if i >= |log| {
        ExtendsUnder(c, v, f, k, sub[i - |log|]);
        assert ([k] + sub[i - |log|].path)[1..] == sub[i - |log|].path;
      }
    }
    assert forall i :: 0 <= i < |log| ==> all[i] == log[i] && all[i].path[0] != k;
    if extend {
      forall path | IsTarget(Some(c), v, path) && path != [] && path[0] !in rest - {k}
        ensures Logged(all, path)
      {
        LoggedNext(log, sub, c, v, f, rest, k, path);
      }
    }
  }

  lemma LoggedNext(log: seq<Extension>, sub: seq<Extension>, c: Sketch, v: Sketch, f: Contents, rest: set<string>,
                   k: string, path: Path)
    requires c.DictOf? && v.DictOf? && k in rest && k in v.kids
    requires IsLogBut(log, c, v, f, true, rest) && IsLog(sub, Sub(c.kids, k), v.kids[k], f, true)
    requires IsTarget(Some(c), v, path) && path != [] && path[0] !in rest - {k}
    ensures Logged(log + Under(k, sub), path)
  {
    hide Kept, Extends;
    TargetKey(c, v, path);
    var all := log + Under(k, sub);
    if path[0] == k {
      assert [k] + path[1..] == path;
      KeptBelow(c, Some(v), k, path[1..]);
      assert IsTarget(Sub(c.kids, k), v.kids[k], path[1..]) && Logged(sub, path[1..]);
      var i :| 0 <= i < |sub| && sub[i].path == path[1..];
      assert all[|log| + i].path == path;
    } else {
      assert Logged(log, path);
      var i :| 0 <= i < |log| && log[i].path == path;
      assert all[i].path == path;
    }
  }

  /** Only kept lists are extended. */
  lemma LogIsWithin(log: seq<Extension>, c: Option<Sketch>, v: Sketch, f: Contents, extend: bool, l: ListObject)
    requires IsLog(log, c, v, f, extend) && (c.Some? ==> l !in ListsIn(c.value))
    ensures Appended(log, l) == []
  {
    forall i | 0 <= i < |log|
      ensures log[i].list != l
    {
      assert Extends(c, v, f, log[i]);
      KeptIsIn(c.value, Some(v), log[i].path);
    }
    NothingAppended(log, l);
  }

  // ----- Many sources -----

  lemma {:induction false} KeptSourceIsIn(c: Sketch, v: Sketch, path: Path)
    requires Kept(c, Some(v), path).Some? && Kept(c, Some(v), path).value.1.Some?
    ensures Kept(c, Some(v), path).value.1.value in ListsIn(v)
  {
    if path != [] {
      if path[0] in v.kids {
        KeptSourceIsIn(c.kids[path[0]], v.kids[path[0]], path[1..]);
      } else {
        NoTarget(c.kids[path[0]], path[1..]);
      }
    }
  }

  /** Harm depends on the contents of the update's lists alone. */
  lemma SharesDepends(c: Sketch, v: Sketch, f: Contents, g: Contents, p: Path, q: Path)
    requires Unchanged(v, f, g)
    ensures Shares(c, v, f, p, q) <==> Shares(c, v, g, p, q)
  {
    if Kept(c, Some(v), p).Some? && Kept(c, Some(v), p).value.1.Some? {
      KeptSourceIsIn(c, v, p);
    }
  }

  lemma JoinedDepends(c: Sketch, v: Sketch, f: Contents, g: Contents, q: Path)
    requires Unchanged(v, f, g)
    ensures Joined(c, v, f, q) <==> Joined(c, v, g, q)
  {
    forall p
      ensures Shares(c, v, f, p, q) <==> Shares(c, v, g, p, q)
    {
      SharesDepends(c, v, f, g, p, q);
    }
  }

  lemma HarmlessDepends(c: Sketch, v: Sketch, f: Contents, g: Contents)
    requires Unchanged(v, f, g)
    ensures Harmless(c, v, f) <==> Harmless(c, v, g)
  {
    forall p, q
      ensures Shares(c, v, f, p, q) <==> Shares(c, v, g, p, q)
    {
      SharesDepends(c, v, f, g, p, q);
    }
  }

  /** The sketch of what the sources are merged into. */
  function PlanAll(sources: seq<Sketch>, extend: bool): (r: Option<Sketch>)
    requires forall s :: s in sources ==> s.DictOf?
    ensures r.Some? ==> r.value.DictOf?
  {
    if sources == [] then Some(DictOf(map[]))
    else
      var rest := PlanAll(sources[..|sources| - 1], extend);
      if rest.None? then None else PlanDict(rest.value.kids, sources[|sources| - 1], extend)
  }

  /** Whether all sources merge depends on their kinds alone. */
  lemma {:induction false} KindsMergeAll(trees: seq<Yaml>, sources: seq<Sketch>, extend: bool)
    requires |trees| == |sources| && forall i :: 0 <= i < |trees| ==> SameKinds(trees[i], sources[i])
    requires (forall t :: t in trees ==> t.Dict?) && forall s :: s in sources ==> s.DictOf?
    ensures SameKindsAt(MergeAll(trees, extend), PlanAll(sources, extend))
  {
    if sources != [] {
      var n := |sources| - 1;
      KindsMergeAll(trees[..n], sources[..n], extend);
      var t, s := MergeAll(trees[..n], extend), PlanAll(sources[..n], extend);
      if s.Some? {
        KindsMergeDict(t.value.entries, trees[n], s.value.kids, sources[n], extend);
      }
    }
  }

  lemma {:induction false} PlanOfPrefix(sources: seq<Sketch>, extend: bool, i: nat)
    requires i <= |sources| && forall s :: s in sources ==> s.DictOf?
    ensures PlanAll(sources, extend).Some? ==> PlanAll(sources[..i], extend).Some?
  {
    if i < |sources| {
      var n := |sources| - 1;
      assert sources[..n][..i] == sources[..i];
      PlanOfPrefix(sources[..n], extend, i);
    } else {
      assert sources[..i] == sources;
    }
  }

  /** The documents that the sources stand for. */
  function Trees(sources: seq<Sketch>, f: Contents): (ts: seq<Yaml>)
    ensures |ts| == |sources| && forall i :: 0 <= i < |ts| ==> ts[i] == Tree(sources[i], f)
    ensures (forall s :: s in sources ==> s.DictOf?) ==> forall t :: t in ts ==> t.Dict?
  {
    assert forall i :: 0 <= i < |sources| ==> sources[i] in sources;
    seq(|sources|, i requires 0 <= i < |sources| => Tree(sources[i], f))
  }

  /** Once all sources are merged, place q keeps a list that has grown by what was meant for another place. */
  ghost predicate Harmed(sources: seq<Sketch>, f: Contents, q: Path)
    requires forall s :: s in sources ==> s.DictOf?
  {
    sources != [] &&
    var init, v := sources[..|sources| - 1], sources[|sources| - 1];
    var c := PlanAll(init, true);
    c.Some? && Kept(c.value, Some(v), q).Some? && (Harmed(init, f, q) || Joined(c.value, v, f, q))
  }

  ghost predicate Unharmed(sources: seq<Sketch>, f: Contents)
    requires forall s :: s in sources ==> s.DictOf?
  {
    forall q :: !Harmed(sources, f, q)
  }

  /** Contents fs[0] became fs[1] and so on while the sources were merged one over the other, by the extensions of the
      logs.  A source's lists stay as they are until it has been merged. */
  ghost predicate Run(sources: seq<Sketch>, fs: seq<Contents>, logs: seq<seq<Extension>>)
    requires forall s :: s in sources ==> s.DictOf?
  {
    |fs| == |sources| + 1 && |logs| == |sources| && PlanAll(sources, true).Some? &&
    (sources != [] ==>
       var n := |sources| - 1;
       && Run(sources[..n], fs[..n + 1], logs[..n]) && Unchanged(sources[n], fs[0], fs[n])
       && Step(PlanAll(sources[..n], true).value, sources[n], fs[n], fs[n + 1], logs[n]))
  }

  /** What a run makes of place q, against the merge of the documents. */
  ghost predicate PlaceRight(sources: seq<Sketch>, fs: seq<Contents>, q: Path)
    requires |fs| == |sources| + 1 && (forall s :: s in sources ==> s.DictOf?) && PlanAll(sources, true).Some?
  {
    var r, m := PlanAll(sources, true).value, MergeAll(Trees(sources, fs[0]), true);
    m.Some? && LongAt(r, m.value, fs[|sources|], q) && (AgreeAt(r, m.value, fs[|sources|], q) <==> !Harmed(sources, fs[0], q))
  }

  lemma {:induction false} RunAt(sources: seq<Sketch>, fs: seq<Contents>, logs: seq<seq<Extension>>, q: Path)
    requires (forall s :: s in sources ==> s.DictOf?) && Run(sources, fs, logs)
    ensures PlaceRight(sources, fs, q)
  {
    hide PlanDict, MergeDict, IsLog, Kept, Shares, Held, Items;
    if sources == [] {
      NothingHeld(q);
    } else {
      var n := |sources| - 1;
      RunAt(sources[..n], fs[..n + 1], logs[..n], q);
      RunStep(sources, fs, logs, q);
    }
  }

  lemma NothingHeld(q: Path)
    ensures Held(DictOf(map[]), q).None?
  {
  }

  lemma RunStep(sources: seq<Sketch>, fs: seq<Contents>, logs: seq<seq<Extension>>, q: Path)
    requires (forall s :: s in sources ==> s.DictOf?) && sources != [] && Run(sources, fs, logs)
    requires PlaceRight(sources[..|sources| - 1], fs[..|sources|], q)
    ensures PlaceRight(sources, fs, q)
  {
    hide PlanDict, MergeDict, IsLog, Kept, Shares, Held, Items, Joined, Grown, Unchanged;
    var n := |sources| - 1;
    var init, v := sources[..n], sources[n];
    var c, t := PlanAll(init, true).value, MergeAll(Trees(init, fs[0]), true).value;
    assert Trees(sources, fs[0])[..n] == Trees(init, fs[0]);
    UnchangedTree(v, fs[0], fs[n]);
    TreesHaveKinds(init, fs[0]);
    PlaceStep(c, v, fs[n], fs[n + 1], logs[n], t, q);
    JoinedDepends(c, v, fs[0], fs[n], q);
  }

  lemma TreesHaveKinds(sources: seq<Sketch>, f: Contents)
    requires forall s :: s in sources ==> s.DictOf?
    ensures SameKindsAt(MergeAll(Trees(sources, f), true), PlanAll(sources, true))
    ensures SameKindsAt(MergeAll(Trees(sources, f), false), PlanAll(sources, false))
  {
    forall i | 0 <= i < |sources|
      ensures SameKinds(Trees(sources, f)[i], sources[i])
    {
      TreeHasKinds(sources[i], f);
    }
    KindsMergeAll(Trees(sources, f), sources, true);
    KindsMergeAll(Trees(sources, f), sources, false);
  }

  /** Merging any number of sources in place gives the merge of their documents exactly when no place is harmed. */
  lemma RunIsRight(sources: seq<Sketch>, fs: seq<Contents>, logs: seq<seq<Extension>>)
    requires (forall s :: s in sources ==> s.DictOf?) && Run(sources, fs, logs)
    ensures MergeAll(Trees(sources, fs[0]), true).Some?
    ensures Tree(PlanAll(sources, true).value, fs[|sources|]) == MergeAll(Trees(sources, fs[0]), true).value <==>
            Unharmed(sources, fs[0])
  {
    hide PlanAll, MergeAll, Step, Unchanged;
    TreesHaveKinds(sources, fs[0]);
    var r, m := PlanAll(sources, true).value, MergeAll(Trees(sources, fs[0]), true).value;
    ListsTell(r, m, fs[|sources|]);
    if Tree(r, fs[|sources|]) == m {
      forall q
        ensures !Harmed(sources, fs[0], q)
      {
        RunAt(sources, fs, logs, q);
        assert AgreeAt(r, m, fs[|sources|], q);
      }
    } else {
      var q :| !AgreeAt(r, m, fs[|sources|], q);
      RunAt(sources, fs, logs, q);
      assert Harmed(sources, fs[0], q);
    }
  }

  lemma NothingMerged(f: Contents)
    ensures Tree(DictOf(map[]), f) == Dict(map[])
  {
    SameEntries(Tree(DictOf(map[]), f), Dict(map[]));
  }

  lemma TreeOfDict(s: Sketch, f: Contents)
    ensures Tree(s, f).Dict? <==> s.DictOf?
  {
  }

  lemma NextRight(c: Sketch, v: Sketch, f: Contents)
    requires c.DictOf? && v.DictOf? && PlanDict(c.kids, v, false).Some?
    ensures Merge(Tree(c, f), Tree(v, f), false) == Some(Tree(PlanDict(c.kids, v, false).value, f))
  {
    AlwaysRight(Some(c), v, f);
  }

  /** Without list extension the result is always the merge of the documents. */
  lemma {:induction false} AllRight(sources: seq<Sketch>, f: Contents)
    requires (forall s :: s in sources ==> s.DictOf?) && PlanAll(sources, false).Some?
    ensures MergeAll(Trees(sources, f), false) == Some(Tree(PlanAll(sources, false).value, f))
  {
    hide PlanDict, MergeDict, Tree;
    if sources == [] {
      NothingMerged(f);
    } else {
      var n := |sources| - 1;
      AllRight(sources[..n], f);
      assert Trees(sources, f)[..n] == Trees(sources[..n], f);
      TreeOfDict(PlanAll(sources[..n], false).value, f);
      NextRight(PlanAll(sources[..n], false).value, sources[n], f);
    }
  }

  // ----- Sources that share no list -----

  /** No list is stored at two places, be it in one source or in two. */
  ghost predicate StoredOnce(sources: seq<Sketch>) {
    forall i, j, p, q :: 0 <= i < |sources| && 0 <= j < |sources| && SameList(sources[i], sources[j], p, q) ==> p == q
  }

  predicate SameList(r: Sketch, s: Sketch, p: Path, q: Path) {
    Held(r, p).Some? && Held(r, p) == Held(s, q)
  }

  lemma {:induction false} HeldBySource(sources: seq<Sketch>, q: Path)
    requires (forall s :: s in sources ==> s.DictOf?) && PlanAll(sources, true).Some?
    requires Held(PlanAll(sources, true).value, q).Some?
    ensures exists i :: 0 <= i < |sources| && Held(sources[i], q) == Held(PlanAll(sources, true).value, q)
  {
    if sources == [] {
      NothingHeld(q);
    } else {
      var n := |sources| - 1;
      var c, v, f := PlanAll(sources[..n], true).value, sources[n], map[];
      TreeHasKinds(c, f);
      StepKinds(c, v, f, Tree(c, f));
      TreeHasKinds(v, f);
      PlaceAfter(Some(c), v, Some(Tree(c, f)), Tree(v, f), q);
      if Kept(c, Some(v), q).Some? {
        HeldBySource(sources[..n], q);
      }
    }
  }

  /** Sources that store each list once, as all files without YAML aliases do, are merged without harm. */
  lemma StoredOnceIsHarmless(sources: seq<Sketch>, f: Contents)
    requires (forall s :: s in sources ==> s.DictOf?) && StoredOnce(sources)
    ensures Unharmed(sources, f)
  {
    forall q
      ensures !Harmed(sources, f, q)
    {
      PlaceUnharmed(sources, f, q);
    }
  }

  lemma {:induction false} PlaceUnharmed(sources: seq<Sketch>, f: Contents, q: Path)
    requires (forall s :: s in sources ==> s.DictOf?) && StoredOnce(sources)
    ensures !Harmed(sources, f, q)
  {
    if sources != [] {
      var n := |sources| - 1;
      var init, v, c := sources[..n], sources[n], PlanAll(sources[..n], true);
      assert forall i, j, p, p' :: 0 <= i < n && 0 <= j < n && SameList(init[i], init[j], p, p') ==>
        SameList(sources[i], sources[j], p, p');
      PlaceUnharmed(init, f, q);
      if c.Some? {
        forall p | Shares(c.value, v, f, p, q)
          ensures p == q
        {
          KeptIsHeld(c.value, Some(v), p);
          KeptIsHeld(c.value, Some(v), q);
          HeldOnce(init, p, q);
        }
      }
    }
  }

  lemma HeldOnce(sources: seq<Sketch>, p: Path, q: Path)
    requires (forall s :: s in sources ==> s.DictOf?) && StoredOnce(sources) && PlanAll(sources, true).Some?
    requires SameList(PlanAll(sources, true).value, PlanAll(sources, true).value, p, q)
    ensures p == q
  {
    var r := PlanAll(sources, true).value;
    HeldBySource(sources, p);
    HeldBySource(sources, q);
    var i :| 0 <= i < |sources| && Held(sources[i], p) == Held(r, p);
    var j :| 0 <= j < |sources| && Held(sources[j], q) == Held(r, q);
    assert SameList(sources[i], sources[j], p, q);
  }

  /** A source that stores list l under two keys, and one that extends it under the first. */
  function Aliased(k: string, k': string, l: ListObject, more: ListObject): seq<Sketch> {
    [DictOf(map[k := ListOf(l), k' := ListOf(l)]), DictOf(map[k := ListOf(more)])]
  }

  lemma AliasPlan(k: string, k': string, l: ListObject, more: ListObject)
    requires k != k'
    ensures var sources := Aliased(k, k', l, more);
            PlanAll(sources[..1], true) == Some(sources[0]) == PlanAll(sources, true)
  {
    var c, v := Aliased(k, k', l, more)[0], Aliased(k, k', l, more)[1];
    assert Aliased(k, k', l, more)[..1] == [c] && [c][..0] == [];
    PlanOverNothing(c, true);
    assert PlanValue(Sub(c.kids, k), v.kids[k], true) == Some(ListOf(l));
    SameKids(PlanDict(c.kids, v, true).value, c);
  }

  /** That goes right exactly when nothing is appended. */
  lemma AliasIsHarmed(k: string, k': string, l: ListObject, more: ListObject, f: Contents)
    requires k != k'
    ensures Unharmed(Aliased(k, k', l, more), f) <==> In(f, more) == []
  {
    hide PlanDict;
    var sources := Aliased(k, k', l, more);
    var c, v := sources[0], sources[1];
    AliasPlan(k, k', l, more);
    KeptBelow(c, Some(v), k, []);
    KeptBelow(c, Some(v), k', []);
    assert [k] + [] == [k] && [k'] + [] == [k'] && Below(Some(v), k') == None;
    assert Kept(c, Some(v), [k]) == Some((l, Some(more))) && Kept(c, Some(v), [k']) == Some((l, None));
    assert [k] != [k'] && (Shares(c, v, f, [k], [k']) <==> In(f, more) != []);
    assert In(f, more) != [] ==> Harmed(sources, f, [k']);
    forall p, q | Shares(c, v, f, p, q)
      ensures In(f, more) != []
    {
      KeptSourceIsIn(c, v, p);
    }
    forall q
      ensures Harmed(sources, f, q) ==> Joined(c, v, f, q)
    {
      assert sources[..1] == [c];
      OneIsUnharmed(c, f, q);
    }
  }

  lemma OneIsUnharmed(c: Sketch, f: Contents, q: Path)
    requires c.DictOf?
    ensures !Harmed([c], f, q)
  {
    assert [c][..0] == [];
  }
}

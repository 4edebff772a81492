/** The in-place merge of YAML documents (Utils.update_nested_conf, ansible/action_plugins/merge_yaml.py): Python
    dictionaries and lists are objects, stored in each other by reference and changed in place.

    Dictionaries are never shared between the output and a source.  Lists are, and a source may store one list at
    several places (a YAML alias), so with list extension the result is not always the merge of the documents; module
    YamlLists says when it is. */
module YamlObjects {
  import opened Common
  import opened YamlMerge
  import opened YamlLists

  /** A Python dictionary. */
  class DictObject {
    var entries: map<string, Node>

    constructor ()
      ensures entries == map[]
    {
      entries := map[];
    }
  }

  /** What a dictionary stores under a key. */
  datatype Node = ScalarNode(text: string) | ListNode(list: ListObject) | DictNode(dict: DictObject)

  // ----- The shape of a document in memory -----

  /** Which objects a document consists of, as a tree.  An object that is stored twice occurs twice. */
  datatype Shape = ScalarAt(text: string) | ListAt(list: ListObject) | DictAt(dict: DictObject, kids: map<string, Shape>)

  function NodeOf(s: Shape): Node {
    match s
    case ScalarAt(text) => ScalarNode(text)
    case ListAt(list) => ListNode(list)
    case DictAt(dict, _) => DictNode(dict)
  }

  /** The shape without the identities of its dictionaries. */
  function SketchOf(s: Shape): Sketch {
    match s
    case ScalarAt(text) => ScalarOf(text)
    case ListAt(list) => ListOf(list)
    case DictAt(_, kids) => DictOf(map k | k in kids :: SketchOf(kids[k]))
  }

  ghost function Dicts(s: Shape): set<DictObject> {
    match s
    case DictAt(dict, kids) => {dict} + set k, d | k in kids && d in Dicts(kids[k]) :: d
    case _ => {}
  }

  ghost function Lists(s: Shape): set<ListObject> {
    ListsIn(SketchOf(s))
  }

  /** The objects in memory are linked as the shape says, and no dictionary contains itself. */
  ghost predicate Holds(s: Shape)
    reads Dicts(s)
  {
    s.DictAt? ==>
      && s.dict.entries.Keys == s.kids.Keys
      && forall k :: k in s.kids ==>
           s.dict.entries[k] == NodeOf(s.kids[k]) && s.dict !in Dicts(s.kids[k]) && Holds(s.kids[k])
  }

  ghost function ContentsOf(lists: set<ListObject>): Contents
    reads lists
  {
    map l | l in lists :: l.items
  }

  /** The document that the objects stand for. */
  ghost function TreeOf(s: Shape): Yaml
    reads Lists(s)
  {
    Tree(SketchOf(s), ContentsOf(Lists(s)))
  }

  /** The lists have the given contents. */
  ghost predicate Have(lists: set<ListObject>, f: Contents)
    reads lists
  {
    forall l :: l in lists ==> In(f, l) == l.items
  }

  lemma TreeIs(s: Shape, f: Contents)
    requires Have(Lists(s), f)
    ensures TreeOf(s) == Tree(SketchOf(s), f)
  {
    UnchangedTree(SketchOf(s), ContentsOf(Lists(s)), f);
  }

  /** No dictionary occurs twice in the shape. */
  ghost predicate Unshared(s: Shape) {
    s.DictAt? ==>
      && (forall k :: k in s.kids ==> Unshared(s.kids[k]))
      && (forall k, k' :: k in s.kids && k' in s.kids && k != k' ==> Apart(s.kids[k], s.kids[k']))
  }

  /** The shapes have no dictionary in common. */
  ghost predicate Apart(r: Shape, s: Shape) {
    Dicts(r) !! Dicts(s)
  }

  lemma {:induction false} DictsAreAllocated(s: Shape)
    ensures forall d :: d in Dicts(s) ==> allocated(d)
  {
    if s.DictAt? {
      forall k | k in s.kids
        ensures forall d :: d in Dicts(s.kids[k]) ==> allocated(d)
      {
        DictsAreAllocated(s.kids[k]);
      }
    }
  }

  lemma {:induction false} ListsAreAllocated(s: Sketch)
    ensures forall l :: l in ListsIn(s) ==> allocated(l)
  {
    if s.DictOf? {
      forall k | k in s.kids
        ensures forall l :: l in ListsIn(s.kids[k]) ==> allocated(l)
      {
        ListsAreAllocated(s.kids[k]);
      }
    }
  }

  // ----- One key of the loop -----

  ghost function Kid(kids: map<string, Shape>, k: string): Shape {
    if k in kids then kids[k] else ScalarAt("")
  }

  function KidSketch(kids: map<string, Shape>, k: string): Option<Sketch> {
    if k in kids then Some(SketchOf(kids[k])) else None
  }

  lemma KidIsPart(dict: DictObject, kids: map<string, Shape>, k: string)
    requires k in kids
    ensures Dicts(kids[k]) <= Dicts(DictAt(dict, kids))
    ensures Lists(kids[k]) <= Lists(DictAt(dict, kids))
    ensures Sub(SketchOf(DictAt(dict, kids)).kids, k) == Some(SketchOf(kids[k]))
  {
    var s := SketchOf(DictAt(dict, kids));
    assert forall l :: l in ListsIn(s.kids[k]) ==> l in ListsIn(s);
  }

  lemma UnsharedWith(dict: DictObject, kids: map<string, Shape>, k: string, child: Shape)
    requires Unshared(DictAt(dict, kids)) && Unshared(child)
    requires forall k' :: k' in kids && k' != k ==> Apart(kids[k'], child)
    ensures Unshared(DictAt(dict, kids[k := child]))
  {
    var s := DictAt(dict, kids[k := child]);
    forall k', k'' | k' in s.kids && k'' in s.kids && k' != k''
      ensures Apart(s.kids[k'], s.kids[k''])
    {
      if k'' == k {
        assert Apart(kids[k'], child);
      } else if k' == k {
        assert Apart(kids[k''], child);
      } else {
        assert Apart(kids[k'], kids[k'']);
      }
    }
  }

  /** Stores child under k. */
  method Put(conf: DictObject, k: string, node: Node, ghost kids: map<string, Shape>, ghost child: Shape)
    requires node == NodeOf(child) && Holds(child) && conf !in Dicts(child)
    requires conf.entries.Keys == kids.Keys
    requires forall k' :: k' in kids && k' != k ==>
      conf.entries[k'] == NodeOf(kids[k']) && conf !in Dicts(kids[k']) && Holds(kids[k'])
    modifies conf
    ensures Holds(DictAt(conf, kids[k := child]))
  {
    conf.entries := conf.entries[k := node];
  }

  /** Document us can be merged into conf: conf owns its dictionaries, and the two have no object in common.  (Lists
      may be common unless they are extended.)  Within us, dictionaries and lists may be stored more than once, and
      within conf lists may. */
  ghost predicate Ready(cs: Shape, us: Shape, extend: bool)
    reads Dicts(cs), Dicts(us)
  {
    Holds(cs) && Unshared(cs) && Holds(us) && Apart(cs, us) && (extend ==> Lists(cs) !! Lists(us))
  }

  /** The same for one value of the document, to be merged over what conf has under k. */
  ghost predicate ReadyAt(conf: DictObject, kids: map<string, Shape>, k: string, vs: Shape, extend: bool)
    reads Dicts(DictAt(conf, kids)), Dicts(vs)
  {
    var cs := DictAt(conf, kids);
    Holds(cs) && Unshared(cs) && Holds(vs) && Apart(cs, vs) && (extend ==> Lists(Kid(kids, k)) !! Lists(vs))
  }

  /** The dictionaries of r are new or were those of s. */
  twostate predicate OnlyFreshDicts(new r: Shape, s: Shape) {
    forall d :: d in Dicts(r) ==> d in Dicts(s) || fresh(d)
  }

  /** The sketch of the result is the planned one, if there is one. */
  predicate AsPlanned(ok: bool, r: Shape, plan: Option<Sketch>) {
    ok == plan.Some? && (ok ==> SketchOf(r) == plan.value)
  }

  /** The extensions in the log have been made, and nothing else has been done to the lists. */
  twostate predicate Extended(lists: set<ListObject>, new log: seq<Extension>)
    reads lists
  {
    forall l :: l in lists ==> l.items == old(l.items) + Appended(log, l)
  }

  /** The key's list, if lists are extended, grows in place; otherwise the key now refers to the update's value. */
  method UpdateLeaf(conf: DictObject, k: string, v: Node, extend: bool,
                    ghost kids: map<string, Shape>, ghost vs: Shape, ghost f: Contents)
    returns (ok: bool, ghost child: Shape, ghost log: seq<Extension>)
    requires Holds(DictAt(conf, kids)) && v == NodeOf(vs) && !v.DictNode? && Have(Lists(vs), f)
    modifies conf, if extend then Lists(Kid(kids, k)) else {}
    ensures AsPlanned(ok, child, PlanValue(KidSketch(kids, k), SketchOf(vs), extend))
    ensures ok ==> Holds(DictAt(conf, kids[k := child])) && Unshared(child) && Dicts(child) <= Dicts(Kid(kids, k))
    ensures ok ==> IsLog(log, KidSketch(kids, k), SketchOf(vs), f, extend)
    ensures ok ==> Extended(Lists(Kid(kids, k)), log)
  {
    hide PlanValue, IsLog;
    log := [];
    ListsAreAllocated(SketchOf(Kid(kids, k)));
    if k in conf.entries && conf.entries[k].ListNode? && extend {
      if !v.ListNode? {
        NoPlan(conf.entries[k].list, SketchOf(vs));
        return false, vs, log;
      }
      log := [Extension([], conf.entries[k].list, v.list.items)];
      OneExtension(conf.entries[k].list, v.list, f);
      conf.entries[k].list.items := conf.entries[k].list.items + v.list.items;
      assert kids[k := kids[k]] == kids;
      return true, kids[k], log;
    } else {
      NoExtension(KidSketch(kids, k), SketchOf(vs), f, extend);
      Put(conf, k, v, kids, vs);
      assert forall l :: l in Lists(Kid(kids, k)) ==> l.items + [] == old(l.items) == l.items;
      return true, vs, log;
    }
  }

  lemma OneExtension(c: ListObject, v: ListObject, f: Contents)
    ensures var log := [Extension([], c, In(f, v))];
            && PlanValue(Some(ListOf(c)), ListOf(v), true) == Some(ListOf(c)) && IsLog(log, Some(ListOf(c)), ListOf(v), f, true)
            && Appended(log, c) == In(f, v)
  {
    var log := [Extension([], c, In(f, v))];
    assert log[0].path == [] && Logged(log, []);
    assert log[..0] == [] && [] + In(f, v) == In(f, v);
  }

  lemma NoExtension(c: Option<Sketch>, v: Sketch, f: Contents, extend: bool)
    requires !v.DictOf? && !(extend && c.Some? && c.value.ListOf?)
    ensures PlanValue(c, v, extend) == Some(v) && IsLog([], c, v, f, extend)
  {
  }

  lemma NoPlan(c: ListObject, v: Sketch)
    requires v.ScalarOf?
    ensures PlanValue(Some(ListOf(c)), v, true).None?
  {
  }

  /** Merges dictionary v into dictionary c, which is what k holds or, if it holds nothing, a new one; then stores c
      under k. */
  method UpdateBelow(conf: DictObject, k: string, c: DictObject, v: DictObject, extend: bool,
                     ghost kids: map<string, Shape>, ghost cs: Shape, ghost vs: Shape, ghost f: Contents)
    returns (ok: bool, ghost child: Shape, ghost log: seq<Extension>)
    requires Holds(DictAt(conf, kids)) && Unshared(DictAt(conf, kids)) && Apart(DictAt(conf, kids), vs)
    requires Ready(cs, vs, extend) && NodeOf(cs) == DictNode(c) && NodeOf(vs) == DictNode(v) && Have(Lists(vs), f)
    requires if k in kids then cs == kids[k] else cs == DictAt(c, map[]) && Apart(cs, DictAt(conf, kids))
    modifies conf, Dicts(cs), if extend then Lists(cs) else {}
    ensures AsPlanned(ok, child, PlanDict(SketchOf(cs).kids, SketchOf(vs), extend))
    ensures ok ==> Holds(DictAt(conf, kids[k := child])) && Unshared(child) && OnlyFreshDicts(child, cs)
    ensures ok ==> IsLog(log, Some(SketchOf(cs)), SketchOf(vs), f, extend)
    ensures ok ==> Extended(Lists(cs), log)
    decreases vs, 4
  {
    hide PlanDict, SketchOf, IsLog, ListsIn, Appended, Holds, Unshared;
    RestIsApart(conf, k, kids, cs);
    KidsHold(conf, kids);
    ListsAreAllocated(SketchOf(cs));
    ok, child, log := UpdateNestedConf(c, v, extend, cs, vs, f);
    if ok {
      forall k' | k' in kids && k' != k
        ensures Holds(kids[k'])
      {
        assert forall d :: d in Dicts(kids[k']) ==> d.entries == old(d.entries);
      }
      assert forall l :: l in Lists(cs) ==> l.items == old(l.items) + Appended(log, l);
      Put(conf, k, DictNode(c), kids, child);
    }
  }

  lemma RestIsApart(conf: DictObject, k: string, kids: map<string, Shape>, cs: Shape)
    requires Holds(DictAt(conf, kids)) && Unshared(DictAt(conf, kids))
    requires if k in kids then cs == kids[k] else Apart(cs, DictAt(conf, kids))
    ensures conf !in Dicts(cs)
    ensures forall k' :: k' in kids && k' != k ==> Dicts(kids[k']) !! Dicts(cs)
  {
    forall k' | k' in kids && k' != k
      ensures Dicts(kids[k']) !! Dicts(cs)
    {
      KidIsPart(conf, kids, k');
      if k in kids {
        assert Apart(kids[k'], kids[k]);
      }
    }
  }

  lemma KidsHold(conf: DictObject, kids: map<string, Shape>)
    requires Holds(DictAt(conf, kids))
    ensures conf.entries.Keys == kids.Keys
    ensures forall k :: k in kids ==> conf.entries[k] == NodeOf(kids[k]) && Holds(kids[k]) && conf !in Dicts(kids[k])
    ensures forall k, d :: k in kids && d in Dicts(kids[k]) ==> allocated(d)
  {
    forall k | k in kids
      ensures forall d :: d in Dicts(kids[k]) ==> allocated(d)
    {
      DictsAreAllocated(kids[k]);
    }
  }

  lemma NewDict(c: DictObject)
    requires c.entries == map[]
    ensures Holds(DictAt(c, map[])) && Unshared(DictAt(c, map[])) && SketchOf(DictAt(c, map[])) == DictOf(map[])
    ensures Dicts(DictAt(c, map[])) == {c} && Lists(DictAt(c, map[])) == {}
  {
    assert SketchOf(DictAt(c, map[])).kids == map[];
    assert Dicts(DictAt(c, map[])) == {c} && Lists(DictAt(c, map[])) == {};
  }

  /** Merges dictionary v into a new dictionary, stored under k. */
  method UpdateAbsent(conf: DictObject, k: string, v: DictObject, extend: bool,
                      ghost kids: map<string, Shape>, ghost vs: Shape, ghost f: Contents)
    returns (ok: bool, ghost child: Shape, ghost log: seq<Extension>)
    requires ReadyAt(conf, kids, k, vs, extend) && NodeOf(vs) == DictNode(v) && Have(Lists(vs), f) && k !in kids
    modifies conf
    ensures AsPlanned(ok, child, PlanDict(map[], SketchOf(vs), extend))
    ensures ok ==> Holds(DictAt(conf, kids[k := child])) && Unshared(child) && fresh(Dicts(child))
    ensures ok ==> IsLog(log, None, SketchOf(vs), f, extend)
    decreases vs, 5
  {
    hide PlanDict, IsLog;
    DictsAreAllocated(DictAt(conf, kids));
    DictsAreAllocated(vs);
    ListsAreAllocated(SketchOf(vs));
    var c := new DictObject();
    NewDict(c);
    ghost var cs := DictAt(c, map[]);
    ok, child, log := UpdateBelow(conf, k, c, v, extend, kids, cs, vs, f);
    if ok {
      LogOverNothing(log, SketchOf(vs), f, extend);
    }
  }

  lemma LogOverNothing(log: seq<Extension>, v: Sketch, f: Contents, extend: bool)
    requires v.DictOf? && IsLog(log, Some(DictOf(map[])), v, f, extend)
    ensures IsLog(log, None, v, f, extend)
  {
    assert |log| > 0 ==> Extends(Some(DictOf(map[])), v, f, log[0]);
  }

  /** One round of the loop over the update's items. */
  method UpdateKey(conf: DictObject, k: string, v: Node, extend: bool,
                   ghost kids: map<string, Shape>, ghost vs: Shape, ghost f: Contents)
    returns (ok: bool, ghost child: Shape, ghost log: seq<Extension>)
    requires ReadyAt(conf, kids, k, vs, extend) && v == NodeOf(vs) && Have(Lists(vs), f)
    modifies conf, Dicts(Kid(kids, k)), if extend then Lists(Kid(kids, k)) else {}
    ensures AsPlanned(ok, child, PlanValue(KidSketch(kids, k), SketchOf(vs), extend))
    ensures ok ==> Holds(DictAt(conf, kids[k := child])) && Unshared(child) && OnlyFreshDicts(child, Kid(kids, k))
    ensures ok ==> IsLog(log, KidSketch(kids, k), SketchOf(vs), f, extend)
    ensures ok ==> Extended(Lists(Kid(kids, k)), log)
    decreases vs, 6
  {
    if !v.DictNode? {
      ok, child, log := UpdateLeaf(conf, k, v, extend, kids, vs, f);
    } else {
      hide IsLog, PlanDict;
      if k !in conf.entries {
        ok, child, log := UpdateAbsent(conf, k, v.dict, extend, kids, vs, f);
      } else if conf.entries[k].DictNode? {
        KidIsPart(conf, kids, k);
        ok, child, log := UpdateBelow(conf, k, conf.entries[k].dict, v.dict, extend, kids, kids[k], vs, f);
      } else {
        // A value that is not a dictionary has no items to set.
        assert kids[k := kids[k]] == kids;
        NoItems(vs);
        EmptyUpdate(SketchOf(kids[k]), f, extend);
        ok, child, log := v.dict.entries == map[], kids[k], [];
      }
    }
  }

  lemma NoItems(s: Shape)
    requires Holds(s) && s.DictAt?
    ensures SketchOf(s).kids.Keys == s.kids.Keys == s.dict.entries.Keys
    ensures s.dict.entries == map[] <==> SketchOf(s) == DictOf(map[])
  {
    assert SketchOf(s).kids.Keys == s.kids.Keys;
  }

  lemma KidIsWithin(s: Shape, k: string)
    requires s.DictAt?
    ensures Dicts(Kid(s.kids, k)) <= Dicts(s) && Lists(Kid(s.kids, k)) <= Lists(s)
  {
    if k in s.kids {
      KidIsPart(s.dict, s.kids, k);
    }
  }

  lemma EmptyUpdate(c: Sketch, f: Contents, extend: bool)
    requires !c.DictOf?
    ensures IsLog([], Some(c), DictOf(map[]), f, extend)
  {
  }

  /** UpdateKey, seen from the update, which stays as it is, and from all the lists of conf. */
  method UpdateFrom(conf: DictObject, k: string, v: Node, extend: bool, ghost kids: map<string, Shape>,
                    ghost us: Shape, ghost lists: set<ListObject>, ghost f: Contents)
    returns (ok: bool, ghost child: Shape, ghost log: seq<Extension>)
    requires Holds(us) && us.DictAt? && k in us.kids && Have(Lists(us), f)
    requires ReadyAt(conf, kids, k, us.kids[k], extend) && v == NodeOf(us.kids[k])
    requires conf !in Dicts(us) && Dicts(Kid(kids, k)) !! Dicts(us)
    requires Lists(Kid(kids, k)) <= lists && (extend ==> lists !! Lists(us))
    requires (forall d :: d in Dicts(us) ==> allocated(d)) && forall l :: l in Lists(us) ==> allocated(l)
    modifies conf, Dicts(Kid(kids, k)), if extend then Lists(Kid(kids, k)) else {}
    ensures Holds(us) && Have(Lists(us), f)
    ensures AsPlanned(ok, child, PlanValue(KidSketch(kids, k), SketchOf(us.kids[k]), extend))
    ensures ok ==> Holds(DictAt(conf, kids[k := child])) && Unshared(child) && OnlyFreshDicts(child, Kid(kids, k))
    ensures ok ==> IsLog(log, KidSketch(kids, k), SketchOf(us.kids[k]), f, extend)
    ensures ok ==> Extended(lists, log)
    decreases us, 0
  {
    hide PlanValue, IsLog, SketchOf, ListsIn, Appended, Holds, Unshared;
    KidIsPart(us.dict, us.kids, k);
    ok, child, log := UpdateKey(conf, k, v, extend, kids, us.kids[k], f);
    assert forall d :: d in Dicts(us) ==> d.entries == old(d.entries);
    assert forall l :: l in Lists(us) ==> l.items == old(l.items);
    if ok {
      forall l | l in lists
        ensures l.items == old(l.items) + Appended(log, l)
      {
        if l !in Lists(Kid(kids, k)) {
          LogIsWithin(log, KidSketch(kids, k), SketchOf(us.kids[k]), f, extend, l);
          assert l.items + [] == l.items == old(l.items);
        }
      }
    }
  }

  /** The body of the loop over the update's items, the keys in rest being still to be updated. */
  method UpdateRound(conf: DictObject, k: string, v: Node, extend: bool,
                     ghost cs: Shape, ghost us: Shape, ghost rs: Shape, ghost rest: set<string>, ghost f: Contents)
    returns (ok: bool, ghost rs': Shape, ghost log: seq<Extension>)
    requires InProgress(cs, us, rs, rest, extend) && k in rest && NodeOf(us.kids[k]) == v && NodeOf(rs) == DictNode(conf)
    requires Apart(cs, us) && (extend ==> Lists(cs) !! Lists(us)) && Have(Lists(us), f)
    requires Unshared(rs) && Apart(rs, us) && Holds(rs) && Holds(us)
    modifies conf, Dicts(Kid(cs.kids, k)), if extend then Lists(Kid(cs.kids, k)) else {}
    ensures Holds(us) && Have(Lists(us), f)
    ensures ok == PlanValue(KidSketch(cs.kids, k), SketchOf(us.kids[k]), extend).Some?
    ensures ok ==> InProgress(cs, us, rs', rest - {k}, extend) && NodeOf(rs') == NodeOf(rs)
    ensures ok ==> Unshared(rs') && OnlyFreshDicts(rs', rs) && Holds(rs')
    ensures ok ==> IsLog(log, KidSketch(cs.kids, k), SketchOf(us.kids[k]), f, extend)
    ensures ok ==> Extended(Lists(cs), log)
    decreases us, 1
  {
    hide PlanValue, IsLog, SketchOf, Extended;
    ReadyForKey(cs, us, extend, rs, rest, k);
    SourceIsApart(cs, us, rs, k);
    DictsAreAllocated(rs);
    ghost var child;
    ok, child, log := UpdateFrom(conf, k, v, extend, rs.kids, us, Lists(cs), f);
    rs' := DictAt(conf, rs.kids[k := child]);
    if ok {
      StepDicts(rs, k, child, Dicts(child) - Dicts(Kid(rs.kids, k)));
      UnsharedWith(rs.dict, rs.kids, k, child);
      ShapeStep(cs, us, rs, rest, k, child, extend);
    }
  }

  lemma SourceIsApart(cs: Shape, us: Shape, rs: Shape, k: string)
    requires cs.DictAt? && rs.DictAt? && Apart(cs, us) && Apart(rs, us)
    ensures rs.dict !in Dicts(us) && Dicts(Kid(cs.kids, k)) !! Dicts(us)
    ensures forall d :: d in Dicts(us) ==> allocated(d)
    ensures forall l :: l in Lists(us) ==> allocated(l)
  {
    DictsAreAllocated(us);
    ListsAreAllocated(SketchOf(us));
    if k in cs.kids {
      KidIsPart(cs.dict, cs.kids, k);
    }
  }

  lemma ShapeStep(cs: Shape, us: Shape, rs: Shape, rest: set<string>, k: string, child: Shape, extend: bool)
    requires InProgress(cs, us, rs, rest, extend) && k in rest
    requires AsPlanned(true, child, PlanValue(KidSketch(cs.kids, k), SketchOf(us.kids[k]), extend))
    ensures InProgress(cs, us, DictAt(rs.dict, rs.kids[k := child]), rest - {k}, extend)
  {
  }

  lemma StepDicts(rs: Shape, k: string, child: Shape, novel: set<DictObject>)
    requires rs.DictAt? && Unshared(rs)
    requires Dicts(child) <= Dicts(Kid(rs.kids, k)) + novel && novel !! Dicts(rs)
    ensures forall k' :: k' in rs.kids && k' != k ==> Apart(rs.kids[k'], child)
    ensures Dicts(DictAt(rs.dict, rs.kids[k := child])) <= Dicts(rs) + novel
  {
    forall k' | k' in rs.kids && k' != k
      ensures Apart(rs.kids[k'], child)
    {
      KidIsPart(rs.dict, rs.kids, k');
      if k in rs.kids {
        assert Apart(rs.kids[k], rs.kids[k']);
      }
    }
  }

  /** The lists have grown, from contents g, by the extensions in the log. */
  ghost predicate HaveGrown(lists: set<ListObject>, g: Contents, log: seq<Extension>)
    reads lists
  {
    forall l :: l in lists ==> l.items == In(g, l) + Appended(log, l)
  }

  /** A round, with the log of all rounds so far. */
  method NextRound(conf: DictObject, k: string, v: Node, extend: bool, ghost cs: Shape, ghost us: Shape,
                   ghost rs: Shape, ghost rest: set<string>, ghost f: Contents, ghost g: Contents, ghost log: seq<Extension>)
    returns (ok: bool, ghost rs': Shape, ghost log': seq<Extension>)
    requires InProgress(cs, us, rs, rest, extend) && k in rest && NodeOf(us.kids[k]) == v && NodeOf(rs) == DictNode(conf)
    requires Apart(cs, us) && (extend ==> Lists(cs) !! Lists(us)) && Have(Lists(us), f)
    requires Unshared(rs) && Apart(rs, us) && Holds(rs) && Holds(us)
    requires IsLogBut(log, SketchOf(cs), SketchOf(us), f, extend, rest) && HaveGrown(Lists(cs), g, log)
    modifies conf, Dicts(Kid(cs.kids, k)), if extend then Lists(Kid(cs.kids, k)) else {}
    ensures Holds(us) && Have(Lists(us), f)
    ensures !ok ==> PlanDict(SketchOf(cs).kids, SketchOf(us), extend).None?
    ensures ok ==> InProgress(cs, us, rs', rest - {k}, extend) && NodeOf(rs') == NodeOf(rs)
    ensures ok ==> Unshared(rs') && OnlyFreshDicts(rs', rs) && Holds(rs')
    ensures ok ==> IsLogBut(log', SketchOf(cs), SketchOf(us), f, extend, rest - {k}) && HaveGrown(Lists(cs), g, log')
    decreases us, 2
  {
    hide PlanValue, PlanDict, IsLog, IsLogBut, SketchOf, ListsIn, InProgress;
    ListsAreAllocated(SketchOf(cs));
    ghost var sub;
    ok, rs', sub := UpdateRound(conf, k, v, extend, cs, us, rs, rest, f);
    log' := log + Under(k, sub);
    if ok {
      RoundLogged(cs, us, rs, rest, extend, k, log, sub, f);
      forall l | l in Lists(cs)
        ensures l.items == In(g, l) + Appended(log', l)
      {
        AppendedUnder(log, k, sub, l);
        Longer(In(g, l), Appended(log, l), Appended(sub, l));
      }
    } else {
      RoundFailed(cs, us, rs, rest, extend, k);
    }
  }

  lemma RoundLogged(cs: Shape, us: Shape, rs: Shape, rest: set<string>, extend: bool, k: string,
                    log: seq<Extension>, sub: seq<Extension>, f: Contents)
    requires InProgress(cs, us, rs, rest, extend) && k in rest
    requires IsLogBut(log, SketchOf(cs), SketchOf(us), f, extend, rest)
    requires IsLog(sub, KidSketch(cs.kids, k), SketchOf(us.kids[k]), f, extend)
    ensures IsLogBut(log + Under(k, sub), SketchOf(cs), SketchOf(us), f, extend, rest - {k})
  {
    hide IsLog, IsLogBut;
    KidOfSketch(cs, k);
    KidOfSketch(us, k);
    LogNext(log, sub, SketchOf(cs), SketchOf(us), f, extend, rest, k);
  }

  lemma RoundFailed(cs: Shape, us: Shape, rs: Shape, rest: set<string>, extend: bool, k: string)
    requires InProgress(cs, us, rs, rest, extend) && k in rest
    requires PlanValue(KidSketch(cs.kids, k), SketchOf(us.kids[k]), extend).None?
    ensures PlanDict(SketchOf(cs).kids, SketchOf(us), extend).None?
  {
    KidOfSketch(cs, k);
    KidOfSketch(us, k);
  }

  /** The items of the update may be taken in any order.  The log tells the extensions of lists. */
  method UpdateNestedConf(conf: DictObject, update: DictObject, extend: bool,
                          ghost cs: Shape, ghost us: Shape, ghost f: Contents)
    returns (ok: bool, ghost rs: Shape, ghost log: seq<Extension>)
    requires Ready(cs, us, extend) && NodeOf(cs) == DictNode(conf) && NodeOf(us) == DictNode(update) && Have(Lists(us), f)
    modifies Dicts(cs), if extend then Lists(cs) else {}
    ensures AsPlanned(ok, rs, PlanDict(SketchOf(cs).kids, SketchOf(us), extend))
    ensures ok ==> Holds(rs) && Unshared(rs) && NodeOf(rs) == DictNode(conf) && OnlyFreshDicts(rs, cs)
    ensures ok ==> IsLog(log, Some(SketchOf(cs)), SketchOf(us), f, extend)
    ensures ok ==> Extended(Lists(cs), log)
    decreases us, 3
  {
    hide PlanValue, PlanDict, IsLog, IsLogBut, SketchOf, ListsIn;
    ok, rs, log := true, cs, [];
    DictsAreAllocated(us);
    DictsAreAllocated(cs);
    ListsAreAllocated(SketchOf(cs));
    ghost var g := ContentsOf(Lists(cs));
    var rest := update.entries.Keys;
    Begin(cs, us, f, g, extend);
    while rest != {}
      invariant InProgress(cs, us, rs, rest, extend) && Unshared(rs) && NodeOf(rs) == NodeOf(cs)
      invariant Holds(rs) && Holds(us) && OnlyFreshDicts(rs, cs) && Have(Lists(us), f)
      invariant IsLogBut(log, SketchOf(cs), SketchOf(us), f, extend, rest) && HaveGrown(Lists(cs), g, log)
    {
      var k :| k in rest;
      KidIsWithin(cs, k);
      ok, rs, log := NextRound(conf, k, update.entries[k], extend, cs, us, rs, rest, f, g, log);
      if !ok {
        return;
      }
      rest := rest - {k};
    }
    KindOfSketch(cs);
    KindOfSketch(us);
    LogEnds(log, SketchOf(cs), SketchOf(us), f, extend);
    PlanDone(cs, us, rs, extend);
  }

  lemma Begin(cs: Shape, us: Shape, f: Contents, g: Contents, extend: bool)
    requires cs.DictAt? && us.DictAt? && Holds(us) && g == ContentsOf(Lists(cs))
    ensures InProgress(cs, us, cs, us.dict.entries.Keys, extend) && us.dict.entries.Keys == us.kids.Keys
    ensures IsLogBut([], SketchOf(cs), SketchOf(us), f, extend, us.dict.entries.Keys)
    ensures HaveGrown(Lists(cs), g, [])
  {
    NoItems(us);
    LogBegins(SketchOf(cs), SketchOf(us), f, extend);
    assert forall l :: l in Lists(cs) ==> In(g, l) + [] == In(g, l) == l.items;
  }

  lemma KindOfSketch(s: Shape)
    ensures SketchOf(s).DictOf? <==> s.DictAt?
  {
  }

  lemma Longer<T>(a: seq<T>, b: seq<T>, c: seq<T>)
    ensures a + b + c == a + (b + c)
  {
  }

  lemma KidOfSketch(s: Shape, k: string)
    requires s.DictAt?
    ensures Sub(SketchOf(s).kids, k) == KidSketch(s.kids, k)
    ensures k in s.kids <==> k in SketchOf(s).kids
  {
  }

  lemma PlanDone(cs: Shape, us: Shape, rs: Shape, extend: bool)
    requires InProgress(cs, us, rs, {}, extend)
    ensures PlanDict(SketchOf(cs).kids, SketchOf(us), extend) == Some(SketchOf(rs))
  {
    hide PlanValue;
    forall k | k in us.kids
      ensures PlanValue(Sub(SketchOf(cs).kids, k), SketchOf(us).kids[k], extend) == Some(SketchOf(rs).kids[k])
    {
      KidOfSketch(cs, k);
    }
    SameKids(PlanDict(SketchOf(cs).kids, SketchOf(us), extend).value, SketchOf(rs));
  }

  lemma ReadyForKey(cs: Shape, us: Shape, extend: bool, rs: Shape, rest: set<string>, k: string)
    requires InProgress(cs, us, rs, rest, extend) && Unshared(rs) && k in rest && Holds(rs) && Holds(us)
    requires Apart(rs, us) && (extend ==> Lists(cs) !! Lists(us))
    ensures ReadyAt(rs.dict, rs.kids, k, us.kids[k], extend)
    ensures Kid(rs.kids, k) == Kid(cs.kids, k) && KidSketch(rs.kids, k) == KidSketch(cs.kids, k)
    ensures Lists(Kid(rs.kids, k)) <= Lists(cs)
  {
    KidIsPart(us.dict, us.kids, k);
    if k in cs.kids {
      KidIsPart(cs.dict, cs.kids, k);
    }
  }

  /** The shape of conf while the keys in rest are still to be updated. */
  ghost predicate InProgress(cs: Shape, us: Shape, rs: Shape, rest: set<string>, extend: bool) {
    && cs.DictAt? && us.DictAt? && rs.DictAt? && rest <= us.kids.Keys
    && rs.kids.Keys == cs.kids.Keys + (us.kids.Keys - rest)
    && (forall k :: k in cs.kids && (k in rest || k !in us.kids) ==> rs.kids[k] == cs.kids[k])
    && (forall k :: k in us.kids && k !in rest ==>
          PlanValue(KidSketch(cs.kids, k), SketchOf(us.kids[k]), extend) == Some(SketchOf(rs.kids[k])))
  }

  // ----- The result of one merge -----

  /** Merges document us into conf.  It succeeds exactly when the documents merge, and then the result is the merge of
      the documents exactly when that is harmless to lists that are stored more than once, or no list is extended. */
  method MergeInPlace(conf: DictObject, update: DictObject, extend: bool, ghost cs: Shape, ghost us: Shape)
    returns (ok: bool, ghost rs: Shape)
    requires Ready(cs, us, extend) && NodeOf(cs) == DictNode(conf) && NodeOf(us) == DictNode(update)
    modifies Dicts(cs), if extend then Lists(cs) else {}
    ensures AsPlanned(ok, rs, PlanDict(SketchOf(cs).kids, SketchOf(us), extend))
    ensures ok <==> Merge(old(TreeOf(cs)), old(TreeOf(us)), extend).Some?
    ensures ok ==> Holds(rs) && Unshared(rs) && NodeOf(rs) == DictNode(conf) && OnlyFreshDicts(rs, cs)
    ensures ok ==> Lists(rs) <= Lists(cs) + Lists(us)
    ensures ok ==> (TreeOf(rs) == Merge(old(TreeOf(cs)), old(TreeOf(us)), extend).value <==>
                    (extend ==> Harmless(SketchOf(cs), SketchOf(us), old(ContentsOf(Lists(us))))))
  {
    hide PlanDict, PlanValue, Merge, Harmless, IsLog, SketchOf, ListsIn, TreeOf;
    ListsAreAllocated(SketchOf(cs));
    ListsAreAllocated(SketchOf(us));
    KindOfSketch(cs);
    KindOfSketch(us);
    ghost var all := Lists(cs) + Lists(us);
    ghost var f := ContentsOf(all);
    TreeIs(cs, f);
    TreeIs(us, f);
    MergesIfPlanned(SketchOf(cs), SketchOf(us), f, extend);
    ghost var log;
    ok, rs, log := UpdateNestedConf(conf, update, extend, cs, us, f);
    if ok {
      ghost var g := ContentsOf(all);
      GrownBy(SketchOf(cs), SketchOf(us), f, g, log, extend);
      PlanDictLists(SketchOf(cs), SketchOf(us), extend);
      TreeIs(rs, g);
      ResultIsRight(SketchOf(cs), SketchOf(us), f, g, log, extend);
      HarmlessDepends(SketchOf(cs), SketchOf(us), f, old(ContentsOf(Lists(us))));
    }
  }

  lemma PlanDictLists(c: Sketch, v: Sketch, extend: bool)
    requires c.DictOf? && v.DictOf? && PlanDict(c.kids, v, extend).Some?
    ensures ListsIn(PlanDict(c.kids, v, extend).value) <= ListsIn(c) + ListsIn(v)
  {
    PlanLists(Some(c), v, extend);
  }

  lemma MergesIfPlanned(c: Sketch, v: Sketch, f: Contents, extend: bool)
    requires c.DictOf? && v.DictOf?
    ensures Merge(Tree(c, f), Tree(v, f), extend).Some? <==> PlanDict(c.kids, v, extend).Some?
  {
    TreeHasKinds(c, f);
    TreeHasKinds(v, f);
    KindsMergeDict(Tree(c, f).entries, Tree(v, f), c.kids, v, extend);
  }

  lemma GrownBy(c: Sketch, v: Sketch, f: Contents, g: Contents, log: seq<Extension>, extend: bool)
    requires f.Keys == g.Keys == ListsIn(c) + ListsIn(v) && (extend ==> ListsIn(c) !! ListsIn(v))
    requires IsLog(log, Some(c), v, f, extend)
    requires forall l :: l in ListsIn(c) ==> g[l] == f[l] + Appended(log, l)
    requires forall l :: l in ListsIn(v) && (extend ==> l !in ListsIn(c)) && l !in ListsIn(c) ==> g[l] == f[l]
    ensures Grown(c, f, g, log) && Unchanged(v, f, g)
    ensures !extend ==> f == g
  {
    if !extend {
      forall l | l in f
        ensures g[l] == f[l]
      {
        assert f[l] + [] == f[l];
      }
    }
  }

  lemma ResultIsRight(c: Sketch, v: Sketch, f: Contents, g: Contents, log: seq<Extension>, extend: bool)
    requires c.DictOf? && v.DictOf? && PlanDict(c.kids, v, extend).Some?
    requires IsLog(log, Some(c), v, f, extend) && Grown(c, f, g, log) && Unchanged(v, f, g) && (!extend ==> f == g)
    ensures Merge(Tree(c, f), Tree(v, f), extend).Some?
    ensures Tree(PlanDict(c.kids, v, extend).value, g) == Merge(Tree(c, f), Tree(v, f), extend).value <==>
            (extend ==> Harmless(c, v, f))
  {
    hide Harmless, IsLog;
    if extend {
      RightExactlyIfHarmless(c, v, f, g, log);
    } else {
      NextRight(c, v, f);
    }
  }

  // ----- The sources of a task -----

  ghost function AllDicts(shapes: seq<Shape>): set<DictObject> {
    set i, d | 0 <= i < |shapes| && d in Dicts(shapes[i]) :: d
  }

  ghost function AllLists(shapes: seq<Shape>): set<ListObject> {
    set i, l | 0 <= i < |shapes| && l in Lists(shapes[i]) :: l
  }

  function Sketches(shapes: seq<Shape>): (r: seq<Sketch>)
    ensures |r| == |shapes| && forall i :: 0 <= i < |r| ==> r[i] == SketchOf(shapes[i])
    ensures (forall s :: s in shapes ==> s.DictAt?) ==> forall t :: t in r ==> t.DictOf?
  {
    assert forall i :: 0 <= i < |shapes| ==> shapes[i] in shapes;
    seq(|shapes|, i requires 0 <= i < |shapes| => SketchOf(shapes[i]))
  }

  /** The documents that the shapes stand for. */
  ghost function Documents(shapes: seq<Shape>): (ts: seq<Yaml>)
    reads AllLists(shapes)
    ensures |ts| == |shapes| && forall i :: 0 <= i < |ts| ==> ts[i] == TreeOf(shapes[i])
    ensures (forall s :: s in shapes ==> s.DictAt?) ==> forall t :: t in ts ==> t.Dict?
  {
    DocumentsAre(shapes);
    Trees(Sketches(shapes), ContentsOf(AllLists(shapes)))
  }

  lemma DocumentsAre(shapes: seq<Shape>)
    ensures forall i :: 0 <= i < |shapes| ==> TreeOf(shapes[i]) == Tree(SketchOf(shapes[i]), ContentsOf(AllLists(shapes)))
  {
    forall i | 0 <= i < |shapes|
      ensures TreeOf(shapes[i]) == Tree(SketchOf(shapes[i]), ContentsOf(AllLists(shapes)))
    {
      assert forall l :: l in Lists(shapes[i]) ==> l in AllLists(shapes);
      TreeIs(shapes[i], ContentsOf(AllLists(shapes)));
    }
  }

  /** The loaded sources.  Each is loaded by itself, so that two sources have no list in common. */
  ghost predicate Loaded(sources: seq<DictObject>, shapes: seq<Shape>) {
    && |shapes| == |sources| && (forall s :: s in shapes ==> s.DictAt?)
    && (forall i :: 0 <= i < |shapes| ==> NodeOf(shapes[i]) == DictNode(sources[i]))
    && (forall i, j :: 0 <= i < j < |shapes| ==> Lists(shapes[i]) !! Lists(shapes[j]))
  }

  lemma AllAreAllocated(shapes: seq<Shape>)
    ensures forall i, d :: 0 <= i < |shapes| && d in Dicts(shapes[i]) ==> allocated(d)
    ensures forall l :: l in AllLists(shapes) ==> allocated(l)
    ensures forall d :: d in AllDicts(shapes) ==> allocated(d)
  {
    forall i | 0 <= i < |shapes|
      ensures forall d :: d in Dicts(shapes[i]) ==> allocated(d)
      ensures forall l :: l in Lists(shapes[i]) ==> allocated(l)
    {
      DictsAreAllocated(shapes[i]);
      ListsAreAllocated(SketchOf(shapes[i]));
    }
  }

  /** Source i among the sources. */
  lemma SourceAt(sources: seq<DictObject>, shapes: seq<Shape>, i: nat)
    requires Loaded(sources, shapes) && i < |shapes|
    ensures NodeOf(shapes[i]) == DictNode(sources[i])
    ensures Dicts(shapes[i]) <= AllDicts(shapes) && Lists(shapes[i]) <= AllLists(shapes)
    ensures AllLists(shapes[..i]) <= AllLists(shapes) && AllLists(shapes[..i]) !! Lists(shapes[i])
    ensures AllLists(shapes[..i]) + Lists(shapes[i]) <= AllLists(shapes[..i + 1])
  {
    var upTo := shapes[..i + 1];
    assert upTo == shapes[..i] + [shapes[i]];
    forall l | l in AllLists(shapes[..i]) + Lists(shapes[i])
      ensures l in AllLists(upTo)
    {
      if l in Lists(shapes[i]) {
        assert l in Lists(upTo[i]);
      } else {
        var j :| 0 <= j < i && l in Lists(shapes[..i][j]);
        assert l in Lists(upTo[j]);
      }
    }
  }

  /** Merges source i into the output, of shape cs.  The other sources stay as they are. */
  method MergeSource(output: DictObject, sources: seq<DictObject>, i: nat, extend: bool,
                     ghost cs: Shape, ghost shapes: seq<Shape>, ghost f: Contents)
    returns (ok: bool, ghost rs: Shape, ghost log: seq<Extension>)
    requires Loaded(sources, shapes) && i < |sources| && forall j :: i <= j < |shapes| ==> Holds(shapes[j])
    requires Holds(cs) && Unshared(cs) && NodeOf(cs) == DictNode(output) && f == ContentsOf(AllLists(shapes))
    requires Dicts(cs) !! AllDicts(shapes) && Lists(cs) <= AllLists(shapes[..i])
    modifies Dicts(cs), if extend then Lists(cs) else {}
    ensures AsPlanned(ok, rs, PlanDict(SketchOf(cs).kids, SketchOf(shapes[i]), extend))
    ensures ok ==> Holds(rs) && Unshared(rs) && NodeOf(rs) == DictNode(output) && OnlyFreshDicts(rs, cs)
    ensures ok ==> IsLog(log, Some(SketchOf(cs)), SketchOf(shapes[i]), f, extend) && Extended(Lists(cs), log)
    ensures forall j :: i < j < |shapes| ==> Holds(shapes[j])
    ensures forall l :: l in AllLists(shapes) && !(extend && l in Lists(cs)) ==> l.items == old(l.items)
  {
    hide PlanDict, IsLog, SketchOf, ListsIn;
    SourceAt(sources, shapes, i);
    AllAreAllocated(shapes);
    ok, rs, log := UpdateNestedConf(output, sources[i], extend, cs, shapes[i], f);
    forall j | i < j < |shapes|
      ensures Holds(shapes[j])
    {
      assert forall d :: d in Dicts(shapes[j]) ==> d in AllDicts(shapes);
      assert forall d :: d in Dicts(shapes[j]) ==> d.entries == old(d.entries);
    }
  }

  /** What is known of the contents of all lists after i sources. */
  ghost predicate MergedSoFar(sources: seq<Sketch>, i: nat, r: Sketch, extend: bool,
                              fs: seq<Contents>, logs: seq<seq<Extension>>)
    requires i <= |sources| && forall s :: s in sources ==> s.DictOf?
  {
    && |fs| == i + 1 && PlanAll(sources[..i], extend) == Some(r)
    && (if extend then Run(sources[..i], fs, logs) else fs[i] == fs[0])
    && (forall j :: i <= j < |sources| ==> Unchanged(sources[j], fs[0], fs[i]))
  }

  lemma RunNext(sources: seq<Sketch>, i: nat, c: Sketch, r: Sketch, extend: bool,
                fs: seq<Contents>, logs: seq<seq<Extension>>, g: Contents, log: seq<Extension>)
    requires i < |sources| && (forall s :: s in sources ==> s.DictOf?) && MergedSoFar(sources, i, c, extend, fs, logs)
    requires PlanDict(c.kids, sources[i], extend) == Some(r)
    requires IsLog(log, Some(c), sources[i], fs[i], extend) && Grown(c, fs[i], g, log) && (!extend ==> g == fs[i])
    requires forall j :: i <= j < |sources| ==> Unchanged(sources[j], fs[i], g)
    ensures MergedSoFar(sources, i + 1, r, extend, fs + [g], logs + [log])
  {
    hide PlanDict, IsLog, Grown;
    var upTo := sources[..i + 1];
    assert upTo[..i] == sources[..i] && upTo[i] == sources[i];
    assert (fs + [g])[..i + 1] == fs;
    if extend {
      assert (logs + [log])[..i] == logs;
      assert Step(c, sources[i], fs[i], g, log);
    }
  }

  /** The output after the first i sources, and the sources that are still to be merged. */
  ghost predicate Output(output: DictObject, rs: Shape, shapes: seq<Shape>, i: nat)
    requires i <= |shapes|
    reads Dicts(rs), AllDicts(shapes)
  {
    && Holds(rs) && Unshared(rs) && NodeOf(rs) == DictNode(output) && Lists(rs) <= AllLists(shapes[..i])
    && forall j :: i <= j < |shapes| ==> Holds(shapes[j])
  }

  /** One round of the loop over the sources. */
  method MergeRound(output: DictObject, sources: seq<DictObject>, i: nat, extend: bool, ghost cs: Shape,
                    ghost shapes: seq<Shape>, ghost fs: seq<Contents>, ghost logs: seq<seq<Extension>>)
    returns (ok: bool, ghost rs: Shape, ghost g: Contents, ghost log: seq<Extension>)
    requires Loaded(sources, shapes) && i < |sources| && Output(output, cs, shapes, i) && Dicts(cs) !! AllDicts(shapes)
    requires MergedSoFar(Sketches(shapes), i, SketchOf(cs), extend, fs, logs)
    requires |fs| == i + 1 && fs[i] == ContentsOf(AllLists(shapes))
    modifies Dicts(cs), if extend then Lists(cs) else {}
    ensures !ok ==> PlanAll(Sketches(shapes), extend).None?
    ensures ok ==> Output(output, rs, shapes, i + 1) && OnlyFreshDicts(rs, cs) && g == ContentsOf(AllLists(shapes))
    ensures ok ==> MergedSoFar(Sketches(shapes), i + 1, SketchOf(rs), extend, fs + [g], logs + [log])
  {
    hide PlanDict, IsLog, SketchOf, ListsIn, MergedSoFar, PlanAll;
    SourceAt(sources, shapes, i);
    AllAreAllocated(shapes);
    ListsAreAllocated(SketchOf(cs));
    KindOfSketch(cs);
    KindOfSketch(shapes[i]);
    ok, rs, log := MergeSource(output, sources, i, extend, cs, shapes, fs[i]);
    g := ContentsOf(AllLists(shapes));
    if ok {
      RoundGrown(sources, shapes, i, cs, extend, fs[i], g, log);
      PlanDictLists(SketchOf(cs), SketchOf(shapes[i]), extend);
      RunNext(Sketches(shapes), i, SketchOf(cs), SketchOf(rs), extend, fs, logs, g, log);
    } else {
      RoundFails(Sketches(shapes), i, SketchOf(cs), extend, fs, logs);
    }
  }

  lemma RoundFails(sources: seq<Sketch>, i: nat, c: Sketch, extend: bool, fs: seq<Contents>, logs: seq<seq<Extension>>)
    requires i < |sources| && (forall s :: s in sources ==> s.DictOf?) && MergedSoFar(sources, i, c, extend, fs, logs)
    requires PlanDict(c.kids, sources[i], extend).None?
    ensures PlanAll(sources, extend).None?
  {
    assert sources[..i + 1][..i] == sources[..i];
    PlanOfPrefix(sources, extend, i + 1);
  }

  lemma RoundGrown(sources: seq<DictObject>, shapes: seq<Shape>, i: nat, cs: Shape, extend: bool, f: Contents, g: Contents,
                   log: seq<Extension>)
    requires Loaded(sources, shapes) && i < |shapes| && Lists(cs) <= AllLists(shapes[..i])
    requires f.Keys == g.Keys == AllLists(shapes) && IsLog(log, Some(SketchOf(cs)), SketchOf(shapes[i]), f, extend)
    requires forall l :: l in Lists(cs) ==> l in f && g[l] == f[l] + Appended(log, l)
    requires forall l :: l in f && !(extend && l in Lists(cs)) ==> g[l] == f[l]
    ensures Grown(SketchOf(cs), f, g, log) && (!extend ==> g == f)
    ensures forall j :: i <= j < |shapes| ==> Unchanged(SketchOf(shapes[j]), f, g)
  {
    hide SketchOf, ListsIn, Appended, NodeOf;
    forall j | i <= j < |shapes|
      ensures Unchanged(SketchOf(shapes[j]), f, g)
    {
      forall l | l in Lists(shapes[j])
        ensures l in AllLists(shapes) && l !in Lists(cs)
      {
        assert l !in AllLists(shapes[..i]);
      }
    }
  }

  /** Merges all sources into a new dictionary.  It succeeds exactly when the documents merge, and then the result is
      the merge of the documents exactly when no place is harmed, or no list is extended.  Not one of the result's
      dictionaries is a source's, and no source dictionary changes; with list extension, source lists do. */
  method MergeSources(sources: seq<DictObject>, extend: bool, ghost shapes: seq<Shape>)
    returns (ok: bool, output: DictObject, ghost rs: Shape)
    requires Loaded(sources, shapes) && forall i :: 0 <= i < |shapes| ==> Holds(shapes[i])
    modifies if extend then AllLists(shapes) else {}
    ensures AsPlanned(ok, rs, PlanAll(Sketches(shapes), extend))
    ensures ok <==> MergeAll(old(Documents(shapes)), extend).Some?
    ensures ok ==> Holds(rs) && NodeOf(rs) == DictNode(output) && fresh(Dicts(rs))
    ensures ok ==> (TreeOf(rs) == MergeAll(old(Documents(shapes)), extend).value <==>
                    (extend ==> Unharmed(Sketches(shapes), old(ContentsOf(AllLists(shapes))))))
  {
    hide PlanAll, MergeAll, TreeOf, MergedSoFar, Unharmed, Holds, Unshared, ListsIn, SketchOf;
    AllAreAllocated(shapes);
    ghost var f := ContentsOf(AllLists(shapes));
    ghost var fs, logs := [f], [];
    DocumentsMerge(Sketches(shapes), f, extend);
    output := new DictObject();
    rs := DictAt(output, map[]);
    NewDict(output);
    NothingYet(Sketches(shapes), extend, f);
    forall j | 0 <= j < |shapes|
      ensures Holds(shapes[j])
    {
      assert forall d :: d in Dicts(shapes[j]) ==> d.entries == old(d.entries);
    }
    ok := true;
    var i := 0;
    while i < |sources|
      invariant 0 <= i <= |sources| && |fs| == i + 1 && fs[0] == f && fs[i] == ContentsOf(AllLists(shapes))
      invariant Output(output, rs, shapes, i) && fresh(Dicts(rs))
      invariant MergedSoFar(Sketches(shapes), i, SketchOf(rs), extend, fs, logs)
    {
      ghost var g, log;
      OutputLists(rs, shapes, i);
      ok, rs, g, log := MergeRound(output, sources, i, extend, rs, shapes, fs, logs);
      if !ok {
        return;
      }
      fs, logs, i := fs + [g], logs + [log], i + 1;
    }
    OutputLists(rs, shapes, i);
    TreeIs(rs, fs[i]);
    SourcesMerged(Sketches(shapes), SketchOf(rs), extend, fs, logs);
  }

  lemma OutputLists(rs: Shape, shapes: seq<Shape>, i: nat)
    requires i <= |shapes| && Lists(rs) <= AllLists(shapes[..i])
    ensures Lists(rs) <= AllLists(shapes)
  {
  }

  lemma DocumentsMerge(sources: seq<Sketch>, f: Contents, extend: bool)
    requires forall s :: s in sources ==> s.DictOf?
    ensures MergeAll(Trees(sources, f), extend).Some? <==> PlanAll(sources, extend).Some?
  {
    TreesHaveKinds(sources, f);
  }

  lemma NothingYet(sources: seq<Sketch>, extend: bool, f: Contents)
    requires forall s :: s in sources ==> s.DictOf?
    ensures MergedSoFar(sources, 0, DictOf(map[]), extend, [f], [])
  {
  }

  lemma SourcesMerged(sources: seq<Sketch>, r: Sketch, extend: bool, fs: seq<Contents>, logs: seq<seq<Extension>>)
    requires (forall s :: s in sources ==> s.DictOf?) && MergedSoFar(sources, |sources|, r, extend, fs, logs)
    ensures PlanAll(sources, extend) == Some(r) && MergeAll(Trees(sources, fs[0]), extend).Some?
    ensures Tree(r, fs[|sources|]) == MergeAll(Trees(sources, fs[0]), extend).value <==>
            (extend ==> Unharmed(sources, fs[0]))
  {
    assert sources[..|sources|] == sources;
    if extend {
      RunIsRight(sources, fs, logs);
    } else {
      AllRight(sources, fs[0]);
    }
  }

  /** Loads a source with one list stored under two keys, as a YAML alias does, and a source that extends it under the
      first. */
  method LoadAliased(k: string, k': string, items: seq<Yaml>, more: seq<Yaml>)
    returns (sources: seq<DictObject>, ghost shapes: seq<Shape>)
    requires k != k'
    ensures Loaded(sources, shapes) && (forall i :: 0 <= i < |shapes| ==> Holds(shapes[i])) && fresh(AllLists(shapes))
    ensures Documents(shapes) == [Dict(map[k := List(items), k' := List(items)]), Dict(map[k := List(more)])]
    ensures PlanAll(Sketches(shapes), true).Some?
    ensures Unharmed(Sketches(shapes), ContentsOf(AllLists(shapes))) <==> more == []
  {
    hide TreeOf, SketchOf, PlanAll, Unharmed, ListsIn, Holds, Loaded;
    var l := new ListObject(items);
    var m := new ListObject(more);
    var aliased := new DictObject();
    var extending := new DictObject();
    aliased.entries := map[k := ListNode(l), k' := ListNode(l)];
    extending.entries := map[k := ListNode(m)];
    ghost var one := DictAt(aliased, map[k := ListAt(l), k' := ListAt(l)]);
    ghost var two := DictAt(extending, map[k := ListAt(m)]);
    sources, shapes := [aliased, extending], [one, two];
    AliasedShape(k, k', aliased, l);
    ExtendingShape(k, extending, m);
    TwoShapes(one, two);
    AliasPlan(k, k', l, m);
    AliasIsHarmed(k, k', l, m, ContentsOf(AllLists(shapes)));
  }

  /** The list grows under both keys, which merging the documents does not do. */
  method MergeAliased(k: string, k': string, items: seq<Yaml>, more: seq<Yaml>)
    returns (ok: bool, output: DictObject, ghost rs: Shape, ghost documents: seq<Yaml>)
    requires k != k'
    ensures documents == [Dict(map[k := List(items), k' := List(items)]), Dict(map[k := List(more)])]
    ensures ok && Holds(rs) && NodeOf(rs) == DictNode(output) && MergeAll(documents, true).Some?
    ensures TreeOf(rs) == MergeAll(documents, true).value <==> more == []
  {
    hide TreeOf, SketchOf, PlanAll, MergeAll, Unharmed, ListsIn, Holds, Loaded;
    ghost var shapes;
    var sources;
    sources, shapes := LoadAliased(k, k', items, more);
    documents := Documents(shapes);
    ok, output, rs := MergeSources(sources, true, shapes);
  }

  lemma AliasedShape(k: string, k': string, d: DictObject, l: ListObject)
    requires k != k' && d.entries == map[k := ListNode(l), k' := ListNode(l)]
    ensures Holds(DictAt(d, map[k := ListAt(l), k' := ListAt(l)]))
    ensures var s := DictAt(d, map[k := ListAt(l), k' := ListAt(l)]);
            && SketchOf(s) == DictOf(map[k := ListOf(l), k' := ListOf(l)]) && Lists(s) == {l}
            && TreeOf(s) == Dict(map[k := List(l.items), k' := List(l.items)])
  {
    var s := DictAt(d, map[k := ListAt(l), k' := ListAt(l)]);
    assert SketchOf(s).kids == map[k := ListOf(l), k' := ListOf(l)];
    assert l in ListsIn(SketchOf(s).kids[k]);
    assert Tree(ListOf(l), ContentsOf(Lists(s))) == List(l.items);
    SameEntries(TreeOf(s), Dict(map[k := List(l.items), k' := List(l.items)]));
  }

  lemma ExtendingShape(k: string, d: DictObject, m: ListObject)
    requires d.entries == map[k := ListNode(m)]
    ensures Holds(DictAt(d, map[k := ListAt(m)]))
    ensures var s := DictAt(d, map[k := ListAt(m)]);
            SketchOf(s) == DictOf(map[k := ListOf(m)]) && Lists(s) == {m} && TreeOf(s) == Dict(map[k := List(m.items)])
  {
    var s := DictAt(d, map[k := ListAt(m)]);
    assert SketchOf(s).kids == map[k := ListOf(m)];
    assert m in ListsIn(SketchOf(s).kids[k]);
    assert Tree(ListOf(m), ContentsOf(Lists(s))) == List(m.items);
    SameEntries(TreeOf(s), Dict(map[k := List(m.items)]));
  }

  lemma TwoShapes(one: Shape, two: Shape)
    requires one.DictAt? && two.DictAt? && Lists(one) !! Lists(two)
    ensures Loaded([one.dict, two.dict], [one, two])
    ensures Documents([one, two]) == [TreeOf(one), TreeOf(two)]
    ensures Sketches([one, two]) == [SketchOf(one), SketchOf(two)]
    ensures AllLists([one, two]) == Lists(one) + Lists(two)
  {
    assert forall l :: l in Lists(one) ==> l in Lists([one, two][0]);
    assert forall l :: l in Lists(two) ==> l in Lists([one, two][1]);
  }
}

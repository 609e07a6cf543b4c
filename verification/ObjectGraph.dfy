/**
 The object graph a caller hands in: containers in a heap, named by identity,
 possibly shared and possibly cyclic. Unfolding reads it as a finite tree.
 */
module ObjectGraph {
  import opened Strings
  import opened Wrappers
  import opened Json

  datatype Value =
    | VNull
    | VBool(b: bool)
    | VInt(n: int)
    | VStr(s: Text)
    | VRef(id: nat)
    | VOther

  datatype Entry = Entry(key: Value, child: Value)

  /** A list, or a dict in insertion order. */
  datatype Container = ListOf(items: seq<Value>) | DictOf(entries: seq<Entry>)

  type Heap = seq<Container>

  predicate AllTextKeys(es: seq<Entry>) {
    forall i :: 0 <= i < |es| ==> es[i].key.VStr?
  }

  function TextKeys(es: seq<Entry>): (ks: seq<Text>)
    requires AllTextKeys(es)
    ensures |ks| == |es|
  {
    seq(|es|, i requires 0 <= i < |es| => es[i].key.s)
  }

  /** Dicts never hold a key twice. */
  predicate DictsDistinct(h: Heap) {
    forall id :: 0 <= id < |h| && h[id].DictOf? ==>
      forall i, j :: 0 <= i < j < |h[id].entries| ==> h[id].entries[i].key != h[id].entries[j].key
  }

  function Children(c: Container): seq<Value> {
    match c
    case ListOf(items) => items
    case DictOf(es) => seq(|es|, i requires 0 <= i < |es| => es[i].child)
  }

  predicate WellKeyed(c: Container) {
    c.DictOf? ==> AllTextKeys(c.entries)
  }

  function KeysOf(c: Container): (ks: seq<Text>)
    requires WellKeyed(c)
    ensures c.DictOf? ==> |ks| == |Children(c)|
  {
    if c.DictOf? then TextKeys(c.entries) else []
  }

  /** The tree of a container, from the trees of its children. */
  ghost function Assemble(c: Container, ts: seq<Json>): Json
    requires WellKeyed(c) && |ts| == |Children(c)|
  {
    if c.DictOf? then Obj(Combine(KeysOf(c), ts)) else Arr(ts)
  }

  /** The tree that v denotes, if it has at most `fuel` levels and only JSON types. */
  ghost function Unfold(h: Heap, v: Value, fuel: nat): Option<Json>
    decreases fuel
  {
    if fuel == 0 then None
    else match v
      case VNull => Some(Null)
      case VBool(b) => Some(Bool(b))
      case VInt(n) => Some(Int(n))
      case VStr(s) => Some(Str(s))
      case VOther => None
      case VRef(id) =>
        if id >= |h| || !WellKeyed(h[id]) then None
        else
          var cs := Children(h[id]);
          if exists i :: 0 <= i < |cs| && Unfold(h, cs[i], fuel - 1).None? then None
          else Some(Assemble(h[id], seq(|cs|, i requires 0 <= i < |cs| => Unfold(h, cs[i], fuel - 1).value)))
  }

  /** The children's trees, when the container unfolds. */
  ghost function Subtrees(h: Heap, id: nat, fuel: nat): (ts: seq<Json>)
    requires id < |h| && Unfold(h, VRef(id), fuel).Some?
    ensures |ts| == |Children(h[id])|
    ensures forall i :: 0 <= i < |ts| ==> Unfold(h, Children(h[id])[i], fuel - 1) == Some(ts[i])
    ensures Unfold(h, VRef(id), fuel) == Some(Assemble(h[id], ts))
  {
    var cs := Children(h[id]);
    seq(|cs|, i requires 0 <= i < |cs| => Unfold(h, cs[i], fuel - 1).value)
  }

  lemma UnfoldContainer(h: Heap, id: nat, fuel: nat, ts: seq<Json>)
    requires id < |h| && fuel > 0 && WellKeyed(h[id]) && |ts| == |Children(h[id])|
    requires forall i :: 0 <= i < |ts| ==> Unfold(h, Children(h[id])[i], fuel - 1) == Some(ts[i])
    ensures Unfold(h, VRef(id), fuel) == Some(Assemble(h[id], ts))
  {
    var cs := Children(h[id]);
    assert seq(|cs|, i requires 0 <= i < |cs| => Unfold(h, cs[i], fuel - 1).value) == ts;
  }

  /** The dict built by inserting the pairs in order. */
  ghost function Combine(ks: seq<Text>, ts: seq<Json>): (m: map<Text, Json>)
    requires |ks| == |ts|
    ensures m.Keys == Elements(ks)
  {
    if ks == [] then map[]
    else
      var n := |ks| - 1;
      assert ks == ks[..n] + [ks[n]];
      Combine(ks[..n], ts[..n])[ks[n] := ts[n]]
  }

  lemma {:induction false} CombineAt(ks: seq<Text>, ts: seq<Json>, i: nat)
    requires |ks| == |ts| && Distinct(ks) && i < |ks|
    ensures ks[i] in Combine(ks, ts) && Combine(ks, ts)[ks[i]] == ts[i]
  {
    var n := |ks| - 1;
    if i < n {
      CombineAt(ks[..n], ts[..n], i);
    }
  }

  /** The sum over a container's tree, taken along its children in their own order. */
  lemma AssembleTotal(c: Container, ts: seq<Json>, w: Weights)
    requires WellKeyed(c) && |ts| == |Children(c)| && Distinct(KeysOf(c))
    ensures Total(Assemble(c, ts), w) ==
            w.leaf(Assemble(c, ts)) + Sum(KeysOf(c), w.key) + Sum(ts, TreeCost(w))
  {
    if c.ListOf? {
      ArrTotal(ts, w);
    } else {
      var ks := KeysOf(c);
      var m := Combine(ks, ts);
      ObjTotal(m, ks, w);
      forall i | 0 <= i < |ks| ensures ks[i] in m && m[ks[i]] == ts[i] { CombineAt(ks, ts, i); }
      SumPaired(ks, ts, MemberCost(Obj(m), w), w.key, TreeCost(w));
    }
  }

  lemma {:induction false} SumPaired<A, B>(xs: seq<A>, ys: seq<B>, f: A -> nat, g: A -> nat, h: B -> nat)
    requires |xs| == |ys|
    requires forall i :: 0 <= i < |xs| ==> f(xs[i]) == g(xs[i]) + h(ys[i])
    ensures Sum(xs, f) == Sum(xs, g) + Sum(ys, h)
  {
    if xs != [] { SumPaired(xs[1..], ys[1..], f, g, h); }
  }

  lemma UnfoldParts(h: Heap, id: nat, fuel: nat)
    requires Unfold(h, VRef(id), fuel).Some?
    ensures fuel > 0 && id < |h| && WellKeyed(h[id])
  {
  }

  lemma UnfoldScalar(h: Heap, v: Value, f: nat, g: nat)
    requires f <= g && !v.VRef? && Unfold(h, v, f).Some?
    ensures Unfold(h, v, g) == Unfold(h, v, f)
  {
  }

  /** More levels never change a tree that already fits. */
  lemma {:induction false} UnfoldMonotone(h: Heap, v: Value, f: nat, g: nat)
    requires f <= g && Unfold(h, v, f).Some?
    ensures Unfold(h, v, g) == Unfold(h, v, f)
    decreases f
  {
    hide Unfold, Assemble, Children, WellKeyed;
    if v.VRef? {
      UnfoldParts(h, v.id, f);
      var cs := Children(h[v.id]);
      var ts := Subtrees(h, v.id, f);
      forall i | 0 <= i < |cs| ensures Unfold(h, cs[i], g - 1) == Some(ts[i]) {
        UnfoldMonotone(h, cs[i], f - 1, g - 1);
      }
      UnfoldContainer(h, v.id, g, ts);
    } else {
      UnfoldScalar(h, v, f, g);
    }
  }

  lemma KeysDistinct(h: Heap, id: nat)
    requires DictsDistinct(h) && id < |h| && WellKeyed(h[id])
    ensures Distinct(KeysOf(h[id]))
  {
    if h[id].DictOf? {
      var es := h[id].entries;
      forall i, j | 0 <= i < j < |es| ensures es[i].key.s != es[j].key.s {
        assert es[i].key != es[j].key;
      }
    }
  }

  /** A child unfolds wherever its container does, to a tree with fewer nodes. */
  lemma ChildSmaller(h: Heap, id: nat, i: nat, f: nat)
    requires DictsDistinct(h) && id < |h| && i < |Children(h[id])|
    requires Unfold(h, VRef(id), f).Some?
    ensures Unfold(h, Children(h[id])[i], f).Some?
    ensures Nodes(Unfold(h, Children(h[id])[i], f).value) < Nodes(Unfold(h, VRef(id), f).value)
  {
    var ts := Subtrees(h, id, f);
    UnfoldMonotone(h, Children(h[id])[i], f - 1, f);
    KeysDistinct(h, id);
    AssembleTotal(h[id], ts, NODES);
    SumBounds(ts, TreeCost(NODES), i);
  }

  lemma {:induction false} SumBounds<T>(xs: seq<T>, f: T -> nat, i: nat)
    requires i < |xs|
    ensures f(xs[i]) <= Sum(xs, f)
  {
    if i > 0 { SumBounds(xs[1..], f, i - 1); }
  }

  // ------------------------------------------------------- what can be said at all

  ghost predicate AllEncodable(t: Json) {
    match t
    case Str(s) => Encodable(s)
    case Arr(items) => forall x :: x in items ==> AllEncodable(x)
    case Obj(m) => forall k :: k in m ==> Encodable(k) && AllEncodable(m[k])
    case _ => true
  }

  /** v denotes a JSON value with valid text, if one looks `reach` levels deep. */
  ghost predicate Sayable(h: Heap, v: Value, reach: nat) {
    Unfold(h, v, reach).Some? && AllEncodable(Unfold(h, v, reach).value)
  }

  /** A depth at which v denotes such a value, if there is any. */
  ghost function FarEnough(h: Heap, v: Value, least: nat): (reach: nat)
    ensures reach >= least && forall f :: Sayable(h, v, f) ==> Sayable(h, v, reach)
  {
    if f: nat :| Sayable(h, v, f) then
      var reach := if f >= least then f else least;
      UnfoldMonotone(h, v, f, reach);
      reach
    else least
  }

  /** Parts of a JSON value are JSON values. */
  lemma ChildSayable(h: Heap, id: nat, i: nat, reach: nat)
    requires DictsDistinct(h) && id < |h| && i < |Children(h[id])| && Sayable(h, VRef(id), reach)
    ensures Sayable(h, Children(h[id])[i], reach)
  {
    hide Unfold, Assemble, AllEncodable, Children;
    UnfoldParts(h, id, reach);
    var ts := Subtrees(h, id, reach);
    KeysDistinct(h, id);
    PartEncodable(h[id], ts, i);
    UnfoldMonotone(h, Children(h[id])[i], reach - 1, reach);
  }

  lemma PartEncodable(c: Container, ts: seq<Json>, i: nat)
    requires WellKeyed(c) && |ts| == |Children(c)| && Distinct(KeysOf(c)) && i < |ts| && AllEncodable(Assemble(c, ts))
    ensures AllEncodable(ts[i]) && (c.DictOf? ==> Encodable(KeysOf(c)[i]))
  {
    hide Combine, Encodable;
    if c.DictOf? {
      CombineAt(KeysOf(c), ts, i);
    } else {
      assert ts[i] in Arr(ts).items;
    }
  }

  lemma KeySayable(h: Heap, id: nat, i: nat, reach: nat)
    requires DictsDistinct(h) && id < |h| && h[id].DictOf? && i < |h[id].entries| && Sayable(h, VRef(id), reach)
    ensures h[id].entries[i].key.VStr? && Encodable(h[id].entries[i].key.s)
  {
    hide Unfold, Assemble, AllEncodable, Encodable;
    UnfoldParts(h, id, reach);
    KeysDistinct(h, id);
    PartEncodable(h[id], Subtrees(h, id, reach), i);
  }

  // ------------------------------------------------------- containers in progress

  /** Every container in progress, if it is finite at all, strictly contains v. */
  ghost predicate Below(h: Heap, active: set<nat>, v: Value, fuel: nat) {
    forall a :: a in active && Unfold(h, VRef(a), fuel).Some? ==>
      Unfold(h, v, fuel).Some? && Nodes(Unfold(h, VRef(a), fuel).value) > Nodes(Unfold(h, v, fuel).value)
  }

  /** Meeting a container in progress again means the graph is infinite from here. */
  lemma CycleIsInfinite(h: Heap, active: set<nat>, id: nat, fuel: nat, left: nat)
    requires Below(h, active, VRef(id), fuel) && id in active && left <= fuel
    ensures Unfold(h, VRef(id), left).None?
  {
    if Unfold(h, VRef(id), left).Some? {
      UnfoldMonotone(h, VRef(id), left, fuel);
      assert false;
    }
  }

  lemma ChildBelow(h: Heap, active: set<nat>, id: nat, i: nat, fuel: nat)
    requires DictsDistinct(h) && id < |h| && i < |Children(h[id])|
    requires Below(h, active, VRef(id), fuel)
    ensures Below(h, active + {id}, Children(h[id])[i], fuel)
  {
    if Unfold(h, VRef(id), fuel).Some? {
      ChildSmaller(h, id, i, fuel);
    }
  }

  // ------------------------------------------------------------ bounded traversal

  /** The limits a traversal enforces on the tree it unfolds. */
  datatype Profile = Profile(
    node: Json -> bool,
    key: Text -> bool,
    bytes: Weights,
    maxNodes: nat,
    maxBytes: nat)

  ghost predicate Conforms(t: Json, p: Profile) {
    p.node(t) &&
    match t
    case Arr(items) => forall x :: x in items ==> Conforms(x, p)
    case Obj(m) => forall k :: k in m ==> p.key(k) && Conforms(m[k], p)
    case _ => true
  }

  /** v unfolds within `left` levels to a conforming tree that fits the remaining budget. */
  ghost predicate Admits(h: Heap, v: Value, left: nat, p: Profile, nodes: nat, bytes: nat) {
    match Unfold(h, v, left)
    case None => false
    case Some(t) =>
      Conforms(t, p) && nodes + Nodes(t) <= p.maxNodes && bytes + Total(t, p.bytes) <= p.maxBytes
  }

  function KeyTexts(es: seq<Entry>): (ks: seq<Text>)
    ensures AllTextKeys(es) ==> ks == TextKeys(es)
    ensures |ks| == |es|
  {
    seq(|es|, i requires 0 <= i < |es| => if es[i].key.VStr? then es[i].key.s else [])
  }

  function EntriesOf(c: Container): seq<Entry> {
    if c.DictOf? then c.entries else []
  }

  /** Key bytes of the first `keys` entries. */
  function KeyBytes(c: Container, keys: nat, w: Weights): nat
    requires keys <= |EntriesOf(c)|
  {
    Sum(KeyTexts(EntriesOf(c)[..keys]), w.key)
  }

  lemma ConformsChildren(c: Container, ts: seq<Json>, p: Profile)
    requires WellKeyed(c) && |ts| == |Children(c)| && Distinct(KeysOf(c))
    ensures Conforms(Assemble(c, ts), p) <==>
      p.node(Assemble(c, ts))
      && (forall i :: 0 <= i < |ts| ==> Conforms(ts[i], p))
      && (forall i :: 0 <= i < |KeysOf(c)| ==> p.key(KeysOf(c)[i]))
  {
    if c.DictOf? {
      var ks := KeysOf(c);
      var m := Combine(ks, ts);
      forall i | 0 <= i < |ks| ensures ks[i] in m && m[ks[i]] == ts[i] { CombineAt(ks, ts, i); }
      forall k | k in m ensures exists i :: 0 <= i < |ks| && ks[i] == k && m[k] == ts[i] {
        var i :| 0 <= i < |ks| && ks[i] == k;
      }
    }
  }

  lemma {:induction false} SumPrefix<T>(xs: seq<T>, f: T -> nat, i: nat)
    requires i <= |xs|
    ensures Sum(xs[..i], f) <= Sum(xs, f)
    ensures i < |xs| ==> Sum(xs[..i], f) + f(xs[i]) <= Sum(xs, f)
    ensures i < |xs| ==> Sum(xs[..i + 1], f) == Sum(xs[..i], f) + f(xs[i])
  {
    assert xs == xs[..i] + xs[i..];
    SumSplit(xs[..i], xs[i..], f);
    if i < |xs| {
      assert xs[..i + 1] == xs[..i] + [xs[i]];
      SumSplit(xs[..i], [xs[i]], f);
    }
  }

  /**
   A container in the middle of its traversal: the first |ts| children and the
   first `keys` keys are behind it, with the counters they leave.
   */
  ghost predicate Progress(h: Heap, id: nat, left: nat, p: Profile, nodes0: nat, bytes0: nat,
                           ts: seq<Json>, keys: nat, nodes: nat, bytes: nat) {
    && id < |h| && left > 0
    && |ts| <= |Children(h[id])| && keys <= |EntriesOf(h[id])|
    && (forall j :: 0 <= j < |ts| ==> Unfold(h, Children(h[id])[j], left - 1) == Some(ts[j]) && Conforms(ts[j], p))
    && (forall j :: 0 <= j < keys ==> EntriesOf(h[id])[j].key.VStr? && p.key(EntriesOf(h[id])[j].key.s))
    && nodes == nodes0 + 1 + Sum(ts, TreeCost(NODES)) <= p.maxNodes
    && bytes == bytes0 + KeyBytes(h[id], keys, p.bytes) + Sum(ts, TreeCost(p.bytes)) <= p.maxBytes
  }

  lemma ProgressStart(h: Heap, id: nat, left: nat, p: Profile, nodes0: nat, bytes0: nat)
    requires id < |h| && left > 0 && nodes0 + 1 <= p.maxNodes && bytes0 <= p.maxBytes
    ensures Progress(h, id, left, p, nodes0, bytes0, [], 0, nodes0 + 1, bytes0)
  {
  }

  lemma ProgressBounds(h: Heap, id: nat, left: nat, p: Profile, nodes0: nat, bytes0: nat,
                       ts: seq<Json>, keys: nat, nodes: nat, bytes: nat)
    requires Progress(h, id, left, p, nodes0, bytes0, ts, keys, nodes, bytes)
    ensures nodes <= p.maxNodes && bytes <= p.maxBytes
  {
  }

  lemma ProgressKey(h: Heap, id: nat, left: nat, p: Profile, nodes0: nat, bytes0: nat,
                    ts: seq<Json>, keys: nat, nodes: nat, bytes: nat, k: Text)
    requires Progress(h, id, left, p, nodes0, bytes0, ts, keys, nodes, bytes)
    requires keys < |EntriesOf(h[id])| && EntriesOf(h[id])[keys].key == VStr(k)
    requires p.key(k) && bytes + p.bytes.key(k) <= p.maxBytes
    ensures Progress(h, id, left, p, nodes0, bytes0, ts, keys + 1, nodes, bytes + p.bytes.key(k))
  {
    KeyBytesStep(h[id], keys, p.bytes);
  }

  lemma KeyBytesStep(c: Container, keys: nat, w: Weights)
    requires keys < |EntriesOf(c)| && EntriesOf(c)[keys].key.VStr?
    ensures KeyBytes(c, keys + 1, w) == KeyBytes(c, keys, w) + w.key(EntriesOf(c)[keys].key.s)
  {
    var all := KeyTexts(EntriesOf(c));
    assert KeyTexts(EntriesOf(c)[..keys]) == all[..keys];
    assert KeyTexts(EntriesOf(c)[..keys + 1]) == all[..keys + 1];
    SumPrefix(all, w.key, keys);
  }

  lemma ProgressChild(h: Heap, id: nat, left: nat, p: Profile, nodes0: nat, bytes0: nat,
                      ts: seq<Json>, keys: nat, nodes: nat, bytes: nat, t: Json)
    requires Progress(h, id, left, p, nodes0, bytes0, ts, keys, nodes, bytes)
    requires |ts| < |Children(h[id])| && Admits(h, Children(h[id])[|ts|], left - 1, p, nodes, bytes)
    requires t == Unfold(h, Children(h[id])[|ts|], left - 1).value
    ensures Progress(h, id, left, p, nodes0, bytes0, ts + [t], keys, nodes + Nodes(t), bytes + Total(t, p.bytes))
  {
    SumSplit(ts, [t], TreeCost(NODES));
    SumSplit(ts, [t], TreeCost(p.bytes));
    assert Sum([t], TreeCost(NODES)) == Nodes(t) && Sum([t], TreeCost(p.bytes)) == Total(t, p.bytes);
    assert forall j :: 0 <= j < |ts| ==> (ts + [t])[j] == ts[j];
  }

  /** What admitting a container says about its children and keys. */
  lemma AdmittedParts(h: Heap, id: nat, left: nat, p: Profile, nodes0: nat, bytes0: nat)
    requires DictsDistinct(h) && id < |h| && Admits(h, VRef(id), left, p, nodes0, bytes0)
    ensures WellKeyed(h[id])
    ensures var all := Subtrees(h, id, left);
      && (forall j :: 0 <= j < |all| ==> Conforms(all[j], p))
      && (forall j :: 0 <= j < |KeysOf(h[id])| ==> p.key(KeysOf(h[id])[j]))
      && nodes0 + 1 + Sum(all, TreeCost(NODES)) <= p.maxNodes
      && bytes0 + Sum(KeysOf(h[id]), p.bytes.key) + Sum(all, TreeCost(p.bytes)) <= p.maxBytes
  {
    var all := Subtrees(h, id, left);
    KeysDistinct(h, id);
    ConformsChildren(h[id], all, p);
    AssembleTotal(h[id], all, NODES);
    AssembleTotal(h[id], all, p.bytes);
  }

  /** An admitted container admits each next key and child after the ones behind it. */
  lemma AdmitsNext(h: Heap, id: nat, left: nat, p: Profile, nodes0: nat, bytes0: nat,
                   ts: seq<Json>, keys: nat, nodes: nat, bytes: nat)
    requires DictsDistinct(h) && Progress(h, id, left, p, nodes0, bytes0, ts, keys, nodes, bytes)
    requires Admits(h, VRef(id), left, p, nodes0, bytes0) && |ts| < |Children(h[id])|
    ensures keys < |EntriesOf(h[id])| ==>
      EntriesOf(h[id])[keys].key.VStr? && p.key(EntriesOf(h[id])[keys].key.s)
      && bytes + p.bytes.key(EntriesOf(h[id])[keys].key.s) <= p.maxBytes
    ensures Admits(h, Children(h[id])[|ts|], left - 1, p, nodes, bytes)
  {
    hide Assemble, Combine, Total, DictsDistinct;
    var i, c := |ts|, h[id];
    AdmittedParts(h, id, left, p, nodes0, bytes0);
    var all := Subtrees(h, id, left);
    assert Unfold(h, Children(c)[i], left - 1) == Some(all[i]) && Conforms(all[i], p);
    assert all[..i] == ts;
    hide Unfold, Conforms;
    SumPrefix(all, TreeCost(NODES), i);
    SumPrefix(all, TreeCost(p.bytes), i);
    assert KeyTexts(EntriesOf(c)[..keys]) == KeysOf(c)[..keys];
    SumPrefix(KeysOf(c), p.bytes.key, keys);
    if keys < |EntriesOf(c)| { assert EntriesOf(c)[keys].key.s == KeysOf(c)[keys]; }
  }

  /** When everything is behind it, the container has been admitted, and the counters say by how much. */
  lemma AdmitsAll(h: Heap, id: nat, left: nat, p: Profile, nodes0: nat, bytes0: nat,
                  ts: seq<Json>, nodes: nat, bytes: nat)
    requires DictsDistinct(h) && id < |h| && |ts| == |Children(h[id])|
    requires Progress(h, id, left, p, nodes0, bytes0, ts, |EntriesOf(h[id])|, nodes, bytes)
    requires WellKeyed(h[id]) ==> p.node(Assemble(h[id], ts)) && p.bytes.leaf(Assemble(h[id], ts)) == 0
    ensures Admits(h, VRef(id), left, p, nodes0, bytes0)
    ensures var t := Unfold(h, VRef(id), left).value;
      WellKeyed(h[id]) && t == Assemble(h[id], ts)
      && nodes == nodes0 + Nodes(t) && bytes == bytes0 + Total(t, p.bytes)
  {
    var c := h[id];
    KeysDistinct(h, id);
    UnfoldContainer(h, id, left, ts);
    ConformsChildren(c, ts, p);
    AssembleTotal(c, ts, NODES);
    AssembleTotal(c, ts, p.bytes);
    assert EntriesOf(c)[..|EntriesOf(c)|] == EntriesOf(c);
    assert KeyTexts(EntriesOf(c)) == KeysOf(c);
    SumZero(KeysOf(c), NODES.key);
  }

  lemma {:induction false} SumZero<T>(xs: seq<T>, f: T -> nat)
    requires forall x :: f(x) == 0
    ensures Sum(xs, f) == 0
  {
    if xs != [] { SumZero(xs[1..], f); }
  }

  /** A dict has as many members as entries. */
  lemma DictSize(h: Heap, id: nat, ts: seq<Json>)
    requires DictsDistinct(h) && id < |h| && h[id].DictOf? && WellKeyed(h[id]) && |ts| == |h[id].entries|
    ensures |Assemble(h[id], ts).members| == |h[id].entries|
  {
    KeysDistinct(h, id);
    DistinctSize(KeysOf(h[id]));
    var m := Assemble(h[id], ts).members;
    assert |m| == |m.Keys|;
  }

  lemma CycleNotAdmitted(h: Heap, active: set<nat>, id: nat, fuel: nat, left: nat)
    requires Below(h, active, VRef(id), fuel) && id in active && left <= fuel
    ensures forall p, n, x :: !Admits(h, VRef(id), left, p, n, x)
  {
    CycleIsInfinite(h, active, id, fuel, left);
  }
}

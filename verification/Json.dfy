/** Finite JSON values. A dict is a map, so `==` is Python's order-blind equality. */
module Json {
  import opened Strings

  datatype Json =
    | Null
    | Bool(b: bool)
    | Int(n: int)
    | Str(s: Text)
    | Arr(items: seq<Json>)
    | Obj(members: map<Text, Json>)

  // -------------------------------------------------- sums over whole trees

  /** What one node and one dict key contribute to a sum over a tree. */
  datatype Weights = Weights(leaf: Json -> nat, key: Text -> nat)

  ghost function Total(v: Json, w: Weights): nat
    decreases v, 1
  {
    match v
    case Arr(items) => w.leaf(v) + Sum(items, ItemCost(v, w))
    case Obj(m) => w.leaf(v) + Sum(SortedKeys(m.Keys), MemberCost(v, w))
    case _ => w.leaf(v)
  }

  ghost function ItemCost(v: Json, w: Weights): Json -> nat
    requires v.Arr?
    decreases v, 0
  {
    x => if x in v.items then Total(x, w) else 0
  }

  ghost function MemberCost(v: Json, w: Weights): Text -> nat
    requires v.Obj?
    decreases v, 0
  {
    k => Plus(w.key(k), if k in v.members then Total(v.members[k], w) else 0)
  }

  function Plus(a: nat, b: nat): nat {
    a + b
  }

  ghost function TreeCost(w: Weights): Json -> nat {
    x => Total(x, w)
  }

  lemma {:induction false} SumAgrees<T>(ks: seq<T>, f: T -> nat, g: T -> nat)
    requires forall k :: k in ks ==> f(k) == g(k)
    ensures Sum(ks, f) == Sum(ks, g)
  {
    if ks != [] {
      assert ks[0] in ks;
      SumAgrees(ks[1..], f, g);
    }
  }

  lemma ArrTotal(items: seq<Json>, w: Weights)
    ensures Total(Arr(items), w) == w.leaf(Arr(items)) + Sum(items, TreeCost(w))
  {
    SumAgrees(items, ItemCost(Arr(items), w), TreeCost(w));
  }

  /** The members of a dict may be summed in any order, such as insertion order. */
  lemma ObjTotal(m: map<Text, Json>, ks: seq<Text>, w: Weights)
    requires Distinct(ks) && Elements(ks) == m.Keys
    ensures Total(Obj(m), w) == w.leaf(Obj(m)) + Sum(ks, MemberCost(Obj(m), w))
  {
    SortedKeysListing(m.Keys);
    SumOrderIrrelevant(ks, SortedKeys(m.Keys), MemberCost(Obj(m), w));
  }

  /** Nodes of the tree, counted once per occurrence. */
  ghost const NODES := Weights(_ => 1, _ => 0)

  ghost function Nodes(v: Json): (n: nat)
    ensures n >= 1
  {
    Total(v, NODES)
  }
}

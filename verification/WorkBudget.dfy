/** Shield v4 work budget: a bounded deep copy of an untrusted object graph. */
module WorkBudget {
  import opened Strings
  import opened Wrappers
  import opened Json
  import opened CanonicalJson
  import opened ObjectGraph
  import Utf8

  const MAX_SNAPSHOT_SCALAR_BYTES: nat := 131072
  const MAX_TEXT_FIELD_BYTES: nat := 8192
  const MAX_CONTAINER_DEPTH: nat := 16
  const MAX_CONTAINER_NODES: nat := 4096

  datatype BudgetFault =
    | DepthExceeded
    | NodesExceeded
    | BytesExceeded
    | TextExceeded
    | TextInvalid
    | IntegerExceeded
    | CycleFound
    | KeyNotText
    | TypeUnsupported

  predicate TextFits(s: Text) {
    Encodable(s) && |Utf8.Encode(s)| <= MAX_TEXT_FIELD_BYTES
  }

  predicate SignedIntegerFits(n: int) {
    -0x8000_0000_0000_0000 <= n <= 0x7FFF_FFFF_FFFF_FFFF
  }

  predicate NodeFits(t: Json) {
    match t
    case Str(s) => TextFits(s)
    case Int(n) => SignedIntegerFits(n)
    case _ => true
  }

  function TextBytes(s: Text): nat {
    if Encodable(s) then |Utf8.Encode(s)| else 0
  }

  function LeafBytes(t: Json): nat {
    match t
    case Null => 4
    case Bool(b) => if b then 4 else 5
    case Int(n) => |PrintInteger(n)|
    case Str(s) => TextBytes(s)
    case _ => 0
  }

  /** The scalar byte counter, as a sum over the tree. */
  ghost const SCALARS := Weights(LeafBytes, TextBytes)

  ghost const SHIELD := Profile(NodeFits, TextFits, SCALARS, MAX_CONTAINER_NODES, MAX_SNAPSHOT_SCALAR_BYTES)

  // ------------------------------------------------ ownership of the copy

  /** The two heaps hold the same containers at the identities lo, lo + 1, ... of the first. */
  ghost predicate AgreeFrom(h: Heap, g: Heap, lo: nat) {
    |g| >= |h| && forall i :: lo <= i < |h| ==> g[i] == h[i]
  }

  /** v denotes t whatever happens to the containers below lo. */
  ghost predicate Owns(h: Heap, v: Value, lo: nat, fuel: nat, t: Json) {
    forall g :: AgreeFrom(h, g, lo) ==> Unfold(g, v, fuel) == Some(t)
  }

  lemma OwnsExtends(h: Heap, g: Heap, v: Value, lo: nat, fuel: nat, t: Json)
    requires Owns(h, v, lo, fuel, t) && AgreeFrom(h, g, lo)
    ensures Owns(g, v, lo, fuel, t)
  {
    forall k | AgreeFrom(g, k, lo) ensures Unfold(k, v, fuel) == Some(t) {
      assert AgreeFrom(h, k, lo);
    }
  }

  /** A new container over owned children is owned. */
  lemma OwnsContainer(h: Heap, c: Container, lo: nat, fuel: nat, ts: seq<Json>)
    requires lo <= |h| && fuel > 0 && WellKeyed(c) && |ts| == |Children(c)|
    requires forall j :: 0 <= j < |ts| ==> Owns(h, Children(c)[j], lo, fuel - 1, ts[j])
    ensures Owns(h + [c], VRef(|h|), lo, fuel, Assemble(c, ts))
  {
    forall g | AgreeFrom(h + [c], g, lo) ensures Unfold(g, VRef(|h|), fuel) == Some(Assemble(c, ts)) {
      assert g[|h|] == (h + [c])[|h|] == c;
      assert AgreeFrom(h, g, lo);
      UnfoldContainer(g, |h|, fuel, ts);
    }
  }

  // ------------------------------------------------------------ the snapshot

  datatype Copy = Copied(heap: Heap, value: Value) | Failed(fault: BudgetFault)

  /** The copy is a fresh structure denoting the same tree, in a heap that only grew. */
  ghost predicate IsCopy(h: Heap, v: Value, left: nat, before: Heap, c: Copy) {
    && c.Copied? && Unfold(h, v, left).Some?
    && before <= c.heap
    && Owns(c.heap, c.value, |before|, left, Unfold(h, v, left).value)
  }

  predicate OverBudget(f: BudgetFault) {
    f in {DepthExceeded, NodesExceeded, BytesExceeded, TextExceeded, IntegerExceeded}
  }

  /** Anything but an exceeded budget is reported only of what denotes no JSON value. */
  ghost predicate Reported(h: Heap, v: Value, reach: nat, fault: Option<BudgetFault>) {
    fault.Some? && !OverBudget(fault.value) ==> !Sayable(h, v, reach)
  }

  function FaultOf(c: Copy): Option<BudgetFault> {
    if c.Failed? then Some(c.fault) else None
  }

  class SnapshotBudget {
    var nodes: nat
    var scalarBytes: nat
    var active: set<nat>

    constructor ()
      ensures nodes == 0 && scalarBytes == 0 && active == {}
    {
      nodes, scalarBytes, active := 0, 0, {};
    }

    method ConsumeScalarBytes(size: nat) returns (fault: Option<BudgetFault>)
      modifies this`scalarBytes
      ensures fault.None? <==> old(scalarBytes) + size <= MAX_SNAPSHOT_SCALAR_BYTES
      ensures scalarBytes == old(scalarBytes) + size
      ensures fault.Some? ==> OverBudget(fault.value)
    {
      scalarBytes := scalarBytes + size;
      fault := if scalarBytes > MAX_SNAPSHOT_SCALAR_BYTES then Some(BytesExceeded) else None;
    }

    method ConsumeText(value: Text) returns (fault: Option<BudgetFault>)
      modifies this`scalarBytes
      ensures fault.None? <==> TextFits(value) && old(scalarBytes) + TextBytes(value) <= MAX_SNAPSHOT_SCALAR_BYTES
      ensures fault.None? ==> scalarBytes == old(scalarBytes) + TextBytes(value)
      ensures fault.Some? && !OverBudget(fault.value) ==> !Encodable(value)
    {
      if |value| > MAX_TEXT_FIELD_BYTES {
        if Encodable(value) { Utf8.EncodeLength(value); }
        return Some(TextExceeded);
      }
      if !Encodable(value) { return Some(TextInvalid); }
      var size := |Utf8.Encode(value)|;
      if size > MAX_TEXT_FIELD_BYTES { return Some(TextExceeded); }
      fault := ConsumeScalarBytes(size);
    }

    /**
     Copies v, reading the original graph h and allocating in `heap`, which extends it.
     Succeeds exactly when the unfolding conforms and fits the remaining budgets.
     */
    method Snapshot(h: Heap, v: Value, depth: nat, heap: Heap, ghost reach: nat) returns (c: Copy)
      requires DictsDistinct(h) && 1 <= depth <= MAX_CONTAINER_DEPTH + 1
      requires nodes <= MAX_CONTAINER_NODES && scalarBytes <= MAX_SNAPSHOT_SCALAR_BYTES
      requires reach >= MAX_CONTAINER_DEPTH && Below(h, active, v, reach)
      modifies this
      ensures c.Copied? <==> Admits(h, v, MAX_CONTAINER_DEPTH + 1 - depth, SHIELD, old(nodes), old(scalarBytes))
      ensures c.Copied? ==> IsCopy(h, v, MAX_CONTAINER_DEPTH + 1 - depth, heap, c)
      ensures c.Copied? ==> Unfold(h, v, MAX_CONTAINER_DEPTH + 1 - depth).Some?
      ensures c.Copied? ==> var t := Unfold(h, v, MAX_CONTAINER_DEPTH + 1 - depth).value;
        nodes == old(nodes) + Nodes(t) && scalarBytes == old(scalarBytes) + Total(t, SCALARS)
      ensures Reported(h, v, reach, FaultOf(c))
      ensures active == old(active)
      decreases MAX_CONTAINER_DEPTH + 1 - depth, 2
    {
      if depth > MAX_CONTAINER_DEPTH { return Failed(DepthExceeded); }
      nodes := nodes + 1;
      if nodes > MAX_CONTAINER_NODES { return Failed(NodesExceeded); }
      if v.VRef? {
        if v.id >= |h| { return Failed(TypeUnsupported); }
        if h[v.id].DictOf? {
          c := SnapshotDict(h, v.id, depth, heap, reach);
        } else {
          c := SnapshotList(h, v.id, depth, heap, reach);
        }
      } else {
        var fault := ConsumeScalar(v);
        if fault.Some? { return Failed(fault.value); }
        c := Copied(heap, v);
      }
    }

    method ConsumeScalar(v: Value) returns (fault: Option<BudgetFault>)
      requires !v.VRef?
      modifies this`scalarBytes
      ensures fault.None? <==> Admits([], v, 1, SHIELD, 0, old(scalarBytes))
      ensures fault.None? ==> scalarBytes == old(scalarBytes) + LeafBytes(Unfold([], v, 1).value)
      ensures fault.Some? && !OverBudget(fault.value) ==> forall h, reach :: !Sayable(h, v, reach)
    {
      match v
      case VStr(s) => fault := ConsumeText(s);
      case VBool(b) => fault := ConsumeScalarBytes(if b then 4 else 5);
      case VInt(n) =>
        if !SignedIntegerFits(n) { return Some(IntegerExceeded); }
        fault := ConsumeScalarBytes(|PrintInteger(n)|);
      case VNull => fault := ConsumeScalarBytes(4);
      case VOther => return Some(TypeUnsupported);
    }

    method SnapshotList(h: Heap, id: nat, depth: nat, heap: Heap, ghost reach: nat) returns (c: Copy)
      requires DictsDistinct(h) && 1 <= depth <= MAX_CONTAINER_DEPTH && id < |h| && h[id].ListOf?
      requires 1 <= nodes <= MAX_CONTAINER_NODES && scalarBytes <= MAX_SNAPSHOT_SCALAR_BYTES
      requires reach >= MAX_CONTAINER_DEPTH && Below(h, active, VRef(id), reach)
      modifies this
      ensures c.Copied? <==>
        Admits(h, VRef(id), MAX_CONTAINER_DEPTH + 1 - depth, SHIELD, old(nodes) - 1, old(scalarBytes))
      ensures c.Copied? ==> IsCopy(h, VRef(id), MAX_CONTAINER_DEPTH + 1 - depth, heap, c)
      ensures c.Copied? ==> Unfold(h, VRef(id), MAX_CONTAINER_DEPTH + 1 - depth).Some?
      ensures c.Copied? ==> var t := Unfold(h, VRef(id), MAX_CONTAINER_DEPTH + 1 - depth).value;
        nodes == old(nodes) - 1 + Nodes(t) && scalarBytes == old(scalarBytes) + Total(t, SCALARS)
      ensures Reported(h, VRef(id), reach, FaultOf(c))
      ensures active == old(active)
      decreases MAX_CONTAINER_DEPTH + 1 - depth, 1
    {
      hide Progress, Admits, Unfold, Below, Total, Nodes, DictsDistinct, IsCopy, CopiedSoFar, Children, EntriesOf,
        AllEncodable;
      ghost var n0, x0, left := nodes - 1, scalarBytes, MAX_CONTAINER_DEPTH + 1 - depth;
      if id in active {
        CycleNotAdmitted(h, active, id, reach, left);
        CycleIsInfinite(h, active, id, reach, reach);
        return Failed(CycleFound);
      }
      active := active + {id};
      var fault: Option<BudgetFault> := None;
      if |h[id].items| > MAX_CONTAINER_NODES {
        TooManyChildren(h, id, left, n0, x0);
        fault := Some(NodesExceeded);
      }
      var output: seq<Value> := [];
      var cur := heap;
      ghost var ts: seq<Json> := [];
      ProgressStart(h, id, left, SHIELD, n0, x0);
      CopyStart(heap, left);
      var i := 0;
      while i < |h[id].items| && fault.None?
        invariant i <= |h[id].items| && active == old(active) + {id}
        invariant fault.Some? ==> !Admits(h, VRef(id), left, SHIELD, n0, x0)
        invariant Reported(h, VRef(id), reach, fault)
        invariant fault.None? ==> |ts| == |output| == i
        invariant fault.None? ==> Progress(h, id, left, SHIELD, n0, x0, ts, 0, nodes, scalarBytes)
        invariant fault.None? ==> CopiedSoFar(heap, cur, output, ts, left)
      {
        fault, cur, output, ts := SnapshotItem(h, id, depth, heap, cur, output, reach, old(active), n0, x0, ts);
        i := i + 1;
      }
      active := active - {id};
      if fault.Some? { return Failed(fault.value); }
      ListDone(h, id, left, n0, x0, ts, nodes, scalarBytes);
      ListCopied(h, id, left, heap, cur, output, ts);
      c := Copied(cur + [ListOf(output)], VRef(|cur|));
    }

    /** One item of a container in progress. */
    method SnapshotItem(h: Heap, id: nat, depth: nat, ghost before: Heap, cur: Heap, output: seq<Value>,
                        ghost reach: nat, ghost above: set<nat>, ghost n0: nat, ghost x0: nat, ghost ts: seq<Json>)
      returns (fault: Option<BudgetFault>, cur': Heap, output': seq<Value>, ghost ts': seq<Json>)
      requires DictsDistinct(h) && 1 <= depth <= MAX_CONTAINER_DEPTH && id < |h| && h[id].ListOf?
      requires |output| == |ts| < |h[id].items|
      requires Progress(h, id, MAX_CONTAINER_DEPTH + 1 - depth, SHIELD, n0, x0, ts, 0, nodes, scalarBytes)
      requires CopiedSoFar(before, cur, output, ts, MAX_CONTAINER_DEPTH + 1 - depth)
      requires active == above + {id} && reach >= MAX_CONTAINER_DEPTH && Below(h, above, VRef(id), reach)
      modifies this
      ensures active == old(active)
      ensures fault.Some? ==> !Admits(h, VRef(id), MAX_CONTAINER_DEPTH + 1 - depth, SHIELD, n0, x0)
      ensures Reported(h, VRef(id), reach, fault)
      ensures fault.None? ==> |ts'| == |output'| == |ts| + 1
      ensures fault.None? ==>
        Progress(h, id, MAX_CONTAINER_DEPTH + 1 - depth, SHIELD, n0, x0, ts', 0, nodes, scalarBytes)
      ensures fault.None? ==> CopiedSoFar(before, cur', output', ts', MAX_CONTAINER_DEPTH + 1 - depth)
      decreases MAX_CONTAINER_DEPTH + 1 - depth, 0
    {
      hide Progress, Admits, Unfold, Below, Total, Nodes, DictsDistinct, IsCopy, CopiedSoFar, AllEncodable;
      ghost var n, x, left := nodes, scalarBytes, MAX_CONTAINER_DEPTH + 1 - depth;
      cur', output', ts' := cur, output, ts;
      ProgressBounds(h, id, left, SHIELD, n0, x0, ts, 0, n, x);
      if Admits(h, VRef(id), left, SHIELD, n0, x0) {
        AdmitsNext(h, id, left, SHIELD, n0, x0, ts, 0, n, x);
      }
      ChildBelow(h, above, id, |ts|, reach);
      var c := Snapshot(h, h[id].items[|output|], depth + 1, cur, reach);
      if Sayable(h, VRef(id), reach) { ChildSayable(h, id, |ts|, reach); }
      if c.Failed? { return Some(c.fault), cur', output', ts'; }
      ghost var t := Unfold(h, h[id].items[|ts|], left - 1).value;
      ProgressChild(h, id, left, SHIELD, n0, x0, ts, 0, n, x, t);
      CopyStep(h, h[id].items[|ts|], before, cur, output, ts, left, c);
      fault, cur', output', ts' := None, c.heap, output + [c.value], ts + [t];
    }

    method SnapshotDict(h: Heap, id: nat, depth: nat, heap: Heap, ghost reach: nat) returns (c: Copy)
      requires DictsDistinct(h) && 1 <= depth <= MAX_CONTAINER_DEPTH && id < |h| && h[id].DictOf?
      requires 1 <= nodes <= MAX_CONTAINER_NODES && scalarBytes <= MAX_SNAPSHOT_SCALAR_BYTES
      requires reach >= MAX_CONTAINER_DEPTH && Below(h, active, VRef(id), reach)
      modifies this
      ensures c.Copied? <==>
        Admits(h, VRef(id), MAX_CONTAINER_DEPTH + 1 - depth, SHIELD, old(nodes) - 1, old(scalarBytes))
      ensures c.Copied? ==> IsCopy(h, VRef(id), MAX_CONTAINER_DEPTH + 1 - depth, heap, c)
      ensures c.Copied? ==> Unfold(h, VRef(id), MAX_CONTAINER_DEPTH + 1 - depth).Some?
      ensures c.Copied? ==> var t := Unfold(h, VRef(id), MAX_CONTAINER_DEPTH + 1 - depth).value;
        nodes == old(nodes) - 1 + Nodes(t) && scalarBytes == old(scalarBytes) + Total(t, SCALARS)
      ensures Reported(h, VRef(id), reach, FaultOf(c))
      ensures active == old(active)
      decreases MAX_CONTAINER_DEPTH + 1 - depth, 1
    {
      hide Progress, Admits, Unfold, Below, Total, Nodes, DictsDistinct, IsCopy, CopiedSoFar, Children, EntriesOf,
        AllEncodable;
      ghost var n0, x0, left := nodes - 1, scalarBytes, MAX_CONTAINER_DEPTH + 1 - depth;
      if id in active {
        CycleNotAdmitted(h, active, id, reach, left);
        CycleIsInfinite(h, active, id, reach, reach);
        return Failed(CycleFound);
      }
      active := active + {id};
      var fault: Option<BudgetFault> := None;
      if |h[id].entries| > MAX_CONTAINER_NODES {
        TooManyChildren(h, id, left, n0, x0);
        fault := Some(NodesExceeded);
      }
      var output: seq<Entry> := [];
      var cur := heap;
      ghost var ts: seq<Json> := [];
      ProgressStart(h, id, left, SHIELD, n0, x0);
      CopyStart(heap, left);
      var i := 0;
      while i < |h[id].entries| && fault.None?
        invariant i <= |h[id].entries| && active == old(active) + {id}
        invariant fault.Some? ==> !Admits(h, VRef(id), left, SHIELD, n0, x0)
        invariant Reported(h, VRef(id), reach, fault)
        invariant fault.None? ==> |ts| == |output| == i
        invariant fault.None? ==> Progress(h, id, left, SHIELD, n0, x0, ts, |ts|, nodes, scalarBytes)
        invariant fault.None? ==> CopiedSoFar(heap, cur, EntryValues(output), ts, left)
        invariant fault.None? ==> SameKeys(h[id].entries, output)
      {
        fault, cur, output, ts := SnapshotEntry(h, id, depth, heap, cur, output, reach, old(active), n0, x0, ts);
        i := i + 1;
      }
      active := active - {id};
      if fault.Some? { return Failed(fault.value); }
      DictDone(h, id, left, n0, x0, ts, nodes, scalarBytes);
      DictCopied(h, id, left, heap, cur, output, ts);
      c := Copied(cur + [DictOf(output)], VRef(|cur|));
    }

    /** One entry of a container in progress. */
    method SnapshotEntry(h: Heap, id: nat, depth: nat, ghost before: Heap, cur: Heap, output: seq<Entry>,
                        ghost reach: nat, ghost above: set<nat>, ghost n0: nat, ghost x0: nat, ghost ts: seq<Json>)
      returns (fault: Option<BudgetFault>, cur': Heap, output': seq<Entry>, ghost ts': seq<Json>)
      requires DictsDistinct(h) && 1 <= depth <= MAX_CONTAINER_DEPTH && id < |h| && h[id].DictOf?
      requires |output| == |ts| < |h[id].entries|
      requires Progress(h, id, MAX_CONTAINER_DEPTH + 1 - depth, SHIELD, n0, x0, ts, |ts|, nodes, scalarBytes)
      requires CopiedSoFar(before, cur, EntryValues(output), ts, MAX_CONTAINER_DEPTH + 1 - depth)
      requires SameKeys(h[id].entries, output)
      requires active == above + {id} && reach >= MAX_CONTAINER_DEPTH && Below(h, above, VRef(id), reach)
      modifies this
      ensures active == old(active)
      ensures fault.Some? ==> !Admits(h, VRef(id), MAX_CONTAINER_DEPTH + 1 - depth, SHIELD, n0, x0)
      ensures Reported(h, VRef(id), reach, fault)
      ensures fault.None? ==> |ts'| == |output'| == |ts| + 1
      ensures fault.None? ==>
        Progress(h, id, MAX_CONTAINER_DEPTH + 1 - depth, SHIELD, n0, x0, ts', |ts'|, nodes, scalarBytes)
      ensures fault.None? ==> CopiedSoFar(before, cur', EntryValues(output'), ts', MAX_CONTAINER_DEPTH + 1 - depth)
      ensures fault.None? ==> SameKeys(h[id].entries, output')
      decreases MAX_CONTAINER_DEPTH + 1 - depth, 0
    {
      hide Progress, Admits, Unfold, Below, Total, Nodes, DictsDistinct, IsCopy, CopiedSoFar, AllEncodable;
      ghost var n, x, left := nodes, scalarBytes, MAX_CONTAINER_DEPTH + 1 - depth;
      cur', output', ts' := cur, output, ts;
      ProgressBounds(h, id, left, SHIELD, n0, x0, ts, |ts|, n, x);
      if Admits(h, VRef(id), left, SHIELD, n0, x0) {
        AdmitsNext(h, id, left, SHIELD, n0, x0, ts, |ts|, n, x);
      }
      var e := h[id].entries[|output|];
      if Sayable(h, VRef(id), reach) {
        KeySayable(h, id, |ts|, reach);
        ChildSayable(h, id, |ts|, reach);
      }
      if !e.key.VStr? { return Some(KeyNotText), cur', output', ts'; }
      fault := ConsumeText(e.key.s);
      if fault.Some? { return; }
      ProgressKey(h, id, left, SHIELD, n0, x0, ts, |ts|, n, x, e.key.s);
      if Admits(h, VRef(id), left, SHIELD, n0, x0) {
        AdmitsNext(h, id, left, SHIELD, n0, x0, ts, |ts| + 1, n, scalarBytes);
      }
      ChildBelow(h, above, id, |ts|, reach);
      x := scalarBytes;
      var c := Snapshot(h, e.child, depth + 1, cur, reach);
      if c.Failed? { return Some(c.fault), cur', output', ts'; }
      ghost var t := Unfold(h, e.child, left - 1).value;
      ProgressChild(h, id, left, SHIELD, n0, x0, ts, |ts| + 1, n, x, t);
      CopyStep(h, e.child, before, cur, EntryValues(output), ts, left, c);
      assert EntryValues(output + [Entry(e.key, c.value)]) == EntryValues(output) + [c.value];
      fault, cur', output', ts' := None, c.heap, output + [Entry(e.key, c.value)], ts + [t];
    }
  }

  /** Children copied so far stay owned while the heap grows. */
  ghost predicate CopiedSoFar(before: Heap, cur: Heap, output: seq<Value>, ts: seq<Json>, left: nat) {
    && left > 0 && before <= cur && |output| == |ts|
    && forall j :: 0 <= j < |ts| ==> Owns(cur, output[j], |before|, left - 1, ts[j])
  }

  lemma CopyStart(heap: Heap, left: nat)
    requires left > 0
    ensures CopiedSoFar(heap, heap, [], [], left) && EntryValues([]) == []
  {
  }

  lemma CopyStep(h: Heap, v: Value, before: Heap, cur: Heap, output: seq<Value>, ts: seq<Json>, left: nat, c: Copy)
    requires CopiedSoFar(before, cur, output, ts, left) && IsCopy(h, v, left - 1, cur, c)
    ensures CopiedSoFar(before, c.heap, output + [c.value], ts + [Unfold(h, v, left - 1).value], left)
  {
    forall j | 0 <= j < |ts| ensures Owns(c.heap, output[j], |before|, left - 1, ts[j]) {
      assert AgreeFrom(cur, c.heap, |before|);
      OwnsExtends(cur, c.heap, output[j], |before|, left - 1, ts[j]);
    }
    forall g | AgreeFrom(c.heap, g, |before|) ensures AgreeFrom(c.heap, g, |cur|) {
    }
  }

  function EntryValues(es: seq<Entry>): seq<Value> {
    seq(|es|, i requires 0 <= i < |es| => es[i].child)
  }

  predicate SameKeys(es: seq<Entry>, output: seq<Entry>) {
    |output| <= |es| && forall i :: 0 <= i < |output| ==> output[i].key == es[i].key
  }

  lemma ListCopied(h: Heap, id: nat, left: nat, before: Heap, cur: Heap, output: seq<Value>, ts: seq<Json>)
    requires id < |h| && h[id].ListOf? && |ts| == |h[id].items| && CopiedSoFar(before, cur, output, ts, left)
    requires Unfold(h, VRef(id), left) == Some(Assemble(h[id], ts))
    ensures IsCopy(h, VRef(id), left, before, Copied(cur + [ListOf(output)], VRef(|cur|)))
  {
    OwnsContainer(cur, ListOf(output), |before|, left, ts);
  }

  lemma DictCopied(h: Heap, id: nat, left: nat, before: Heap, cur: Heap, output: seq<Entry>, ts: seq<Json>)
    requires id < |h| && h[id].DictOf? && WellKeyed(h[id]) && |ts| == |output| == |h[id].entries|
    requires CopiedSoFar(before, cur, EntryValues(output), ts, left) && SameKeys(h[id].entries, output)
    requires Unfold(h, VRef(id), left) == Some(Assemble(h[id], ts))
    ensures IsCopy(h, VRef(id), left, before, Copied(cur + [DictOf(output)], VRef(|cur|)))
  {
    OwnsContainer(cur, DictOf(output), |before|, left, ts);
    assert TextKeys(output) == TextKeys(h[id].entries);
  }

  /** The declared-length guard only rejects what the node budget rejects anyway. */
  lemma TooManyChildren(h: Heap, id: nat, left: nat, n0: nat, x0: nat)
    requires DictsDistinct(h) && id < |h|
    requires (if h[id].ListOf? then |h[id].items| else |h[id].entries|) > MAX_CONTAINER_NODES
    ensures !Admits(h, VRef(id), left, SHIELD, n0, x0)
  {
    if Admits(h, VRef(id), left, SHIELD, n0, x0) {
      AdmittedParts(h, id, left, SHIELD, n0, x0);
      SumAtLeastLength(Subtrees(h, id, left));
    }
  }

  lemma {:induction false} SumAtLeastLength(ts: seq<Json>)
    ensures Sum(ts, TreeCost(NODES)) >= |ts|
  {
    if ts != [] {
      SumAtLeastLength(ts[1..]);
      assert Nodes(ts[0]) >= 1;
    }
  }

  lemma ListDone(h: Heap, id: nat, left: nat, n0: nat, x0: nat, ts: seq<Json>, nodes: nat, bytes: nat)
    requires id < |h| && h[id].ListOf? && DictsDistinct(h)
    requires |ts| == |h[id].items| && Progress(h, id, left, SHIELD, n0, x0, ts, 0, nodes, bytes)
    ensures Admits(h, VRef(id), left, SHIELD, n0, x0) && Unfold(h, VRef(id), left) == Some(Assemble(h[id], ts))
    ensures var t := Unfold(h, VRef(id), left).value; nodes == n0 + Nodes(t) && bytes == x0 + Total(t, SCALARS)
  {
    AdmitsAll(h, id, left, SHIELD, n0, x0, ts, nodes, bytes);
  }

  lemma DictDone(h: Heap, id: nat, left: nat, n0: nat, x0: nat, ts: seq<Json>, nodes: nat, bytes: nat)
    requires id < |h| && h[id].DictOf? && DictsDistinct(h)
    requires |ts| == |h[id].entries| && Progress(h, id, left, SHIELD, n0, x0, ts, |ts|, nodes, bytes)
    ensures Admits(h, VRef(id), left, SHIELD, n0, x0)
    ensures WellKeyed(h[id]) && Unfold(h, VRef(id), left) == Some(Assemble(h[id], ts))
    ensures var t := Unfold(h, VRef(id), left).value; nodes == n0 + Nodes(t) && bytes == x0 + Total(t, SCALARS)
  {
    AdmitsAll(h, id, left, SHIELD, n0, x0, ts, nodes, bytes);
  }

  // ------------------------------------------------------------ entry point

  /**
   The public snapshot: it accepts exactly the values whose unfolding has at
   most sixteen levels, conforms, and fits the node and scalar byte ceilings;
   the copy equals that tree, and keeps denoting it whatever is later done to
   any container that existed before the call.
   */
  method BoundedJsonSnapshot(h: Heap, v: Value) returns (c: Copy)
    requires DictsDistinct(h)
    ensures c.Copied? <==> Admits(h, v, MAX_CONTAINER_DEPTH, SHIELD, 0, 0)
    ensures c.Copied? ==> IsCopy(h, v, MAX_CONTAINER_DEPTH, h, c)
    ensures c.Failed? && !OverBudget(c.fault) ==> forall reach :: !Sayable(h, v, reach)
  {
    hide Unfold, Sayable, IsCopy, Admits;
    var budget := new SnapshotBudget();
    ghost var reach := FarEnough(h, v, MAX_CONTAINER_DEPTH);
    c := budget.Snapshot(h, v, 1, h, reach);
  }

  /** Mutating the original never changes the copy. */
  lemma CopyIndependent(h: Heap, v: Value, c: Copy, later: Heap)
    requires IsCopy(h, v, MAX_CONTAINER_DEPTH, h, c)
    requires |later| == |c.heap| && forall i :: |h| <= i < |later| ==> later[i] == c.heap[i]
    ensures Unfold(later, c.value, MAX_CONTAINER_DEPTH) == Unfold(h, v, MAX_CONTAINER_DEPTH)
  {
    assert AgreeFrom(c.heap, later, |h|);
  }

  /** A container that reaches itself is never accepted, whatever its size. */
  lemma CyclesRejected(h: Heap, id: nat, path: seq<nat>)
    requires DictsDistinct(h) && id < |h| && path != []
    requires forall i :: 0 <= i < |path| ==> path[i] < |h|
    requires path[0] == id && VRef(id) in Children(h[path[|path| - 1]])
    requires forall i :: 0 <= i < |path| - 1 ==> VRef(path[i + 1]) in Children(h[path[i]])
    ensures forall fuel :: Unfold(h, VRef(id), fuel).None?
  {
    forall fuel ensures Unfold(h, VRef(id), fuel).None? {
      if Unfold(h, VRef(id), fuel).Some? {
        Descend(h, path, |path| - 1, fuel);
        var last := path[|path| - 1];
        var i :| 0 <= i < |Children(h[last])| && Children(h[last])[i] == VRef(id);
        ChildSmaller(h, last, i, fuel);
      }
    }
  }

  lemma {:induction false} Descend(h: Heap, path: seq<nat>, k: nat, fuel: nat)
    requires DictsDistinct(h) && k < |path| && forall i :: 0 <= i < |path| ==> path[i] < |h|
    requires forall i :: 0 <= i < |path| - 1 ==> VRef(path[i + 1]) in Children(h[path[i]])
    requires Unfold(h, VRef(path[0]), fuel).Some?
    ensures Unfold(h, VRef(path[k]), fuel).Some?
    ensures Nodes(Unfold(h, VRef(path[k]), fuel).value) <= Nodes(Unfold(h, VRef(path[0]), fuel).value)
  {
    if k > 0 {
      Descend(h, path, k - 1, fuel);
      assert VRef(path[(k - 1) + 1]) in Children(h[path[k - 1]]);
      var i :| 0 <= i < |Children(h[path[k - 1]])| && Children(h[path[k - 1]])[i] == VRef(path[k]);
      ChildSmaller(h, path[k - 1], i, fuel);
    }
  }
}

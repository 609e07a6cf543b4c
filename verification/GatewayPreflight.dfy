/** Resource preflight of the AI Gateway canonical profile. */
module GatewayPreflight {
  import opened Arithmetic
  import opened Strings
  import opened Wrappers
  import opened Json
  import opened CanonicalJson
  import opened JsonReader
  import opened ObjectGraph
  import Utf8

  const MAX_DEPTH: nat := 10
  const LEVELS: nat := MAX_DEPTH + 1
  const MAX_KEYS_PER_OBJECT: nat := 1000
  const MAX_ITEMS_PER_ARRAY: nat := 1000
  const MAX_STRING_SCALARS: nat := 10000
  const MAX_SNAPSHOT_NODES: nat := 20000
  const MAX_CANONICAL_BYTES: nat := 1048576

  predicate TextFits(s: Text) {
    |s| <= MAX_STRING_SCALARS && Encodable(s)
  }

  predicate NodeFits(t: Json) {
    match t
    case Str(s) => TextFits(s)
    case Int(n) => BitLength(Abs(n)) <= MAX_INTEGER_BITS
    case Arr(items) => |items| <= MAX_ITEMS_PER_ARRAY
    case Obj(m) => |m| <= MAX_KEYS_PER_OBJECT
    case _ => true
  }

  function TextBytes(s: Text): nat {
    if Encodable(s) then |Utf8.Encode(s)| else 0
  }

  function LeafBytes(t: Json): nat {
    match t
    case Str(s) => TextBytes(s)
    case Int(n) => |PrintInteger(n)|
    case _ => 0
  }

  /** The running text counter, as a sum over the tree. */
  ghost const TEXT := Weights(LeafBytes, TextBytes)

  ghost const GATEWAY := Profile(NodeFits, TextFits, TEXT, MAX_SNAPSHOT_NODES, MAX_CANONICAL_BYTES)

  /** Anything but a resource limit is reported only of what denotes no such value. */
  ghost predicate Reported(h: Heap, v: Value, reach: nat, fault: Option<Fault>) {
    fault.Some? && fault.value != ResourceLimit ==> !Sayable(h, v, reach)
  }

  class PreflightBudget {
    var nodes: nat
    var textBytes: nat
    var active: set<nat>

    constructor ()
      ensures nodes == 0 && textBytes == 0 && active == {}
    {
      nodes, textBytes, active := 0, 0, {};
    }

    method CountText(value: Text) returns (fault: Option<Fault>)
      requires textBytes <= MAX_CANONICAL_BYTES
      modifies this`textBytes
      ensures fault.None? <==> TextFits(value) && old(textBytes) + TextBytes(value) <= MAX_CANONICAL_BYTES
      ensures fault.None? ==> textBytes == old(textBytes) + TextBytes(value)
      ensures fault.Some? && fault.value != ResourceLimit ==> !Encodable(value)
    {
      if |value| > MAX_STRING_SCALARS { return Some(ResourceLimit); }
      if !Encodable(value) { return Some(InvalidUnicode); }
      textBytes := textBytes + |Utf8.Encode(value)|;
      if textBytes > MAX_CANONICAL_BYTES { return Some(ResourceLimit); }
      return None;
    }

    method CountInteger(n: int) returns (fault: Option<Fault>)
      requires textBytes <= MAX_CANONICAL_BYTES
      modifies this`textBytes
      ensures fault.None? <==> NodeFits(Int(n)) && old(textBytes) + LeafBytes(Int(n)) <= MAX_CANONICAL_BYTES
      ensures fault.None? ==> textBytes == old(textBytes) + LeafBytes(Int(n))
      ensures fault.Some? ==> fault.value == ResourceLimit
    {
      if BitLength(Abs(n)) > MAX_INTEGER_BITS { return Some(ResourceLimit); }
      textBytes := textBytes + |PrintInteger(n)|;
      if textBytes > MAX_CANONICAL_BYTES { return Some(ResourceLimit); }
      return None;
    }

    /** Accepts exactly the values whose unfolding conforms and fits what is left of the budget. */
    method Preflight(h: Heap, v: Value, depth: nat, ghost reach: nat) returns (fault: Option<Fault>)
      requires DictsDistinct(h) && depth <= LEVELS
      requires nodes <= MAX_SNAPSHOT_NODES && textBytes <= MAX_CANONICAL_BYTES
      requires reach >= LEVELS && Below(h, active, v, reach)
      modifies this
      ensures fault.None? <==> Admits(h, v, LEVELS - depth, GATEWAY, old(nodes), old(textBytes))
      ensures fault.None? ==> Unfold(h, v, LEVELS - depth).Some?
      ensures fault.None? ==> var t := Unfold(h, v, LEVELS - depth).value;
        nodes == old(nodes) + Nodes(t) && textBytes == old(textBytes) + Total(t, TEXT)
      ensures Reported(h, v, reach, fault)
      ensures active == old(active)
      decreases LEVELS - depth, 2
    {
      if depth > MAX_DEPTH { return Some(ResourceLimit); }
      nodes := nodes + 1;
      if nodes > MAX_SNAPSHOT_NODES { return Some(ResourceLimit); }
      match v
      case VStr(s) => fault := CountText(s);
      case VNull => return None;
      case VBool(_) => return None;
      case VInt(n) => fault := CountInteger(n);
      case VOther => return Some(UnsupportedType);
      case VRef(id) =>
        if id >= |h| { return Some(UnsupportedType); }
        if h[id].ListOf? {
          fault := PreflightList(h, id, depth, reach);
        } else {
          fault := PreflightDict(h, id, depth, reach);
        }
    }

    method PreflightList(h: Heap, id: nat, depth: nat, ghost reach: nat) returns (fault: Option<Fault>)
      requires DictsDistinct(h) && depth <= MAX_DEPTH && id < |h| && h[id].ListOf?
      requires 1 <= nodes <= MAX_SNAPSHOT_NODES && textBytes <= MAX_CANONICAL_BYTES
      requires reach >= LEVELS && Below(h, active, VRef(id), reach)
      modifies this
      ensures fault.None? <==> Admits(h, VRef(id), LEVELS - depth, GATEWAY, old(nodes) - 1, old(textBytes))
      ensures fault.None? ==> Unfold(h, VRef(id), LEVELS - depth).Some?
      ensures fault.None? ==> var t := Unfold(h, VRef(id), LEVELS - depth).value;
        nodes == old(nodes) - 1 + Nodes(t) && textBytes == old(textBytes) + Total(t, TEXT)
      ensures Reported(h, VRef(id), reach, fault)
      ensures active == old(active)
      decreases LEVELS - depth, 1
    {
      hide Progress, Admits, Unfold, Below, Total, Nodes, DictsDistinct, AllEncodable;
      ghost var n0, x0, left := nodes - 1, textBytes, LEVELS - depth;
      if |h[id].items| > MAX_ITEMS_PER_ARRAY {
        ListTooLong(h, id, left);
        return Some(ResourceLimit);
      }
      if id in active {
        CycleNotAdmitted(h, active, id, reach, left);
        CycleIsInfinite(h, active, id, reach, reach);
        return Some(CycleRejected);
      }
      active := active + {id};
      ghost var ts: seq<Json> := [];
      ProgressStart(h, id, left, GATEWAY, n0, x0);
      var i := 0;
      fault := None;
      while i < |h[id].items| && fault.None?
        invariant i <= |h[id].items| && active == old(active) + {id}
        invariant fault.Some? ==> !Admits(h, VRef(id), left, GATEWAY, n0, x0)
        invariant Reported(h, VRef(id), reach, fault)
        invariant fault.None? ==> |ts| == i && Progress(h, id, left, GATEWAY, n0, x0, ts, 0, nodes, textBytes)
      {
        fault, ts := PreflightItem(h, id, depth, i, reach, old(active), n0, x0, ts);
        i := i + 1;
      }
      active := active - {id};
      if fault.None? { ListDone(h, id, left, n0, x0, ts, nodes, textBytes); }
    }

    /** One item of a container in progress. */
    method PreflightItem(h: Heap, id: nat, depth: nat, i: nat, ghost reach: nat, ghost above: set<nat>,
                         ghost n0: nat, ghost x0: nat, ghost ts: seq<Json>)
      returns (fault: Option<Fault>, ghost ts': seq<Json>)
      requires DictsDistinct(h) && depth <= MAX_DEPTH && id < |h| && h[id].ListOf?
      requires i == |ts| < |Children(h[id])|
      requires Progress(h, id, LEVELS - depth, GATEWAY, n0, x0, ts, 0, nodes, textBytes)
      requires active == above + {id} && reach >= LEVELS && Below(h, above, VRef(id), reach)
      modifies this
      ensures active == old(active)
      ensures fault.Some? ==> !Admits(h, VRef(id), LEVELS - depth, GATEWAY, n0, x0)
      ensures Reported(h, VRef(id), reach, fault)
      ensures fault.None? ==> |ts'| == i + 1
      ensures fault.None? ==> Progress(h, id, LEVELS - depth, GATEWAY, n0, x0, ts', 0, nodes, textBytes)
      decreases LEVELS - depth, 0
    {
      hide Progress, Admits, Unfold, Below, Total, Nodes, DictsDistinct, AllEncodable;
      ghost var n, x, left := nodes, textBytes, LEVELS - depth;
      ProgressBounds(h, id, left, GATEWAY, n0, x0, ts, 0, n, x);
      if Admits(h, VRef(id), left, GATEWAY, n0, x0) {
        AdmitsNext(h, id, left, GATEWAY, n0, x0, ts, 0, n, x);
      }
      ChildBelow(h, above, id, i, reach);
      fault := Preflight(h, h[id].items[i], depth + 1, reach);
      if Sayable(h, VRef(id), reach) { ChildSayable(h, id, i, reach); }
      if fault.None? {
        ghost var t := Unfold(h, h[id].items[i], left - 1).value;
        ProgressChild(h, id, left, GATEWAY, n0, x0, ts, 0, n, x, t);
        ts' := ts + [t];
      } else {
        ts' := ts;
      }
    }

    method PreflightDict(h: Heap, id: nat, depth: nat, ghost reach: nat) returns (fault: Option<Fault>)
      requires DictsDistinct(h) && depth <= MAX_DEPTH && id < |h| && h[id].DictOf?
      requires 1 <= nodes <= MAX_SNAPSHOT_NODES && textBytes <= MAX_CANONICAL_BYTES
      requires reach >= LEVELS && Below(h, active, VRef(id), reach)
      modifies this
      ensures fault.None? <==> Admits(h, VRef(id), LEVELS - depth, GATEWAY, old(nodes) - 1, old(textBytes))
      ensures fault.None? ==> Unfold(h, VRef(id), LEVELS - depth).Some?
      ensures fault.None? ==> var t := Unfold(h, VRef(id), LEVELS - depth).value;
        nodes == old(nodes) - 1 + Nodes(t) && textBytes == old(textBytes) + Total(t, TEXT)
      ensures Reported(h, VRef(id), reach, fault)
      ensures active == old(active)
      decreases LEVELS - depth, 1
    {
      hide Progress, Admits, Unfold, Below, Total, Nodes, DictsDistinct, Children, EntriesOf, AllEncodable;
      ghost var n0, x0, left := nodes - 1, textBytes, LEVELS - depth;
      if |h[id].entries| > MAX_KEYS_PER_OBJECT {
        DictTooLong(h, id, left);
        return Some(ResourceLimit);
      }
      if id in active {
        CycleNotAdmitted(h, active, id, reach, left);
        CycleIsInfinite(h, active, id, reach, reach);
        return Some(CycleRejected);
      }
      active := active + {id};
      ghost var ts: seq<Json> := [];
      ProgressStart(h, id, left, GATEWAY, n0, x0);
      var i := 0;
      fault := None;
      while i < |h[id].entries| && fault.None?
        invariant i <= |h[id].entries| && active == old(active) + {id}
        invariant fault.Some? ==> !Admits(h, VRef(id), left, GATEWAY, n0, x0)
        invariant Reported(h, VRef(id), reach, fault)
        invariant fault.None? ==> |ts| == i && Progress(h, id, left, GATEWAY, n0, x0, ts, |ts|, nodes, textBytes)
      {
        fault, ts := PreflightEntry(h, id, depth, i, reach, old(active), n0, x0, ts);
        i := i + 1;
      }
      active := active - {id};
      if fault.None? { DictDone(h, id, left, n0, x0, ts, nodes, textBytes); }
    }

    /** One entry of a container in progress. */
    method PreflightEntry(h: Heap, id: nat, depth: nat, i: nat, ghost reach: nat, ghost above: set<nat>,
                         ghost n0: nat, ghost x0: nat, ghost ts: seq<Json>)
      returns (fault: Option<Fault>, ghost ts': seq<Json>)
      requires DictsDistinct(h) && depth <= MAX_DEPTH && id < |h| && h[id].DictOf?
      requires i == |ts| < |h[id].entries|
      requires Progress(h, id, LEVELS - depth, GATEWAY, n0, x0, ts, |ts|, nodes, textBytes)
      requires active == above + {id} && reach >= LEVELS && Below(h, above, VRef(id), reach)
      modifies this
      ensures active == old(active)
      ensures fault.Some? ==> !Admits(h, VRef(id), LEVELS - depth, GATEWAY, n0, x0)
      ensures Reported(h, VRef(id), reach, fault)
      ensures fault.None? ==> |ts'| == i + 1
      ensures fault.None? ==> Progress(h, id, LEVELS - depth, GATEWAY, n0, x0, ts', |ts'|, nodes, textBytes)
      decreases LEVELS - depth, 0
    {
      hide Progress, Admits, Unfold, Below, Total, Nodes, DictsDistinct, AllEncodable;
      ghost var n, x, left := nodes, textBytes, LEVELS - depth;
      ProgressBounds(h, id, left, GATEWAY, n0, x0, ts, i, n, x);
      if Admits(h, VRef(id), left, GATEWAY, n0, x0) {
        AdmitsNext(h, id, left, GATEWAY, n0, x0, ts, i, n, x);
      }
      ts' := ts;
      if Sayable(h, VRef(id), reach) { KeySayable(h, id, i, reach); }
      if !h[id].entries[i].key.VStr? { return Some(UnsupportedType), ts'; }
      var k := h[id].entries[i].key.s;
      fault := CountText(k);
      if fault.None? {
        ProgressKey(h, id, left, GATEWAY, n0, x0, ts, i, n, x, k);
        if Admits(h, VRef(id), left, GATEWAY, n0, x0) {
          AdmitsNext(h, id, left, GATEWAY, n0, x0, ts, i + 1, n, textBytes);
        }
        ChildBelow(h, above, id, i, reach);
        x := textBytes;
        fault := Preflight(h, h[id].entries[i].child, depth + 1, reach);
        if Sayable(h, VRef(id), reach) { ChildSayable(h, id, i, reach); }
        if fault.None? {
          ghost var t := Unfold(h, h[id].entries[i].child, left - 1).value;
          ProgressChild(h, id, left, GATEWAY, n0, x0, ts, i + 1, n, x, t);
          ts' := ts + [t];
        }
      }
    }
  }

  lemma ListTooLong(h: Heap, id: nat, left: nat)
    requires id < |h| && h[id].ListOf? && |h[id].items| > MAX_ITEMS_PER_ARRAY
    ensures forall n, x :: !Admits(h, VRef(id), left, GATEWAY, n, x)
  {
  }

  lemma DictTooLong(h: Heap, id: nat, left: nat)
    requires DictsDistinct(h) && id < |h| && h[id].DictOf? && |h[id].entries| > MAX_KEYS_PER_OBJECT
    ensures forall n, x :: !Admits(h, VRef(id), left, GATEWAY, n, x)
  {
    if Unfold(h, VRef(id), left).Some? { DictSize(h, id, Subtrees(h, id, left)); }
  }

  lemma ListDone(h: Heap, id: nat, left: nat, n0: nat, x0: nat, ts: seq<Json>, nodes: nat, bytes: nat)
    requires id < |h| && h[id].ListOf? && |h[id].items| <= MAX_ITEMS_PER_ARRAY && DictsDistinct(h)
    requires |ts| == |h[id].items| && Progress(h, id, left, GATEWAY, n0, x0, ts, 0, nodes, bytes)
    ensures Admits(h, VRef(id), left, GATEWAY, n0, x0) && Unfold(h, VRef(id), left).Some?
    ensures var t := Unfold(h, VRef(id), left).value; nodes == n0 + Nodes(t) && bytes == x0 + Total(t, TEXT)
  {
    AdmitsAll(h, id, left, GATEWAY, n0, x0, ts, nodes, bytes);
  }

  lemma DictFits(h: Heap, id: nat, ts: seq<Json>)
    requires id < |h| && h[id].DictOf? && |h[id].entries| <= MAX_KEYS_PER_OBJECT && DictsDistinct(h)
    requires WellKeyed(h[id]) && |ts| == |h[id].entries|
    ensures GATEWAY.node(Assemble(h[id], ts)) && GATEWAY.bytes.leaf(Assemble(h[id], ts)) == 0
  {
    DictSize(h, id, ts);
  }

  lemma DictDone(h: Heap, id: nat, left: nat, n0: nat, x0: nat, ts: seq<Json>, nodes: nat, bytes: nat)
    requires id < |h| && h[id].DictOf? && |h[id].entries| <= MAX_KEYS_PER_OBJECT && DictsDistinct(h)
    requires |ts| == |h[id].entries| && Progress(h, id, left, GATEWAY, n0, x0, ts, |ts|, nodes, bytes)
    ensures Admits(h, VRef(id), left, GATEWAY, n0, x0) && Unfold(h, VRef(id), left).Some?
    ensures var t := Unfold(h, VRef(id), left).value; nodes == n0 + Nodes(t) && bytes == x0 + Total(t, TEXT)
  {
    hide Progress, Total, Conforms, NodeFits, Assemble, DictsDistinct;
    if WellKeyed(h[id]) { DictFits(h, id, ts); }
    AdmitsAll(h, id, left, GATEWAY, n0, x0, ts, nodes, bytes);
  }
}

/** What a valid configuration is, said of every path the schema names at once. */
module SchemaPaths {
  import opened Wrappers
  import opened Lua
  import opened LuaSchema
  import opened LuaConf

  /** The positions, level by level, that lead to a node of the schema. */
  ghost predicate Place(nodes: seq<Node>, at: seq<nat>)
    decreases |at|
  {
    && |at| > 0 && at[0] < |nodes|
    && (|at| > 1 ==>
          nodes[at[0]].kind.CTable? && nodes[at[0]].child.Below? && Place(nodes[at[0]].child.nodes, at[1..]))
  }

  ghost function NodeAt(nodes: seq<Node>, at: seq<nat>): Node
    requires Place(nodes, at)
    decreases |at|
  {
    if |at| == 1 then nodes[at[0]] else NodeAt(nodes[at[0]].child.nodes, at[1..])
  }

  /** The keys on the way. */
  ghost function KeysAt(nodes: seq<Node>, at: seq<nat>): seq<string>
    requires Place(nodes, at)
    decreases |at|
  {
    [nodes[at[0]].key] + if |at| == 1 then [] else KeysAt(nodes[at[0]].child.nodes, at[1..])
  }

  /** What the validator of a node is shown for a value. */
  ghost function Shown(r: Rules, n: Node, v: Value): Checked {
    match n.kind
    case CInt =>
      AnInt(match v case Int(i) => ToDouble(i) case Num(x) => Truncate(x)
            case Str(s) => if r.numeral(s).Some? then Truncate(r.numeral(s).value) else 0 case _ => 0)
    case CFloat =>
      AFloat(match v case Int(i) => r.single(ToDouble(i) as real) case Num(x) => r.single(x)
             case Str(s) => if r.numeral(s).Some? then r.single(r.numeral(s).value) else 0.0 case _ => 0.0)
    case _ => AText(match v case Str(s) => Some(s) case Int(_) => Some(r.show(v)) case Num(_) => Some(r.show(v)) case _ => None)
  }

  /** A number, or a text that reads as one. */
  ghost predicate Numeric(r: Rules, v: Value) { v.Int? || v.Num? || (v.Str? && r.numeral(v.s).Some?) }

  /** A value is right for a node by itself, whatever is below it. */
  ghost predicate ValueOk(r: Rules, n: Node, v: Value) {
    match n.kind
    case CBool => v == Bool(true) || v == Bool(false)
    case CFunction => v == Func
    case CTable => v.Tab?
    case CString =>
      && (n.required ==> v.Str? || v.Int? || v.Num?)
      && (n.check.Some? ==> n.check.value(Shown(r, n, v)))
    case _ => if Numeric(r, v) then n.check.Some? ==> n.check.value(Shown(r, n, v)) else !n.required
  }

  lemma FieldOkExactly(r: Rules, h: Heap, n: Node, v: Value)
    ensures FieldOk(r, h, n, v)
            <==> ValueOk(r, n, v) && (n.kind.CTable? && n.child.Below? ==> Conforms(r, h, n.child.nodes, v))
  {}

  /** The values at every place of the schema are there and right. */
  ghost predicate EveryPlaceOk(r: Rules, h: Heap, nodes: seq<Node>, v: Value) {
    forall at :: Place(nodes, at) ==> PlaceOk(r, h, nodes, v, at)
  }

  ghost predicate PlaceOk(r: Rules, h: Heap, nodes: seq<Node>, v: Value, at: seq<nat>)
    requires Place(nodes, at)
  {
    var x := Walk(h, v, KeysAt(nodes, at));
    x.Some? && ValueOk(r, NodeAt(nodes, at), x.value)
  }

  lemma PlaceStep(r: Rules, h: Heap, nodes: seq<Node>, v: Value, at: seq<nat>)
    requires Place(nodes, at) && v.Tab?
    ensures var n := nodes[at[0]];
            var x := Field(h, v.id, n.key);
            PlaceOk(r, h, nodes, v, at)
            <==> if |at| == 1 then ValueOk(r, n, x) else PlaceOk(r, h, n.child.nodes, x, at[1..])
  {
    hide ValueOk;
    var keys := KeysAt(nodes, at);
    assert keys[0] == nodes[at[0]].key;
    if |at| == 1 {
      var x := Field(h, v.id, keys[0]);
      assert keys == [keys[0]] && keys[1..] == [];
      assert Walk(h, v, keys) == Walk(h, x, []) == Some(x);
    } else {
      assert keys[1..] == KeysAt(nodes[at[0]].child.nodes, at[1..]);
    }
  }

  /** A configuration conforms exactly when it is a table and the value at every place of the schema is there and right. */
  lemma {:induction false} ConformsExactly(r: Rules, h: Heap, nodes: seq<Node>, v: Value)
    ensures Conforms(r, h, nodes, v) <==> v.Tab? && EveryPlaceOk(r, h, nodes, v)
    decreases nodes
  {
    hide FieldOk, ValueOk, PlaceOk;
    if v.Tab? {
      forall i | 0 <= i < |nodes|
        ensures FieldOk(r, h, nodes[i], Field(h, v.id, nodes[i].key))
                <==> forall at :: Place(nodes, at) && at[0] == i ==> PlaceOk(r, h, nodes, v, at)
      {
        NodeExactly(r, h, nodes, v, i);
      }
      if EveryPlaceOk(r, h, nodes, v) {
        assert FieldsOk(r, h, nodes, v.id);
      }
      if FieldsOk(r, h, nodes, v.id) {
        forall at | Place(nodes, at) ensures PlaceOk(r, h, nodes, v, at) {
          assert FieldOk(r, h, nodes[at[0]], Field(h, v.id, nodes[at[0]].key));
        }
      }
    }
  }

  lemma NodeExactly(r: Rules, h: Heap, nodes: seq<Node>, v: Value, i: nat)
    requires v.Tab? && i < |nodes|
    ensures FieldOk(r, h, nodes[i], Field(h, v.id, nodes[i].key))
            <==> forall at :: Place(nodes, at) && at[0] == i ==> PlaceOk(r, h, nodes, v, at)
    decreases nodes, 0
  {
    hide FieldOk, ValueOk, PlaceOk, Conforms;
    var n, x := nodes[i], Field(h, v.id, nodes[i].key);
    FieldOkExactly(r, h, n, x);
    PlaceStep(r, h, nodes, v, [i]);
    if n.kind.CTable? && n.child.Below? {
      ConformsExactly(r, h, n.child.nodes, x);
      TableIsRight(r, n, x);
      forall at | Place(n.child.nodes, at)
        ensures Place(nodes, [i] + at) && (PlaceOk(r, h, nodes, v, [i] + at) <==> PlaceOk(r, h, n.child.nodes, x, at))
      {
        assert ([i] + at)[1..] == at;
        PlaceStep(r, h, nodes, v, [i] + at);
      }
    }
    forall at | Place(nodes, at) && at[0] == i
      ensures |at| == 1 ==> at == [i]
      ensures |at| > 1 ==> n.kind.CTable? && n.child.Below? && Place(n.child.nodes, at[1..]) && at == [i] + at[1..]
    {
    }
  }

  lemma TableIsRight(r: Rules, n: Node, v: Value)
    requires n.kind.CTable?
    ensures ValueOk(r, n, v) <==> v.Tab?
  {}

  /** A field leaves a default behind exactly when it is no number where one is expected, or no string where one is required. */
  lemma DefaultExactly(r: Rules, h: Heap, n: Node, v: Value)
    ensures PushesDefault(r, n, v)
            <==> match n.kind
                 case CInt => !Numeric(r, v)
                 case CFloat => !Numeric(r, v)
                 case CString => n.required && !v.Str? && !v.Int? && !v.Num?
                 case _ => false
    ensures FieldSurplus(r, h, n, v)
            == if PushesDefault(r, n, v) then 1
               else if n.kind.CTable? && v.Tab? && n.child.Below? then Surplus(r, h, n.child.nodes, |n.child.nodes|, v.id)
               else 0
  {}

  /** The defaults left behind add up over the fields of a table. */
  lemma SurplusExactly(r: Rules, h: Heap, nodes: seq<Node>, k: nat, t: TableId)
    requires k < |nodes|
    ensures Surplus(r, h, nodes, 0, t) == 0
    ensures Surplus(r, h, nodes, k + 1, t)
            == Surplus(r, h, nodes, k, t) + FieldSurplus(r, h, nodes[k], Field(h, t, nodes[k].key))
  {}
}

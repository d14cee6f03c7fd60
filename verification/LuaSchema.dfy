/** Validation of the configuration table against the schema, over the Lua stack. */
module LuaSchema {
  import opened Wrappers
  import opened Lua

  datatype Type = CInt | CBool | CFloat | CString | CTable | CFunction

  /** What a validator is given; text is missing when the value is not a string. */
  datatype Checked = AnInt(i: int) | AFloat(x: real) | AText(text: Option<string>)

  /** A field of the schema: its key, type, whether it is required, its validator and the fields below it. */
  datatype Node = Node(key: string, kind: Type, required: bool, check: Option<Checked -> bool>, child: Children)
  datatype Children = Leaf | Below(nodes: seq<Node>)

  /** A value as text; how numbers are written, integers and floats alike, is the interpreter's business. */
  function Written(show: Value -> string, v: Value): Option<string> {
    match v
    case Str(s) => Some(s)
    case Int(_) => Some(show(v))
    case Num(_) => Some(show(v))
    case _ => None
  }

  /** Lua's reading and writing of numbers, and the rounding of a cast to single precision. */
  datatype Rules = Rules(numeral: Numeral, show: Value -> string, single: real -> real)

  // ---------------------------------------------------------------- what a valid configuration is

  predicate NumberOk(r: Rules, n: Node, v: Value) {
    var x := ToNumber(r.numeral, v);
    if x.None? then !n.required
    else n.check.None? || n.check.value(if n.kind.CInt? then AnInt(Truncate(x.value)) else AFloat(r.single(x.value)))
  }

  predicate TextOk(r: Rules, n: Node, v: Value) {
    if !IsString(v) && n.required then false
    else n.check.None? || n.check.value(AText(Written(r.show, v)))
  }

  predicate FieldOk(r: Rules, h: Heap, n: Node, v: Value)
    decreases n
  {
    match n.kind
    case CInt => NumberOk(r, n, v)
    case CFloat => NumberOk(r, n, v)
    case CBool => v.Bool?
    case CString => TextOk(r, n, v)
    case CFunction => v.Func?
    case CTable => v.Tab? && (n.child.Below? ==> FieldsOk(r, h, n.child.nodes, v.id))
  }

  predicate FieldsOk(r: Rules, h: Heap, nodes: seq<Node>, t: TableId)
    decreases nodes
  {
    forall i :: 0 <= i < |nodes| ==> FieldOk(r, h, nodes[i], Field(h, t, nodes[i].key))
  }

  /** The configuration is a table whose fields are as the schema says, all the way down. */
  predicate Conforms(r: Rules, h: Heap, nodes: seq<Node>, v: Value) {
    v.Tab? && FieldsOk(r, h, nodes, v.id)
  }

  // ---------------------------------------------------------------- what validation leaves on the stack

  /** A field whose branch pushes a default that is never used. */
  predicate PushesDefault(r: Rules, n: Node, v: Value) {
    match n.kind
    case CInt => ToNumber(r.numeral, v).None?
    case CFloat => ToNumber(r.numeral, v).None?
    case CString => !IsString(v) && n.required
    case _ => false
  }

  function FieldSurplus(r: Rules, h: Heap, n: Node, v: Value): nat
    decreases n
  {
    if PushesDefault(r, n, v) then 1
    else if n.kind.CTable? && v.Tab? && n.child.Below? then Surplus(r, h, n.child.nodes, |n.child.nodes|, v.id)
    else 0
  }

  /** How many fields, at any depth, push a default: over the first `k` fields of a table. */
  function Surplus(r: Rules, h: Heap, nodes: seq<Node>, k: nat, t: TableId): nat
    requires k <= |nodes|
    decreases nodes, k
  {
    if k == 0 then 0
    else Surplus(r, h, nodes, k - 1, t) + FieldSurplus(r, h, nodes[k - 1], Field(h, t, nodes[k - 1].key))
  }

  // ---------------------------------------------------------------- the validator

  /** The value on top is checked against its node; the branch may leave more on top of it. */
  method ValidateField(L: State, r: Rules, n: Node) returns (valid: bool)
    requires |L.stack| > 0 && r.numeral == L.numeral
    modifies L`stack
    ensures old(L.stack) <= L.stack
    ensures valid == FieldOk(r, L.heap, n, old(L.stack)[|old(L.stack)| - 1])
    ensures |L.stack| == |old(L.stack)| + FieldSurplus(r, L.heap, n, old(L.stack)[|old(L.stack)| - 1])
    decreases n, 1
  {
    var v := L.stack[|L.stack| - 1];
    valid := true;
    if n.kind.CInt? || n.kind.CFloat? {
      var x := ToNumber(L.numeral, v);
      if x.None? {
        L.Push(Num(0.0));
        if n.required { valid := false; }
      } else if n.check.Some? {
        valid := n.check.value(if n.kind.CInt? then AnInt(Truncate(x.value)) else AFloat(r.single(x.value)));
      }
    } else if n.kind.CBool? {
      valid := v.Bool?;
    } else if n.kind.CString? {
      if !IsString(v) && n.required {
        L.Push(Nil);
        valid := false;
      } else if n.check.Some? {
        valid := n.check.value(AText(Written(r.show, v)));
      }
    } else if n.kind.CFunction? {
      valid := v.Func?;
    } else {
      if !v.Tab? {
        valid := false;
      } else if n.child.Below? {
        valid := ValidateTable(L, r, -1, n.child.nodes);
      }
    }
  }

  /**
   The recursive validator: exactly the pure predicate. Everything below the table keeps its
   slot, and what is left above is one entry for each field that pushed a default.
   */
  method ValidateTable(L: State, r: Rules, index: int, nodes: seq<Node>) returns (valid: bool)
    requires index != 0 && -|L.stack| <= index <= |L.stack| && |L.stack| > 0 && r.numeral == L.numeral
    modifies L`stack
    ensures var top := if index < 0 then |old(L.stack)| + index + 1 else index;
            var v := old(L.stack)[top - 1];
            && old(L.stack) <= L.stack
            && valid == Conforms(r, L.heap, nodes, v)
            && |L.stack| == |old(L.stack)| + if v.Tab? then Surplus(r, L.heap, nodes, |nodes|, v.id) else 0
    decreases nodes, |nodes| + 1
  {
    var abs := if index < 0 then |L.stack| + index + 1 else index;
    if !L.stack[abs - 1].Tab? { return false; }
    ghost var base, t := L.stack, L.stack[abs - 1].id;
    valid := true;
    var i := 0;
    while i < |nodes|
      invariant i <= |nodes| && base <= L.stack
      invariant |L.stack| == |base| + Surplus(r, L.heap, nodes, i, t)
      invariant valid <==> forall k :: 0 <= k < i ==> FieldOk(r, L.heap, nodes[k], Field(L.heap, t, nodes[k].key))
    {
      L.GetField(abs, nodes[i].key);
      var ok := ValidateField(L, r, nodes[i]);
      if !ok { valid := false; }
      L.Pop(1);
      i := i + 1;
    }
  }
}

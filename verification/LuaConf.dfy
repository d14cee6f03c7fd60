/** Reading and writing configuration values by dotted path. */
module LuaConf {
  import opened Wrappers
  import opened Lua
  import opened LuaSchema

  // ---------------------------------------------------------------- paths

  /** The segments of a path; `word` is the segment being read. Empty segments are skipped. */
  function Segments(path: string, word: string): seq<string>
    decreases |path|
  {
    var done := if |word| == 0 then [] else [word];
    if |path| == 0 then done
    else if path[0] == '.' then done + Segments(path[1..], [])
    else Segments(path[1..], word + [path[0]])
  }

  function Tokens(path: string): seq<string> { Segments(path, []) }

  /** One past the last dot, or zero when there is none. */
  function KeyStart(path: string): (k: nat)
    ensures k <= |path| && (k > 0 ==> path[k - 1] == '.')
    ensures forall i :: k <= i < |path| ==> path[i] != '.'
  {
    if |path| == 0 || path[|path| - 1] == '.' then |path| else KeyStart(path[..|path| - 1])
  }

  /** What stands before the last dot. */
  function Parent(path: string): string {
    var k := KeyStart(path);
    if k == 0 then [] else path[..k - 1]
  }

  /** What stands after it. */
  function Key(path: string): string { path[KeyStart(path)..] }

  lemma {:induction false} SegmentsSplit(a: string, b: string, word: string)
    ensures Segments(a + ['.'] + b, word) == Segments(a, word) + Tokens(b)
    decreases |a|
  {
    var s := a + ['.'] + b;
    if |a| == 0 {
      assert s[1..] == b;
    } else {
      assert s[1..] == a[1..] + ['.'] + b && s[0] == a[0];
      if a[0] == '.' { SegmentsSplit(a[1..], b, []); } else { SegmentsSplit(a[1..], b, word + [a[0]]); }
    }
  }

  lemma {:induction false} OneSegment(s: string, word: string)
    requires forall i :: 0 <= i < |s| ==> s[i] != '.'
    ensures Segments(s, word) == if |word + s| == 0 then [] else [word + s]
    decreases |s|
  {
    if |s| > 0 {
      OneSegment(s[1..], word + [s[0]]);
      assert word + [s[0]] + s[1..] == word + s;
    } else {
      assert word + s == word;
    }
  }

  /** The segments of a path are those of its parent, then the key unless it is empty. */
  lemma PathSegments(path: string)
    ensures Tokens(path) == Tokens(Parent(path)) + (if |Key(path)| == 0 then [] else [Key(path)])
  {
    var k := KeyStart(path);
    hide Segments, KeyStart;
    OneSegment(Key(path), []);
    assert [] + Key(path) == Key(path);
    if k > 0 {
      assert path == Parent(path) + ['.'] + Key(path);
      SegmentsSplit(Parent(path), Key(path), []);
    } else {
      assert Key(path) == path;
      NoSegments();
    }
  }

  // ---------------------------------------------------------------- walking

  /** Follows segments through tables; nothing when something on the way is not a table. */
  function Walk(h: Heap, v: Value, tokens: seq<string>): Option<Value>
    decreases |tokens|
  {
    if |tokens| == 0 then Some(v)
    else if v.Tab? then Walk(h, Field(h, v.id, tokens[0]), tokens[1..])
    else None
  }

  /** The values met on the way: each but the last is a table, and the next is its field. */
  ghost predicate Trail(h: Heap, trail: seq<Value>, tokens: seq<string>) {
    && |trail| == |tokens| + 1
    && forall i :: 0 <= i < |tokens| ==> trail[i].Tab? && trail[i + 1] == Field(h, trail[i].id, tokens[i])
  }

  /** A walk succeeds exactly when there is such a trail, and ends where it ends. */
  lemma {:induction false} WalkExactly(h: Heap, v: Value, tokens: seq<string>, x: Value)
    ensures Walk(h, v, tokens) == Some(x) <==> exists trail :: Trail(h, trail, tokens) && trail[0] == v && trail[|tokens|] == x
    decreases |tokens|
  {
    if |tokens| == 0 {
      assert Trail(h, [v], tokens);
    } else if v.Tab? {
      var w := Field(h, v.id, tokens[0]);
      WalkExactly(h, w, tokens[1..], x);
      if Walk(h, v, tokens) == Some(x) {
        var trail :| Trail(h, trail, tokens[1..]) && trail[0] == w && trail[|tokens| - 1] == x;
        assert Trail(h, [v] + trail, tokens);
      }
      forall trail | Trail(h, trail, tokens) && trail[0] == v && trail[|tokens|] == x ensures Walk(h, w, tokens[1..]) == Some(x) {
        assert Trail(h, trail[1..], tokens[1..]);
      }
    }
  }

  /** An assigned field reads as assigned, and every other field as before. */
  lemma AssignExactly(h: Heap, t: TableId, key: string, x: Value, u: TableId, other: string)
    ensures Field(Assign(h, t, key, x), u, other) == if u == t && other == key then x else Field(h, u, other)
  {}

  /** The walk reads the field `key` of table `t`. */
  ghost predicate Reads(h: Heap, v: Value, tokens: seq<string>, t: TableId, key: string)
    decreases |tokens|
  {
    |tokens| > 0 && v.Tab?
    && ((v.id == t && tokens[0] == key) || Reads(h, Field(h, v.id, tokens[0]), tokens[1..], t, key))
  }

  lemma {:induction false} WalkAppend(h: Heap, v: Value, a: seq<string>, b: seq<string>)
    ensures Walk(h, v, a + b) == if Walk(h, v, a).Some? then Walk(h, Walk(h, v, a).value, b) else None
    decreases |a|
  {
    if |a| == 0 {
      assert a + b == b;
    } else {
      assert (a + b)[1..] == a[1..] + b;
      if v.Tab? { WalkAppend(h, Field(h, v.id, a[0]), a[1..], b); }
    }
  }

  /** A walk that does not read a field does not notice its assignment. */
  lemma {:induction false} WalkFrame(h: Heap, v: Value, tokens: seq<string>, t: TableId, key: string, x: Value)
    requires !Reads(h, v, tokens, t, key)
    ensures Walk(Assign(h, t, key, x), v, tokens) == Walk(h, v, tokens)
    decreases |tokens|
  {
    if |tokens| > 0 && v.Tab? {
      WalkFrame(h, Field(h, v.id, tokens[0]), tokens[1..], t, key, x);
    }
  }

  /** A walk that reads the field, and goes on, ends nowhere once the field is no table. */
  lemma {:induction false} WalkBlocked(h: Heap, v: Value, tokens: seq<string>, last: string, t: TableId, key: string, x: Value)
    requires Reads(h, v, tokens, t, key) && !x.Tab?
    ensures Walk(Assign(h, t, key, x), v, tokens + [last]).None?
    decreases |tokens|
  {
    var h1 := Assign(h, t, key, x);
    assert (tokens + [last])[1..] == tokens[1..] + [last];
    if v.id == t && tokens[0] == key {
      assert Field(h1, t, key) == x;
    } else {
      assert Field(h1, v.id, tokens[0]) == Field(h, v.id, tokens[0]);
      WalkBlocked(h, Field(h, v.id, tokens[0]), tokens[1..], last, t, key, x);
    }
  }

  // ---------------------------------------------------------------- values in and out

  /** A configuration value on the C side. */
  datatype CValue = OfInt(i: int) | OfFloat(x: real) | OfBool(b: bool) | OfString(s: string)

  /** `Abort`: taking the length of a number raises an error nobody catches. */
  datatype GetResult = Got(value: CValue) | Failed | Abort

  function FromLua(numeral: Numeral, v: Value, kind: Type): GetResult {
    match kind
    case CString =>
      if !IsString(v) then Failed else if !v.Str? then Abort else if |v.s| == 0 then Failed else Got(OfString(v.s))
    case CBool => if v.Bool? then Got(OfBool(v.b)) else Failed
    case CInt =>
      var x := ToNumber(numeral, v);
      if x.Some? then Got(OfInt(Truncate(x.value))) else Failed
    case CFloat =>
      var x := ToNumber(numeral, v);
      if x.Some? then Got(OfFloat(x.value)) else Failed
    case _ => Failed
  }

  /** What a value is read as, by the kind asked for and the kind it has. */
  lemma ReadByKind(numeral: Numeral, v: Value, kind: Type)
    ensures FromLua(numeral, v, kind) == match (kind, v)
      case (CBool, Bool(b)) => Got(OfBool(b))
      case (CString, Str(s)) => if s == "" then Failed else Got(OfString(s))
      case (CString, Int(_)) => Abort
      case (CString, Num(_)) => Abort
      case (CInt, Int(i)) => Got(OfInt(ToDouble(i)))
      case (CInt, Num(x)) => Got(OfInt(Truncate(x)))
      case (CInt, Str(s)) => if numeral(s).None? then Failed else Got(OfInt(Truncate(numeral(s).value)))
      case (CFloat, Int(i)) => Got(OfFloat(ToDouble(i) as real))
      case (CFloat, Num(x)) => Got(OfFloat(x))
      case (CFloat, Str(s)) => if numeral(s).None? then Failed else Got(OfFloat(numeral(s).value))
      case _ => Failed
  {}

  function ToLua(v: CValue): Value {
    match v
    case OfInt(i) => Int(i)
    case OfFloat(x) => Num(x)
    case OfBool(b) => Bool(b)
    case OfString(s) => Str(s)
  }

  function TypeOf(v: CValue): Type {
    match v
    case OfInt(_) => CInt
    case OfFloat(_) => CFloat
    case OfBool(_) => CBool
    case OfString(_) => CString
  }

  /** The value comes back as it went in. */
  predicate Survives(v: CValue) {
    (v.OfInt? ==> Exact(v.i)) && (v.OfString? ==> |v.s| > 0)
  }

  lemma ThroughLuaExactly(numeral: Numeral, v: CValue)
    ensures FromLua(numeral, ToLua(v), TypeOf(v)) == Got(v) <==> Survives(v)
  {
    if v.OfInt? { ToDoubleExactly(v.i); }
  }

  /** What reading a path gives. */
  function Get(numeral: Numeral, h: Heap, root: Value, path: string, kind: Type): GetResult {
    if !root.Tab? then Failed
    else
      var v := Walk(h, root, Tokens(path));
      if v.None? then Failed else FromLua(numeral, v.value, kind)
  }

  /** The table a path is assigned in. */
  function Target(h: Heap, root: Value, path: string): Option<TableId> {
    if !root.Tab? then None
    else
      var v := Walk(h, root, Tokens(Parent(path)));
      if v.Some? && v.value.Tab? then Some(v.value.id) else None
  }

  /** The heap after writing a path; unchanged when there is no table to write to. */
  function Set(h: Heap, root: Value, path: string, v: CValue): Heap {
    var t := Target(h, root, path);
    if t.None? then h else Assign(h, t.value, Key(path), ToLua(v))
  }

  /** The path leads from the root, through tables, to the value. */
  ghost predicate LeadsTo(h: Heap, root: Value, path: string, x: Value) {
    exists trail :: Trail(h, trail, Tokens(path)) && trail[0] == root && trail[|Tokens(path)|] == x
  }

  /** Reading a path fails when it leads nowhere or the configuration is no table, and reads what it leads to otherwise. */
  lemma GetExactly(numeral: Numeral, h: Heap, root: Value, path: string, kind: Type)
    ensures !root.Tab? || (forall x :: !LeadsTo(h, root, path, x)) ==> Get(numeral, h, root, path, kind) == Failed
    ensures forall x :: root.Tab? && LeadsTo(h, root, path, x) ==> Get(numeral, h, root, path, kind) == FromLua(numeral, x, kind)
  {
    hide Tokens, FromLua;
    forall x ensures Walk(h, root, Tokens(path)) == Some(x) <==> LeadsTo(h, root, path, x) {
      WalkExactly(h, root, Tokens(path), x);
    }
  }

  /** Writing a path changes the field under its last segment in the table the rest leads to, and no other field. */
  lemma SetExactly(h: Heap, root: Value, path: string, v: CValue, t: TableId, key: string)
    ensures Target(h, root, path) == Some(t) <==> root.Tab? && LeadsTo(h, root, Parent(path), Tab(t))
    ensures Field(Set(h, root, path, v), t, key)
            == if root.Tab? && LeadsTo(h, root, Parent(path), Tab(t)) && key == Key(path) then ToLua(v) else Field(h, t, key)
  {
    hide Tokens, Parent, Key, ToLua;
    WalkExactly(h, root, Tokens(Parent(path)), Tab(t));
    var target := Target(h, root, path);
    if target.Some? { AssignExactly(h, target.value, Key(path), ToLua(v), t, key); }
  }

  // ---------------------------------------------------------------- round trip and frame

  /** Reading after a successful write gives the value back exactly when the key is not empty, the value survives, and the way to the table does not go through the field written. */
  lemma RoundTripExactly(numeral: Numeral, h: Heap, root: Value, path: string, v: CValue)
    requires Target(h, root, path).Some?
    ensures Get(numeral, Set(h, root, path, v), root, path, TypeOf(v)) == Got(v)
            <==> && |Key(path)| > 0 && Survives(v)
                 && !Reads(h, root, Tokens(Parent(path)), Target(h, root, path).value, Key(path))
  {
    hide Tokens, Parent, Key, Survives, FromLua;
    var t, key, x := Target(h, root, path).value, Key(path), ToLua(v);
    var up := Tokens(Parent(path));
    var h1 := Set(h, root, path, v);
    PathSegments(path);
    ThroughLuaExactly(numeral, v);
    if |key| == 0 {
      assert up + [] == up;
      NoEmptySegment(Parent(path), []);
      assert "" !in up by { UnfoldTokens(Parent(path)); }
      ReadsAreSegments(h, root, up, t, key);
      WalkFrame(h, root, up, t, key, x);
      TableIsNoValue(numeral, t, TypeOf(v));
    } else if Reads(h, root, up, t, key) {
      WalkBlocked(h, root, up, key, t, key, x);
    } else {
      WalkFrame(h, root, up, t, key, x);
      WalkAppend(h1, root, up, [key]);
      assert Walk(h1, Tab(t), [key]) == Some(Field(h1, t, key));
      assert Field(h1, t, key) == x;
    }
  }

  lemma UnfoldTokens(path: string)
    ensures Tokens(path) == Segments(path, [])
  {}

  lemma TableIsNoValue(numeral: Numeral, t: TableId, kind: Type)
    ensures FromLua(numeral, Tab(t), kind) == Failed
  {}

  lemma {:induction false} NoEmptySegment(path: string, word: string)
    ensures "" !in Segments(path, word)
    decreases |path|
  {
    if |path| > 0 {
      if path[0] == '.' { NoEmptySegment(path[1..], []); } else { NoEmptySegment(path[1..], word + [path[0]]); }
    }
  }

  lemma {:induction false} ReadsAreSegments(h: Heap, v: Value, tokens: seq<string>, t: TableId, key: string)
    ensures Reads(h, v, tokens, t, key) ==> key in tokens
    decreases |tokens|
  {
    if |tokens| > 0 && v.Tab? { ReadsAreSegments(h, Field(h, v.id, tokens[0]), tokens[1..], t, key); }
  }

  /** No table can be reached in two ways. */
  ghost predicate TreeShaped(h: Heap, root: Value) {
    forall p: seq<string>, q: seq<string> ::
      Walk(h, root, p).Some? && Walk(h, root, p) == Walk(h, root, q) && Walk(h, root, p).value.Tab? ==> p == q
  }

  /** In general a read leaves a trace: some prefix of the path leads to the table, and the key comes next. */
  lemma {:induction false} ReadsAt(h: Heap, v: Value, tokens: seq<string>, t: TableId, key: string) returns (k: nat)
    requires Reads(h, v, tokens, t, key)
    ensures k < |tokens| && Walk(h, v, tokens[..k]) == Some(Tab(t)) && tokens[k] == key
    decreases |tokens|
  {
    if v.id == t && tokens[0] == key {
      k := 0;
    } else {
      var j := ReadsAt(h, Field(h, v.id, tokens[0]), tokens[1..], t, key);
      k := j + 1;
      assert tokens[..k][1..] == tokens[1..][..j];
    }
  }

  /** On a tree only paths through the assigned field read it. */
  lemma ReadsOnTrees(h: Heap, root: Value, path: string, tokens: seq<string>)
    requires TreeShaped(h, root) && Target(h, root, path).Some? && |Key(path)| > 0
    ensures Reads(h, root, tokens, Target(h, root, path).value, Key(path)) ==> Tokens(path) <= tokens
  {
    hide Tokens, Parent, Key, Segments;
    var t, key := Target(h, root, path).value, Key(path);
    PathSegments(path);
    if Reads(h, root, tokens, t, key) {
      var k := ReadsAt(h, root, tokens, t, key);
      assert tokens[..k] == Tokens(Parent(path));
      assert tokens[..k] + [key] == tokens[..k + 1];
    }
  }

  /** On tree-shaped tables the round trip needs only a key and a value that survives. */
  lemma RoundTripOnTrees(numeral: Numeral, h: Heap, root: Value, path: string, v: CValue)
    requires TreeShaped(h, root) && Target(h, root, path).Some? && |Key(path)| > 0 && Survives(v)
    ensures Get(numeral, Set(h, root, path, v), root, path, TypeOf(v)) == Got(v)
  {
    hide Tokens, Parent, Key, Survives, FromLua, Get, Set, Segments, TreeShaped;
    PathSegments(path);
    ReadsOnTrees(h, root, path, Tokens(Parent(path)));
    RoundTripExactly(numeral, h, root, path, v);
  }

  /** A path that does not go through the assigned field reads as before. */
  lemma OtherPathsUnchanged(numeral: Numeral, h: Heap, root: Value, path: string, v: CValue, other: string, kind: Type)
    requires TreeShaped(h, root) && Target(h, root, path).Some? && |Key(path)| > 0
    requires !(Tokens(path) <= Tokens(other))
    ensures Get(numeral, Set(h, root, path, v), root, other, kind) == Get(numeral, h, root, other, kind)
  {
    hide Tokens, Parent, Key, FromLua, Segments, TreeShaped;
    ReadsOnTrees(h, root, path, Tokens(other));
    WalkFrame(h, root, Tokens(other), Target(h, root, path).value, Key(path), ToLua(v));
  }

  lemma {:induction false} ReadsDivert(h: Heap, v: Value, tokens: seq<string>, t: TableId, key: string, x: Value)
    requires Reads(h, v, tokens, t, key) && !x.Tab?
    ensures var w := Walk(Assign(h, t, key, x), v, tokens); w.None? || w == Some(x)
    decreases |tokens|
  {
    var h1 := Assign(h, t, key, x);
    if v.id == t && tokens[0] == key {
      assert Field(h1, t, key) == x;
    } else {
      assert Field(h1, v.id, tokens[0]) == Field(h, v.id, tokens[0]);
      ReadsDivert(h, Field(h, v.id, tokens[0]), tokens[1..], t, key, x);
    }
  }

  /** Writing a value keeps tables a tree. */
  lemma SetKeepsTree(h: Heap, root: Value, path: string, v: CValue)
    requires TreeShaped(h, root)
    ensures TreeShaped(Set(h, root, path, v), root)
  {
    hide Tokens, Parent, Key, Segments;
    var target, key, x := Target(h, root, path), Key(path), ToLua(v);
    if target.Some? {
      var h1 := Assign(h, target.value, key, x);
      forall p: seq<string> | Walk(h1, root, p).Some? && Walk(h1, root, p).value.Tab?
        ensures Walk(h, root, p) == Walk(h1, root, p)
      {
        if Reads(h, root, p, target.value, key) { ReadsDivert(h, root, p, target.value, key, x); }
        else { WalkFrame(h, root, p, target.value, key, x); }
      }
    }
  }

  /** A write does not move the table another path is assigned in, unless that lies below the field written. */
  lemma TargetKept(h: Heap, root: Value, path: string, v: CValue, other: string)
    requires TreeShaped(h, root) && Target(h, root, path).Some? && |Key(path)| > 0
    requires !(Tokens(path) <= Tokens(Parent(other)))
    ensures Target(Set(h, root, path, v), root, other) == Target(h, root, other)
  {
    hide Tokens, Parent, Key, Segments, TreeShaped;
    ReadsOnTrees(h, root, path, Tokens(Parent(other)));
    WalkFrame(h, root, Tokens(Parent(other)), Target(h, root, path).value, Key(path), ToLua(v));
  }

  lemma PathParts(a: string, b: string)
    requires forall i :: 0 <= i < |b| ==> b[i] != '.'
    ensures Parent(a + ['.'] + b) == a && Key(a + ['.'] + b) == b
  {
    var path := a + ['.'] + b;
    var k := KeyStart(path);
    assert path[|a|] == '.';
    assert forall i :: |a| < i < |path| ==> path[i] == b[i - |a| - 1];
    assert k == |a| + 1;
  }

  // ---------------------------------------------------------------- the stack programs

  /** Pushes the value a path leads to; nothing is left behind when the path breaks off. */
  method Traverse(L: State, path: string) returns (ok: bool)
    requires |L.stack| > 0
    modifies L`stack
    ensures var v := Walk(L.heap, old(L.stack)[0], Tokens(path));
            ok == v.Some? && L.stack == if ok then old(L.stack) + [v.value] else old(L.stack)
  {
    var tokens := Tokens(path);
    ghost var base := L.stack;
    L.Push(L.stack[0]);
    var i := 0;
    assert tokens[0..] == tokens;
    while i < |tokens|
      invariant i <= |tokens| && |L.stack| == |base| + 1 && L.stack[..|base|] == base
      invariant Walk(L.heap, base[0], tokens) == Walk(L.heap, L.stack[|base|], tokens[i..])
    {
      assert tokens[i..][1..] == tokens[i + 1..];
      if !L.stack[|L.stack| - 1].Tab? {
        L.Pop(1);
        return false;
      }
      L.GetField(|L.stack|, tokens[i]);
      L.RemoveBelow();
      i := i + 1;
    }
    ok := true;
  }

  /** Converts the value on top; pops it on success only. */
  method TakeValue(L: State, kind: Type) returns (r: GetResult)
    requires |L.stack| > 0
    modifies L`stack
    ensures r == FromLua(L.numeral, old(L.stack)[|old(L.stack)| - 1], kind)
    ensures L.stack == if r.Got? then old(L.stack)[..|old(L.stack)| - 1] else old(L.stack)
  {
    var v := L.stack[|L.stack| - 1];
    if kind.CString? {
      if !IsString(v) { return Failed; }
      if !v.Str? { return Abort; }
      if |v.s| == 0 { return Failed; }
      r := Got(OfString(v.s));
    } else if kind.CBool? {
      if !v.Bool? { return Failed; }
      r := Got(OfBool(v.b));
    } else {
      if !kind.CInt? && !kind.CFloat? { return Failed; }
      var x := ToNumber(L.numeral, v);
      if x.None? { return Failed; }
      r := if kind.CInt? then Got(OfInt(Truncate(x.value))) else Got(OfFloat(x.value));
    }
    L.Pop(1);
  }

  /** Reads a path: the result is `Get`, and the stack is as before unless the process dies. */
  method GetConfValue(L: State, path: string, kind: Type) returns (r: GetResult)
    requires |L.stack| > 0
    modifies L`stack
    ensures r == Get(L.numeral, L.heap, old(L.stack)[0], path, kind)
    ensures !r.Abort? ==> L.stack == old(L.stack)
    ensures old(L.stack) <= L.stack
  {
    if !L.stack[0].Tab? { return Failed; }
    var ok := Traverse(L, path);
    if !ok { return Failed; }
    r := TakeValue(L, kind);
    if r.Failed? { L.Pop(1); }
  }

  /**
   Writes a path; `v` is nothing for a type that has no setter. The heap becomes `Set`, success says
   whether there was a table to write to, and the stack is as before on every way out.
   */
  method SetConfValue(L: State, path: string, v: Option<CValue>) returns (ok: bool)
    requires |L.stack| > 0
    modifies L
    ensures L.stack == old(L.stack)
    ensures ok == (v.Some? && Target(old(L.heap), L.stack[0], path).Some?)
    ensures L.heap == if v.Some? then Set(old(L.heap), L.stack[0], path, v.value) else old(L.heap)
  {
    hide Segments;
    if !L.stack[0].Tab? { return false; }
    ok := PushParent(L, path);
    if !ok { return false; }
    if !L.stack[|L.stack| - 1].Tab? || v.None? {
      L.Pop(1);
      return false;
    }
    L.Push(ToLua(v.value));
    L.SetField(path[KeyStart(path)..]);
    L.Pop(1);
  }

  /** Pushes what the part of the path before the last dot leads to. */
  method PushParent(L: State, path: string) returns (ok: bool)
    requires |L.stack| > 0
    modifies L`stack
    ensures var v := Walk(L.heap, old(L.stack)[0], Tokens(Parent(path)));
            ok == v.Some? && L.stack == if ok then old(L.stack) + [v.value] else old(L.stack)
  {
    var k := KeyStart(path);
    if k > 0 {
      ok := Traverse(L, path[..k - 1]);
    } else {
      NoSegments();
      L.Push(L.stack[0]);
      ok := true;
    }
  }

  lemma NoSegments()
    ensures Tokens([]) == []
  {}
}

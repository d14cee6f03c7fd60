/**
 The three hooks over the Lua stack. How the script's function behaves is the parameter
 `script`; the hooks answer with what the script said and leave the stack as they found it.
 */
module LuaHooks {
  import opened Wrappers
  import opened Lua
  import opened LuaConf
  import Relay

  /** A protected call raises an error or returns. */
  datatype Call = Threw(message: string) | Returned(result: Value)

  /** The script's function for a hook, when the configuration has one. */
  predicate HasHook(h: Heap, root: Value, name: string) {
    root.Tab? && var hooks := Field(h, root.id, "hooks"); hooks.Tab? && Field(h, hooks.id, name).Func?
  }

  /** Pushes the hooks table and the function, or nothing. */
  method PushHook(L: State, name: string) returns (found: bool)
    requires |L.stack| > 0
    modifies L`stack
    ensures found == HasHook(L.heap, old(L.stack)[0], name)
    ensures if found then |L.stack| == |old(L.stack)| + 2 && old(L.stack) <= L.stack else L.stack == old(L.stack)
  {
    if !L.stack[0].Tab? { return false; }
    L.GetField(1, "hooks");
    if !L.stack[|L.stack| - 1].Tab? {
      L.Pop(1);
      return false;
    }
    L.GetField(|L.stack|, name);
    if !L.stack[|L.stack| - 1].Func? {
      L.Pop(2);
      return false;
    }
    found := true;
  }

  /** What the script's function makes of its arguments. */
  type Script = seq<Value> -> Call

  /** A protected call takes the function and its arguments off and leaves its results, or one error message. */
  method ProtectedCall(L: State, arguments: nat, results: nat, script: Script) returns (call: Call)
    requires |L.stack| > arguments && results <= 1
    modifies L`stack
    ensures call == script(old(L.stack)[|old(L.stack)| - arguments..])
    ensures var base := old(L.stack)[..|old(L.stack)| - arguments - 1];
            L.stack == base + (match call case Threw(m) => [Str(m)] case Returned(v) => if results == 1 then [v] else [])
  {
    call := script(L.stack[|L.stack| - arguments..]);
    L.Pop(arguments + 1);
    match call
    case Threw(m) => L.Push(Str(m));
    case Returned(v) => if results == 1 { L.Push(v); }
  }

  predicate Truthy(v: Value) { !v.Nil? && v != Bool(false) }

  /** The hook is the function the configuration holds under its name. */
  lemma HookIsFound(h: Heap, root: Value, name: string)
    ensures HasHook(h, root, name) <==> Walk(h, root, ["hooks", name]) == Some(Func)
  {
    assert ["hooks", name][1..] == [name] && [name][1..] == [];
    if root.Tab? {
      var hooks := Field(h, root.id, "hooks");
      assert Walk(h, root, ["hooks", name]) == Walk(h, hooks, [name]);
      if hooks.Tab? { assert Walk(h, hooks, [name]) == Walk(h, Field(h, hooks.id, name), []); }
    }
  }

  /** The connection is dropped only when the hook ran and answered false or nil. */
  method OnConnect(L: State, script: Script) returns (pass: bool)
    requires |L.stack| > 0
    modifies L`stack
    ensures L.stack == old(L.stack)
    ensures !pass <==> && HasHook(L.heap, L.stack[0], "on_connect")
                       && script([User]) in {Returned(Nil), Returned(Bool(false))}
  {
    var found := PushHook(L, "on_connect");
    if !found { return true; }
    L.Push(User);
    assert L.stack[|L.stack| - 1..] == [User];
    var call := ProtectedCall(L, 1, 1, script);
    if call.Threw? {
      L.Pop(2);
      return true;
    }
    pass := Truthy(L.stack[|L.stack| - 1]);
    L.Pop(2);
  }

  method OnDisconnect(L: State, script: Script)
    requires |L.stack| > 0
    modifies L`stack
    ensures L.stack == old(L.stack)
  {
    var found := PushHook(L, "on_disconnect");
    if !found { return; }
    L.Push(User);
    var call := ProtectedCall(L, 1, 0, script);
    if call.Threw? {
      L.Pop(2);
      return;
    }
    L.Pop(1);
  }

  /** Lua strings are bytes. */
  function Bytes(s: string): seq<Relay.Byte> {
    seq(|s|, i requires 0 <= i < |s| => s[i] as int % 256)
  }

  function Letters(data: seq<Relay.Byte>): string {
    seq(|data|, i requires 0 <= i < |data| => data[i] as char)
  }

  /** The script sees the data byte for byte, and data it hands back comes back unchanged. */
  lemma ScriptSeesData(data: seq<Relay.Byte>)
    ensures |Letters(data)| == |data| && forall i :: 0 <= i < |data| ==> Letters(data)[i] as int == data[i]
    ensures Bytes(Letters(data)) == data
  {}

  /** The answer as the relay sees it; a number has no length, and asking for it ends the process. */
  function AsReply(call: Call): Option<Relay.HookReply> {
    match call
    case Threw(_) => Some(Relay.Raised)
    case Returned(Str(s)) => Some(Relay.Reply(Bytes(s)))
    case Returned(v) => if IsString(v) then None else Some(Relay.NotString)
  }

  /** Calls the function on top with the context, the data and the direction, which never varies; its result or its error message takes its place. */
  method CallWithData(L: State, data: seq<Relay.Byte>, script: Script) returns (call: Call)
    requires |L.stack| > 0
    modifies L`stack
    ensures call == script([User, Str(Letters(data)), Int(0)])
    ensures |L.stack| == |old(L.stack)| && L.stack[..|L.stack| - 1] == old(L.stack)[..|L.stack| - 1]
    ensures call.Returned? ==> L.stack[|L.stack| - 1] == call.result
  {
    hide Letters;
    L.Push(User);
    L.Push(Str(Letters(data)));
    L.Push(Int(0));
    assert L.stack[|L.stack| - 3..] == [User, Str(Letters(data)), Int(0)];
    call := ProtectedCall(L, 3, 1, script);
  }

  /** The call passes the data on as it is. */
  predicate PassesOn(call: Call) { call.Threw? || call == Returned(Str("")) }

  /**
   The on_data hook: nothing when the process ends, and otherwise what passes. The process ends exactly on
   a number; the data is dropped exactly on an answer that is no string or too long; it passes unchanged
   without a hook, on an error and on the empty string; any other string replaces it byte for byte.
   */
  method OnData(L: State, data: seq<Relay.Byte>, script: Script) returns (out: Option<Option<seq<Relay.Byte>>>)
    requires |L.stack| > 0
    modifies L`stack
    ensures out.Some? ==> L.stack == old(L.stack)
    ensures var hook, call := HasHook(L.heap, old(L.stack)[0], "on_data"), script([User, Str(Letters(data)), Int(0)]);
            && (out == None <==> hook && call.Returned? && (call.result.Int? || call.result.Num?))
            && (out == Some(None) <==>
                  && hook && call.Returned? && !call.result.Int? && !call.result.Num?
                  && (call.result.Str? ==> |call.result.s| > 1024))
            && (!hook || PassesOn(call) ==> out == Some(Some(data)))
            && (hook && call.Returned? && call.result.Str? && 0 < |call.result.s| <= 1024 ==>
                  && out.Some? && out.value.Some? && |out.value.value| == |call.result.s|
                  && forall i :: 0 <= i < |call.result.s| ==> out.value.value[i] == call.result.s[i] as int % 256)
            && (out.Some? ==> out.value == Relay.HookOutput(data, if hook then AsReply(call).value else Relay.Absent))
  {
    var found := PushHook(L, "on_data");
    NoAnswer(data);
    if !found { return Some(Some(data)); }
    hide Letters, Bytes, Relay.HookOutput;
    var call := CallWithData(L, data, script);
    if call.Threw? {
      L.Pop(2);
      return Some(Some(data));
    }
    out := Judge(L.stack[|L.stack| - 1], data);
    if out.Some? { L.Pop(2); }
  }

  lemma NoAnswer(data: seq<Relay.Byte>)
    ensures Relay.HookOutput(data, Relay.Absent) == Relay.HookOutput(data, Relay.Raised) == Some(data)
  {}

  /** The rule for what the script returned. */
  method Judge(v: Value, data: seq<Relay.Byte>) returns (out: Option<Option<seq<Relay.Byte>>>)
    ensures out == None <==> v.Int? || v.Num?
    ensures out == Some(None) <==> !v.Int? && !v.Num? && (v.Str? ==> |v.s| > 1024)
    ensures v == Str("") ==> out == Some(Some(data))
    ensures v.Str? && 0 < |v.s| <= 1024 ==>
              && out.Some? && out.value.Some? && |out.value.value| == |v.s|
              && forall i :: 0 <= i < |v.s| ==> out.value.value[i] == v.s[i] as int % 256
    ensures out.Some? ==> AsReply(Returned(v)).Some? && out.value == Relay.HookOutput(data, AsReply(Returned(v)).value)
  {
    if IsString(v) {
      if !v.Str? { return None; }
      var bytes := Bytes(v.s);
      if |bytes| == 0 { return Some(Some(data)); }
      if |bytes| <= Relay.BUFFER_SIZE { return Some(Some(bytes)); }
    }
    return Some(None);
  }
}

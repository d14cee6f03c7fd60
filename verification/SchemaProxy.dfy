/**
 The proxy's own schema, and what validation buys the server: the mode it reads from a
 validated configuration is an index into its table of handlers, and the port is a port.
 */
module SchemaProxy {
  import opened Wrappers
  import opened Lua
  import opened LuaSchema
  import opened LuaConf

  const MODE_COUNT: int := 3
  const PORT_MAX: int := 65535

  function InRange(lo: int, hi: int): Option<Checked -> bool> {
    Some((c: Checked) => c.AnInt? && lo <= c.i <= hi)
  }

  function Plain(key: string, kind: Type): Node { Node(key, kind, false, None, Leaf) }

  function Table(key: string, nodes: seq<Node>): Node { Node(key, CTable, false, None, Below(nodes)) }

  function ListenSchema(): seq<Node> {
    [Node("mode", CInt, false, InRange(0, MODE_COUNT - 1), Leaf),
     Node("port", CInt, false, InRange(1, PORT_MAX), Leaf),
     Plain("address", CString)]
  }

  function LoggingSchema(): seq<Node> {
    [Plain("level", CInt), Plain("format", CInt), Plain("file_path", CString),
     Table("out", [Plain("file", CBool), Plain("stdout", CBool), Plain("syslog", CBool)])]
  }

  function SysSchema(): seq<Node> {
    [Plain("name", CString), Plain("user", CString), Plain("group", CString), Plain("chroot", CString),
     Table("logging", LoggingSchema())]
  }

  function ConnSchema(): seq<Node> {
    [Table("limit", [Plain("max_total", CInt), Plain("max_per_src", CInt)]),
     Table("timeout", [Plain("connect_ms", CInt), Plain("idle_ms", CInt), Plain("lifetime_ms", CInt)]),
     Table("retries", [Plain("enable", CBool), Plain("max", CInt), Plain("backoff_ms", CInt)])]
  }

  function TransportSchema(): seq<Node> {
    [Table("keepalive", [Plain("enable", CBool), Plain("idle_ms", CInt), Plain("interval_ms", CInt), Plain("count", CInt)]),
     Plain("nodelay", CBool), Plain("reset_on_violation", CBool)]
  }

  function TelemetrySchema(): seq<Node> {
    [Plain("enable", CBool),
     Table("metrics", [Plain("per_src", CBool), Plain("per_dst", CBool)]),
     Table("log", [Plain("src_ip", CBool), Plain("src_port", CBool), Plain("dst_ip", CBool), Plain("dst_port", CBool),
                   Plain("bytes_in", CBool), Plain("bytes_out", CBool), Plain("duration", CBool), Plain("err", CBool)])]
  }

  function TcpSchema(): seq<Node> {
    [Table("listen", ListenSchema()),
     Node("orig_dst", CInt, false, InRange(0, 2), Leaf),
     Table("forward", [Plain("upstreams", CTable), Plain("upstreams_count", CInt),
                       Node("failure_policy", CInt, false, InRange(0, 2), Leaf)]),
     Table("conn", ConnSchema()),
     Node("backpresure", CInt, false, InRange(0, 1), Leaf),
     Table("transport", TransportSchema()),
     Table("telemetry", TelemetrySchema())]
  }

  function RootSchema(): seq<Node> {
    [Table("sys", SysSchema()), Table("tcp", TcpSchema()),
     Table("hooks", [Plain("on_connect", CFunction), Plain("on_data", CFunction), Plain("on_disconnect", CFunction)])]
  }

  /** A field of a conforming table is as its node says. */
  lemma FieldConforms(r: Rules, h: Heap, nodes: seq<Node>, v: Value, i: nat)
    requires Conforms(r, h, nodes, v) && i < |nodes|
    ensures FieldOk(r, h, nodes[i], Field(h, v.id, nodes[i].key))
  {}

  /** The tables the server reads from are there and conform to their own part of the schema. */
  lemma ServerTables(r: Rules, h: Heap, root: Value)
    requires Conforms(r, h, RootSchema(), root)
    ensures var listen := Walk(h, root, ["tcp", "listen"]);
            listen.Some? && Conforms(r, h, ListenSchema(), listen.value)
    ensures var telemetry := Walk(h, root, ["tcp", "telemetry"]);
            telemetry.Some? && Conforms(r, h, TelemetrySchema(), telemetry.value)
  {
    hide FieldsOk, SysSchema, ListenSchema, ConnSchema, TransportSchema, TelemetrySchema;
    FieldConforms(r, h, RootSchema(), root, 1);
    var tcp := Field(h, root.id, "tcp");
    assert RootSchema()[1] == Table("tcp", TcpSchema());
    FieldConforms(r, h, TcpSchema(), tcp, 0);
    FieldConforms(r, h, TcpSchema(), tcp, 6);
    assert TcpSchema()[0] == Table("listen", ListenSchema());
    assert TcpSchema()[6] == Table("telemetry", TelemetrySchema());
    TwoSteps(h, root, "tcp", "listen");
    TwoSteps(h, root, "tcp", "telemetry");
  }

  lemma TwoSteps(h: Heap, root: Value, a: string, b: string)
    requires root.Tab? && Field(h, root.id, a).Tab?
    ensures Walk(h, root, [a, b]) == Some(Field(h, Field(h, root.id, a).id, b))
  {
    var t := Field(h, root.id, a);
    assert [a, b][1..] == [b] && [b][1..] == [];
    assert Walk(h, t, [b]) == Walk(h, Field(h, t.id, b), []);
  }

  const MODE := "tcp.listen.mode"
  const PORT := "tcp.listen.port"
  const TELEMETRY := "tcp.telemetry.enable"

  /** A path of three plain segments. */
  lemma ThreeSegments(a: string, b: string, c: string)
    requires |a| > 0 && |b| > 0 && |c| > 0 && '.' !in a && '.' !in b && '.' !in c
    ensures var path := a + ['.'] + b + ['.'] + c;
            && Tokens(path) == [a, b] + [c] && Parent(path) == a + ['.'] + b && Key(path) == c
            && Tokens(a + ['.'] + b) == [a, b]
  {
    hide Segments, KeyStart;
    OneSegment(a, []);
    OneSegment(b, []);
    OneSegment(c, []);
    SegmentsSplit(a, b, []);
    SegmentsSplit(a + ['.'] + b, c, []);
    PathParts(a + ['.'] + b, c);
    assert [] + a == a && [] + b == b && [] + c == c;
  }

  lemma ServerPaths()
    ensures Tokens(MODE) == ["tcp", "listen"] + ["mode"] && Key(MODE) == "mode" && Tokens(Parent(MODE)) == ["tcp", "listen"]
    ensures Tokens(PORT) == ["tcp", "listen"] + ["port"] && Key(PORT) == "port" && Tokens(Parent(PORT)) == ["tcp", "listen"]
    ensures Tokens(TELEMETRY) == ["tcp", "telemetry"] + ["enable"] && Key(TELEMETRY) == "enable"
    ensures Tokens(Parent(TELEMETRY)) == ["tcp", "telemetry"]
  {
    hide Tokens, Parent, Key;
    ThreeSegments("tcp", "listen", "mode");
    ThreeSegments("tcp", "listen", "port");
    ThreeSegments("tcp", "telemetry", "enable");
    assert "tcp" + ['.'] + "listen" + ['.'] + "mode" == MODE;
    assert "tcp" + ['.'] + "listen" + ['.'] + "port" == PORT;
    assert "tcp" + ['.'] + "telemetry" + ['.'] + "enable" == TELEMETRY;
  }

  /**
   From a validated configuration the server reads a mode below the number of handlers and a
   port that fits sixteen bits, whenever it reads one at all.
   */
  lemma ValidatedListenIsInRange(r: Rules, h: Heap, root: Value)
    requires Conforms(r, h, RootSchema(), root)
    ensures var mode := Get(r.numeral, h, root, MODE, CInt);
            mode.Got? ==> mode.value.OfInt? && 0 <= mode.value.i < MODE_COUNT
    ensures var port := Get(r.numeral, h, root, PORT, CInt);
            port.Got? ==> port.value.OfInt? && 0 < port.value.i <= PORT_MAX
  {
    hide FieldsOk, RootSchema, TelemetrySchema, Tokens, Segments;
    ServerTables(r, h, root);
    ServerPaths();
    var listen := Walk(h, root, ["tcp", "listen"]).value;
    WalkAppend(h, root, ["tcp", "listen"], ["mode"]);
    WalkAppend(h, root, ["tcp", "listen"], ["port"]);
    FieldConforms(r, h, ListenSchema(), listen, 0);
    FieldConforms(r, h, ListenSchema(), listen, 1);
    assert Walk(h, listen, ["mode"]) == Some(Field(h, listen.id, "mode"));
    assert Walk(h, listen, ["port"]) == Some(Field(h, listen.id, "port"));
  }

  /** Which integers the five validated fields accept. */
  lemma RangesExactly(r: Rules, h: Heap, i: int)
    requires -TWO_53 < i < TWO_53
    ensures FieldOk(r, h, ListenSchema()[0], Int(i)) <==> i in {0, 1, 2}
    ensures FieldOk(r, h, ListenSchema()[1], Int(i)) <==> 0 < i < 65536
    ensures FieldOk(r, h, TcpSchema()[1], Int(i)) <==> i in {0, 1, 2}
    ensures TcpSchema()[2].child.Below? && FieldOk(r, h, TcpSchema()[2].child.nodes[2], Int(i)) <==> i in {0, 1, 2}
    ensures FieldOk(r, h, TcpSchema()[4], Int(i)) <==> i in {0, 1}
  {
    hide ConnSchema, TransportSchema, TelemetrySchema;
    ToDoubleExactly(i);
    TruncateExactly(i as real, i);
  }

  /** What the main program writes into the configuration before it starts the server. */
  function Overridden(h: Heap, root: Value, port: int, debug: bool, mode: int): Heap {
    Set(Set(Set(h, root, PORT, OfInt(port)), root, TELEMETRY, OfBool(debug)), root, MODE, OfInt(mode))
  }

  /** On a validated, tree-shaped configuration the server reads exactly the port, telemetry and mode of the command line. */
  lemma CommandLineReachesServer(r: Rules, h: Heap, root: Value, port: int, debug: bool, mode: int)
    requires Conforms(r, h, RootSchema(), root) && TreeShaped(h, root)
    requires 0 < port <= PORT_MAX && 0 <= mode < MODE_COUNT
    ensures var h3 := Overridden(h, root, port, debug, mode);
            && Get(r.numeral, h3, root, PORT, CInt) == Got(OfInt(port))
            && Get(r.numeral, h3, root, TELEMETRY, CBool) == Got(OfBool(debug))
            && Get(r.numeral, h3, root, MODE, CInt) == Got(OfInt(mode))
  {
    hide Conforms, RootSchema, ListenSchema, TelemetrySchema, Get, Set, TreeShaped, Tokens, Segments, Parent, Key;
    ServerPaths();
    ServerTargets(r, h, root);
    ToDoubleExactly(port);
    ToDoubleExactly(mode);
    PathsApart();
    var h1 := Set(h, root, PORT, OfInt(port));
    RoundTripOnTrees(r.numeral, h, root, PORT, OfInt(port));
    SetKeepsTree(h, root, PORT, OfInt(port));
    TargetKept(h, root, PORT, OfInt(port), TELEMETRY);
    TargetKept(h, root, PORT, OfInt(port), MODE);
    var h2 := Set(h1, root, TELEMETRY, OfBool(debug));
    RoundTripOnTrees(r.numeral, h1, root, TELEMETRY, OfBool(debug));
    SetKeepsTree(h1, root, TELEMETRY, OfBool(debug));
    TargetKept(h1, root, TELEMETRY, OfBool(debug), MODE);
    OtherPathsUnchanged(r.numeral, h1, root, TELEMETRY, OfBool(debug), PORT, CInt);
    RoundTripOnTrees(r.numeral, h2, root, MODE, OfInt(mode));
    OtherPathsUnchanged(r.numeral, h2, root, MODE, OfInt(mode), PORT, CInt);
    OtherPathsUnchanged(r.numeral, h2, root, MODE, OfInt(mode), TELEMETRY, CBool);
  }

  lemma ServerTargets(r: Rules, h: Heap, root: Value)
    requires Conforms(r, h, RootSchema(), root)
    ensures Target(h, root, PORT).Some? && Target(h, root, TELEMETRY).Some? && Target(h, root, MODE).Some?
  {
    hide FieldsOk, RootSchema, ListenSchema, TelemetrySchema, Tokens, Parent;
    ServerTables(r, h, root);
    ServerPaths();
  }

  /** None of the three paths, nor the way to one, goes through another. */
  lemma PathsApart()
    ensures !(Tokens(PORT) <= Tokens(Parent(TELEMETRY))) && !(Tokens(PORT) <= Tokens(Parent(MODE)))
    ensures !(Tokens(TELEMETRY) <= Tokens(Parent(MODE))) && !(Tokens(TELEMETRY) <= Tokens(PORT))
    ensures !(Tokens(MODE) <= Tokens(PORT)) && !(Tokens(MODE) <= Tokens(TELEMETRY))
  {
    hide Tokens, Parent, Key;
    ServerPaths();
    assert Tokens(PORT)[2] == "port" && Tokens(MODE)[2] == "mode" && Tokens(TELEMETRY)[1] == "telemetry";
    assert "port" != "mode" && "telemetry" != "listen" by {
      assert "port"[0] != "mode"[0] && "telemetry"[0] != "listen"[0];
    }
  }
}

/** The spellings the documentation calls equivalent, proved equivalent. */
module ArgsTheorems {
  import opened Wrappers
  import opened Args
  import opened ArgsMeaning

  /** Cutting `argv` up, the loop is about to read position `k`. */
  ghost predicate LoopHead(specs: Specs, argv: seq<string>, k: nat)
    requires k <= |argv|
    decreases |argv|
  {
    k == 0 || (|argv| > 0 && Width(NextItem(specs, argv)) <= k
               && (NextItemFits(specs, argv);
                   LoopHead(specs, argv[Width(NextItem(specs, argv))..], k - Width(NextItem(specs, argv)))))
  }

  /** Two tokenizations say the same: the entries up to the quoted argument, the positionals exactly. */
  ghost predicate SameTokens(a: seq<Item>, b: seq<Item>) {
    SameEntries(Entries(a), Entries(b)) && Positionals(a) == Positionals(b)
  }

  lemma {:induction false} EntriesAppend(a: seq<Item>, b: seq<Item>)
    ensures Entries(a + b) == Entries(a) + Entries(b)
    ensures Positionals(a + b) == Positionals(a) + Positionals(b)
    decreases |a|
  {
    if |a| == 0 {
      assert a + b == b;
    } else {
      hide Entries, Positionals;
      var front, tail := a[0], a[1..];
      assert a == [front] + tail && a + b == [front] + (tail + b);
      EntriesAppend(tail, b);
      EntriesCons(front, tail);
      EntriesCons(front, tail + b);
    }
  }

  lemma EntriesCons(item: Item, items: seq<Item>)
    ensures Entries([item] + items) == (if item.Options? then item.entries else []) + Entries(items)
    ensures Positionals([item] + items) == (if item.Positional? then [item.arg] else []) + Positionals(items)
  {
    assert ([item] + items)[1..] == items;
  }

  /** An item depends on its own arguments only, and on whether any argument follows. */
  lemma NextItemLocal(specs: Specs, u: seq<string>, v: seq<string>)
    requires |u| > 0 && |v| > 0 && u[0] == v[0] && (|u| > 1 <==> |v| > 1)
    requires Width(NextItem(specs, u)) == 1 || (|v| > 1 && u[1] == v[1])
    ensures NextItem(specs, v) == NextItem(specs, u)
  {
    var arg := u[0];
    if |u| > 1 && |arg| > 1 && arg[0] == '-' && arg[1] != '-' {
      ShortItemLocal(specs, arg, arg[1..], u[1], v[1]);
    }
  }

  lemma ShortItemLocal(specs: Specs, arg: string, letters: string, x: string, y: string)
    requires ShortItem(specs, arg, letters, Some(x)).detached.None? || x == y
    ensures ShortItem(specs, arg, letters, Some(y)) == ShortItem(specs, arg, letters, Some(x))
    decreases |letters|
  {
    hide Find;
    if |letters| > 0 && IsFlag(specs, ShortName(letters[0])) {
      ShortItemLocal(specs, arg, letters[1..], x, y);
    }
  }

  lemma UnfoldItems(specs: Specs, argv: seq<string>)
    requires |argv| > 0
    ensures var w := Width(NextItem(specs, argv));
            1 <= w <= 2 && w <= |argv| && Items(specs, argv) == [NextItem(specs, argv)] + Items(specs, argv[w..])
  {
    NextItemFits(specs, argv);
  }

  /** Everything before a loop head is cut up the same, whatever follows it. */
  lemma {:induction false} Splice(specs: Specs, pre: seq<string>, x: seq<string>, y: seq<string>) returns (items: seq<Item>)
    requires |x| > 0 && |y| > 0 && LoopHead(specs, pre + x, |pre|)
    ensures Items(specs, pre + x) == items + Items(specs, x)
    ensures Items(specs, pre + y) == items + Items(specs, y)
    decreases |pre|
  {
    hide NextItem, Items, Width;
    if |pre| == 0 {
      items := [];
      assert pre + x == x && pre + y == y;
    } else {
      var item := NextItem(specs, pre + x);
      var w := Width(item);
      UnfoldItems(specs, pre + x);
      UnfoldItems(specs, pre + y);
      assert 0 < w <= |pre|;
      assert (pre + x)[w..] == pre[w..] + x && (pre + y)[w..] == pre[w..] + y;
      NextItemLocal(specs, pre + x, pre + y);
      var tail := Splice(specs, pre[w..], x, y);
      items := [item] + tail;
    }
  }

  /** Replacing what stands at a loop head by something that says the same changes neither tokens nor outcome. */
  lemma SameInContext(specs: Specs, nums: Numerals, pre: seq<string>, x: seq<string>, y: seq<string>)
    requires |x| > 0 && |y| > 0 && LoopHead(specs, pre + x, |pre|)
    requires SameTokens(Items(specs, x), Items(specs, y))
    ensures var a, b := Items(specs, pre + x), Items(specs, pre + y);
            && SameTokens(a, b)
            && Plainly(Finish(specs, nums, Entries(a))) == Plainly(Finish(specs, nums, Entries(b)))
  {
    hide Items, Finish, LoopHead;
    var items := Splice(specs, pre, x, y);
    EntriesAppend(items, Items(specs, x));
    EntriesAppend(items, Items(specs, y));
    FinishSame(specs, nums, Entries(Items(specs, pre + x)), Entries(Items(specs, pre + y)));
  }

  // ---------------------------------------------------------------- long options

  lemma IndexOfFirst(s: string, c: char, t: string)
    requires forall i :: 0 <= i < |s| ==> s[i] != c
    ensures IndexOf(s, c) == |s|
    ensures IndexOf(s + [c] + t, c) == |s|
  {
    var u := s + [c] + t;
    assert u[|s|] == c;
    assert forall i :: 0 <= i < |s| ==> u[i] == s[i];
  }

  lemma LongJoined(specs: Specs, name: string, v: string, rest: seq<string>)
    requires forall i :: 0 <= i < |name| ==> name[i] != '='
    ensures var arg := "--" + name + "=" + v;
            Items(specs, [arg] + rest)
              == [Options(arg, [Entry(LongName(name), arg, Some(v))], None)] + Items(specs, rest)
  {
    var arg := "--" + name + "=" + v;
    IndexOfFirst(name, '=', v);
    assert arg[2..] == name + ['='] + v;
    assert arg[2..][..|name|] == name && arg[2..][|name| + 1..] == v;
    var argv := [arg] + rest;
    assert NextItem(specs, argv) == Options(arg, [Entry(LongName(name), arg, Some(v))], None);
    assert argv[1..] == rest;
  }

  lemma LongSeparate(specs: Specs, name: string, v: string, rest: seq<string>)
    requires forall i :: 0 <= i < |name| ==> name[i] != '='
    ensures var arg := "--" + name;
            Items(specs, [arg, v] + rest)
              == if TakesValue(specs, LongName(name))
                 then [Options(arg, [Entry(LongName(name), arg, Some(v))], Some(v))] + Items(specs, rest)
                 else [Options(arg, [Entry(LongName(name), arg, None)], None)] + Items(specs, [v] + rest)
  {
    hide Find;
    var arg := "--" + name;
    IndexOfFirst(name, '=', v);
    assert arg[2..] == name && name[..|name|] == name;
    var argv := [arg, v] + rest;
    assert argv[1..] == [v] + rest && argv[2..] == rest;
  }

  /**
   `--name=value` and `--name value` are the same tokens exactly when the name resolves
   to an option that takes a value, whatever the value looks like.
   */
  lemma LongFormsAgreeExactly(specs: Specs, name: string, v: string, rest: seq<string>)
    requires forall i :: 0 <= i < |name| ==> name[i] != '='
    ensures SameTokens(Items(specs, ["--" + name + "=" + v] + rest), Items(specs, ["--" + name, v] + rest))
            <==> TakesValue(specs, LongName(name))
  {
    hide Items, TakesValue, Entries, Positionals;
    LongJoined(specs, name, v, rest);
    LongSeparate(specs, name, v, rest);
    var n, joined, arg := LongName(name), "--" + name + "=" + v, "--" + name;
    EntriesCons(Options(joined, [Entry(n, joined, Some(v))], None), Items(specs, rest));
    if TakesValue(specs, n) {
      EntriesCons(Options(arg, [Entry(n, arg, Some(v))], Some(v)), Items(specs, rest));
    } else {
      EntriesCons(Options(arg, [Entry(n, arg, None)], None), Items(specs, [v] + rest));
      var a, b := Items(specs, [joined] + rest), Items(specs, [arg, v] + rest);
      assert !SameEntry(Entries(a)[0], Entries(b)[0]);
    }
  }

  // ---------------------------------------------------------------- stacked short options

  ghost predicate AllFlags(specs: Specs, flags: string) {
    forall i :: 0 <= i < |flags| ==> IsFlag(specs, ShortName(flags[i]))
  }

  /** `-a -b -c` for the letters `abc`. */
  function Separately(letters: string): seq<string> {
    seq(|letters|, i requires 0 <= i < |letters| => ['-', letters[i]])
  }

  function FlagEntries(flags: string, arg: string): seq<Entry> {
    seq(|flags|, i requires 0 <= i < |flags| => Entry(ShortName(flags[i]), arg, None))
  }

  function NextArg(rest: seq<string>): Option<string> { if |rest| > 0 then Some(rest[0]) else None }

  /** What an item leaves of the arguments behind its own. */
  function LeftOver(item: Item, rest: seq<string>): seq<string> {
    if Width(item) == 2 && |rest| > 0 then rest[1..] else rest
  }

  lemma ShortNameIsNoDash(specs: Specs, letter: char)
    requires WellNamed(specs) && Find(specs, ShortName(letter)).Some?
    ensures letter != '-'
  {}

  /** An argument of letters is the item of its letters, followed by the items of what is left. */
  lemma LettersFirst(specs: Specs, letters: string, rest: seq<string>)
    requires |letters| > 0 && letters[0] != '-'
    ensures var item := ShortItem(specs, "-" + letters, letters, NextArg(rest));
            Items(specs, ["-" + letters] + rest) == [item] + Items(specs, LeftOver(item, rest))
  {
    hide ShortItem, Items;
    var arg := "-" + letters;
    var argv := [arg] + rest;
    assert arg[1..] == letters;
    UnfoldItems(specs, argv);
    assert argv[1..] == rest;
    if |rest| > 0 { assert argv[2..] == rest[1..]; }
  }

  /** Flags at the front of a run of letters are entries of their own. */
  lemma {:induction false} FlagsFirst(specs: Specs, arg: string, flags: string, letters: string, next: Option<string>)
    requires AllFlags(specs, flags)
    ensures var tail := ShortItem(specs, arg, letters, next);
            ShortItem(specs, arg, flags + letters, next) == Options(arg, FlagEntries(flags, arg) + tail.entries, tail.detached)
    decreases |flags|
  {
    hide ShortItem, IsFlag;
    if |flags| == 0 {
      assert flags + letters == letters;
    } else {
      var all := flags + letters;
      assert all[0] == flags[0] && all[1..] == flags[1..] + letters;
      FlagStep(specs, arg, all, next);
      FlagsFirst(specs, arg, flags[1..], letters, next);
      assert FlagEntries(flags, arg) == [Entry(ShortName(flags[0]), arg, None)] + FlagEntries(flags[1..], arg);
    }
  }

  /** Flags written apart are the same entries. */
  lemma {:induction false} FlagsApart(specs: Specs, flags: string, arg: string, argv: seq<string>)
    requires WellNamed(specs) && AllFlags(specs, flags)
    ensures var b := Items(specs, Separately(flags) + argv);
            && SameEntries(FlagEntries(flags, arg) + Entries(Items(specs, argv)), Entries(b))
            && Positionals(b) == Positionals(Items(specs, argv))
    decreases |flags|
  {
    hide Items, IsFlag, Entries, Positionals;
    if |flags| == 0 {
      assert Separately(flags) + argv == argv;
    } else {
      var tail := Separately(flags[1..]) + argv;
      assert Separately(flags) + argv == [['-', flags[0]]] + tail;
      LoneFlag(specs, flags[0], tail);
      FlagsApart(specs, flags[1..], arg, argv);
      EntriesCons(Options(['-', flags[0]], [Entry(ShortName(flags[0]), ['-', flags[0]], None)], None), Items(specs, tail));
      assert FlagEntries(flags, arg) == [Entry(ShortName(flags[0]), arg, None)] + FlagEntries(flags[1..], arg);
    }
  }

  lemma LoneFlag(specs: Specs, letter: char, rest: seq<string>)
    requires WellNamed(specs) && IsFlag(specs, ShortName(letter))
    ensures var arg := ['-', letter];
            Items(specs, [arg] + rest) == [Options(arg, [Entry(ShortName(letter), arg, None)], None)] + Items(specs, rest)
  {
    hide Find, Items;
    ShortNameIsNoDash(specs, letter);
    LettersFirst(specs, [letter], rest);
    var arg := ['-', letter];
    assert "-" + [letter] == arg;
    assert ShortItem(specs, arg, [letter][1..], NextArg(rest)) == Options(arg, [], None);
    assert ShortItem(specs, arg, [letter], NextArg(rest)) == Options(arg, [Entry(ShortName(letter), arg, None)], None);
  }

  /** The letters' entries do not depend on the argument they quote. */
  lemma {:induction false} QuotingAside(specs: Specs, arg: string, other: string, letters: string, next: Option<string>)
    ensures var x, y := ShortItem(specs, arg, letters, next), ShortItem(specs, other, letters, next);
            SameEntries(x.entries, y.entries) && x.detached == y.detached
    decreases |letters|
  {
    hide Find;
    if |letters| > 0 { QuotingAside(specs, arg, other, letters[1..], next); }
  }

  /** The flags at the front of a stack: what they and the rest of the stack come to. */
  lemma StackTokens(specs: Specs, flags: string, letters: string, rest: seq<string>)
    requires WellNamed(specs) && AllFlags(specs, flags) && |letters| > 0 && letters[0] != '-'
    ensures var a, b := Items(specs, ["-" + (flags + letters)] + rest), Items(specs, ["-" + letters] + rest);
            && SameEntries(Entries(a), FlagEntries(flags, "") + Entries(b))
            && Positionals(a) == Positionals(b)
  {
    hide Items, Entries, Positionals, ShortItem, IsFlag;
    var all, next := flags + letters, NextArg(rest);
    var arg := "-" + all;
    if |flags| > 0 { FlagIsNoDash(specs, flags[0]); }
    LettersFirst(specs, all, rest);
    LettersFirst(specs, letters, rest);
    FlagsFirst(specs, arg, flags, letters, next);
    QuotingAside(specs, arg, "-" + letters, letters, next);
    var x, y := ShortItem(specs, arg, all, next), ShortItem(specs, "-" + letters, letters, next);
    assert LeftOver(x, rest) == LeftOver(y, rest);
    EntriesCons(x, Items(specs, LeftOver(x, rest)));
    EntriesCons(y, Items(specs, LeftOver(y, rest)));
  }

  lemma FlagIsNoDash(specs: Specs, letter: char)
    requires WellNamed(specs) && IsFlag(specs, ShortName(letter))
    ensures letter != '-'
  {
    ShortNameIsNoDash(specs, letter);
  }

  /**
   `-abcx` and `-a -b -c -x` are the same tokens, for any number of flags `abc` and whatever `x` is,
   the value attached to it or standing behind it included.
   */
  lemma StackSplits(specs: Specs, flags: string, letters: string, rest: seq<string>)
    requires WellNamed(specs) && AllFlags(specs, flags) && |letters| > 0 && letters[0] != '-'
    ensures SameTokens(Items(specs, ["-" + (flags + letters)] + rest),
                       Items(specs, Separately(flags) + (["-" + letters] + rest)))
  {
    hide Items, Entries, Positionals, AllFlags;
    StackTokens(specs, flags, letters, rest);
    FlagsApart(specs, flags, "", ["-" + letters] + rest);
  }

  // ---------------------------------------------------------------- a letter and its value

  lemma LoneOption(specs: Specs, c: char, v: string, rest: seq<string>)
    requires c != '-' && !IsFlag(specs, ShortName(c))
    ensures Items(specs, ["-" + [c]] + ([v] + rest))
            == [Options("-" + [c], [Entry(ShortName(c), "-" + [c], Some(v))], Some(v))] + Items(specs, rest)
    ensures |v| > 0 ==>
              Items(specs, ["-" + ([c] + v)] + rest)
              == [Options("-" + ([c] + v), [Entry(ShortName(c), "-" + ([c] + v), Some(v))], None)] + Items(specs, rest)
  {
    hide Items, IsFlag;
    LettersFirst(specs, [c], [v] + rest);
    assert ([v] + rest)[1..] == rest;
    LettersFirst(specs, [c] + v, rest);
    assert ([c] + v)[1..] == v;
  }

  /** Attached and detached values are the same tokens. */
  lemma ValueAttaches(specs: Specs, c: char, v: string, rest: seq<string>)
    requires c != '-' && !IsFlag(specs, ShortName(c)) && |v| > 0
    ensures SameTokens(Items(specs, ["-" + ([c] + v)] + rest), Items(specs, ["-" + [c]] + ([v] + rest)))
  {
    hide Items, IsFlag, Entries, Positionals;
    LoneOption(specs, c, v, rest);
    EntriesCons(Options("-" + [c], [Entry(ShortName(c), "-" + [c], Some(v))], Some(v)), Items(specs, rest));
    EntriesCons(Options("-" + ([c] + v), [Entry(ShortName(c), "-" + ([c] + v), Some(v))], None), Items(specs, rest));
  }

  /** An empty value cannot be attached: the option takes the next argument instead, or none. */
  lemma EmptyValueDiffers(specs: Specs, c: char, rest: seq<string>)
    requires c != '-' && !IsFlag(specs, ShortName(c))
    ensures !SameTokens(Items(specs, ["-" + [c]] + rest), Items(specs, ["-" + [c]] + ([""] + rest)))
  {
    hide Items, IsFlag, Entries, Positionals;
    var arg, a, b := "-" + [c], Items(specs, ["-" + [c]] + rest), Items(specs, ["-" + [c]] + ([""] + rest));
    LoneOption(specs, c, "", rest);
    EntriesCons(Options(arg, [Entry(ShortName(c), arg, Some(""))], Some("")), Items(specs, rest));
    LettersFirst(specs, [c], rest);
    var item := ShortItem(specs, arg, [c], NextArg(rest));
    EntriesCons(item, Items(specs, LeftOver(item, rest)));
    if SameTokens(a, b) {
      assert SameEntry(Entries(a)[0], Entries(b)[0]);
      assert rest == [""] + rest[1..];
      EmptyIsPositional(specs, rest[1..]);
    }
  }

  lemma EmptyIsPositional(specs: Specs, rest: seq<string>)
    ensures |Positionals(Items(specs, [""] + rest))| == 1 + |Positionals(Items(specs, rest))|
  {
    hide Items, Positionals;
    PositionalFirst(specs, "", rest);
  }

  lemma PositionalFirst(specs: Specs, v: string, rest: seq<string>)
    requires |v| <= 1 || v[0] != '-'
    ensures Entries(Items(specs, [v] + rest)) == Entries(Items(specs, rest))
    ensures Positionals(Items(specs, [v] + rest)) == [v] + Positionals(Items(specs, rest))
  {
    hide Items, Entries, Positionals;
    UnfoldItems(specs, [v] + rest);
    assert ([v] + rest)[1..] == rest;
    EntriesCons(Positional(v), Items(specs, rest));
  }

  /** Only the last entry has a value, and it is `x`. */
  ghost predicate EndsInValue(es: seq<Entry>, x: string) {
    && |es| > 0 && es[|es| - 1].value == Some(x)
    && forall k :: 0 <= k < |es| - 1 ==> es[k].value == None
  }

  lemma StillTakes(specs: Specs, u: seq<string>, v: seq<string>)
    requires |u| > 0 && |v| > 1 && u[0] == v[0] && Width(NextItem(specs, u)) == 2
    ensures Width(NextItem(specs, v)) == 2
  {
    NextItemFits(specs, u);
    if u[0][1] != '-' { ShortStillTakes(specs, u[0], u[0][1..], u[1], v[1]); }
  }

  lemma {:induction false} ShortStillTakes(specs: Specs, arg: string, letters: string, x: string, y: string)
    ensures ShortItem(specs, arg, letters, Some(x)).detached.Some? <==> ShortItem(specs, arg, letters, Some(y)).detached.Some?
    decreases |letters|
  {
    hide Find;
    if |letters| > 0 { ShortStillTakes(specs, arg, letters[1..], x, y); }
  }

  /** Comparing entries that end in the first argument with the entries of the first item. */
  lemma SameHead(specs: Specs, es: seq<Entry>, r: seq<string>)
    requires |r| > 0 && EndsInValue(es, r[0])
    requires SameEntries(es + Entries(Items(specs, r[1..])), Entries(Items(specs, r)))
    ensures |r| > 1 && r[1] == r[0] && Width(NextItem(specs, r)) == 2
    ensures SameEntries(Entries(Items(specs, r[1..])), Entries(Items(specs, r[2..])))
  {
    hide Items, Entries, Positionals, NextItem;
    var item := NextItem(specs, r);
    UnfoldItems(specs, r);
    NextItemFits(specs, r);
    NextItemOk(specs, r);
    var tail := Entries(Items(specs, r[Width(item)..]));
    EntriesCons(item, Items(specs, r[Width(item)..]));
    var left, right := es + Entries(Items(specs, r[1..])), item.entries + tail;
    assert item.Options?;
    var m, n := |item.entries|, |es|;
    var last := (if m < n then m else n) - 1;
    assert SameEntry(left[last], right[last]);
    assert m == n && Width(item) == 2;
    forall k | 0 <= k < |tail| ensures SameEntry(Entries(Items(specs, r[1..]))[k], tail[k]) {
      assert SameEntry(left[n + k], right[n + k]);
    }
  }

  /** An argument cannot be a value and also be read again behind itself: the entries would never end. */
  lemma {:induction false} NoShift(specs: Specs, es: seq<Entry>, r: seq<string>)
    requires |r| > 0 && EndsInValue(es, r[0])
    ensures !SameEntries(es + Entries(Items(specs, r[1..])), Entries(Items(specs, r)))
    decreases |r|
  {
    hide Items, Entries, NextItem, ItemOk;
    if SameEntries(es + Entries(Items(specs, r[1..])), Entries(Items(specs, r))) {
      SameHead(specs, es, r);
      Shifted(specs, r);
      if |r| > 2 {
        assert r[1..][2..] == r[2..][1..];
        NoShift(specs, NextItem(specs, r[1..]).entries, r[2..]);
      }
    }
  }

  /** The same argument again takes the argument after it. */
  lemma Shifted(specs: Specs, r: seq<string>)
    requires |r| > 1 && r[1] == r[0] && Width(NextItem(specs, r)) == 2
    ensures |r| == 2 ==> |Entries(Items(specs, r[1..]))| > 0 && Entries(Items(specs, r[2..])) == []
    ensures |r| > 2 ==>
              var item := NextItem(specs, r[1..]);
              && item.Options? && EndsInValue(item.entries, r[2])
              && Entries(Items(specs, r[1..])) == item.entries + Entries(Items(specs, r[1..][2..]))
  {
    var u := r[1..];
    assert NextItem(specs, r).Options? && NextItem(specs, u).Options?;
    UnfoldItems(specs, u);
    NextItemOk(specs, u);
    EntriesCons(NextItem(specs, u), Items(specs, u[Width(NextItem(specs, u))..]));
    if |r| > 2 {
      StillTakes(specs, r, u);
      NextItemFits(specs, u);
    }
  }

  /** What is written behind a flag is more letters when attached and an argument when not; the two never agree. */
  lemma LettersAreNoArgument(specs: Specs, arg: string, v: string, rest: seq<string>)
    requires WellNamed(specs) && EndsWith(arg, v)
    ensures var item, b := ShortItem(specs, arg, v, NextArg(rest)), Items(specs, [v] + rest);
            var a := Items(specs, LeftOver(item, rest));
            !(SameEntries(item.entries + Entries(a), Entries(b)) && Positionals(a) == Positionals(b))
  {
    hide Items, Entries, Positionals;
    var item, b := ShortItem(specs, arg, v, NextArg(rest)), Items(specs, [v] + rest);
    var a := Items(specs, LeftOver(item, rest));
    if |v| <= 1 || v[0] != '-' {
      PositionalFirst(specs, v, rest);
      if item.detached.Some? {
        ShortItemOk(specs, arg, v, NextArg(rest));
        ShortItemDetaches(specs, arg, v, NextArg(rest));
        NoShift(specs, item.entries, rest);
      }
    } else {
      DashLetter(specs, arg, v, NextArg(rest));
      DashArgument(specs, v, rest);
      assert !SameEntry((item.entries + Entries(a))[0], Entries(b)[0]);
    }
  }

  lemma DashLetter(specs: Specs, arg: string, v: string, next: Option<string>)
    requires WellNamed(specs) && |v| > 0 && v[0] == '-'
    ensures var es := ShortItem(specs, arg, v, next).entries; |es| > 0 && es[0].name == ShortName('-')
  {
    if IsFlag(specs, ShortName('-')) { FlagIsNoDash(specs, '-'); }
  }

  lemma DashArgument(specs: Specs, v: string, rest: seq<string>)
    requires |v| > 1 && v[0] == '-'
    ensures var es := Entries(Items(specs, [v] + rest)); |es| > 0 && es[0].name != ShortName('-')
  {
    hide Items, Entries, Find;
    var argv := [v] + rest;
    var item := NextItem(specs, argv);
    UnfoldItems(specs, argv);
    NextItemOk(specs, argv);
    EntriesCons(item, Items(specs, argv[Width(item)..]));
    assert item.entries[0].name != ShortName('-');
  }

  lemma FlagTakesNoValue(specs: Specs, c: char, v: string, rest: seq<string>)
    requires WellNamed(specs) && IsFlag(specs, ShortName(c))
    ensures !SameTokens(Items(specs, ["-" + ([c] + v)] + rest), Items(specs, ["-" + [c]] + ([v] + rest)))
  {
    hide Items, Entries, Positionals, ShortItem, IsFlag;
    var arg, lone, next := "-" + ([c] + v), ['-', c], NextArg(rest);
    FlagIsNoDash(specs, c);
    LettersFirst(specs, [c] + v, rest);
    FlagsFirst(specs, arg, [c], v, next);
    LoneFlag(specs, c, [v] + rest);
    assert "-" + [c] == lone && arg[|arg| - |v|..] == v;
    LettersAreNoArgument(specs, arg, v, rest);
    var item, tail := ShortItem(specs, arg, [c] + v, next), ShortItem(specs, arg, v, next);
    var behind := LeftOver(tail, rest);
    assert LeftOver(item, rest) == behind;
    EntriesCons(item, Items(specs, behind));
    EntriesCons(Options(lone, [Entry(ShortName(c), lone, None)], None), Items(specs, [v] + rest));
    var a, b := Items(specs, [arg] + rest), Items(specs, [lone] + ([v] + rest));
    var left, right := tail.entries + Entries(Items(specs, behind)), Entries(Items(specs, [v] + rest));
    assert Entries(a) == FlagEntries([c], arg) + left && Entries(b) == [Entry(ShortName(c), lone, None)] + right;
    assert Positionals(a) == Positionals(Items(specs, behind)) && Positionals(b) == Positionals(Items(specs, [v] + rest));
    SameBehind(FlagEntries([c], arg), [Entry(ShortName(c), lone, None)], left, right);
    assert !SameTokens(a, b);
  }

  /** Entries that agree behind equally many others. */
  lemma SameBehind(f: seq<Entry>, g: seq<Entry>, es: seq<Entry>, fs: seq<Entry>)
    requires SameEntries(f, g)
    ensures SameEntries(f + es, g + fs) <==> SameEntries(es, fs)
  {
    if SameEntries(f + es, g + fs) {
      forall k | 0 <= k < |es| ensures SameEntry(es[k], fs[k]) {
        assert SameEntry((f + es)[|f| + k], (g + fs)[|f| + k]);
      }
    }
  }

  /** `-cvalue` and `-c value` are the same tokens exactly when the letter is no flag and the value is not empty. */
  lemma ShortFormsAgreeExactly(specs: Specs, c: char, v: string, rest: seq<string>)
    requires WellNamed(specs) && c != '-'
    ensures SameTokens(Items(specs, ["-" + ([c] + v)] + rest), Items(specs, ["-" + [c]] + ([v] + rest)))
            <==> !IsFlag(specs, ShortName(c)) && |v| > 0
  {
    hide Items, IsFlag, SameTokens;
    if IsFlag(specs, ShortName(c)) {
      FlagTakesNoValue(specs, c, v, rest);
    } else if |v| > 0 {
      ValueAttaches(specs, c, v, rest);
    } else {
      assert [c] + v == [c] && v == "";
      EmptyValueDiffers(specs, c, rest);
    }
  }

  /** `-abcvalue` and `-a -b -c value` likewise, for any number of stacked flags `ab`. */
  lemma StackedFormsAgreeExactly(specs: Specs, flags: string, c: char, v: string, rest: seq<string>)
    requires WellNamed(specs) && AllFlags(specs, flags) && c != '-'
    ensures SameTokens(Items(specs, ["-" + (flags + ([c] + v))] + rest),
                       Items(specs, Separately(flags) + (["-" + [c]] + ([v] + rest))))
            <==> !IsFlag(specs, ShortName(c)) && |v| > 0
  {
    hide Items, IsFlag, Entries, Positionals, AllFlags;
    ShortFormsAgreeExactly(specs, c, v, rest);
    StackTokens(specs, flags, [c] + v, rest);
    FlagsApart(specs, flags, "", ["-" + [c]] + ([v] + rest));
    SameBehind(FlagEntries(flags, ""), FlagEntries(flags, ""), Entries(Items(specs, ["-" + ([c] + v)] + rest)),
               Entries(Items(specs, ["-" + [c]] + ([v] + rest))));
  }

  // ---------------------------------------------------------------- in a whole command line

  /** Anywhere the loop is about to read it, splitting a stack leads to the same outcome. */
  lemma SplittingPreservesMeaning(specs: Specs, nums: Numerals, pre: seq<string>,
                                  flags: string, letters: string, rest: seq<string>)
    requires WellNamed(specs) && AllFlags(specs, flags) && |letters| > 0 && letters[0] != '-'
    requires LoopHead(specs, pre + (["-" + (flags + letters)] + rest), |pre|)
    ensures var a, b := Items(specs, pre + (["-" + (flags + letters)] + rest)),
                        Items(specs, pre + (Separately(flags) + (["-" + letters] + rest)));
            SameTokens(a, b) && Plainly(Finish(specs, nums, Entries(a))) == Plainly(Finish(specs, nums, Entries(b)))
  {
    hide Items, LoopHead, Finish, AllFlags, SameTokens;
    StackSplits(specs, flags, letters, rest);
    SameInContext(specs, nums, pre, ["-" + (flags + letters)] + rest, Separately(flags) + (["-" + letters] + rest));
  }

  /** Likewise for a stack that ends in an option and its value. */
  lemma StackingPreservesMeaning(specs: Specs, nums: Numerals, pre: seq<string>,
                                 flags: string, c: char, v: string, rest: seq<string>)
    requires WellNamed(specs) && AllFlags(specs, flags) && c != '-' && !IsFlag(specs, ShortName(c)) && |v| > 0
    requires LoopHead(specs, pre + (["-" + (flags + ([c] + v))] + rest), |pre|)
    ensures var a, b := Items(specs, pre + (["-" + (flags + ([c] + v))] + rest)),
                        Items(specs, pre + (Separately(flags) + (["-" + [c]] + ([v] + rest))));
            SameTokens(a, b) && Plainly(Finish(specs, nums, Entries(a))) == Plainly(Finish(specs, nums, Entries(b)))
  {
    hide Items, LoopHead, Finish, AllFlags, IsFlag, SameTokens;
    StackedFormsAgreeExactly(specs, flags, c, v, rest);
    SameInContext(specs, nums, pre, ["-" + (flags + ([c] + v))] + rest,
                  Separately(flags) + (["-" + [c]] + ([v] + rest)));
  }

  /** Likewise for the two long spellings. */
  lemma LongFormPreservesMeaning(specs: Specs, nums: Numerals, pre: seq<string>, name: string, v: string, rest: seq<string>)
    requires (forall i :: 0 <= i < |name| ==> name[i] != '=') && TakesValue(specs, LongName(name))
    requires LoopHead(specs, pre + (["--" + name + "=" + v] + rest), |pre|)
    ensures var a, b := Items(specs, pre + (["--" + name + "=" + v] + rest)), Items(specs, pre + (["--" + name, v] + rest));
            SameTokens(a, b) && Plainly(Finish(specs, nums, Entries(a))) == Plainly(Finish(specs, nums, Entries(b)))
  {
    hide Items, LoopHead, Finish, TakesValue;
    LongFormsAgreeExactly(specs, name, v, rest);
    SameInContext(specs, nums, pre, ["--" + name + "=" + v] + rest, ["--" + name, v] + rest);
  }
}

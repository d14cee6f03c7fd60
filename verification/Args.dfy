/**
 The command-line parser on values: how arguments are cut into items, which option a
 name resolves to, and what the parsed entries set. `ArgsParser` is the program proved
 against it.
 */
module Args {
  import opened Wrappers

  /** What a flag does as soon as it is seen. */
  datatype FlagUse = Plain | Help | Version | EarlyExit

  datatype Kind =
    | Flag(use: FlagUse)
    | Long
    | Float
    | Text
    | EnumIndex(choices: seq<string>)
    | EnumText(choices: seq<string>)

  /** An option; `shortName` is the zero character when it has none. */
  datatype Spec = Spec(longName: string, shortName: char, required: bool, kind: Kind)

  type Specs = seq<Spec>

  datatype Name = ShortName(letter: char) | LongName(text: string)

  /** One occurrence of an option; `arg` is the argument it was written in, for messages. */
  datatype Entry = Entry(name: Name, arg: string, value: Option<string>)

  // ---------------------------------------------------------------- lookup

  /** A long name is matched as a prefix, so an abbreviation finds the first option it fits. */
  predicate Matches(o: Spec, n: Name) {
    match n
    case ShortName(letter) => o.shortName == letter
    case LongName(text) => |text| <= |o.longName| && o.longName[..|text|] == text
  }

  /** An option goes by its letter, and by every text its long name starts with. */
  ghost predicate GoesBy(o: Spec, n: Name) {
    match n
    case ShortName(letter) => letter == o.shortName
    case LongName(text) => text <= o.longName
  }

  /** The first option that matches. */
  function Find(specs: Specs, n: Name): (r: Option<nat>)
    ensures r.Some? ==> r.value < |specs| && GoesBy(specs[r.value], n)
    ensures r.Some? ==> forall j :: 0 <= j < r.value ==> !GoesBy(specs[j], n)
    ensures r.None? ==> forall j :: 0 <= j < |specs| ==> !GoesBy(specs[j], n)
  {
    if |specs| == 0 then None
    else if Matches(specs[0], n) then Some(0)
    else
      var r := Find(specs[1..], n);
      if r.Some? then assert specs[1..][r.value] == specs[r.value + 1]; Some(r.value + 1)
      else assert forall j :: 1 <= j < |specs| ==> specs[j] == specs[1..][j - 1]; None
  }

  predicate IsFlag(specs: Specs, n: Name) {
    var r := Find(specs, n);
    r.Some? && specs[r.value].kind.Flag?
  }

  /** A known option that takes a value. */
  predicate TakesValue(specs: Specs, n: Name) {
    var r := Find(specs, n);
    r.Some? && !specs[r.value].kind.Flag?
  }

  /** A name means the first option that goes by it. */
  ghost predicate Means(specs: Specs, n: Name, i: nat) {
    i < |specs| && GoesBy(specs[i], n) && forall j :: 0 <= j < i ==> !GoesBy(specs[j], n)
  }

  ghost predicate MeansFlag(specs: Specs, n: Name) { exists i: nat :: Means(specs, n, i) && specs[i].kind.Flag? }

  ghost predicate MeansOption(specs: Specs, n: Name) { exists i: nat :: Means(specs, n, i) && !specs[i].kind.Flag? }

  lemma NameMeans(specs: Specs, n: Name)
    ensures forall i: nat :: Find(specs, n) == Some(i) <==> Means(specs, n, i)
    ensures IsFlag(specs, n) <==> MeansFlag(specs, n)
    ensures TakesValue(specs, n) <==> MeansOption(specs, n)
  {
    var r := Find(specs, n);
    if r.Some? { assert Means(specs, n, r.value); }
    forall i: nat | Means(specs, n, i) ensures r == Some(i) {
      if r.Some? && i < r.value { assert false; }
    }
  }

  /** Short names are alphanumeric, or absent. */
  ghost predicate WellNamed(specs: Specs) {
    forall i :: 0 <= i < |specs| ==> specs[i].shortName != '-'
  }

  // ---------------------------------------------------------------- items

  /** A positional argument, or an option argument with its entries and the next argument if it took that as a value. */
  datatype Item =
    | Positional(arg: string)
    | Options(arg: string, entries: seq<Entry>, detached: Option<string>)

  /** `--name` or `--name=value`; a known option that takes a value takes the next argument. */
  function LongItem(specs: Specs, arg: string, next: Option<string>): Item
    requires |arg| >= 2
  {
    var body := arg[2..];
    var k := IndexOf(body, '=');
    var n := LongName(body[..k]);
    if k < |body| then Options(arg, [Entry(n, arg, Some(body[k + 1..]))], None)
    else if next.Some? && TakesValue(specs, n) then Options(arg, [Entry(n, arg, next)], next)
    else Options(arg, [Entry(n, arg, None)], None)
  }

  /** The letters of a short argument: flags until one that is not, which takes the rest or the next argument. */
  function ShortItem(specs: Specs, arg: string, letters: string, next: Option<string>): (item: Item)
    ensures item.Options? && item.arg == arg
    decreases |letters|
  {
    if |letters| == 0 then Options(arg, [], None)
    else
      var n := ShortName(letters[0]);
      if IsFlag(specs, n) then
        var tail := ShortItem(specs, arg, letters[1..], next);
        Options(arg, [Entry(n, arg, None)] + tail.entries, tail.detached)
      else if |letters| > 1 then Options(arg, [Entry(n, arg, Some(letters[1..]))], None)
      else Options(arg, [Entry(n, arg, next)], next)
  }

  function NextItem(specs: Specs, argv: seq<string>): Item
    requires |argv| > 0
  {
    var arg := argv[0];
    var next := if |argv| > 1 then Some(argv[1]) else None;
    if |arg| <= 1 || arg[0] != '-' then Positional(arg)
    else if arg[1] == '-' then LongItem(specs, arg, next)
    else ShortItem(specs, arg, arg[1..], next)
  }

  /** How many arguments an item stands for. */
  function Width(item: Item): nat {
    if item.Options? && item.detached.Some? then 2 else 1
  }

  lemma NextItemFits(specs: Specs, argv: seq<string>)
    requires |argv| > 0
    ensures Width(NextItem(specs, argv)) <= |argv|
    ensures NextItem(specs, argv).arg == argv[0]
    ensures Width(NextItem(specs, argv)) == 2 ==> NextItem(specs, argv).detached == Some(argv[1])
  {
    var arg := argv[0];
    if |arg| > 1 && arg[0] == '-' && arg[1] != '-' {
      ShortItemDetaches(specs, arg, arg[1..], if |argv| > 1 then Some(argv[1]) else None);
    }
  }

  lemma ShortItemDetaches(specs: Specs, arg: string, letters: string, next: Option<string>)
    ensures var d := ShortItem(specs, arg, letters, next).detached; d == None || d == next
    decreases |letters|
  {}

  function Items(specs: Specs, argv: seq<string>): seq<Item>
    decreases |argv|
  {
    if |argv| == 0 then []
    else
      var item := NextItem(specs, argv);
      NextItemFits(specs, argv);
      [item] + Items(specs, argv[Width(item)..])
  }

  function Entries(items: seq<Item>): seq<Entry> {
    if |items| == 0 then []
    else (if items[0].Options? then items[0].entries else []) + Entries(items[1..])
  }

  function Positionals(items: seq<Item>): seq<string> {
    if |items| == 0 then []
    else (if items[0].Positional? then [items[0].arg] else []) + Positionals(items[1..])
  }

  /** The arguments the items came from. */
  function Render(items: seq<Item>): seq<string> {
    if |items| == 0 then []
    else
      var i := items[0];
      (if i.Options? && i.detached.Some? then [i.arg, i.detached.value] else [i.arg]) + Render(items[1..])
  }

  // ---------------------------------------------------------------- conservation

  /** Every argument lands in exactly one item, as itself or as a value taken separately, in order. */
  lemma {:induction false} EveryArgumentOnce(specs: Specs, argv: seq<string>)
    ensures Render(Items(specs, argv)) == argv
    ensures |Positionals(Items(specs, argv))| <= |argv|
    decreases |argv|
  {
    if |argv| > 0 {
      hide NextItem;
      var item := NextItem(specs, argv);
      NextItemFits(specs, argv);
      var rest := argv[Width(item)..];
      EveryArgumentOnce(specs, rest);
      var items := Items(specs, argv);
      assert items[0] == item && items[1..] == Items(specs, rest);
      assert argv == argv[..Width(item)] + rest;
    }
  }

  /**
   The entries of an option argument name it, there is at least one, only the last can
   carry a value, and that value is the argument taken separately or text of the argument itself.
   */
  ghost predicate ItemOk(item: Item) {
    item.Options? ==>
      && |item.entries| > 0
      && (forall k :: 0 <= k < |item.entries| ==> item.entries[k].arg == item.arg)
      && (forall k :: 0 <= k < |item.entries| - 1 ==> item.entries[k].value == None)
      && var last := item.entries[|item.entries| - 1].value;
      && (item.detached.Some? ==> last == item.detached)
      && (item.detached.None? && last.Some? ==>
            EndsWith(item.arg, last.value))
  }

  ghost predicate EndsWith(s: string, t: string) { |t| < |s| && s[|s| - |t|..] == t }

  lemma {:induction false} ShortItemOk(specs: Specs, arg: string, letters: string, next: Option<string>)
    requires 0 < |letters| && EndsWith(arg, letters)
    ensures ItemOk(ShortItem(specs, arg, letters, next))
    decreases |letters|
  {
    hide Find, EndsWith;
    if |letters| > 1 { EndsWithTail(arg, letters); }
    if IsFlag(specs, ShortName(letters[0])) && |letters| > 1 {
      ShortItemOk(specs, arg, letters[1..], next);
      var tail := ShortItem(specs, arg, letters[1..], next);
      assert ShortItem(specs, arg, letters, next).entries[1..] == tail.entries;
    }
  }

  lemma EndsWithTail(s: string, t: string)
    requires |t| > 1 && EndsWith(s, t)
    ensures EndsWith(s, t[1..])
  {}

  lemma NextItemOk(specs: Specs, argv: seq<string>)
    requires |argv| > 0
    ensures ItemOk(NextItem(specs, argv))
  {
    var arg := argv[0];
    if |arg| > 1 && arg[0] == '-' && arg[1] != '-' {
      ShortItemOk(specs, arg, arg[1..], if |argv| > 1 then Some(argv[1]) else None);
    }
  }

  // ---------------------------------------------------------------- what each item says

  /** `--text`, `--text=value`, or `--text` and the next argument if the text means an option that takes a value. */
  ghost predicate LongExact(specs: Specs, item: Item, next: Option<string>)
    requires item.Options? && |item.arg| >= 2
  {
    && |item.entries| == 1 && item.entries[0].arg == item.arg && item.entries[0].name.LongName?
    && var body, text, value := item.arg[2..], item.entries[0].name.text, item.entries[0].value;
    && text <= body && '=' !in text
    && (if |text| < |body| then body[|text|] == '=' && value == Some(body[|text| + 1..]) && item.detached == None
        else if MeansOption(specs, LongName(text)) then value == next && item.detached == next
        else value == None && item.detached == None)
  }

  /**
   One entry for each letter, the flags first; the first letter that means no flag is the last entry and takes
   the letters behind it, or the next argument when there are none.
   */
  ghost predicate ShortExact(arg: string, specs: Specs, item: Item, letters: string, next: Option<string>)
    requires item.Options?
  {
    && 0 < |item.entries| <= |letters|
    && (forall k :: 0 <= k < |item.entries| ==> item.entries[k].name == ShortName(letters[k]) && item.entries[k].arg == arg)
    && (forall k :: 0 <= k < |item.entries| - 1 ==> item.entries[k].value == None && MeansFlag(specs, item.entries[k].name))
    && var n, last := |item.entries|, item.entries[|item.entries| - 1];
    if MeansFlag(specs, last.name) then n == |letters| && last.value == None && item.detached == None
    else if n < |letters| then last.value == Some(letters[n..]) && item.detached == None
    else last.value == next && item.detached == next
  }

  /** An item says what its argument, and the argument after it, say. */
  ghost predicate ItemExact(specs: Specs, item: Item, next: Option<string>) {
    && (item.Positional? <==> |item.arg| <= 1 || item.arg[0] != '-')
    && (item.Options? ==>
          if item.arg[1] == '-' then LongExact(specs, item, next)
          else ShortExact(item.arg, specs, item, item.arg[1..], next))
  }

  function Second(argv: seq<string>): Option<string> { if |argv| > 1 then Some(argv[1]) else None }

  /** Every item says what the arguments it stands for say. */
  ghost predicate AllExact(specs: Specs, items: seq<Item>) {
    forall i :: 0 <= i < |items| ==> ItemExact(specs, items[i], Second(Render(items[i..])))
  }

  lemma {:induction false} ShortItemExact(specs: Specs, arg: string, letters: string, next: Option<string>)
    requires |letters| > 0
    ensures ShortExact(arg, specs, ShortItem(specs, arg, letters, next), letters, next)
    decreases |letters|
  {
    hide Find, MeansFlag;
    var n := ShortName(letters[0]);
    NameMeans(specs, n);
    if IsFlag(specs, n) && |letters| > 1 {
      FlagStep(specs, arg, letters, next);
      ShortItemExact(specs, arg, letters[1..], next);
      ShortExactCons(specs, arg, letters, ShortItem(specs, arg, letters[1..], next), next);
    } else if IsFlag(specs, n) {
      assert ShortItem(specs, arg, letters[1..], next) == Options(arg, [], None);
    }
  }

  lemma FlagStep(specs: Specs, arg: string, letters: string, next: Option<string>)
    requires |letters| > 0 && IsFlag(specs, ShortName(letters[0]))
    ensures var tail := ShortItem(specs, arg, letters[1..], next);
            ShortItem(specs, arg, letters, next)
            == Options(arg, [Entry(ShortName(letters[0]), arg, None)] + tail.entries, tail.detached)
  {}

  lemma ShortExactCons(specs: Specs, arg: string, letters: string, tail: Item, next: Option<string>)
    requires |letters| > 0 && MeansFlag(specs, ShortName(letters[0]))
    requires tail.Options? && ShortExact(arg, specs, tail, letters[1..], next)
    ensures ShortExact(arg, specs, Options(arg, [Entry(ShortName(letters[0]), arg, None)] + tail.entries, tail.detached), letters, next)
  {
    hide MeansFlag;
    assert letters[1..][|tail.entries|..] == letters[|tail.entries| + 1..];
  }

  lemma LongItemExact(specs: Specs, arg: string, next: Option<string>)
    requires |arg| >= 2
    ensures LongExact(specs, LongItem(specs, arg, next), next)
  {
    hide Find, MeansOption;
    var body := arg[2..];
    NameMeans(specs, LongName(body[..IndexOf(body, '=')]));
  }

  lemma NextItemExact(specs: Specs, argv: seq<string>)
    requires |argv| > 0
    ensures ItemExact(specs, NextItem(specs, argv), Second(argv))
  {
    hide LongItem, ShortItem, LongExact, ShortExact;
    var arg := argv[0];
    NextItemFits(specs, argv);
    if |arg| > 1 && arg[0] == '-' {
      if arg[1] == '-' {
        LongItemExact(specs, arg, Second(argv));
        LongIsOptions(specs, arg, Second(argv));
      } else {
        ShortItemExact(specs, arg, arg[1..], Second(argv));
      }
    }
  }

  lemma LongIsOptions(specs: Specs, arg: string, next: Option<string>)
    requires |arg| >= 2
    ensures LongItem(specs, arg, next).Options?
  {}

  /** Every item of a command line, its names and values included, says what its arguments say. */
  lemma {:induction false} EveryItemOk(specs: Specs, argv: seq<string>)
    ensures AllExact(specs, Items(specs, argv))
    decreases |argv|
  {
    if |argv| > 0 {
      hide NextItem, ItemExact;
      var item := NextItem(specs, argv);
      NextItemExact(specs, argv);
      NextItemFits(specs, argv);
      var items, rest := Items(specs, argv), Items(specs, argv[Width(item)..]);
      EveryItemOk(specs, argv[Width(item)..]);
      assert items == [item] + rest;
      forall i | 0 <= i < |items| ensures ItemExact(specs, items[i], Second(Render(items[i..]))) {
        if i == 0 {
          assert items[0..] == items;
          EveryArgumentOnce(specs, argv);
        } else {
          assert items[i..] == rest[i - 1..] && items[i] == rest[i - 1];
        }
      }
    }
  }

  lemma ExactIsUnique(specs: Specs, x: Item, y: Item, next: Option<string>)
    requires x.arg == y.arg && ItemExact(specs, x, next) && ItemExact(specs, y, next)
    ensures x == y
  {
    if x.Options? {
      if x.arg[1] == '-' {
        LongIsUnique(specs, x, y, next);
      } else {
        ShortIsUnique(specs, x, y, x.arg[1..], next);
      }
    }
  }

  lemma LongIsUnique(specs: Specs, x: Item, y: Item, next: Option<string>)
    requires x.Options? && y.Options? && x.arg == y.arg && |x.arg| >= 2 && LongExact(specs, x, next) && LongExact(specs, y, next)
    ensures x == y
  {
    hide MeansOption;
    var s, t := x.entries[0].name.text, y.entries[0].name.text;
    assert |s| == |t| && s == t;
    assert x.entries[0] == y.entries[0];
  }

  lemma ShortIsUnique(specs: Specs, x: Item, y: Item, letters: string, next: Option<string>)
    requires x.Options? && y.Options? && x.arg == y.arg
    requires ShortExact(x.arg, specs, x, letters, next) && ShortExact(y.arg, specs, y, letters, next)
    ensures x == y
  {
    hide MeansFlag;
    var m, n := |x.entries|, |y.entries|;
    assert m == n;
    assert x.entries[m - 1] == y.entries[m - 1];
    assert x.entries == y.entries;
  }

  /** The items of a command line are the only ones that render to it and say what their arguments say. */
  lemma {:induction false} ItemsAreUnique(specs: Specs, argv: seq<string>, items: seq<Item>)
    requires Render(items) == argv && AllExact(specs, items)
    ensures items == Items(specs, argv)
    decreases |items|
  {
    hide ItemExact, NextItem;
    if |items| > 0 {
      var x := items[0];
      var w := Width(x);
      assert items[0..] == items;
      NextItemExact(specs, argv);
      NextItemFits(specs, argv);
      ExactIsUnique(specs, x, NextItem(specs, argv), Second(argv));
      assert argv[w..] == Render(items[1..]);
      forall i | 0 <= i < |items[1..]| ensures ItemExact(specs, items[1..][i], Second(Render(items[1..][i..]))) {
        assert items[1..][i..] == items[i + 1..] && items[1..][i] == items[i + 1];
      }
      ItemsAreUnique(specs, argv[w..], items[1..]);
      assert items == [x] + items[1..];
    }
  }
}

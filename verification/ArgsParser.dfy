/** The command-line parser as it runs: loops over the arguments, and option states set in place. */
module ArgsParser {
  import opened Wrappers
  import opened Args
  import opened ArgsMeaning
  import opened ArgsTheorems

  /** How a parse can end before the entries are looked at, and after. */
  datatype ParseResult =
    | NoProgramName
    | Duplicate(first: nat, second: nat)
    | Completion
    | Parsed(outcome: Outcome)

  predicate Clash(o: Spec, p: Spec) {
    (o.shortName == p.shortName && o.shortName != '\0') || o.longName == p.longName
  }

  ghost predicate Distinct(specs: Specs) {
    forall i, j :: 0 <= i < j < |specs| ==>
      && specs[i].longName != specs[j].longName
      && (specs[i].shortName == specs[j].shortName ==> specs[i].shortName == '\0')
  }

  predicate CompletionCommand(s: string) { s == "completion" || s == "__complete" }

  class Parser {
    const specs: Specs
    const nums: Numerals
    const settings: array<Setting>

    ghost predicate Valid()
      reads settings
    {
      settings.Length == |specs|
    }

    /** Options start unset. */
    constructor (specs: Specs, nums: Numerals)
      ensures Valid() && fresh(settings) && this.specs == specs && this.nums == nums
      ensures settings[..] == Initial(specs)
    {
      this.specs, this.nums := specs, nums;
      settings := new Setting[|specs|](_ => Setting(false, Default));
      new;
      assert settings[..] == Initial(specs);
    }

    method FindOption(n: Name) returns (r: Option<nat>)
      ensures r == Find(specs, n)
    {
      var i := 0;
      while i < |specs|
        invariant i <= |specs|
        invariant forall j :: 0 <= j < i ==> !Matches(specs[j], n)
      {
        if Matches(specs[i], n) { return Some(i); }
        i := i + 1;
      }
      return None;
    }

    /** The letters of a short argument. */
    method ParseShort(arg: string, next: Option<string>) returns (es: seq<Entry>, tookNext: bool)
      requires |arg| > 1
      ensures ShortItem(specs, arg, arg[1..], next) == Options(arg, es, if tookNext then next else None)
    {
      hide ShortItem, Find;
      es, tookNext := [], false;
      ghost var item := ShortItem(specs, arg, arg[1..], next);
      var j := 1;
      while j < |arg|
        invariant 1 <= j <= |arg| && !tookNext
        invariant var tail := ShortItem(specs, arg, arg[j..], next);
                  item.entries == es + tail.entries && item.detached == tail.detached
      {
        var n := ShortName(arg[j]);
        var option := FindOption(n);
        ShortStep(specs, arg, j, next);
        if option.Some? && specs[option.value].kind.Flag? {
          es := es + [Entry(n, arg, None)];
          j := j + 1;
        } else {
          if j + 1 < |arg| {
            es := es + [Entry(n, arg, Some(arg[j + 1..]))];
          } else {
            es := es + [Entry(n, arg, next)];
            tookNext := next.Some?;
          }
          return;
        }
      }
      NoLetters(specs, arg, arg[j..], next);
    }

    /** A long argument. */
    method ParseLong(arg: string, next: Option<string>) returns (e: Entry, tookNext: bool)
      requires |arg| >= 2
      ensures LongItem(specs, arg, next) == Options(arg, [e], if tookNext then next else None)
    {
      var body := arg[2..];
      tookNext := false;
      var k := 0;
      while k < |body| && body[k] != '='
        invariant k <= |body| && forall j :: 0 <= j < k ==> body[j] != '='
      {
        k := k + 1;
      }
      var n := LongName(body[..k]);
      if k < |body| {
        e := Entry(n, arg, Some(body[k + 1..]));
      } else {
        e := Entry(n, arg, None);
        if next.Some? {
          var option := FindOption(n);
          if option.Some? && !specs[option.value].kind.Flag? {
            e := e.(value := next);
            tookNext := true;
          }
        }
      }
    }

    /** Cuts the arguments into entries and positionals, without judging either. */
    method Tokenise(argv: seq<string>) returns (parsed: seq<Entry>, positional: array<string>, count: nat)
      ensures fresh(positional) && positional.Length == |argv| && count <= |argv|
      ensures parsed == Entries(Items(specs, argv))
      ensures positional[..count] == Positionals(Items(specs, argv))
    {
      hide Items, LongItem, ShortItem, NextItem, Entries, Positionals;
      positional := new string[|argv|](_ => "");
      parsed, count := [], 0;
      var i := 0;
      assert argv[0..] == argv;
      while i < |argv|
        invariant count <= i <= |argv| && fresh(positional)
        invariant Entries(Items(specs, argv)) == parsed + Entries(Items(specs, argv[i..]))
        invariant Positionals(Items(specs, argv)) == positional[..count] + Positionals(Items(specs, argv[i..]))
      {
        var arg := argv[i];
        var next := if i + 1 < |argv| then Some(argv[i + 1]) else None;
        ghost var kept := positional[..count];
        ItemStep(specs, argv, i, parsed, kept);
        i := i + 1;
        if |arg| <= 1 || arg[0] != '-' {
          positional[count] := arg;
          count := count + 1;
          assert positional[..count] == kept + [arg];
        } else if arg[1] == '-' {
          var e, tookNext := ParseLong(arg, next);
          parsed := parsed + [e];
          if tookNext && next.Some? { i := i + 1; }
        } else {
          var es, tookNext := ParseShort(arg, next);
          parsed := parsed + es;
          if tookNext && next.Some? { i := i + 1; }
        }
      }
      assert argv[i..] == [];
      NoItems(specs);
    }

    /** The value of an option that takes one. */
    method ParseValue(i: nat, v: string) returns (r: Option<Value>)
      requires i < |specs|
      ensures r == Convert(nums, specs[i].kind, v)
    {
      match specs[i].kind
      case Flag(_) => r := None;
      case Long =>
        var n := nums.long(v);
        r := if n.Some? then Some(Number(n.value)) else None;
      case Float =>
        var x := nums.float(v);
        r := if x.Some? then Some(Decimal(x.value)) else None;
      case Text => r := Some(Chars(v));
      case EnumIndex(choices) =>
        var c := FindChoice(choices, v);
        r := if c.Some? then Some(Choice(c.value)) else None;
      case EnumText(choices) =>
        var c := FindChoice(choices, v);
        r := if c.Some? then Some(Chars(choices[c.value])) else None;
    }

    method FindChoice(choices: seq<string>, v: string) returns (r: Option<nat>)
      ensures r == ChoiceOf(choices, v)
    {
      var i := 0;
      assert choices[0..] == choices;
      while i < |choices|
        invariant i <= |choices|
        invariant ChoiceOf(choices, v) == Later(ChoiceOf(choices[i..], v), i)
      {
        assert choices[i..][1..] == choices[i + 1..];
        if SameText(choices[i], v) { return Some(i); }
        i := i + 1;
      }
      return None;
    }

    /** The first parsed entry that ends parsing at once. */
    method FindExit(parsed: seq<Entry>) returns (r: Option<nat>)
      ensures r == FirstExit(specs, parsed)
    {
      var k := 0;
      while k < |parsed|
        invariant k <= |parsed| && forall j :: 0 <= j < k ==> !Exits(specs, parsed[j])
      {
        var option := FindOption(parsed[k].name);
        if option.Some? && specs[option.value].kind.Flag? && specs[option.value].kind.use != Plain {
          return Some(k);
        }
        k := k + 1;
      }
      return None;
    }

    /** Sets the option of one entry, or says what is wrong with the entry. */
    method SetOption(e: Entry) returns (error: Option<Error>)
      requires Valid()
      modifies settings
      ensures SetOne(specs, nums, old(settings[..]), e)
              == (if error.Some? then Err(error.value) else Ok(settings[..]))
      ensures error.Some? ==> settings[..] == old(settings[..])
    {
      hide Find, Convert;
      var option := FindOption(e.name);
      if option.None? { return Some(Unknown(e.name, e.arg)); }
      var i := option.value;
      if settings[i].isSet { return Some(AlreadySet(i, e.arg)); }
      if specs[i].kind.Flag? {
        if e.value.Some? { return Some(UnwantedValue(i, e.arg)); }
        settings[i] := Setting(true, On);
      } else {
        if e.value.None? { return Some(NoValue(i, e.arg)); }
        var v := ParseValue(i, e.value.value);
        if v.None? { return Some(BadValue(i, e.value.value)); }
        settings[i] := Setting(true, v.value);
      }
      return None;
    }

    /** Validates the entries in order and sets their options. */
    method Validate(parsed: seq<Entry>) returns (error: Option<Error>)
      requires Valid() && settings[..] == Initial(specs)
      modifies settings
      ensures Apply(specs, nums, parsed) == (if error.Some? then Err(error.value) else Ok(settings[..]))
    {
      hide SetOne;
      var k := 0;
      while k < |parsed|
        invariant k <= |parsed| && Apply(specs, nums, parsed[..k]) == Ok(settings[..])
      {
        assert parsed[..k + 1][..k] == parsed[..k];
        error := SetOption(parsed[k]);
        if error.Some? {
          ApplyStops(specs, nums, parsed, k + 1);
          return;
        }
        k := k + 1;
      }
      assert parsed[..k] == parsed;
      return None;
    }

    method CheckRequired() returns (missing: Option<nat>)
      requires Valid()
      ensures missing == FirstMissing(specs, settings[..])
    {
      var i := 0;
      while i < |specs|
        invariant i <= |specs|
        invariant forall j :: 0 <= j < i && specs[j].required ==> settings[j].isSet
      {
        if specs[i].required && !settings[i].isSet { return Some(i); }
        i := i + 1;
      }
      return None;
    }

    /** Two options with the same short or long name, if there are any. */
    method FindClash() returns (r: Option<(nat, nat)>)
      ensures r.None? <==> Distinct(specs)
      ensures r.Some? ==>
                && r.value.0 < r.value.1 < |specs|
                && var o, p := specs[r.value.0], specs[r.value.1];
                o.longName == p.longName || (o.shortName == p.shortName && o.shortName != '\0')
    {
      var i := 0;
      while i < |specs|
        invariant i <= |specs|
        invariant forall a, b :: 0 <= a < i && a < b < |specs| ==> !Clash(specs[a], specs[b])
      {
        var j := i + 1;
        while j < |specs|
          invariant i < j <= |specs|
          invariant forall b :: i < b < j ==> !Clash(specs[i], specs[b])
        {
          if Clash(specs[i], specs[j]) { return Some((i, j)); }
          j := j + 1;
        }
        i := i + 1;
      }
      return None;
    }

    /** Entries to outcome: an early exit, an error, or settings that are what the entries say. */
    method Conclude(parsed: seq<Entry>) returns (outcome: Outcome)
      requires Valid() && settings[..] == Initial(specs)
      modifies settings
      ensures outcome == Finish(specs, nums, parsed)
      ensures outcome.Done? ==> settings[..] == outcome.settings
      ensures outcome.Exit? ==> outcome.option < |specs|
      ensures outcome.Exit? && outcome.use == EarlyExit ==>
                settings[..] == Initial(specs)[outcome.option := Setting(false, On)]
      ensures outcome.Exit? && outcome.use != EarlyExit ==> settings[..] == Initial(specs)
    {
      hide Apply, Find;
      var x := FindExit(parsed);
      if x.Some? {
        var option := FindOption(parsed[x.value].name);
        var i := option.value;
        if specs[i].kind.use == EarlyExit { settings[i] := Setting(false, On); }
        return Exit(specs[i].kind.use, i);
      }
      var error := Validate(parsed);
      if error.Some? { return Fatal(error.value); }
      var missing := CheckRequired();
      if missing.Some? { return Fatal(Missing(missing.value)); }
      return Done(settings[..]);
    }

    /** The whole parse of a command line; `argv[0]` is the program name. */
    method ParseArgs(argv: seq<string>) returns (r: ParseResult, positional: array<string>, count: nat)
      requires Valid() && settings[..] == Initial(specs)
      modifies settings
      ensures fresh(positional) && count <= positional.Length
      ensures r.NoProgramName? <==> |argv| == 0
      ensures r.Duplicate? <==> |argv| > 0 && !Distinct(specs)
      ensures r.Duplicate? ==>
                && r.first < r.second < |specs|
                && var o, p := specs[r.first], specs[r.second];
                o.longName == p.longName || (o.shortName == p.shortName && o.shortName != '\0')
      ensures r.Completion? <==> |argv| > 1 && Distinct(specs) && argv[1] in {"completion", "__complete"}
      ensures r.Parsed? ==>
                var items := Items(specs, argv[1..]);
                && r.outcome == Finish(specs, nums, Entries(items))
                && positional[..count] == Positionals(items) && positional.Length == |argv| - 1
                && (r.outcome.Done? ==> settings[..] == r.outcome.settings)
                && (r.outcome.Exit? ==>
                      && r.outcome.option < |specs|
                      && settings[..] == if r.outcome.use == EarlyExit
                                         then Initial(specs)[r.outcome.option := Setting(false, On)] else Initial(specs))
      ensures !r.Parsed? ==> settings[..] == Initial(specs)
    {
      hide Finish, Items;
      positional, count := new string[0], 0;
      if |argv| == 0 { return NoProgramName, positional, count; }
      var clash := FindClash();
      if clash.Some? { return Duplicate(clash.value.0, clash.value.1), positional, count; }
      if |argv| > 1 && CompletionCommand(argv[1]) { return Completion, positional, count; }
      var parsed;
      parsed, positional, count := Tokenise(argv[1..]);
      var outcome := Conclude(parsed);
      r := Parsed(outcome);
    }
  }

  function Later(r: Option<nat>, i: nat): Option<nat> {
    if r.Some? then Some(r.value + i) else None
  }

  /** Validation reports the first error. */
  lemma ApplyStops(specs: Specs, nums: Numerals, es: seq<Entry>, k: nat)
    requires k <= |es| && Apply(specs, nums, es[..k]).Err?
    ensures Apply(specs, nums, es) == Apply(specs, nums, es[..k])
    decreases |es| - k
  {
    hide SetOne;
    if k == |es| {
      assert es[..k] == es;
    } else {
      assert es[..k + 1][..k] == es[..k];
      ApplyStops(specs, nums, es, k + 1);
    }
  }

  lemma NoItems(specs: Specs)
    ensures Entries(Items(specs, [])) == [] && Positionals(Items(specs, [])) == []
  {}

  lemma NoLetters(specs: Specs, arg: string, letters: string, next: Option<string>)
    requires |letters| == 0
    ensures ShortItem(specs, arg, letters, next) == Options(arg, [], None)
  {}

  /** One turn of the inner loop. */
  lemma ShortStep(specs: Specs, arg: string, j: nat, next: Option<string>)
    requires j < |arg|
    ensures var item, n := ShortItem(specs, arg, arg[j..], next), ShortName(arg[j]);
            if IsFlag(specs, n) then
              var tail := ShortItem(specs, arg, arg[j + 1..], next);
              item.entries == [Entry(n, arg, None)] + tail.entries && item.detached == tail.detached
            else if j + 1 < |arg| then item == Options(arg, [Entry(n, arg, Some(arg[j + 1..]))], None)
            else item == Options(arg, [Entry(n, arg, next)], next)
  {
    hide Find;
    assert arg[j..][1..] == arg[j + 1..];
  }

  /** One turn of the loop: the item at `i`, and what is left after it. */
  lemma ItemStep(specs: Specs, argv: seq<string>, i: nat, parsed: seq<Entry>, kept: seq<string>)
    requires i < |argv|
    ensures var item := NextItem(specs, argv[i..]);
            var arg := argv[i];
            var next := if i + 1 < |argv| then Some(argv[i + 1]) else None;
            && item == (if |arg| <= 1 || arg[0] != '-' then Positional(arg)
                        else if arg[1] == '-' then LongItem(specs, arg, next)
                        else ShortItem(specs, arg, arg[1..], next))
            && i + Width(item) <= |argv|
            && var rest := Items(specs, argv[i + Width(item)..]);
            && parsed + Entries(Items(specs, argv[i..]))
               == (if item.Options? then parsed + item.entries else parsed) + Entries(rest)
            && kept + Positionals(Items(specs, argv[i..]))
               == (if item.Positional? then kept + [item.arg] else kept) + Positionals(rest)
  {
    hide LongItem, ShortItem, Items, Entries, Positionals;
    var item := NextItem(specs, argv[i..]);
    UnfoldItems(specs, argv[i..]);
    assert argv[i..][Width(item)..] == argv[i + Width(item)..];
    EntriesCons(item, Items(specs, argv[i + Width(item)..]));
  }
}

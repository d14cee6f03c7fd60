/**
 What parsed entries mean: which flag ends parsing early, what each option is set to,
 and when parsing fails.
 */
module ArgsMeaning {
  import opened Wrappers
  import opened Args

  datatype Value = Default | On | Number(n: int) | Decimal(x: real) | Chars(text: string) | Choice(index: nat)

  datatype Setting = Setting(isSet: bool, value: Value)

  /** The C library's numeral readers: nothing when they leave some of the text unread. */
  datatype Numerals = Numerals(long: string -> Option<int>, float: string -> Option<real>)

  datatype Error =
    | Unknown(name: Name, arg: string)
    | AlreadySet(option: nat, arg: string)
    | UnwantedValue(option: nat, arg: string)
    | NoValue(option: nat, arg: string)
    | BadValue(option: nat, value: string)
    | Missing(option: nat)

  datatype Result = Ok(settings: seq<Setting>) | Err(error: Error)

  datatype Outcome =
    | Exit(use: FlagUse, option: nat)
    | Fatal(error: Error)
    | Done(settings: seq<Setting>)

  function Lower(c: char): char {
    if 'A' <= c <= 'Z' then c - 'A' + 'a' else c
  }

  predicate SameText(s: string, t: string) {
    |s| == |t| && forall i :: 0 <= i < |s| ==> Lower(s[i]) == Lower(t[i])
  }

  /** Equal, or a capital and its small letter. */
  ghost predicate SameLetter(c: char, d: char) {
    || c == d
    || ('A' <= c <= 'Z' && d as int == c as int + 32)
    || ('A' <= d <= 'Z' && c as int == d as int + 32)
  }

  ghost predicate EqualUpToCase(s: string, t: string) {
    |s| == |t| && forall i :: 0 <= i < |s| ==> SameLetter(s[i], t[i])
  }

  lemma SameTextExactly(s: string, t: string)
    ensures SameText(s, t) <==> EqualUpToCase(s, t)
  {
    if |s| == |t| {
      forall i | 0 <= i < |s| ensures Lower(s[i]) == Lower(t[i]) <==> SameLetter(s[i], t[i]) {}
    }
  }

  /** The first choice equal to `v` up to case. */
  function ChoiceOf(choices: seq<string>, v: string): (r: Option<nat>)
    ensures r.Some? ==> r.value < |choices| && EqualUpToCase(choices[r.value], v)
    ensures r.Some? ==> forall i :: 0 <= i < r.value ==> !EqualUpToCase(choices[i], v)
    ensures r.None? ==> forall i :: 0 <= i < |choices| ==> !EqualUpToCase(choices[i], v)
  {
    if |choices| == 0 then None
    else if (SameTextExactly(choices[0], v); SameText(choices[0], v)) then Some(0)
    else
      var r := ChoiceOf(choices[1..], v);
      assert forall i :: 1 <= i < |choices| ==> choices[i] == choices[1..][i - 1];
      if r.Some? then Some(r.value + 1) else None
  }

  function Convert(nums: Numerals, kind: Kind, v: string): Option<Value> {
    match kind
    case Flag(_) => None
    case Long => var r := nums.long(v); if r.Some? then Some(Number(r.value)) else None
    case Float => var r := nums.float(v); if r.Some? then Some(Decimal(r.value)) else None
    case Text => Some(Chars(v))
    case EnumIndex(choices) => var r := ChoiceOf(choices, v); if r.Some? then Some(Choice(r.value)) else None
    case EnumText(choices) => var r := ChoiceOf(choices, v); if r.Some? then Some(Chars(choices[r.value])) else None
  }

  function Initial(specs: Specs): seq<Setting> {
    seq(|specs|, _ => Setting(false, Default))
  }

  /** One entry against the settings so far. */
  function SetOne(specs: Specs, nums: Numerals, st: seq<Setting>, e: Entry): Result
    requires |st| == |specs|
  {
    var r := Find(specs, e.name);
    if r.None? then Err(Unknown(e.name, e.arg))
    else
      var i := r.value;
      if st[i].isSet then Err(AlreadySet(i, e.arg))
      else if specs[i].kind.Flag? then
        if e.value.Some? then Err(UnwantedValue(i, e.arg)) else Ok(st[i := Setting(true, On)])
      else if e.value.None? then Err(NoValue(i, e.arg))
      else
        var v := Convert(nums, specs[i].kind, e.value.value);
        if v.None? then Err(BadValue(i, e.value.value)) else Ok(st[i := Setting(true, v.value)])
  }

  function Apply(specs: Specs, nums: Numerals, es: seq<Entry>): (r: Result)
    ensures r.Ok? ==> |r.settings| == |specs|
  {
    if |es| == 0 then Ok(Initial(specs))
    else
      var r := Apply(specs, nums, es[..|es| - 1]);
      if r.Err? then r else SetOne(specs, nums, r.settings, es[|es| - 1])
  }

  predicate Exits(specs: Specs, e: Entry) {
    var r := Find(specs, e.name);
    r.Some? && specs[r.value].kind.Flag? && specs[r.value].kind.use != Plain
  }

  /** The first option that is required and not set. */
  function FirstMissing(specs: Specs, st: seq<Setting>): (r: Option<nat>)
    requires |st| == |specs|
    ensures r.Some? ==> r.value < |specs| && specs[r.value].required && !st[r.value].isSet
    ensures r.Some? ==> forall i :: 0 <= i < r.value ==> specs[i].required ==> st[i].isSet
    ensures r.None? ==> forall i :: 0 <= i < |specs| ==> specs[i].required ==> st[i].isSet
  {
    if |specs| == 0 then None
    else if specs[0].required && !st[0].isSet then Some(0)
    else
      var r := FirstMissing(specs[1..], st[1..]);
      assert forall i :: 1 <= i < |specs| ==> specs[i] == specs[1..][i - 1] && st[i] == st[1..][i - 1];
      if r.Some? then Some(r.value + 1) else None
  }

  function FirstExit(specs: Specs, es: seq<Entry>): (r: Option<nat>)
    ensures r.Some? ==> r.value < |es| && Exits(specs, es[r.value])
    ensures r.Some? ==> forall k :: 0 <= k < r.value ==> !Exits(specs, es[k])
    ensures r.None? ==> forall k :: 0 <= k < |es| ==> !Exits(specs, es[k])
  {
    if |es| == 0 then None
    else if Exits(specs, es[0]) then Some(0)
    else
      var r := FirstExit(specs, es[1..]);
      assert forall k :: 1 <= k < |es| ==> es[k] == es[1..][k - 1];
      if r.Some? then Some(r.value + 1) else None
  }

  /** What the entries come to: an early exit, an error, or the settings. */
  function Finish(specs: Specs, nums: Numerals, es: seq<Entry>): Outcome {
    var x := FirstExit(specs, es);
    if x.Some? then
      var i := Find(specs, es[x.value].name).value;
      Exit(specs[i].kind.use, i)
    else
      var r := Apply(specs, nums, es);
      if r.Err? then Fatal(r.error)
      else
        var m := FirstMissing(specs, r.settings);
        if m.Some? then Fatal(Missing(m.value)) else Done(r.settings)
  }

  // ---------------------------------------------------------------- what success means

  ghost predicate Resolves(specs: Specs, e: Entry, i: nat) { Find(specs, e.name) == Some(i) }

  /** The value an entry gives the option it resolves to, if it is well formed. */
  ghost function Given(specs: Specs, nums: Numerals, e: Entry): Option<Value> {
    var r := Find(specs, e.name);
    if r.None? then None
    else if specs[r.value].kind.Flag? then if e.value.None? then Some(On) else None
    else if e.value.None? then None
    else Convert(nums, specs[r.value].kind, e.value.value)
  }

  /** Every entry is known and well formed, and no two are about the same option. */
  ghost predicate Acceptable(specs: Specs, nums: Numerals, es: seq<Entry>) {
    && (forall k :: 0 <= k < |es| ==> Given(specs, nums, es[k]).Some?)
    && (forall j, k :: 0 <= j < k < |es| ==> Find(specs, es[j].name) != Find(specs, es[k].name))
  }

  /** The settings say exactly what the entries say. */
  ghost predicate Reflects(specs: Specs, nums: Numerals, es: seq<Entry>, st: seq<Setting>) {
    && |st| == |specs|
    && (forall i :: 0 <= i < |specs| && !st[i].isSet ==> st[i].value == Default)
    && (forall i :: 0 <= i < |specs| && st[i].isSet ==> exists k :: 0 <= k < |es| && Resolves(specs, es[k], i))
    && (forall k :: 0 <= k < |es| ==> ReflectedAt(specs, nums, es[k], st))
  }

  ghost predicate ReflectedAt(specs: Specs, nums: Numerals, e: Entry, st: seq<Setting>)
    requires |st| == |specs|
  {
    var r := Find(specs, e.name);
    r.Some? && Given(specs, nums, e).Some? && st[r.value] == Setting(true, Given(specs, nums, e).value)
  }

  lemma SetOneReflects(specs: Specs, nums: Numerals, es: seq<Entry>, st: seq<Setting>, e: Entry)
    requires Acceptable(specs, nums, es) && Reflects(specs, nums, es, st)
    ensures var r := SetOne(specs, nums, st, e);
            && (r.Ok? <==> Acceptable(specs, nums, es + [e]))
            && (r.Ok? ==> Reflects(specs, nums, es + [e], r.settings))
  {
    hide Convert;
    var r := SetOne(specs, nums, st, e);
    var all := es + [e];
    assert forall k :: 0 <= k < |es| ==> all[k] == es[k];
    if Given(specs, nums, e).Some? {
      var i := Find(specs, e.name).value;
      if st[i].isSet {
        var k :| 0 <= k < |es| && Resolves(specs, es[k], i);
        assert Find(specs, all[k].name) == Find(specs, all[|es|].name);
      } else {
        forall k | 0 <= k < |es| ensures Find(specs, es[k].name) != Some(i) {
          assert ReflectedAt(specs, nums, es[k], st);
        }
        assert Acceptable(specs, nums, all);
        SettingsReflect(specs, nums, es, st, e, r.settings);
      }
    } else {
      assert all[|es|] == e;
    }
  }

  lemma SettingsReflect(specs: Specs, nums: Numerals, es: seq<Entry>, st: seq<Setting>, e: Entry, st1: seq<Setting>)
    requires Reflects(specs, nums, es, st) && Find(specs, e.name).Some? && Given(specs, nums, e).Some?
    requires forall k :: 0 <= k < |es| ==> Find(specs, es[k].name) != Find(specs, e.name)
    requires st1 == st[Find(specs, e.name).value := Setting(true, Given(specs, nums, e).value)]
    ensures Reflects(specs, nums, es + [e], st1)
  {
    hide Given;
    var all := es + [e];
    forall k | 0 <= k < |all| ensures ReflectedAt(specs, nums, all[k], st1) {
      if k < |es| { assert ReflectedAt(specs, nums, es[k], st); }
    }
    forall i | 0 <= i < |specs| && st1[i].isSet ensures exists k :: 0 <= k < |all| && Resolves(specs, all[k], i) {
      if st[i].isSet {
        var k :| 0 <= k < |es| && Resolves(specs, es[k], i);
        assert Resolves(specs, all[k], i);
      } else {
        assert Resolves(specs, all[|es|], i);
      }
    }
  }

  /** Validation succeeds exactly on acceptable entries, and then the settings are what they say. */
  lemma {:induction false} ApplyIffAcceptable(specs: Specs, nums: Numerals, es: seq<Entry>)
    ensures var r := Apply(specs, nums, es);
            && (r.Ok? <==> Acceptable(specs, nums, es))
            && (r.Ok? ==> Reflects(specs, nums, es, r.settings))
    decreases |es|
  {
    if |es| > 0 {
      hide SetOne, Reflects;
      var n := |es| - 1;
      var front := es[..n];
      assert es == front + [es[n]];
      ApplyIffAcceptable(specs, nums, front);
      assert forall k :: 0 <= k < n ==> front[k] == es[k];
      assert Acceptable(specs, nums, es) ==> Acceptable(specs, nums, front);
      var r := Apply(specs, nums, front);
      if r.Ok? { SetOneReflects(specs, nums, front, r.settings, es[n]); }
    }
  }

  // ---------------------------------------------------------------- what an entry asks for, in plain terms

  /** The first of the choices that is the text up to case. */
  ghost predicate IsChoice(choices: seq<string>, text: string, i: nat) {
    i < |choices| && EqualUpToCase(choices[i], text) && forall j :: 0 <= j < i ==> !EqualUpToCase(choices[j], text)
  }

  /** The text stands for the value, in an option of that kind: the number the reader gives, the text itself, or the choice. */
  ghost predicate StandsFor(nums: Numerals, kind: Kind, text: string, value: Value) {
    match kind
    case Flag(_) => false
    case Long => value.Number? && nums.long(text) == Some(value.n)
    case Float => value.Decimal? && nums.float(text) == Some(value.x)
    case Text => value == Chars(text)
    case EnumIndex(choices) => value.Choice? && IsChoice(choices, text, value.index)
    case EnumText(choices) => exists i: nat :: IsChoice(choices, text, i) && value == Chars(choices[i])
  }

  lemma ConvertExactly(nums: Numerals, kind: Kind, text: string)
    ensures forall value :: Convert(nums, kind, text) == Some(value) <==> StandsFor(nums, kind, text, value)
  {
    if kind.EnumIndex? || kind.EnumText? {
      var r := ChoiceOf(kind.choices, text);
      if r.Some? { assert IsChoice(kind.choices, text, r.value); }
      forall i: nat | IsChoice(kind.choices, text, i) ensures r == Some(i) {}
    }
  }

  /** The entry sets option `i` to the value: a flag without one, any other option with a text that stands for it. */
  ghost predicate Asks(specs: Specs, nums: Numerals, e: Entry, i: nat, value: Value) {
    && Means(specs, e.name, i)
    && (if specs[i].kind.Flag? then e.value == None && value == On
        else e.value.Some? && StandsFor(nums, specs[i].kind, e.value.value, value))
  }

  lemma AsksExactly(specs: Specs, nums: Numerals, e: Entry)
    ensures forall i: nat, value :: Asks(specs, nums, e, i, value) <==> Find(specs, e.name) == Some(i) && Given(specs, nums, e) == Some(value)
  {
    hide Convert, StandsFor, Means, Find;
    NameMeans(specs, e.name);
    forall i: nat, value
      ensures Asks(specs, nums, e, i, value) <==> Find(specs, e.name) == Some(i) && Given(specs, nums, e) == Some(value)
    {
      if Means(specs, e.name, i) && e.value.Some? { ConvertExactly(nums, specs[i].kind, e.value.value); }
    }
  }

  ghost predicate AsksSomething(specs: Specs, nums: Numerals, e: Entry) {
    exists i: nat, value :: Asks(specs, nums, e, i, value)
  }

  /** Every entry asks for something, and no two for the same option. */
  ghost predicate AllAsk(specs: Specs, nums: Numerals, es: seq<Entry>) {
    && (forall k :: 0 <= k < |es| ==> AsksSomething(specs, nums, es[k]))
    && (forall j, k, i: nat :: 0 <= j < k < |es| && Means(specs, es[j].name, i) ==> !Means(specs, es[k].name, i))
  }

  lemma AllAskExactly(specs: Specs, nums: Numerals, es: seq<Entry>)
    ensures Acceptable(specs, nums, es) <==> AllAsk(specs, nums, es)
  {
    hide Given, Asks, Means, Find;
    forall k | 0 <= k < |es|
      ensures Given(specs, nums, es[k]).Some? <==> AsksSomething(specs, nums, es[k])
    {
      AsksExactly(specs, nums, es[k]);
      if Given(specs, nums, es[k]).Some? {
        assert Find(specs, es[k].name).Some? by { GivenIsFound(specs, nums, es[k]); }
        assert Asks(specs, nums, es[k], Find(specs, es[k].name).value, Given(specs, nums, es[k]).value);
      }
    }
    forall k | 0 <= k < |es|
      ensures forall i: nat :: Find(specs, es[k].name) == Some(i) <==> Means(specs, es[k].name, i)
    {
      NameMeans(specs, es[k].name);
    }
    forall k | 0 <= k < |es| && Given(specs, nums, es[k]).Some? ensures Find(specs, es[k].name).Some? {
      GivenIsFound(specs, nums, es[k]);
    }
    if AllAsk(specs, nums, es) {
      forall j, k | 0 <= j < k < |es| ensures Find(specs, es[j].name) != Find(specs, es[k].name) {
        var i := Find(specs, es[j].name).value;
        assert Means(specs, es[j].name, i);
      }
    }
    if Acceptable(specs, nums, es) {
      forall j, k, i: nat | 0 <= j < k < |es| && Means(specs, es[j].name, i) ensures !Means(specs, es[k].name, i) {
        assert Find(specs, es[j].name) != Find(specs, es[k].name);
      }
    }
  }

  lemma GivenIsFound(specs: Specs, nums: Numerals, e: Entry)
    requires Given(specs, nums, e).Some?
    ensures Find(specs, e.name).Some?
  {}

  /** What is wrong with an entry after others that were accepted. */
  ghost predicate Blames(specs: Specs, nums: Numerals, before: seq<Entry>, e: Entry, error: Error) {
    match error
    case Unknown(name, arg) => name == e.name && arg == e.arg && forall i: nat :: !Means(specs, e.name, i)
    case AlreadySet(i, arg) =>
      arg == e.arg && Means(specs, e.name, i) && exists k :: 0 <= k < |before| && Means(specs, before[k].name, i)
    case UnwantedValue(i, arg) =>
      arg == e.arg && Means(specs, e.name, i) && New(specs, before, i) && specs[i].kind.Flag? && e.value.Some?
    case NoValue(i, arg) =>
      arg == e.arg && Means(specs, e.name, i) && New(specs, before, i) && !specs[i].kind.Flag? && e.value.None?
    case BadValue(i, text) =>
      && Means(specs, e.name, i) && New(specs, before, i) && !specs[i].kind.Flag? && e.value == Some(text)
      && forall value :: !StandsFor(nums, specs[i].kind, text, value)
    case Missing(_) => false
  }

  /** No entry so far means the option. */
  ghost predicate New(specs: Specs, before: seq<Entry>, i: nat) {
    forall k :: 0 <= k < |before| ==> !Means(specs, before[k].name, i)
  }

  lemma SetOneBlames(specs: Specs, nums: Numerals, es: seq<Entry>, st: seq<Setting>, e: Entry, error: Error)
    requires Reflects(specs, nums, es, st)
    ensures SetOne(specs, nums, st, e) == Err(error) <==> Blames(specs, nums, es, e, error)
  {
    hide Convert, StandsFor, Find, Given;
    NameMeans(specs, e.name);
    var r := Find(specs, e.name);
    if r.Some? {
      var i := r.value;
      SetMeansSeen(specs, nums, es, st, i);
      if e.value.Some? {
        ConvertExactly(nums, specs[i].kind, e.value.value);
        var v := Convert(nums, specs[i].kind, e.value.value);
        assert v.None? <==> forall value :: !StandsFor(nums, specs[i].kind, e.value.value, value) by {
          if v.Some? { assert StandsFor(nums, specs[i].kind, e.value.value, v.value); }
        }
      }
      hide Means;
    } else {
      hide Means;
    }
  }

  lemma SetMeansSeen(specs: Specs, nums: Numerals, es: seq<Entry>, st: seq<Setting>, i: nat)
    requires Reflects(specs, nums, es, st) && i < |specs|
    ensures st[i].isSet <==> exists k :: 0 <= k < |es| && Means(specs, es[k].name, i)
    ensures !st[i].isSet <==> New(specs, es, i)
  {
    hide Given, Means, Find;
    forall k | 0 <= k < |es| ensures Means(specs, es[k].name, i) <==> Resolves(specs, es[k], i) {
      NameMeans(specs, es[k].name);
    }
    forall k | 0 <= k < |es| && Resolves(specs, es[k], i) ensures st[i].isSet {
      assert ReflectedAt(specs, nums, es[k], st);
    }
    if st[i].isSet {
      var k :| 0 <= k < |es| && Resolves(specs, es[k], i);
      assert Means(specs, es[k].name, i);
    }
  }

  /** Validation fails with an error exactly when the entries before some entry are fine and that one is to blame for it. */
  lemma {:induction false} ErrorExactly(specs: Specs, nums: Numerals, es: seq<Entry>, error: Error)
    ensures Apply(specs, nums, es) == Err(error)
            <==> exists k :: 0 <= k < |es| && AllAsk(specs, nums, es[..k]) && Blames(specs, nums, es[..k], es[k], error)
    decreases |es|
  {
    hide SetOne, Reflects, Acceptable, AllAsk, Blames;
    if |es| > 0 {
      var n := |es| - 1;
      var front := es[..n];
      ErrorExactly(specs, nums, front, error);
      ApplyIffAcceptable(specs, nums, front);
      AllAskExactly(specs, nums, front);
      var r := Apply(specs, nums, front);
      if r.Ok? {
        SetOneBlames(specs, nums, front, r.settings, es[n], error);
      } else {
        assert !AllAsk(specs, nums, front);
      }
      assert forall k :: 0 <= k < n ==> front[..k] == es[..k] && front[k] == es[k];
    }
  }

  /** The entry means a flag that ends parsing at once. */
  ghost predicate EndsAtOnce(specs: Specs, e: Entry, i: nat, use: FlagUse) {
    Means(specs, e.name, i) && specs[i].kind == Flag(use) && use != Plain
  }

  ghost predicate GoesOn(specs: Specs, e: Entry) {
    forall i: nat, use :: !EndsAtOnce(specs, e, i, use)
  }

  lemma ExitsExactly(specs: Specs, e: Entry)
    ensures Exits(specs, e) <==> !GoesOn(specs, e)
    ensures forall i: nat, use :: EndsAtOnce(specs, e, i, use)
              <==> Exits(specs, e) && Find(specs, e.name) == Some(i) && specs[i].kind == Flag(use)
  {
    hide Means, Find;
    NameMeans(specs, e.name);
    if Exits(specs, e) {
      var i := Find(specs, e.name).value;
      assert EndsAtOnce(specs, e, i, specs[i].kind.use);
    }
  }

  /** Parsing exits early exactly by the first entry that means a help, version or early-exit flag. */
  lemma ExitExactly(specs: Specs, nums: Numerals, es: seq<Entry>, use: FlagUse, i: nat)
    ensures Finish(specs, nums, es) == Exit(use, i)
            <==> exists k :: 0 <= k < |es| && EndsAtOnce(specs, es[k], i, use) && forall j :: 0 <= j < k ==> GoesOn(specs, es[j])
  {
    hide Apply, Find, EndsAtOnce, GoesOn, Exits;
    forall k | 0 <= k < |es|
      ensures Exits(specs, es[k]) <==> !GoesOn(specs, es[k])
      ensures EndsAtOnce(specs, es[k], i, use) ==> !GoesOn(specs, es[k])
      ensures EndsAtOnce(specs, es[k], i, use)
              <==> Exits(specs, es[k]) && Find(specs, es[k].name) == Some(i) && specs[i].kind == Flag(use)
    {
      ExitsExactly(specs, es[k]);
    }
    var x := FirstExit(specs, es);
    if x.Some? { ExitKind(specs, es[x.value]); }
  }

  lemma ExitKind(specs: Specs, e: Entry)
    requires Exits(specs, e)
    ensures Find(specs, e.name).Some? && specs[Find(specs, e.name).value].kind.Flag?
  {}

  /** A required option is reported missing exactly when nothing else is wrong and it is the first that no entry means. */
  lemma MissingExactly(specs: Specs, nums: Numerals, es: seq<Entry>, i: nat)
    ensures Finish(specs, nums, es) == Fatal(Missing(i))
            <==> && (forall k :: 0 <= k < |es| ==> GoesOn(specs, es[k])) && AllAsk(specs, nums, es)
                 && i < |specs| && specs[i].required && New(specs, es, i)
                 && forall j :: 0 <= j < i && specs[j].required ==> !New(specs, es, j)
  {
    hide Apply, Find, GoesOn, Exits, AllAsk, Acceptable, Reflects, New;
    forall k | 0 <= k < |es| ensures Exits(specs, es[k]) <==> !GoesOn(specs, es[k]) { ExitsExactly(specs, es[k]); }
    ApplyIffAcceptable(specs, nums, es);
    AllAskExactly(specs, nums, es);
    var r := Apply(specs, nums, es);
    if r.Ok? {
      forall j: nat | j < |specs| ensures !r.settings[j].isSet <==> New(specs, es, j) {
        SetMeansSeen(specs, nums, es, r.settings, j);
      }
    } else {
      NotMissing(specs, nums, es, i);
    }
  }

  /** Any other error ends parsing exactly when no entry exits early and some entry is to blame for it. */
  lemma FatalExactly(specs: Specs, nums: Numerals, es: seq<Entry>, error: Error)
    requires !error.Missing?
    ensures Finish(specs, nums, es) == Fatal(error)
            <==> && (forall k :: 0 <= k < |es| ==> GoesOn(specs, es[k]))
                 && exists k :: 0 <= k < |es| && AllAsk(specs, nums, es[..k]) && Blames(specs, nums, es[..k], es[k], error)
  {
    hide Apply, Find, GoesOn, Exits, AllAsk, Blames;
    forall k | 0 <= k < |es| ensures Exits(specs, es[k]) <==> !GoesOn(specs, es[k]) { ExitsExactly(specs, es[k]); }
    ErrorExactly(specs, nums, es, error);
  }

  /** Parsing returns normally exactly when no entry exits early, all entries are fine and every required option is there. */
  lemma DoneExactly(specs: Specs, nums: Numerals, es: seq<Entry>)
    ensures Finish(specs, nums, es).Done?
            <==> && (forall k :: 0 <= k < |es| ==> GoesOn(specs, es[k])) && AllAsk(specs, nums, es)
                 && forall i :: 0 <= i < |specs| && specs[i].required ==> !New(specs, es, i)
  {
    hide Apply, Find, GoesOn, Exits, AllAsk, Acceptable, Reflects, New;
    forall k | 0 <= k < |es| ensures Exits(specs, es[k]) <==> !GoesOn(specs, es[k]) { ExitsExactly(specs, es[k]); }
    ApplyIffAcceptable(specs, nums, es);
    AllAskExactly(specs, nums, es);
    var r := Apply(specs, nums, es);
    if r.Ok? {
      forall j: nat | j < |specs| ensures !r.settings[j].isSet <==> New(specs, es, j) {
        SetMeansSeen(specs, nums, es, r.settings, j);
      }
    }
  }

  lemma NotMissing(specs: Specs, nums: Numerals, es: seq<Entry>, i: nat)
    ensures Apply(specs, nums, es) != Err(Missing(i))
  {
    hide Apply, AllAsk;
    ErrorExactly(specs, nums, es, Missing(i));
  }

  /** On normal return an option is set exactly when one entry, and only one, resolves to it, and the required ones are. */
  lemma SetOnNormalReturn(specs: Specs, nums: Numerals, es: seq<Entry>, i: nat)
    requires Finish(specs, nums, es).Done? && i < |specs|
    ensures AllAsk(specs, nums, es) && |Finish(specs, nums, es).settings| == |specs|
    ensures var st := Finish(specs, nums, es).settings;
            && (st[i].isSet <==> exists k :: 0 <= k < |es| && Means(specs, es[k].name, i))
            && (forall j, k :: 0 <= j < |es| && 0 <= k < |es| && Means(specs, es[j].name, i) && Means(specs, es[k].name, i) ==> j == k)
            && (forall k :: 0 <= k < |es| && Means(specs, es[k].name, i) ==> Asks(specs, nums, es[k], i, st[i].value))
            && (!st[i].isSet ==> st[i].value == Default && !specs[i].required)
  {
    hide Given, Apply, Asks, Means, Acceptable;
    ApplyIffAcceptable(specs, nums, es);
    AllAskExactly(specs, nums, es);
    var st := Finish(specs, nums, es).settings;
    SetMeansSeen(specs, nums, es, st, i);
    forall k | 0 <= k < |es| && Means(specs, es[k].name, i) ensures Asks(specs, nums, es[k], i, st[i].value) {
      NameMeans(specs, es[k].name);
      AsksExactly(specs, nums, es[k]);
      assert ReflectedAt(specs, nums, es[k], st);
    }
  }

  // ---------------------------------------------------------------- messages aside

  ghost predicate SameEntry(e: Entry, f: Entry) { e.name == f.name && e.value == f.value }

  /** Equal entry for entry, the argument quoted in messages aside. */
  ghost predicate SameEntries(es: seq<Entry>, fs: seq<Entry>) {
    |es| == |fs| && forall k :: 0 <= k < |es| ==> SameEntry(es[k], fs[k])
  }

  /** An error without the argument it quotes. */
  function Blame(e: Error): Error {
    match e
    case Unknown(n, _) => Unknown(n, "")
    case AlreadySet(i, _) => AlreadySet(i, "")
    case UnwantedValue(i, _) => UnwantedValue(i, "")
    case NoValue(i, _) => NoValue(i, "")
    case BadValue(_, _) => e
    case Missing(_) => e
  }

  function Plainly(o: Outcome): Outcome {
    if o.Fatal? then Fatal(Blame(o.error)) else o
  }

  function PlainResult(r: Result): Result {
    if r.Err? then Err(Blame(r.error)) else r
  }

  lemma {:induction false} ApplySame(specs: Specs, nums: Numerals, es: seq<Entry>, fs: seq<Entry>)
    requires SameEntries(es, fs)
    ensures PlainResult(Apply(specs, nums, es)) == PlainResult(Apply(specs, nums, fs))
    decreases |es|
  {
    if |es| > 0 {
      hide SetOne, Blame;
      var n := |es| - 1;
      ApplySame(specs, nums, es[..n], fs[..n]);
      assert SameEntry(es[n], fs[n]);
      var r := Apply(specs, nums, es[..n]);
      if r.Ok? { SetOneSame(specs, nums, r.settings, es[n], fs[n]); }
    }
  }

  lemma SetOneSame(specs: Specs, nums: Numerals, st: seq<Setting>, e: Entry, f: Entry)
    requires |st| == |specs| && SameEntry(e, f)
    ensures PlainResult(SetOne(specs, nums, st, e)) == PlainResult(SetOne(specs, nums, st, f))
  {
    hide Convert, Find;
  }

  lemma FirstExitSame(specs: Specs, es: seq<Entry>, fs: seq<Entry>)
    requires SameEntries(es, fs)
    ensures FirstExit(specs, es) == FirstExit(specs, fs)
  {
    assert forall k :: 0 <= k < |es| ==> SameEntry(es[k], fs[k]) && (Exits(specs, es[k]) <==> Exits(specs, fs[k]));
  }

  /** Entries that are the same up to the quoted argument come to the same outcome up to the message. */
  lemma FinishSame(specs: Specs, nums: Numerals, es: seq<Entry>, fs: seq<Entry>)
    requires SameEntries(es, fs)
    ensures Plainly(Finish(specs, nums, es)) == Plainly(Finish(specs, nums, fs))
  {
    hide Apply, Find;
    ApplySame(specs, nums, es, fs);
    FirstExitSame(specs, es, fs);
    var x := FirstExit(specs, es);
    if x.Some? { assert SameEntry(es[x.value], fs[x.value]); }
  }
}

/** The options between the prefix and the payload of an address. */
module AddressOptions {
  import opened Text
  import opened Address
  import opened Wrappers

  datatype OptionsResult = Options(addressType: Option<AddressType>) | BadOption(option: string)

  /** An option is a key and a value with a dot between them. */
  predicate IsPair(option: string) {
    |Split(option, '.')| == 2
  }

  predicate GivesType(option: string) {
    IsPair(option) && Split(option, '.')[0] == "type"
  }

  function TypeGiven(option: string): AddressType
    requires IsPair(option)
  {
    ParseType(Split(option, '.')[1])
  }

  /** Two texts without dots, and a dot between them. */
  ghost predicate Joins(option: string, key: string, value: string) {
    option == key + "." + value && '.' !in key && '.' !in value
  }

  lemma JoinedSplits(option: string, key: string, value: string)
    requires Joins(option, key, value)
    ensures Split(option, '.') == [key, value]
  {
    SplitFirst(key, value, '.');
    SplitWhole(value, '.');
  }

  lemma PairIff(option: string)
    ensures IsPair(option) <==> exists key, value :: Joins(option, key, value)
  {
    if IsPair(option) {
      SplitInTwo(option, '.');
      assert Joins(option, Split(option, '.')[0], Split(option, '.')[1]);
    }
    if key, value :| Joins(option, key, value) {
      JoinedSplits(option, key, value);
    }
  }

  /** The options that give a type are those made of `type.` and a name without a dot. */
  lemma GivesTypeIff(option: string, name: string)
    requires '.' !in name
    ensures GivesType(option) && Split(option, '.')[1] == name <==> option == "type." + name
    ensures option == "type." + name ==> TypeGiven(option) == ParseType(name)
  {
    if IsPair(option) {
      SplitInTwo(option, '.');
    }
    if option == "type." + name {
      JoinedSplits(option, "type", name);
    }
  }

  /** The type the options ask for, read from the left; keys other than `type` are ignored. */
  function ParseOptions(options: seq<string>): OptionsResult {
    if options == [] then Options(None)
    else
      match ParseOptions(options[..|options| - 1])
      case BadOption(o) => BadOption(o)
      case Options(t) =>
        var option := options[|options| - 1];
        if !IsPair(option) then BadOption(option)
        else if GivesType(option) then Options(Some(TypeGiven(option)))
        else Options(t)
  }

  // ---------------------------------------------------------------------------------------
  // What the options mean
  // ---------------------------------------------------------------------------------------

  ghost predicate FirstBad(options: seq<string>, i: nat) {
    i < |options| && !IsPair(options[i]) && forall j | 0 <= j < i :: IsPair(options[j])
  }

  ghost predicate LastType(options: seq<string>, i: nat) {
    i < |options| && GivesType(options[i]) && forall j | i < j < |options| :: !GivesType(options[j])
  }

  ghost predicate AllPairs(options: seq<string>) {
    forall i | 0 <= i < |options| :: IsPair(options[i])
  }

  /** The first option that is no pair, or else the type of the last option that gives one, if any. */
  ghost predicate Describes(options: seq<string>, r: OptionsResult) {
    match r
    case BadOption(option) => exists i: nat :: FirstBad(options, i) && option == options[i]
    case Options(None) => AllPairs(options) && forall i | 0 <= i < |options| :: !GivesType(options[i])
    case Options(Some(t)) =>
      AllPairs(options) && exists i: nat :: LastType(options, i) && t == TypeGiven(options[i])
  }

  lemma DescribesLonger(options: seq<string>, option: string, r: OptionsResult)
    requires Describes(options, r)
    ensures r.BadOption? ==> Describes(options + [option], r)
    ensures r.Options? && !IsPair(option) ==> Describes(options + [option], BadOption(option))
    ensures r.Options? && IsPair(option) && !GivesType(option) ==> Describes(options + [option], r)
    ensures r.Options? && GivesType(option) ==> Describes(options + [option], Options(Some(TypeGiven(option))))
  {
    var longer := options + [option];
    assert longer[|options|] == option && forall j | 0 <= j < |options| :: longer[j] == options[j];
    match r
    case BadOption(o) =>
      var i: nat :| FirstBad(options, i) && o == options[i];
      assert FirstBad(longer, i);
    case Options(t) =>
      if !IsPair(option) {
        assert FirstBad(longer, |options|);
      } else if GivesType(option) {
        assert LastType(longer, |options|);
      } else if t.Some? {
        var i: nat :| LastType(options, i) && t.value == TypeGiven(options[i]);
        assert LastType(longer, i);
      }
  }

  lemma {:induction false} ParsedDescribes(options: seq<string>)
    ensures Describes(options, ParseOptions(options))
  {
    if options != [] {
      var init, last := options[..|options| - 1], options[|options| - 1];
      ParsedDescribes(init);
      DescribesLonger(init, last, ParseOptions(init));
      assert options == init + [last];
    }
  }

  /** Only one result describes the options. */
  lemma DescribesOne(options: seq<string>, r: OptionsResult, r': OptionsResult)
    requires Describes(options, r) && Describes(options, r')
    ensures r == r'
  {
    if r.BadOption? && r'.BadOption? {
      var i: nat :| FirstBad(options, i) && r.option == options[i];
      var j: nat :| FirstBad(options, j) && r'.option == options[j];
      assert i == j;
    } else if r.Options? && r.addressType.Some? && r'.Options? && r'.addressType.Some? {
      var i: nat :| LastType(options, i) && r.addressType.value == TypeGiven(options[i]);
      var j: nat :| LastType(options, j) && r'.addressType.value == TypeGiven(options[j]);
      assert i == j;
    }
  }

  // ---------------------------------------------------------------------------------------
  // The loop
  // ---------------------------------------------------------------------------------------

  /** The loop over the options as written. */
  method ScanOptions(options: seq<string>) returns (r: OptionsResult)
    ensures Describes(options, r) && r == ParseOptions(options)
  {
    ParsedDescribes(options);
    var addressType := None;
    for i := 0 to |options|
      invariant ParseOptions(options[..i]) == Options(addressType)
    {
      assert options[..i + 1][..i] == options[..i];
      var pair := Split(options[i], '.');
      if |pair| != 2 {
        BadOptionStays(options, i + 1);
        return BadOption(options[i]);
      }
      if pair[0] == "type" {
        addressType := Some(ParseType(pair[1]));
      }
    }
    assert options[..|options|] == options;
    r := Options(addressType);
  }

  lemma {:induction false} BadOptionStays(options: seq<string>, i: nat)
    requires i <= |options| && ParseOptions(options[..i]).BadOption?
    ensures ParseOptions(options) == ParseOptions(options[..i])
  {
    if i == |options| {
      assert options[..i] == options;
    } else {
      var init := options[..|options| - 1];
      assert init[..i] == options[..i];
      BadOptionStays(init, i);
    }
  }
}

/** The command line that `CApplication` hands to a restarted application: the arguments of the
    running one, less the options that are removed or given anew. */
module CommandLine {
  import opened Basics

  /** `QCommandLineOption`: alias names without dashes; an option with a value name takes a value. */
  datatype CommandOption = CommandOption(names: seq<string>, valueName: string) {
    predicate TakesValue() {
      valueName != ""
    }
  }

  function LowerChar(c: char): char {
    if 'A' <= c <= 'Z' then c + ('a' - 'A') else c
  }

  function Lower(s: string): string {
    seq(|s|, i requires 0 <= i < |s| => LowerChar(s[i]))
  }

  predicate StartsWithDash(arg: string) {
    "-" <= arg
  }

  /** Is the name in the list, in whatever case? */
  predicate ContainsName(names: seq<string>, name: string) {
    names != [] && (Lower(names[0]) == Lower(name) || ContainsName(names[1..], name))
  }

  predicate Names(option: CommandOption, arg: string) {
    StartsWithDash(arg) && ContainsName(option.names, if "--" <= arg then arg[2..] else arg[1..])
  }

  function FirstNamed(option: CommandOption, args: seq<string>): (index: int)
    ensures -1 <= index < |args| && (index >= 0 ==> Names(option, args[index]))
  {
    if args == [] then -1
    else if Names(option, args[0]) then 0
    else
      var index := FirstNamed(option, args[1..]);
      if index < 0 then -1 else index + 1
  }

  lemma {:induction false} NoneNamedBefore(option: CommandOption, args: seq<string>, i: nat)
    requires i < |args| && Names(option, args[i])
    ensures 0 <= FirstNamed(option, args) <= i
  {
    if i > 0 {
      NoneNamedBefore(option, args[1..], i - 1);
    }
  }

  function RemoveAt(args: seq<string>, index: nat): seq<string>
    requires index < |args|
  {
    args[..index] + args[index + 1..]
  }

  function WithoutOption(option: CommandOption, args: seq<string>): seq<string> {
    var index := FirstNamed(option, args);
    if index < 0 then args
    else
      var removed := RemoveAt(args, index);
      if option.TakesValue() && |removed| > index then RemoveAt(removed, index) else removed
  }

  /** Without the executable, if there is one. */
  function Body(args: seq<string>): seq<string> {
    if args != [] && !StartsWithDash(args[0]) then args[1..] else args
  }

  function Dashed(args: seq<string>): seq<string> {
    if args == [] then [] else (if StartsWithDash(args[0]) then [args[0]] else []) + Dashed(args[1..])
  }

  /** `removeDuplicates`: the first of equal strings stays. */
  function Distinct(args: seq<string>): seq<string> {
    if args == [] then []
    else
      var n := |args| - 1;
      Distinct(args[..n]) + (if args[n] in args[..n] then [] else [args[n]])
  }

  function ToBeRemoved(added: seq<string>, removals: seq<string>): seq<string> {
    Distinct(Dashed(added) + Dashed(removals) + ["--installer"])
  }

  /** `args` without those of the first `n` options that the removed arguments name. */
  function WithoutNamed(options: seq<CommandOption>, removed: seq<string>, args: seq<string>, n: nat): seq<string>
    requires n <= |options|
  {
    if n == 0 then args
    else
      var rest := WithoutNamed(options, removed, args, n - 1);
      if FirstNamed(options[n - 1], removed) >= 0 then WithoutOption(options[n - 1], rest) else rest
  }

  function Joined(options: seq<CommandOption>, running: seq<string>, added: seq<string>,
                  removals: seq<string>): seq<string> {
    WithoutNamed(options, ToBeRemoved(Body(added), removals), Body(running), |options|) + Body(added)
  }

  method FilterDashed(args: seq<string>) returns (dashed: seq<string>)
    ensures dashed == Dashed(args)
  {
    dashed := [];
    for i := 0 to |args|
      invariant dashed + Dashed(args[i..]) == Dashed(args)
    {
      if StartsWithDash(args[i]) { dashed := dashed + [args[i]]; }
    }
  }

  method RemoveDuplicates(args: seq<string>) returns (distinct: seq<string>)
    ensures distinct == Distinct(args)
  {
    distinct := [];
    for i := 0 to |args|
      invariant distinct == Distinct(args[..i])
    {
      DistinctKeepsMembers(args[..i]);
      assert args[..i + 1][..i] == args[..i];
      if args[i] !in distinct { distinct := distinct + [args[i]]; }
    }
    assert args[..|args|] == args;
  }

  lemma {:induction false} DistinctKeepsMembers(args: seq<string>)
    ensures forall arg :: arg in Distinct(args) <==> arg in args
  {
    if args != [] {
      DistinctKeepsMembers(args[..|args| - 1]);
    }
  }

  lemma NoArgumentsStayNone(options: seq<CommandOption>, removed: seq<string>, n: nat)
    requires n <= |options|
    ensures WithoutNamed(options, removed, [], n) == []
  {
  }

  /** There is always something to remove, so only an empty command line is passed over. */
  lemma NothingToRemove(options: seq<CommandOption>, added: seq<string>, removals: seq<string>, args: seq<string>)
    requires args == [] || ToBeRemoved(added, removals) == []
    ensures WithoutNamed(options, ToBeRemoved(added, removals), args, |options|) == args
  {
    var all := Dashed(added) + Dashed(removals) + ["--installer"];
    DistinctKeepsMembers(all);
    assert all[|all| - 1] in ToBeRemoved(added, removals);
    NoArgumentsStayNone(options, ToBeRemoved(added, removals), |options|);
  }

  class Application {
    var arguments: seq<string>
    var allOptions: seq<CommandOption>

    constructor (arguments: seq<string>)
      ensures this.arguments == arguments && allOptions == []
    {
      this.arguments, allOptions := arguments, [];
    }

    method AddParserOption(option: CommandOption)
      modifies this`allOptions
      ensures allOptions == old(allOptions) + [option]
    {
      allOptions := allOptions + [option];
    }

    static method IndexOfCommandLineOption(option: CommandOption, args: seq<string>) returns (index: int)
      ensures index == FirstNamed(option, args)
    {
      if option.names == [] || args == [] { return -1; }
      for i := 0 to |args|
        invariant FirstNamed(option, args) ==
                  if FirstNamed(option, args[i..]) < 0 then -1 else i + FirstNamed(option, args[i..])
      {
        if Names(option, args[i]) { return i; }
        assert args[i..][1..] == args[i + 1..];
      }
      index := -1;
    }

    static method ArgumentsWithoutOption(option: CommandOption, args: seq<string>) returns (left: seq<string>)
      ensures left == WithoutOption(option, args)
    {
      left := args;
      var index := IndexOfCommandLineOption(option, left);
      if index < 0 { return; }
      left := RemoveAt(left, index);
      if option.valueName != "" && |left| > index { left := RemoveAt(left, index); }
    }

    method ArgumentsJoined(newArguments: seq<string>, removeArguments: seq<string>) returns (joined: seq<string>)
      ensures joined == Joined(allOptions, arguments, newArguments, removeArguments)
    {
      joined := arguments;
      var added := newArguments;
      if joined != [] && !StartsWithDash(joined[0]) { joined := joined[1..]; }
      if added != [] && !StartsWithDash(added[0]) { added := added[1..]; }
      assert joined == Body(arguments) && added == Body(newArguments);
      var toBeRemoved := FilterDashed(added);
      var removals := FilterDashed(removeArguments);
      toBeRemoved := RemoveDuplicates(toBeRemoved + removals + ["--installer"]);
      assert toBeRemoved == ToBeRemoved(added, removeArguments);
      if joined != [] && toBeRemoved != [] {
        ghost var running := joined;
        for n := 0 to |allOptions|
          invariant joined == WithoutNamed(allOptions, toBeRemoved, running, n)
        {
          var index := IndexOfCommandLineOption(allOptions[n], toBeRemoved);
          if index >= 0 { joined := ArgumentsWithoutOption(allOptions[n], joined); }
        }
      } else {
        NothingToRemove(allOptions, added, removeArguments, joined);
      }
      joined := joined + added;
    }
  }

  // ---------------------------------------------------------------------------
  // What a command line means
  // ---------------------------------------------------------------------------

  /** `Known` is the `k`-th option as written with its value; `Other` is any other argument. */
  datatype Item = Known(k: nat, arg: string, value: Option<string>) | Other(arg: string)

  predicate IsNamed(options: seq<CommandOption>, arg: string) {
    exists k :: 0 <= k < |options| && Names(options[k], arg)
  }

  /** The option an argument names, -1 for none. */
  function Owner(options: seq<CommandOption>, arg: string): (k: int)
    ensures k < |options| && (k >= 0 ==> Names(options[k], arg))
    ensures k < 0 ==> !IsNamed(options, arg)
  {
    if options == [] then -1
    else if Names(options[|options| - 1], arg) then |options| - 1
    else Owner(options[..|options| - 1], arg)
  }

  /** The parser: an option that takes a value takes the next argument, whatever it is. */
  function Items(options: seq<CommandOption>, args: seq<string>): seq<Item>
    decreases |args|
  {
    if args == [] then []
    else
      var k := Owner(options, args[0]);
      if k < 0 then [Other(args[0])] + Items(options, args[1..])
      else if options[k].TakesValue() && |args| > 1 then [Known(k, args[0], Some(args[1]))] + Items(options, args[2..])
      else [Known(k, args[0], None)] + Items(options, args[1..])
  }

  function Written(item: Item): seq<string> {
    if item.Known? && item.value.Some? then [item.arg, item.value.value] else [item.arg]
  }

  function Flatten(items: seq<Item>): seq<string> {
    if items == [] then [] else Written(items[0]) + Flatten(items[1..])
  }

  /** No argument names two options. */
  ghost predicate DisjointNames(options: seq<CommandOption>) {
    forall i, j, arg | 0 <= i < j < |options| :: !(Names(options[i], arg) && Names(options[j], arg))
  }

  /** Does the argument name one of these options? */
  predicate NamesOneOf(options: seq<CommandOption>, some: set<nat>, arg: string) {
    exists k :: k in some && k < |options| && Names(options[k], arg)
  }

  /** The option has its value if it takes one, and the value names none of the `named` options. */
  predicate GoodItem(options: seq<CommandOption>, named: set<nat>, item: Item) {
    match item
    case Known(k, arg, value) =>
      && k < |options| && Names(options[k], arg)
      && value.Some? == options[k].TakesValue()
      && (value.Some? ==> !NamesOneOf(options, named, value.value))
    case Other(arg) => !IsNamed(options, arg)
  }

  predicate Good(options: seq<CommandOption>, named: set<nat>, items: seq<Item>) {
    forall item | item in items :: GoodItem(options, named, item)
  }

  /** What the options are set to; of repeated options the last counts. */
  function Settings(items: seq<Item>): map<nat, Option<string>> {
    if items == [] then map[]
    else (if items[0].Known? then map[items[0].k := items[0].value] else map[]) + Settings(items[1..])
  }

  function Others(items: seq<Item>): seq<Item> {
    if items == [] then [] else (if items[0].Other? then [items[0]] else []) + Others(items[1..])
  }

  function Count(items: seq<Item>, k: nat): nat {
    if items == [] then 0 else (if items[0].Known? && items[0].k == k then 1 else 0) + Count(items[1..], k)
  }

  predicate NamesAny(option: CommandOption, args: seq<string>) {
    exists arg :: arg in args && Names(option, arg)
  }

  /** Is the option named in the new arguments, in those to remove, or the installer option? */
  predicate Named(options: seq<CommandOption>, added: seq<string>, removals: seq<string>, k: nat)
    requires k < |options|
  {
    NamesAny(options[k], added + removals + ["--installer"])
  }
}

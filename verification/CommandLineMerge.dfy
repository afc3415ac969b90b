/** What the joined command line means: the options of the running application without the named
    ones, overridden by the new ones. */
module CommandLineMerge {
  import opened Basics
  import opened CommandLine

  // ---------------------------------------------------------------------------
  // Names
  // ---------------------------------------------------------------------------

  /** The same letters, in whatever case. */
  predicate SameLetters(s: string, t: string) {
    |s| == |t| && forall i | 0 <= i < |s| ::
      || s[i] == t[i]
      || ('A' <= s[i] <= 'Z' && 'a' <= t[i] <= 'z' && t[i] - s[i] == ' ')
      || ('A' <= t[i] <= 'Z' && 'a' <= s[i] <= 'z' && s[i] - t[i] == ' ')
  }

  lemma LowerIff(s: string, t: string)
    ensures Lower(s) == Lower(t) <==> SameLetters(s, t)
  {
    if Lower(s) == Lower(t) {
      forall i | 0 <= i < |s|
        ensures || s[i] == t[i]
                || ('A' <= s[i] <= 'Z' && 'a' <= t[i] <= 'z' && t[i] - s[i] == ' ')
                || ('A' <= t[i] <= 'Z' && 'a' <= s[i] <= 'z' && s[i] - t[i] == ' ')
      {
        assert Lower(s)[i] == Lower(t)[i];
      }
    }
  }

  /** An argument names an option exactly if it is one or two dashes and one of its names, in whatever
      case; two dashes are not taken for one and a name that begins with a dash. */
  lemma NamesIff(option: CommandOption, arg: string)
    ensures Names(option, arg) <==>
            && |arg| >= 1 && arg[0] == '-'
            && exists i :: 0 <= i < |option.names|
                           && SameLetters(option.names[i], if |arg| >= 2 && arg[1] == '-' then arg[2..] else arg[1..])
  {
    if |arg| >= 1 && arg[0] == '-' {
      ContainsNameIff(option.names, if |arg| >= 2 && arg[1] == '-' then arg[2..] else arg[1..]);
    }
  }

  lemma {:induction false} ContainsNameIff(names: seq<string>, name: string)
    ensures ContainsName(names, name) <==> exists i :: 0 <= i < |names| && SameLetters(names[i], name)
  {
    if names != [] {
      ContainsNameIff(names[1..], name);
      LowerIff(names[0], name);
      if i :| 0 <= i < |names| && SameLetters(names[i], name) {
        assert i > 0 ==> names[1..][i - 1] == names[i];
      }
    }
  }

  // ---------------------------------------------------------------------------
  // The parser
  // ---------------------------------------------------------------------------

  lemma {:induction false} OwnerIsUnique(options: seq<CommandOption>, arg: string, k: nat)
    requires DisjointNames(options) && k < |options| && Names(options[k], arg)
    ensures Owner(options, arg) == k
  {
    var n := |options| - 1;
    if k < n {
      OwnerIsUnique(options[..n], arg, k);
    }
  }

  lemma {:induction false} FlattenAppend(a: seq<Item>, b: seq<Item>)
    ensures Flatten(a + b) == Flatten(a) + Flatten(b)
  {
    if a == [] {
      assert a + b == b;
    } else {
      assert (a + b)[1..] == a[1..] + b;
      FlattenAppend(a[1..], b);
    }
  }

  lemma Assoc<T>(a: seq<T>, b: seq<T>, c: seq<T>)
    ensures (a + b) + c == a + (b + c)
  {
  }

  lemma FlattenCons(item: Item, rest: seq<Item>)
    ensures Flatten([item] + rest) == Written(item) + Flatten(rest)
  {
    assert ([item] + rest)[1..] == rest;
  }

  /** The first item as parsed, and how many arguments it takes. */
  lemma FirstItem(options: seq<CommandOption>, args: seq<string>) returns (item: Item, n: nat)
    requires args != []
    ensures 1 <= n <= |args| && Written(item) == args[..n]
    ensures Items(options, args) == [item] + Items(options, args[n..])
  {
    var k := Owner(options, args[0]);
    if k >= 0 && options[k].TakesValue() && |args| > 1 {
      item, n := Known(k, args[0], Some(args[1])), 2;
    } else {
      item, n := if k < 0 then Other(args[0]) else Known(k, args[0], None), 1;
    }
  }

  /** Parsing loses nothing. */
  lemma {:induction false} FlattenItems(options: seq<CommandOption>, args: seq<string>)
    ensures Flatten(Items(options, args)) == args
    decreases |args|
  {
    if args != [] {
      var item, n := FirstItem(options, args);
      FlattenItems(options, args[n..]);
      FlattenCons(item, Items(options, args[n..]));
      assert args == args[..n] + args[n..];
    }
  }

  lemma ItemsOfOne(options: seq<CommandOption>, item: Item, args: seq<string>)
    requires DisjointNames(options) && GoodItem(options, {}, item)
    ensures Items(options, Written(item) + args) == [item] + Items(options, args)
  {
    var all := Written(item) + args;
    if item.Known? {
      OwnerIsUnique(options, item.arg, item.k);
    }
    assert all[|Written(item)|..] == args;
  }

  /** Complete arguments parse the same whatever follows them. */
  lemma {:induction false} ItemsOfGood(options: seq<CommandOption>, items: seq<Item>, args: seq<string>)
    requires DisjointNames(options) && Good(options, {}, items)
    ensures Items(options, Flatten(items) + args) == items + Items(options, args)
  {
    if items == [] {
      assert Flatten(items) + args == args;
    } else {
      var item, rest := items[0], items[1..];
      ItemsOfGood(options, rest, args);
      assert GoodItem(options, {}, item);
      ItemsOfOne(options, item, Flatten(rest) + args);
      Assoc(Written(item), Flatten(rest), args);
      assert items == [item] + rest;
      Assoc([item], rest, Items(options, args));
    }
  }

  // ---------------------------------------------------------------------------
  // Removing options
  // ---------------------------------------------------------------------------

  function DropFirst(items: seq<Item>, k: nat): seq<Item> {
    if items == [] then []
    else if items[0].Known? && items[0].k == k then items[1..]
    else [items[0]] + DropFirst(items[1..], k)
  }

  /** One pass over the items: the first of each named option goes, all else stays in its order. */
  function Sweep(items: seq<Item>, named: set<nat>): seq<Item> {
    if items == [] then []
    else if items[0].Known? && items[0].k in named then Sweep(items[1..], named - {items[0].k})
    else [items[0]] + Sweep(items[1..], named)
  }

  lemma {:induction false} FirstNamedAfter(option: CommandOption, before: seq<string>, rest: seq<string>)
    requires forall arg | arg in before :: !Names(option, arg)
    ensures FirstNamed(option, before + rest) ==
            if FirstNamed(option, rest) < 0 then -1 else |before| + FirstNamed(option, rest)
  {
    if before == [] {
      assert before + rest == rest;
    } else {
      assert (before + rest)[1..] == before[1..] + rest;
      FirstNamedAfter(option, before[1..], rest);
    }
  }

  lemma WithoutOptionAfter(option: CommandOption, before: seq<string>, rest: seq<string>)
    requires forall arg | arg in before :: !Names(option, arg)
    ensures WithoutOption(option, before + rest) == before + WithoutOption(option, rest)
  {
    FirstNamedAfter(option, before, rest);
    var index := FirstNamed(option, rest);
    if index >= 0 {
      var removed := RemoveAt(rest, index);
      RemoveAtAfter(before, rest, index);
      if option.TakesValue() && |removed| > index {
        RemoveAtAfter(before, removed, index);
      }
    }
  }

  lemma RemoveAtAfter(before: seq<string>, rest: seq<string>, index: nat)
    requires index < |rest|
    ensures RemoveAt(before + rest, |before| + index) == before + RemoveAt(rest, index)
  {
  }

  /** Cutting strings out of a complete list without values that name the option takes out exactly
      the first item of the option. */
  lemma {:induction false} WithoutOptionDropsItem(options: seq<CommandOption>, items: seq<Item>, k: nat)
    requires DisjointNames(options) && Good(options, {k}, items) && k < |options|
    ensures WithoutOption(options[k], Flatten(items)) == Flatten(DropFirst(items, k))
  {
    if items != [] {
      var item, rest := items[0], items[1..];
      assert GoodItem(options, {k}, item);
      if item.Known? && item.k == k {
        assert Flatten(items)[0] == item.arg;
        assert FirstNamed(options[k], Flatten(items)) == 0;
        assert RemoveAt(Flatten(items), 0) == Written(item)[1..] + Flatten(rest);
      } else {
        assert forall arg | arg in Written(item) :: !Names(options[k], arg);
        WithoutOptionAfter(options[k], Written(item), Flatten(rest));
        WithoutOptionDropsItem(options, rest, k);
      }
    }
  }

  lemma {:induction false} DropFirstSweeps(items: seq<Item>, named: set<nat>, k: nat)
    requires k !in named
    ensures DropFirst(Sweep(items, named), k) == Sweep(items, named + {k})
  {
    if items != [] {
      var item, rest := items[0], items[1..];
      if item.Known? && item.k in named {
        DropFirstSweeps(rest, named - {item.k}, k);
        assert named - {item.k} + {k} == named + {k} - {item.k};
      } else if item.Known? && item.k == k {
        assert named + {k} - {k} == named;
      } else {
        DropFirstSweeps(rest, named, k);
      }
    }
  }

  lemma {:induction false} SweepNothing(items: seq<Item>)
    ensures Sweep(items, {}) == items
  {
    if items != [] {
      SweepNothing(items[1..]);
    }
  }

  lemma {:induction false} SweepKeepsGood(options: seq<CommandOption>, some: set<nat>, items: seq<Item>,
                                          named: set<nat>)
    requires Good(options, some, items)
    ensures Good(options, some, Sweep(items, named))
  {
    if items != [] {
      var item := items[0];
      SweepKeepsGood(options, some, items[1..], if item.Known? && item.k in named then named - {item.k} else named);
    }
  }

  lemma {:induction false} DashedMembers(args: seq<string>)
    ensures forall arg :: arg in Dashed(args) <==> arg in args && StartsWithDash(arg)
  {
    if args != [] {
      DashedMembers(args[1..]);
      assert args == [args[0]] + args[1..];
    }
  }

  lemma RemovedNames(options: seq<CommandOption>, added: seq<string>, removals: seq<string>, k: nat)
    requires k < |options|
    ensures FirstNamed(options[k], ToBeRemoved(added, removals)) >= 0 <==> Named(options, added, removals, k)
  {
    var all := Dashed(added) + Dashed(removals) + ["--installer"];
    DashedMembers(added);
    DashedMembers(removals);
    DistinctKeepsMembers(all);
    var removed := ToBeRemoved(added, removals);
    assert forall arg | Names(options[k], arg) :: arg in removed <==> arg in added + removals + ["--installer"];
    FirstNamedIff(options[k], removed);
  }

  lemma FirstNamedIff(option: CommandOption, args: seq<string>)
    ensures FirstNamed(option, args) >= 0 <==> NamesAny(option, args)
  {
    if arg :| arg in args && Names(option, arg) {
      var i :| 0 <= i < |args| && args[i] == arg;
      NoneNamedBefore(option, args, i);
    }
  }

  /** The options among the first `n` that the removed arguments name. */
  function NamedIn(options: seq<CommandOption>, removed: seq<string>, n: nat): set<nat>
    requires n <= |options|
  {
    if n == 0 then {}
    else NamedIn(options, removed, n - 1) + if FirstNamed(options[n - 1], removed) >= 0 then {n - 1} else {}
  }

  lemma {:induction false} NamedInMembers(options: seq<CommandOption>, removed: seq<string>, n: nat)
    requires n <= |options|
    ensures forall k: nat :: k in NamedIn(options, removed, n) <==> k < n && FirstNamed(options[k], removed) >= 0
  {
    if n > 0 {
      NamedInMembers(options, removed, n - 1);
    }
  }

  lemma OneMoreSwept(options: seq<CommandOption>, items: seq<Item>, named: set<nat>, k: nat)
    requires DisjointNames(options) && Good(options, {k}, items) && k < |options| && k !in named
    ensures WithoutOption(options[k], Flatten(Sweep(items, named))) == Flatten(Sweep(items, named + {k}))
  {
    SweepKeepsGood(options, {k}, items, named);
    WithoutOptionDropsItem(options, Sweep(items, named), k);
    DropFirstSweeps(items, named, k);
  }

  lemma FewerNamed(options: seq<CommandOption>, named: set<nat>, fewer: set<nat>, items: seq<Item>)
    requires Good(options, named, items)
    requires forall k | k in fewer && k < |options| :: k in named
    ensures Good(options, fewer, items)
  {
    forall item | item in items ensures GoodItem(options, fewer, item) {
      assert GoodItem(options, named, item);
    }
  }

  /** Then the loop over all options is one sweep. */
  lemma {:induction false} LoopSweeps(options: seq<CommandOption>, removed: seq<string>, items: seq<Item>, n: nat)
    requires DisjointNames(options) && n <= |options| && Good(options, NamedIn(options, removed, n), items)
    ensures WithoutNamed(options, removed, Flatten(items), n) == Flatten(Sweep(items, NamedIn(options, removed, n)))
  {
    if n == 0 {
      SweepNothing(items);
    } else {
      var named := NamedIn(options, removed, n - 1);
      FewerNamed(options, NamedIn(options, removed, n), named, items);
      LoopSweeps(options, removed, items, n - 1);
      if FirstNamed(options[n - 1], removed) >= 0 {
        NamedInMembers(options, removed, n - 1);
        FewerNamed(options, NamedIn(options, removed, n), {n - 1}, items);
        OneMoreSwept(options, items, named, n - 1);
      } else {
        assert named + {} == named;
      }
    }
  }

  /** All the options named by the new arguments, the ones to remove, or as the installer. */
  function NamedOptions(options: seq<CommandOption>, added: seq<string>, removals: seq<string>): set<nat> {
    set k: nat | k < |options| && Named(options, Body(added), removals, k)
  }

  lemma NamedOptionsAreRemoved(options: seq<CommandOption>, added: seq<string>, removals: seq<string>)
    ensures NamedIn(options, ToBeRemoved(Body(added), removals), |options|) == NamedOptions(options, added, removals)
  {
    NamedInMembers(options, ToBeRemoved(Body(added), removals), |options|);
    forall k: nat | k < |options|
      ensures FirstNamed(options[k], ToBeRemoved(Body(added), removals)) >= 0 <==>
              Named(options, Body(added), removals, k)
    {
      RemovedNames(options, Body(added), removals, k);
    }
  }

  /** The arguments parse into options with their values, and no value names a `named` option. */
  predicate Parses(options: seq<CommandOption>, named: set<nat>, args: seq<string>) {
    Good(options, named, Items(options, Body(args)))
  }

  /** The joined list, as written and as parsed: the old items without the first of each named
      option, then all the new arguments. */
  lemma JoinedItems(options: seq<CommandOption>, running: seq<string>, added: seq<string>, removals: seq<string>)
    requires DisjointNames(options) && Parses(options, NamedOptions(options, added, removals), running)
    ensures var kept := Sweep(Items(options, Body(running)), NamedOptions(options, added, removals));
            && Good(options, NamedOptions(options, added, removals), kept)
            && Joined(options, running, added, removals) == Flatten(kept) + Body(added)
            && Items(options, Joined(options, running, added, removals)) == kept + Items(options, Body(added))
  {
    var items := Items(options, Body(running));
    FlattenItems(options, Body(running));
    var named := NamedOptions(options, added, removals);
    NamedOptionsAreRemoved(options, added, removals);
    LoopSweeps(options, ToBeRemoved(Body(added), removals), items, |options|);
    SweepKeepsGood(options, named, items, named);
    FewerNamed(options, named, {}, Sweep(items, named));
    ItemsOfGood(options, Sweep(items, named), Body(added));
  }

  // ---------------------------------------------------------------------------
  // Meaning
  // ---------------------------------------------------------------------------

  lemma OverrideAssoc(a: map<nat, Option<string>>, b: map<nat, Option<string>>, c: map<nat, Option<string>>)
    ensures (a + b) + c == a + (b + c)
  {
  }

  lemma {:induction false} SettingsAppend(a: seq<Item>, b: seq<Item>)
    ensures Settings(a + b) == Settings(a) + Settings(b)
  {
    if a == [] {
      assert a + b == b;
    } else {
      assert (a + b)[1..] == a[1..] + b;
      SettingsAppend(a[1..], b);
      var head := if a[0].Known? then map[a[0].k := a[0].value] else map[];
      assert Settings(a + b) == head + Settings(a[1..] + b);
      OverrideAssoc(head, Settings(a[1..]), Settings(b));
    }
  }

  lemma {:induction false} CountAppend(a: seq<Item>, b: seq<Item>, k: nat)
    ensures Count(a + b, k) == Count(a, k) + Count(b, k)
  {
    if a == [] {
      assert a + b == b;
    } else {
      assert (a + b)[1..] == a[1..] + b;
      CountAppend(a[1..], b, k);
    }
  }

  lemma {:induction false} SetIffCounted(items: seq<Item>, k: nat)
    ensures k in Settings(items) <==> Count(items, k) > 0
  {
    if items != [] {
      SetIffCounted(items[1..], k);
    }
  }

  lemma {:induction false} SweepCounts(items: seq<Item>, named: set<nat>, k: nat)
    ensures Count(Sweep(items, named), k) ==
            if k in named && Count(items, k) > 0 then Count(items, k) - 1 else Count(items, k)
  {
    if items != [] {
      var item := items[0];
      if item.Known? && item.k in named {
        SweepCounts(items[1..], named - {item.k}, k);
      } else {
        SweepCounts(items[1..], named, k);
        assert Sweep(items, named)[1..] == Sweep(items[1..], named);
      }
    }
  }

  lemma OverrideAll(head: map<nat, Option<string>>, a: map<nat, Option<string>>, b: map<nat, Option<string>>,
                    all: set<nat>)
    requires a - all == b - all
    ensures (head + a) - all == (head + b) - all
    ensures head.Keys <= all ==> (head + a) - all == b - all
  {
    forall k | k !in all ensures (k in a <==> k in b) && (k in a ==> a[k] == b[k]) {
      assert k in a - all <==> k in b - all;
      assert k in a ==> (a - all)[k] == (b - all)[k];
    }
    assert forall k :: k in (head + a) - all <==> k in (head + b) - all;
    assert (head + a) - all == (head + b) - all;
  }

  lemma {:induction false} SweepKeepsUnnamed(items: seq<Item>, named: set<nat>, all: set<nat>)
    requires named <= all
    ensures Settings(Sweep(items, named)) - all == Settings(items) - all
  {
    if items != [] {
      var item, rest := items[0], items[1..];
      var head := if item.Known? then map[item.k := item.value] else map[];
      if item.Known? && item.k in named {
        var swept := Sweep(rest, named - {item.k});
        SweepKeepsUnnamed(rest, named - {item.k}, all);
        OverrideAll(head, Settings(rest), Settings(swept), all);
      } else {
        var swept := Sweep(rest, named);
        SweepKeepsUnnamed(rest, named, all);
        assert ([item] + swept)[1..] == swept;
        OverrideAll(head, Settings(swept), Settings(rest), all);
      }
    }
  }

  /** The command-line merge keeps its meaning, the old options without the named ones,
      overridden by the new ones, if and only if no option that is named, but not given anew, was
      given more than once: only the first of repeated options is taken out. */
  lemma MeaningIff(options: seq<CommandOption>, running: seq<string>, added: seq<string>, removals: seq<string>)
    requires DisjointNames(options) && Parses(options, NamedOptions(options, added, removals), running)
    ensures var before, new_ := Items(options, Body(running)), Settings(Items(options, Body(added)));
            var named := NamedOptions(options, added, removals);
            Settings(Items(options, Joined(options, running, added, removals))) == (Settings(before) - named) + new_
            <==> forall k | k in named - new_.Keys :: Count(before, k) <= 1
  {
    var before, added' := Items(options, Body(running)), Items(options, Body(added));
    var named := NamedOptions(options, added, removals);
    var kept := Sweep(before, named);
    JoinedItems(options, running, added, removals);
    SettingsAppend(kept, added');
    SweepKeepsUnnamed(before, named, named);
    forall k: nat ensures k in Settings(kept) && k in named <==> k in named && Count(before, k) > 1 {
      SweepCounts(before, named, k);
      SetIffCounted(kept, k);
    }
    SettingsOverride(Settings(kept), Settings(before), named, Settings(added'));
    assert forall k | k in named :: k in Settings(kept) <==> Count(before, k) > 1;
  }

  lemma SettingsOverride(kept: map<nat, Option<string>>, before: map<nat, Option<string>>, named: set<nat>,
                         added: map<nat, Option<string>>)
    requires kept - named == before - named
    ensures kept + added == (before - named) + added <==> forall k | k in named - added.Keys :: k !in kept
  {
    var right := (before - named) + added;
    if forall k | k in named - added.Keys :: k !in kept {
      forall k ensures k in kept + added <==> k in right {
        assert k in kept - named <==> k in before - named;
      }
      forall k | k in kept + added ensures (kept + added)[k] == right[k] {
        if k !in added {
          assert k in kept - named && (kept - named)[k] == (before - named)[k];
        }
      }
    } else {
      var k :| k in named - added.Keys && k in kept;
      assert k in kept + added && k !in right;
    }
  }

  // ---------------------------------------------------------------------------
  // Well-formed lists
  // ---------------------------------------------------------------------------

  /** Every option at most once, complete with its value, and no value that names an option. */
  ghost predicate WellFormed(options: seq<CommandOption>, args: seq<string>) {
    Parses(options, Below(|options|), args) && forall k :: Count(Items(options, Body(args)), k) <= 1
  }

  function Below(n: nat): (all: set<nat>)
    ensures forall k: nat :: k in all <==> k < n
  {
    if n == 0 then {} else Below(n - 1) + {n - 1}
  }

  lemma NamesAnyAppend(option: CommandOption, a: seq<string>, b: seq<string>)
    ensures NamesAny(option, a + b) <==> NamesAny(option, a) || NamesAny(option, b)
  {
    if arg :| arg in a && Names(option, arg) {
      assert arg in a + b;
    }
    if arg :| arg in b && Names(option, arg) {
      assert arg in a + b;
    }
  }

  lemma {:induction false} NamedIffCounted(options: seq<CommandOption>, items: seq<Item>, k: nat)
    requires DisjointNames(options) && Good(options, Below(|options|), items)
    ensures Count(items, k) > 0 <==> k < |options| && NamesAny(options[k], Flatten(items))
  {
    if items != [] {
      var item, rest := items[0], items[1..];
      NamedIffCounted(options, rest, k);
      assert GoodItem(options, Below(|options|), item);
      if k < |options| {
        NamesAnyAppend(options[k], Written(item), Flatten(rest));
        assert Written(item)[0] == item.arg;
        assert NamesAny(options[k], Written(item)) <==> item.Known? && item.k == k;
      }
    }
  }

  /** The options that well-formed new arguments name are exactly those they set. */
  lemma NewOptionsAreNamed(options: seq<CommandOption>, added: seq<string>, removals: seq<string>, k: nat)
    requires DisjointNames(options) && Parses(options, Below(|options|), added)
    ensures k in NamedOptions(options, added, removals) <==>
            || k in Settings(Items(options, Body(added)))
            || (k < |options| && NamesAny(options[k], removals + ["--installer"]))
  {
    var items := Items(options, Body(added));
    FlattenItems(options, Body(added));
    NamedIffCounted(options, items, k);
    SetIffCounted(items, k);
    if k < |options| {
      Assoc(Body(added), removals, ["--installer"]);
      NamesAnyAppend(options[k], Body(added), removals + ["--installer"]);
    }
  }

  lemma MergeStaysGood(options: seq<CommandOption>, running: seq<string>, added: seq<string>, removals: seq<string>)
    requires DisjointNames(options) && WellFormed(options, running) && WellFormed(options, added)
    ensures var named, all := NamedOptions(options, added, removals), Below(|options|);
            var kept, added' := Sweep(Items(options, Body(running)), named), Items(options, Body(added));
            && Parses(options, named, running) && Good(options, all, kept + added')
            && Items(options, Joined(options, running, added, removals)) == kept + added'
  {
    var items, named := Items(options, Body(running)), NamedOptions(options, added, removals);
    FewerNamed(options, Below(|options|), named, items);
    JoinedItems(options, running, added, removals);
    SweepKeepsGood(options, Below(|options|), items, named);
  }

  /** Merging well-formed lists gives a well-formed list that means what it should. */
  lemma MergeIsWellFormed(options: seq<CommandOption>, running: seq<string>, added: seq<string>, removals: seq<string>,
                          executable: string)
    requires DisjointNames(options) && WellFormed(options, running) && WellFormed(options, added)
    requires !StartsWithDash(executable)
    ensures var joined := Joined(options, running, added, removals);
            && WellFormed(options, [executable] + joined)
            && Settings(Items(options, joined)) ==
               (Settings(Items(options, Body(running))) - NamedOptions(options, added, removals))
               + Settings(Items(options, Body(added)))
            && Others(Items(options, joined)) ==
               Others(Items(options, Body(running))) + Others(Items(options, Body(added)))
  {
    var before, added' := Items(options, Body(running)), Items(options, Body(added));
    var named := NamedOptions(options, added, removals);
    var kept, joined := Sweep(before, named), Joined(options, running, added, removals);
    MergeStaysGood(options, running, added, removals);
    MeaningIff(options, running, added, removals);
    assert Body([executable] + joined) == joined;
    forall k ensures Count(kept + added', k) <= 1 {
      CountAppend(kept, added', k);
      SweepCounts(before, named, k);
      SetIffCounted(added', k);
      NewOptionsAreNamed(options, added, removals, k);
    }
    OthersAppend(kept, added');
    SweepKeepsOthers(before, named);
  }

  lemma {:induction false} OthersAppend(a: seq<Item>, b: seq<Item>)
    ensures Others(a + b) == Others(a) + Others(b)
  {
    if a == [] {
      assert a + b == b;
    } else {
      assert (a + b)[1..] == a[1..] + b;
      OthersAppend(a[1..], b);
      Assoc(if a[0].Other? then [a[0]] else [], Others(a[1..]), Others(b));
    }
  }

  lemma {:induction false} SweepKeepsOthers(items: seq<Item>, named: set<nat>)
    ensures Others(Sweep(items, named)) == Others(items)
  {
    if items != [] {
      var item := items[0];
      if item.Known? && item.k in named {
        SweepKeepsOthers(items[1..], named - {item.k});
      } else {
        SweepKeepsOthers(items[1..], named);
        assert Sweep(items, named)[1..] == Sweep(items[1..], named);
      }
    }
  }

  // ---------------------------------------------------------------------------
  // Merging again
  // ---------------------------------------------------------------------------

  lemma {:induction false} SweepAppendUnnamed(a: seq<Item>, b: seq<Item>, named: set<nat>)
    requires forall k | k in named :: Count(a, k) == 0
    ensures Sweep(a + b, named) == a + Sweep(b, named)
  {
    if a == [] {
      assert a + b == b;
    } else {
      assert (a + b)[1..] == a[1..] + b;
      assert forall k | k in named :: Count(a[1..], k) == 0;
      assert a == [a[0]] + a[1..];
      SweepAppendUnnamed(a[1..], b, named);
    }
  }

  lemma {:induction false} SweepAllKnown(items: seq<Item>, named: set<nat>)
    requires forall k :: Count(items, k) <= 1 && (Count(items, k) > 0 ==> k in named)
    ensures Sweep(items, named) == Others(items)
  {
    if items != [] {
      var item, rest := items[0], items[1..];
      var left := if item.Known? then named - {item.k} else named;
      forall k ensures Count(rest, k) <= 1 && (Count(rest, k) > 0 ==> k in left) {
        assert Count(items, k) == (if item.Known? && item.k == k then 1 else 0) + Count(rest, k);
      }
      assert item.Known? ==> Count(items, item.k) > 0;
      SweepAllKnown(rest, left);
    }
  }

  lemma FlattenNothingIff(items: seq<Item>)
    ensures Flatten(items) == [] <==> items == []
  {
  }

  /** After a well-formed merge, a second one sweeps just the new options. */
  lemma SecondSweep(options: seq<CommandOption>, kept: seq<Item>, added: seq<Item>, named: set<nat>)
    requires forall k | k in named :: Count(kept, k) == 0
    requires forall k :: Count(added, k) <= 1 && (Count(added, k) > 0 ==> k in named)
    ensures Flatten(Sweep(kept + added, named)) == Flatten(kept) + Flatten(Others(added))
  {
    SweepAppendUnnamed(kept, added, named);
    SweepAllKnown(added, named);
    FlattenAppend(kept, Others(added));
  }

  /** The restarted application merges the same new arguments again: its command line stays the
      same if and only if all the new arguments are options; the others pile up. */
  lemma MergingAgainIff(options: seq<CommandOption>, running: seq<string>, added: seq<string>, removals: seq<string>,
                        again: seq<string>, executable: string)
    requires DisjointNames(options) && WellFormed(options, running) && WellFormed(options, added)
    requires !StartsWithDash(executable)
    requires NamedOptions(options, added, again) <= NamedOptions(options, added, removals)
    ensures var joined := Joined(options, running, added, removals);
            Joined(options, [executable] + joined, added, again) == joined
            <==> Others(Items(options, Body(added))) == []
  {
    var before, added' := Items(options, Body(running)), Items(options, Body(added));
    var joined, named := Joined(options, running, added, removals), NamedOptions(options, added, again);
    var kept := Sweep(before, NamedOptions(options, added, removals));
    var args := [executable] + joined;
    assert Body(args) == joined;
    assert Items(options, joined) == kept + added' && joined == Flatten(kept) + Body(added) by {
      JoinedItems(options, running, added, removals);
    }
    assert WellFormed(options, args) by {
      MergeIsWellFormed(options, running, added, removals, executable);
    }
    assert Joined(options, args, added, again) == Flatten(Sweep(kept + added', named)) + Body(added) by {
      JoinedItems(options, args, added, again);
    }
    forall k
      ensures k in named ==> Count(kept, k) == 0
      ensures Count(added', k) <= 1 && (Count(added', k) > 0 ==> k in named)
    {
      if k in named {
        SweepCounts(before, NamedOptions(options, added, removals), k);
      }
      SetIffCounted(added', k);
      NewOptionsAreNamed(options, added, again, k);
    }
    SecondSweep(options, kept, added', named);
    FlattenNothingIff(Others(added'));
    SameLengthNothing(Flatten(kept), Flatten(Others(added')), Body(added));
  }

  lemma SameLengthNothing(a: seq<string>, b: seq<string>, c: seq<string>)
    ensures a + b + c == a + c <==> b == []
  {
    assert |a + b + c| == |a| + |b| + |c|;
    assert a + [] == a;
  }

  // ---------------------------------------------------------------------------
  // Values that read like options
  // ---------------------------------------------------------------------------

  lemma {:induction false} FirstNamedWithin(option: CommandOption, a: seq<string>, b: seq<string>)
    requires FirstNamed(option, a) >= 0
    ensures FirstNamed(option, a + b) == FirstNamed(option, a)
  {
    if !Names(option, a[0]) {
      FirstNamedWithin(option, a[1..], b);
      assert (a + b)[1..] == a[1..] + b;
    }
  }

  /** What is left behind a value after the removal of an option that nothing before it names. */
  function Left(option: CommandOption, value: string, behind: seq<string>): seq<string> {
    if !Names(option, value) then [value] + WithoutOption(option, behind)
    else if option.valueName != "" && behind != [] then behind[1..]
    else behind
  }

  lemma RemovesHead(option: CommandOption, value: string, behind: seq<string>)
    requires Names(option, value)
    ensures WithoutOption(option, [value] + behind) == Left(option, value, behind)
  {
    assert FirstNamed(option, [value] + behind) == 0;
    assert RemoveAt([value] + behind, 0) == behind;
    assert behind != [] ==> RemoveAt(behind, 0) == behind[1..];
  }

  lemma RemovesBehind(option: CommandOption, before: seq<string>, value: string, behind: seq<string>)
    requires !NamesAny(option, before)
    ensures WithoutOption(option, before + ([value] + behind)) == before + Left(option, value, behind)
  {
    WithoutOptionAfter(option, before, [value] + behind);
    if Names(option, value) {
      RemovesHead(option, value, behind);
    } else {
      WithoutOptionAfter(option, [value], behind);
    }
  }

  /** What removing an option does to the value behind another option's argument, anywhere in any
      list: the value goes exactly if it names the removed option and nothing before it does; then
      it goes in place of that option, with the argument behind it if the option takes a value. */
  lemma ValueSurvivesIff(option: CommandOption, args: seq<string>, i: nat)
    requires 0 < i < |args| && !Names(option, args[i - 1])
    ensures WithoutOption(option, args) ==
            if NamesAny(option, args[..i]) then WithoutOption(option, args[..i]) + args[i..]
            else args[..i] + Left(option, args[i], args[i + 1..])
  {
    if NamesAny(option, args[..i]) {
      RemovesWithin(option, args[..i], args[i..]);
      assert args == args[..i] + args[i..];
    } else {
      RemovesBehind(option, args[..i], args[i], args[i + 1..]);
      assert args == args[..i] + ([args[i]] + args[i + 1..]);
    }
  }

  lemma RemovesWithin(option: CommandOption, before: seq<string>, rest: seq<string>)
    requires NamesAny(option, before) && !Names(option, before[|before| - 1])
    ensures WithoutOption(option, before + rest) == WithoutOption(option, before) + rest
  {
    FirstNamedIff(option, before);
    FirstNamedWithin(option, before, rest);
    var index := FirstNamed(option, before);
    assert index < |before| - 1;
    RemoveAtWithin(before, rest, index);
    RemoveAtWithin(RemoveAt(before, index), rest, index);
  }

  lemma RemoveAtWithin(a: seq<string>, b: seq<string>, index: nat)
    requires index < |a|
    ensures RemoveAt(a + b, index) == RemoveAt(a, index) + b
  {
  }

  /** If only one of the options to remove is named in a list at all, that one is removed. */
  lemma {:induction false} LoopRemovesOne(options: seq<CommandOption>, removed: seq<string>, args: seq<string>, k: nat,
                                          n: nat)
    requires k < |options| && n <= |options| && FirstNamed(options[k], removed) >= 0
    requires forall j | 0 <= j < |options| && j != k && FirstNamed(options[j], removed) >= 0 ::
               !NamesAny(options[j], args)
    ensures WithoutNamed(options, removed, args, n) == if k < n then WithoutOption(options[k], args) else args
  {
    if n > 0 {
      LoopRemovesOne(options, removed, args, k, n - 1);
      var rest := WithoutNamed(options, removed, args, n - 1);
      if FirstNamed(options[n - 1], removed) >= 0 && n - 1 != k {
        assert forall arg | arg in rest :: arg in args;
        FirstNamedIff(options[n - 1], rest);
      }
    }
  }

  lemma MergeRemovesOne(options: seq<CommandOption>, running: seq<string>, added: seq<string>, removals: seq<string>,
                        k: nat)
    requires var named := NamedOptions(options, added, removals);
             && k in named
             && forall j | j in named && j != k && j < |options| :: !NamesAny(options[j], Body(running))
    ensures Joined(options, running, added, removals) == WithoutOption(options[k], Body(running)) + Body(added)
  {
    var removed := ToBeRemoved(Body(added), removals);
    NamedInMembers(options, removed, |options|);
    NamedOptionsAreRemoved(options, added, removals);
    LoopRemovesOne(options, removed, Body(running), k, |options|);
  }

  /** `item` stands in the list with its value, only option `k` of those to remove is named in
      the list, and nothing before the value names it. */
  ghost predicate Exposes(options: seq<CommandOption>, named: set<nat>, args: seq<string>, k: nat, before: seq<Item>,
                          item: Item, behind: seq<string>) {
    && DisjointNames(options) && Good(options, {}, before) && GoodItem(options, {}, item)
    && item.Known? && item.value.Some? && item.k != k && k in named && k < |options|
    && args == Flatten(before) + Written(item) + behind
    && !NamesAny(options[k], Flatten(before))
    && forall j | j in named && j != k && j < |options| :: !NamesAny(options[j], args)
  }

  lemma ExposedRemoval(options: seq<CommandOption>, named: set<nat>, args: seq<string>, k: nat, before: seq<Item>,
                       item: Item, behind: seq<string>)
    requires Exposes(options, named, args, k, before, item, behind)
    ensures WithoutOption(options[k], args) ==
            Flatten(before) + ([item.arg] + Left(options[k], item.value.value, behind))
  {
    var arg, value := item.arg, item.value.value;
    WithoutOptionAfter(options[k], Flatten(before), [arg] + ([value] + behind));
    assert !Names(options[k], arg);
    RemovesBehind(options[k], [arg], value, behind);
    assert args == Flatten(before) + ([arg] + ([value] + behind));
  }

  /** The merge leaves an option its value if and only if the value does not name the removed
      option, or the next argument left is the same value again; otherwise the option gets that
      argument as its value, or none. */
  lemma ValueIsKeptIff(options: seq<CommandOption>, running: seq<string>, added: seq<string>, removals: seq<string>,
                       k: nat, before: seq<Item>, item: Item, behind: seq<string>)
    requires Exposes(options, NamedOptions(options, added, removals), Body(running), k, before, item, behind)
    ensures var joined, value := Joined(options, running, added, removals), item.value.value;
            var left := Left(options[k], value, behind) + Body(added);
            && joined == Flatten(before) + ([item.arg] + left)
            && |before| < |Items(options, joined)|
            && Items(options, joined)[|before|] == item.(value := if left == [] then None else Some(left[0]))
            && (Items(options, joined)[|before|] == item <==>
                !Names(options[k], value) || (left != [] && left[0] == value))
  {
    var left := Left(options[k], item.value.value, behind) + Body(added);
    MergeRemovesOne(options, running, added, removals, k);
    ExposedRemoval(options, NamedOptions(options, added, removals), Body(running), k, before, item, behind);
    Assoc(Flatten(before), [item.arg] + Left(options[k], item.value.value, behind), Body(added));
    Assoc([item.arg], Left(options[k], item.value.value, behind), Body(added));
    ItemsOfGood(options, before, [item.arg] + left);
    FirstTakesNext(options, item, left);
  }

  lemma FirstTakesNext(options: seq<CommandOption>, item: Item, left: seq<string>)
    requires DisjointNames(options) && GoodItem(options, {}, item) && item.Known? && item.value.Some?
    ensures Items(options, [item.arg] + left) != []
    ensures Items(options, [item.arg] + left)[0] == item.(value := if left == [] then None else Some(left[0]))
  {
    OwnerIsUnique(options, item.arg, item.k);
    var args := [item.arg] + left;
    assert Owner(options, args[0]) == item.k;
    assert left != [] ==> args[1] == left[0];
  }
}
